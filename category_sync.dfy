/** The local state of the category store hook (src/hooks/useCategorySync.ts):
    the merge of stored custom entries over the built-in ones, and the
    updates that saving, deleting and toggling make to the category and rule
    lists. Remote and browser storage are not part of this model. */
module CategorySync {
  import opened Text
  import opened Lists
  import opened StableSort
  import opened Categories

  /** The category and rule lists the hook holds. */
  datatype SyncState = SyncState(categories: seq<Category>, rules: seq<CategoryRule>)

  /** What the operations report. */
  datatype Outcome = Success | Failure(error: string)

  const CANNOT_DELETE_CATEGORY := "Cannot delete default category"
  const CANNOT_DELETE_RULE := "Cannot delete default rule"
  const RULE_NOT_FOUND := "Rule not found"

  // ---------------------------------------------------------------------
  // Merging stored custom entries over the built-in ones

  /** A custom entry takes the place of an existing one but keeps its
      `isDefault` flag. */
  function KeepCategoryFlag(existing: Category, custom: Category): (r: Category)
    ensures r.id == custom.id && r.isDefault == existing.isDefault
    ensures r.(isDefault := custom.isDefault) == custom
  {
    custom.(isDefault := existing.isDefault)
  }

  function KeepRuleFlag(existing: CategoryRule, custom: CategoryRule): (r: CategoryRule)
    ensures r.id == custom.id && r.isDefault == existing.isDefault
    ensures r.(isDefault := custom.isDefault) == custom
  {
    custom.(isDefault := existing.isDefault)
  }

  lemma KeepFlagKeepsIds()
    ensures KeepsId(CategoryId, KeepCategoryFlag)
    ensures KeepsId(RuleId, KeepRuleFlag)
  {
  }

  /** Overrides and appends, then sorts by `order`, lowest first. */
  method MergeCategories(defaults: seq<Category>, custom: seq<Category>) returns (merged: seq<Category>)
    ensures merged == SortDesc(Overlay(defaults, custom, CategoryId, KeepCategoryFlag), NegatedOrder)
    ensures forall i, j :: 0 <= i < j < |merged| ==> merged[i].order <= merged[j].order
  {
    var m := UpsertEach(defaults, custom, CategoryId, KeepCategoryFlag);
    SortDescSorted(m, NegatedOrder);
    merged := SortDesc(m, NegatedOrder);
  }

  /** Overrides and appends, then sorts by priority, highest first. */
  method MergeRules(defaults: seq<CategoryRule>, custom: seq<CategoryRule>) returns (merged: seq<CategoryRule>)
    ensures merged == SortDesc(Overlay(defaults, custom, RuleId, KeepRuleFlag), Priority)
    ensures SortedDesc(merged, Priority)
  {
    var m := UpsertEach(defaults, custom, RuleId, KeepRuleFlag);
    SortDescSorted(m, Priority);
    merged := SortDesc(m, Priority);
  }

  /** With distinct ids on both sides, the merged categories are exactly the
      defaults, each overridden by the custom entry with its id (keeping its
      own `isDefault`), followed by the custom entries with new ids, in some
      order; entries with equal `order` keep that relative order. */
  lemma MergedCategoriesContents(defaults: seq<Category>, custom: seq<Category>)
    requires DistinctIds(defaults, CategoryId) && DistinctIds(custom, CategoryId)
    ensures var merged := SortDesc(Overlay(defaults, custom, CategoryId, KeepCategoryFlag), NegatedOrder);
      && multiset(merged) == multiset(PatchAll(defaults, custom, CategoryId, KeepCategoryFlag)
                                      + Added(custom, defaults, CategoryId))
      && forall k :: WithKey(merged, NegatedOrder, k)
                     == WithKey(PatchAll(defaults, custom, CategoryId, KeepCategoryFlag)
                                + Added(custom, defaults, CategoryId), NegatedOrder, k)
  {
    KeepFlagKeepsIds();
    OverlayShape(defaults, custom, CategoryId, KeepCategoryFlag);
    var m := Overlay(defaults, custom, CategoryId, KeepCategoryFlag);
    SortDescPermutes(m, NegatedOrder);
    forall k ensures WithKey(SortDesc(m, NegatedOrder), NegatedOrder, k) == WithKey(m, NegatedOrder, k) {
      SortDescStable(m, NegatedOrder, k);
    }
  }

  /** The same for the rules, by priority. */
  lemma MergedRulesContents(defaults: seq<CategoryRule>, custom: seq<CategoryRule>)
    requires DistinctIds(defaults, RuleId) && DistinctIds(custom, RuleId)
    ensures var merged := SortDesc(Overlay(defaults, custom, RuleId, KeepRuleFlag), Priority);
      && multiset(merged) == multiset(PatchAll(defaults, custom, RuleId, KeepRuleFlag) + Added(custom, defaults, RuleId))
      && forall k :: WithKey(merged, Priority, k)
                     == WithKey(PatchAll(defaults, custom, RuleId, KeepRuleFlag) + Added(custom, defaults, RuleId), Priority, k)
  {
    KeepFlagKeepsIds();
    OverlayShape(defaults, custom, RuleId, KeepRuleFlag);
    var m := Overlay(defaults, custom, RuleId, KeepRuleFlag);
    SortDescPermutes(m, Priority);
    forall k ensures WithKey(SortDesc(m, Priority), Priority, k) == WithKey(m, Priority, k) {
      SortDescStable(m, Priority, k);
    }
  }

  /** An overridden built-in entry stays built in. */
  lemma PatchedKeepsFlag(defaults: seq<Category>, custom: seq<Category>, i: int)
    requires 0 <= i < |defaults|
    ensures PatchAll(defaults, custom, CategoryId, KeepCategoryFlag)[i].isDefault == defaults[i].isDefault
    ensures PatchAll(defaults, custom, CategoryId, KeepCategoryFlag)[i].id == defaults[i].id
  {
  }

  // ---------------------------------------------------------------------
  // Saving, deleting and toggling

  /** Every category with the id is replaced, or the category is appended;
      the rules stay as they are. */
  function SaveCategory(st: SyncState, category: Category): (r: SyncState)
    ensures r.rules == st.rules
    ensures HasId(r.categories, CategoryId, category.id)
    ensures HasId(st.categories, CategoryId, category.id) ==> |r.categories| == |st.categories|
    ensures !HasId(st.categories, CategoryId, category.id) ==> r.categories == st.categories + [category]
    ensures forall i :: 0 <= i < |st.categories| && st.categories[i].id != category.id ==>
      r.categories[i] == st.categories[i]
    ensures forall i :: 0 <= i < |st.categories| && st.categories[i].id == category.id ==>
      r.categories[i] == category
  {
    var cs := SaveById(st.categories, category, CategoryId);
    assert !HasId(st.categories, CategoryId, category.id) ==> cs[|st.categories|] == category;
    st.(categories := cs)
  }

  /** Saving the same category twice is saving it once. */
  lemma SaveCategoryIdempotent(st: SyncState, category: Category)
    ensures SaveCategory(SaveCategory(st, category), category) == SaveCategory(st, category)
  {
    var once := SaveCategory(st, category);
    var twice := SaveCategory(once, category);
    assert |twice.categories| == |once.categories|;
    forall i | 0 <= i < |once.categories| ensures twice.categories[i] == once.categories[i] {
    }
  }

  /** The rule replaces every rule with its id, or is appended; then the
      rules are re-sorted by priority. */
  function SaveRule(st: SyncState, rule: CategoryRule): (r: SyncState)
    ensures r.categories == st.categories
    ensures SortedDesc(r.rules, Priority)
    ensures multiset(r.rules) == multiset(SaveById(st.rules, rule, RuleId))
    ensures HasId(r.rules, RuleId, rule.id)
  {
    var rs := SaveById(st.rules, rule, RuleId);
    SortDescSorted(rs, Priority);
    SortDescPermutes(rs, Priority);
    SaveByIdHasId(st.rules, rule, RuleId);
    PermutationHasId(rs, SortDesc(rs, Priority), RuleId, rule.id);
    st.(rules := SortDesc(rs, Priority))
  }

  /** Replacing a rule in a sorted list by one of the same priority keeps
      the list sorted, so the re-sort changes nothing. */
  lemma SaveRuleInPlace(st: SyncState, rule: CategoryRule, k: int)
    requires SortedDesc(st.rules, Priority) && DistinctIds(st.rules, RuleId)
    requires 0 <= k < |st.rules| && st.rules[k].id == rule.id && st.rules[k].priority == rule.priority
    ensures SaveRule(st, rule).rules == st.rules[k := rule]
  {
    var rs := SaveById(st.rules, rule, RuleId);
    assert rs == st.rules[k := rule];
    SortDescOfSorted(rs, Priority);
  }

  /** Every rule that named the category now names `uncategorized`. */
  function ReassignRules(rules: seq<CategoryRule>, categoryId: string): (r: seq<CategoryRule>)
    ensures |r| == |rules|
    ensures forall i :: 0 <= i < |rules| ==>
      r[i] == if rules[i].categoryId == categoryId then rules[i].(categoryId := UNCATEGORIZED) else rules[i]
  {
    seq(|rules|, i requires 0 <= i < |rules| =>
      if rules[i].categoryId == categoryId then rules[i].(categoryId := UNCATEGORIZED) else rules[i])
  }

  /** A missing or built-in category is refused; otherwise every category
      with the id goes and its rules move to `uncategorized`. */
  function DeleteCategory(st: SyncState, categoryId: string): (r: (SyncState, Outcome))
    ensures !HasId(st.categories, CategoryId, categoryId) ==> r == (st, Failure(CANNOT_DELETE_CATEGORY))
    ensures HasId(st.categories, CategoryId, categoryId) && Find(st.categories, CategoryId, categoryId).value.isDefault ==>
      r == (st, Failure(CANNOT_DELETE_CATEGORY))
    ensures r.1 == Success ==>
      && !HasId(r.0.categories, CategoryId, categoryId)
      && (forall c :: c in st.categories && c.id != categoryId <==> c in r.0.categories)
      && r.0.rules == ReassignRules(st.rules, categoryId)
      && (categoryId != UNCATEGORIZED ==> forall i :: 0 <= i < |r.0.rules| ==> r.0.rules[i].categoryId != categoryId)
    ensures r.1 == Success <==>
      HasId(st.categories, CategoryId, categoryId) && !Find(st.categories, CategoryId, categoryId).value.isDefault
  {
    match Find(st.categories, CategoryId, categoryId)
    case None => (st, Failure(CANNOT_DELETE_CATEGORY))
    case Some(c) =>
      if c.isDefault then (st, Failure(CANNOT_DELETE_CATEGORY))
      else (SyncState(RemoveId(st.categories, CategoryId, categoryId), ReassignRules(st.rules, categoryId)), Success)
  }

  /** A missing or built-in rule is refused; otherwise every rule with the id goes. */
  function DeleteRule(st: SyncState, ruleId: string): (r: (SyncState, Outcome))
    ensures r.1 == Success <==> HasId(st.rules, RuleId, ruleId) && !Find(st.rules, RuleId, ruleId).value.isDefault
    ensures r.1 != Success ==> r == (st, Failure(CANNOT_DELETE_RULE))
    ensures r.1 == Success ==>
      && r.0.categories == st.categories
      && !HasId(r.0.rules, RuleId, ruleId)
      && forall x :: x in st.rules && x.id != ruleId <==> x in r.0.rules
  {
    match Find(st.rules, RuleId, ruleId)
    case None => (st, Failure(CANNOT_DELETE_RULE))
    case Some(x) =>
      if x.isDefault then (st, Failure(CANNOT_DELETE_RULE))
      else (st.(rules := RemoveId(st.rules, RuleId, ruleId)), Success)
  }

  /** An unknown rule is an error; otherwise the first rule with the id is
      saved again with `isEnabled` flipped. */
  function ToggleRule(st: SyncState, ruleId: string): (r: (SyncState, Outcome))
    ensures !HasId(st.rules, RuleId, ruleId) <==> r == (st, Failure(RULE_NOT_FOUND))
    ensures HasId(st.rules, RuleId, ruleId) ==>
      var x := Find(st.rules, RuleId, ruleId).value;
      r == (SaveRule(st, x.(isEnabled := !x.isEnabled)), Success)
  {
    match Find(st.rules, RuleId, ruleId)
    case None => (st, Failure(RULE_NOT_FOUND))
    case Some(x) => (SaveRule(st, x.(isEnabled := !x.isEnabled)), Success)
  }

  /** With distinct ids and sorted rules, a toggle flips exactly that rule
      in place. */
  lemma ToggleRuleInPlace(st: SyncState, ruleId: string)
    requires SortedDesc(st.rules, Priority) && DistinctIds(st.rules, RuleId)
    requires HasId(st.rules, RuleId, ruleId)
    ensures var k := FindIndex(st.rules, RuleId, ruleId);
      && ToggleRule(st, ruleId).0.categories == st.categories
      && ToggleRule(st, ruleId).0.rules == st.rules[k := st.rules[k].(isEnabled := !st.rules[k].isEnabled)]
  {
    var k := FindIndex(st.rules, RuleId, ruleId);
    FindIndexUnique(st.rules, RuleId, ruleId, k);
    SaveRuleInPlace(st, st.rules[k].(isEnabled := !st.rules[k].isEnabled), k);
  }

  /** Flipping `isEnabled` changes no id and no priority. */
  lemma FlipKeepsOrder(rules: seq<CategoryRule>, k: int)
    requires SortedDesc(rules, Priority) && DistinctIds(rules, RuleId) && 0 <= k < |rules|
    ensures var rs := rules[k := rules[k].(isEnabled := !rules[k].isEnabled)];
      SortedDesc(rs, Priority) && DistinctIds(rs, RuleId) && HasId(rs, RuleId, rules[k].id)
  {
    var rs := rules[k := rules[k].(isEnabled := !rules[k].isEnabled)];
    assert forall i :: 0 <= i < |rs| ==> Priority(rs[i]) == Priority(rules[i]) && RuleId(rs[i]) == RuleId(rules[i]);
    assert RuleId(rs[k]) == rules[k].id;
  }

  /** Toggling a rule whose flag was flipped at `k` flips it back. */
  lemma ToggleFlippedBack(st: SyncState, k: int, ruleId: string)
    requires SortedDesc(st.rules, Priority) && DistinctIds(st.rules, RuleId)
    requires 0 <= k < |st.rules| && st.rules[k].id == ruleId
    ensures var x := st.rules[k];
      ToggleRule(SyncState(st.categories, st.rules[k := x.(isEnabled := !x.isEnabled)]), ruleId).0 == st
  {
    var x := st.rules[k];
    var rs1 := st.rules[k := x.(isEnabled := !x.isEnabled)];
    FlipKeepsOrder(st.rules, k);
    FindIndexUnique(rs1, RuleId, ruleId, k);
    ToggleRuleInPlace(SyncState(st.categories, rs1), ruleId);
    assert rs1[k := x] == st.rules;
  }

  /** Toggling twice gives back the state it started from. */
  lemma ToggleRuleTwice(st: SyncState, ruleId: string)
    requires SortedDesc(st.rules, Priority) && DistinctIds(st.rules, RuleId)
    requires HasId(st.rules, RuleId, ruleId)
    ensures ToggleRule(ToggleRule(st, ruleId).0, ruleId).0 == st
  {
    var k := FindIndex(st.rules, RuleId, ruleId);
    ToggleRuleInPlace(st, ruleId);
    ToggleFlippedBack(st, k, ruleId);
  }

  // ---------------------------------------------------------------------
  // What is kept in browser storage

  /** Only the entries that are not built in are stored. */
  function StoredCategories(categories: seq<Category>): (r: seq<Category>)
    ensures forall c :: c in r <==> c in categories && !c.isDefault
  {
    if categories == [] then []
    else
      var last := categories[|categories| - 1];
      StoredCategories(categories[..|categories| - 1]) + (if last.isDefault then [] else [last])
  }

  function StoredRules(rules: seq<CategoryRule>): (r: seq<CategoryRule>)
    ensures forall x :: x in r <==> x in rules && !x.isDefault
  {
    if rules == [] then []
    else
      var last := rules[|rules| - 1];
      StoredRules(rules[..|rules| - 1]) + (if last.isDefault then [] else [last])
  }

  /** Storing works entry by entry and keeps the order: it distributes over
      concatenation, and keeps a single category exactly when it is not
      built in. */
  lemma {:induction false} StoredCategoriesSplits(a: seq<Category>, b: seq<Category>)
    ensures StoredCategories(a + b) == StoredCategories(a) + StoredCategories(b)
    ensures forall x :: StoredCategories([x]) == (if x.isDefault then [] else [x])
  {
    if b == [] {
      assert a + b == a;
    } else {
      var init, last := b[..|b| - 1], b[|b| - 1];
      var keep := if last.isDefault then [] else [last];
      assert a + b == (a + init) + [last] && b == init + [last];
      StoredCategoriesSplits(a, init);
      StoredCategoriesSnoc(a + init, last);
      StoredCategoriesSnoc(init, last);
      calc {
        StoredCategories(a + b);
        StoredCategories(a + init) + keep;
        StoredCategories(a) + StoredCategories(init) + keep;
        { SeqAssoc(StoredCategories(a), StoredCategories(init), keep); }
        StoredCategories(a) + (StoredCategories(init) + keep);
      }
    }
    forall x ensures StoredCategories([x]) == (if x.isDefault then [] else [x]) {
      assert [x][..0] == [];
    }
  }

  lemma StoredCategoriesSnoc(s: seq<Category>, x: Category)
    ensures StoredCategories(s + [x]) == StoredCategories(s) + (if x.isDefault then [] else [x])
  {
    assert (s + [x])[..|s|] == s;
  }

  /** The same for the rules. */
  lemma {:induction false} StoredRulesSplits(a: seq<CategoryRule>, b: seq<CategoryRule>)
    ensures StoredRules(a + b) == StoredRules(a) + StoredRules(b)
    ensures forall x :: StoredRules([x]) == (if x.isDefault then [] else [x])
  {
    if b == [] {
      assert a + b == a;
    } else {
      var init, last := b[..|b| - 1], b[|b| - 1];
      var keep := if last.isDefault then [] else [last];
      assert a + b == (a + init) + [last] && b == init + [last];
      StoredRulesSplits(a, init);
      StoredRulesSnoc(a + init, last);
      StoredRulesSnoc(init, last);
      calc {
        StoredRules(a + b);
        StoredRules(a + init) + keep;
        StoredRules(a) + StoredRules(init) + keep;
        { SeqAssoc(StoredRules(a), StoredRules(init), keep); }
        StoredRules(a) + (StoredRules(init) + keep);
      }
    }
    forall x ensures StoredRules([x]) == (if x.isDefault then [] else [x]) {
      assert [x][..0] == [];
    }
  }

  lemma StoredRulesSnoc(s: seq<CategoryRule>, x: CategoryRule)
    ensures StoredRules(s + [x]) == StoredRules(s) + (if x.isDefault then [] else [x])
  {
    assert (s + [x])[..|s|] == s;
  }
}
