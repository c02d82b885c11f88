/** A tracked stretch of time in one application window
    (src/types/index.ts). Times are millisecond time stamps; the duration is
    in whole seconds. The optional category fields are not kept. */
module Activities {
  import opened Text

  datatype Activity = Activity(
    id: string,
    applicationName: string,
    windowTitle: string,
    startTime: int,
    endTime: int,
    duration: int,
    projectId: Option<string>,
    taskId: Option<string>,
    subtaskId: Option<string>,
    isCoded: bool,
    isIdle: bool)

  function ActivityId(a: Activity): string { a.id }
}
