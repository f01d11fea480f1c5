/** The detail screen's controller: it forwards text edits to the editor and,
    when the screen goes away, decides whether the edited task is reported to
    the list as created, as updated at its row, or not at all. */
module DetailViewController {
  import opened TaskModel
  import DetailViewModel
  import TaskViewModel

  /** The controller's fields: the (optional) editor, the row the task was
      opened from, and whether the screen was opened to create a task. */
  datatype Controller = Controller(
    editor: Option<DetailViewModel.Editor>,
    selectedIndexPath: Option<IndexPath>,
    isCreate: bool)

  /** Callbacks the controller sends to its list delegate. */
  datatype Report = DidCreateTask(task: Task) | DidUpdateTask(task: Task, at: IndexPath)

  /** The close guard: an editor exists and its task has neither an empty
      title nor an empty description. A missing title is not empty. */
  predicate WorthReporting(c: Controller) {
    c.editor.Some? && c.editor.value.task.title != Some("") && c.editor.value.task.todo != ""
  }

  /** `viewWillDisappear`: the callbacks sent when the screen goes away. */
  function OnDisappear(c: Controller): (r: seq<Report>)
    ensures |r| <= 1
    ensures r == [] <==> !WorthReporting(c) || (!c.isCreate && c.selectedIndexPath.None?)
    ensures r != [] && c.isCreate ==> r == [DidCreateTask(c.editor.value.task)]
    ensures r != [] && !c.isCreate ==> r == [DidUpdateTask(c.editor.value.task, c.selectedIndexPath.value)]
  {
    if !WorthReporting(c) then []
    else if c.isCreate then [DidCreateTask(c.editor.value.task)]
    else if c.selectedIndexPath.None? then []
    else [DidUpdateTask(c.editor.value.task, c.selectedIndexPath.value)]
  }

  /** `didUpdateTask(title:description:date:)`: hands the texts unchanged to
      the editor's `UpdateTask`; without an editor nothing happens. */
  function ForwardUpdate(c: Controller, title: string, description: string, date: string): (r: Controller)
    ensures r.isCreate == c.isCreate && r.selectedIndexPath == c.selectedIndexPath
    ensures c.editor.None? ==> r == c
    ensures c.editor.Some? ==>
      r.editor == Some(DetailViewModel.UpdateTask(c.editor.value, title, description, date))
  {
    match c.editor
    case None => c
    case Some(e) => c.(editor := Some(DetailViewModel.UpdateTask(e, title, description, date)))
  }

  /** `didCreateTask(title:description:date:)`: hands the texts unchanged to
      the editor's `CreateTask` and drops its result; without an editor nothing
      happens. */
  function ForwardCreate(c: Controller, title: string, description: string, date: string,
                         drawnId: int, drawnUserId: int): (r: Controller)
    requires DetailViewModel.InRandomRange(drawnId) && DetailViewModel.InRandomRange(drawnUserId)
    ensures r.isCreate == c.isCreate && r.selectedIndexPath == c.selectedIndexPath
    ensures c.editor.None? ==> r == c
    ensures c.editor.Some? ==>
      r.editor == Some(DetailViewModel.CreateTask(c.editor.value, title, description, date,
                                                  drawnId, drawnUserId).0)
  {
    match c.editor
    case None => c
    case Some(e) =>
      c.(editor := Some(DetailViewModel.CreateTask(e, title, description, date, drawnId, drawnUserId).0))
  }

  /** What one text change in the detail view does: update, then create.
      Afterwards the task holds exactly the typed texts, its completion is
      untouched, and it has an id that is not the sentinel. */
  function TextChanged(c: Controller, title: string, description: string, date: string,
                       drawnId: int, drawnUserId: int): (r: Controller)
    requires DetailViewModel.InRandomRange(drawnId) && DetailViewModel.InRandomRange(drawnUserId)
    ensures r.isCreate == c.isCreate && r.selectedIndexPath == c.selectedIndexPath
    ensures c.editor.None? ==> r == c
    ensures c.editor.Some? ==>
      && r.editor.Some?
      && DetailViewModel.HasTexts(r.editor.value.task, title, description, date)
      && r.editor.value.task.completed == c.editor.value.task.completed
      && !r.editor.value.task.IsUnsaved()
      && (c.editor.value.task.IsUnsaved() ==>
            r.editor.value.task.id == drawnId && r.editor.value.task.userId == drawnUserId)
      && (!c.editor.value.task.IsUnsaved() ==>
            r.editor.value.task.id == c.editor.value.task.id
            && r.editor.value.task.userId == c.editor.value.task.userId)
  {
    ForwardCreate(ForwardUpdate(c, title, description, date), title, description, date, drawnId, drawnUserId)
  }

  /** For a task that already has an id, a text change is just the update:
      the random draws play no part. */
  lemma TextChangeOnSavedTaskIsUpdate(c: Controller, title: string, description: string, date: string,
                                      drawnId: int, drawnUserId: int)
    requires DetailViewModel.InRandomRange(drawnId) && DetailViewModel.InRandomRange(drawnUserId)
    requires c.editor.Some? && !c.editor.value.task.IsUnsaved()
    ensures TextChanged(c, title, description, date, drawnId, drawnUserId) == ForwardUpdate(c, title, description, date)
  {
    DetailViewModel.UpdateThenCreateOnSavedIsUpdate(c.editor.value, title, description, date, drawnId, drawnUserId);
  }

  /** The create flow end to end: a screen opened on the empty task reports
      nothing if closed untouched; after typing a title and a description it
      reports exactly one creation, of a task with a fresh id in the random
      range and the typed texts. */
  lemma CreateFlow(title: string, description: string, date: string, drawnId: int, drawnUserId: int)
    requires DetailViewModel.InRandomRange(drawnId) && DetailViewModel.InRandomRange(drawnUserId)
    requires title != [] && description != []
    ensures var c := Controller(Some(DetailViewModel.Editor(TaskViewModel.EmptyTask())), None, true);
            OnDisappear(c) == []
    ensures var c := Controller(Some(DetailViewModel.Editor(TaskViewModel.EmptyTask())), None, true);
            var edited := TextChanged(c, title, description, date, drawnId, drawnUserId);
            var r := OnDisappear(edited);
            && |r| == 1 && r[0].DidCreateTask?
            && r[0].task.id == drawnId && r[0].task.userId == drawnUserId
            && DetailViewModel.HasTexts(r[0].task, title, description, date)
            && !r[0].task.completed
  {
  }

  /** The edit flow of the repository's controller test: after an edit the
      update is reported at the stored row with the edited texts. */
  lemma EditFlowReportsUpdate()
    ensures var t := Task(1, Some("Test Task"), "Test Description", false, 1, Some("2025-01-01"));
            var c := Controller(Some(DetailViewModel.Editor(t)), Some(IndexPath(0, 0)), false);
            var edited := ForwardUpdate(c, "Updated Title", "Updated Description", "2025-01-02");
            && edited.editor.value.task.title == Some("Updated Title")
            && edited.editor.value.task.todo == "Updated Description"
            && OnDisappear(edited) == [DidUpdateTask(edited.editor.value.task, IndexPath(0, 0))]
  {
  }

  /** The create scenario of the repository's controller test: a screen in
      create mode on a task that already has an id reports one creation, of
      that task with its id kept and the new texts. */
  lemma CreateModeOnSavedTaskReportsCreation(drawnId: int, drawnUserId: int)
    requires DetailViewModel.InRandomRange(drawnId) && DetailViewModel.InRandomRange(drawnUserId)
    ensures var t := Task(1, Some("Test Task"), "Test Description", false, 1, Some("2025-01-01"));
            var c := Controller(Some(DetailViewModel.Editor(t)), None, true);
            var edited := ForwardCreate(c, "New Task", "New Description", "2025-01-03", drawnId, drawnUserId);
            OnDisappear(edited) == [DidCreateTask(Task(1, Some("New Task"), "New Description", false, 1, Some("2025-01-03")))]
  {
  }
}
