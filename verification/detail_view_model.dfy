/** The detail editor: holds one task, overwrites its text fields, and on
    creation gives an unsaved task a random id and owner id. The random draws
    are parameters, constrained to the range the original draws from. */
module DetailViewModel {
  import opened TaskModel

  /** Bounds of `Int.random(in: 1000...100000)`, both inclusive. */
  const RandomLow: int := 1000
  const RandomHigh: int := 100000

  predicate InRandomRange(n: int) {
    RandomLow <= n <= RandomHigh
  }

  /** The editor's one field: the task being edited. */
  datatype Editor = Editor(task: Task)

  /** Only the three text fields differ between `a` and `b`. */
  predicate SameExceptText(a: Task, b: Task) {
    a.id == b.id && a.userId == b.userId && a.completed == b.completed
  }

  /** `t` carries exactly the texts given to the editor. */
  predicate HasTexts(t: Task, title: string, description: string, date: string) {
    t.title == Some(title) && t.todo == description && t.createdAt == Some(date)
  }

  /** `updateTask(title:description:date:)`: overwrites description, title and
      date in place and keeps everything else. */
  function UpdateTask(e: Editor, title: string, description: string, date: string): (r: Editor)
    ensures HasTexts(r.task, title, description, date)
    ensures SameExceptText(e.task, r.task)
  {
    Editor(e.task.(todo := description, title := Some(title), createdAt := Some(date)))
  }

  /** `createTask(title:description:date:)`: an unsaved task first receives
      the drawn id and owner id; then the texts are overwritten as in
      `UpdateTask`. The result is the editor's new task. */
  function CreateTask(e: Editor, title: string, description: string, date: string,
                      drawnId: int, drawnUserId: int): (r: (Editor, Task))
    requires InRandomRange(drawnId) && InRandomRange(drawnUserId)
    ensures r.1 == r.0.task
    ensures HasTexts(r.1, title, description, date)
    ensures r.1.completed == e.task.completed
    ensures e.task.IsUnsaved() ==> InRandomRange(r.1.id) && InRandomRange(r.1.userId)
    ensures !e.task.IsUnsaved() ==> r.1.id == e.task.id && r.1.userId == e.task.userId
    ensures !r.1.IsUnsaved()
  {
    var withId :=
      if e.task.id == SentinelId then e.task.(id := drawnId, userId := drawnUserId) else e.task;
    var t := withId.(title := Some(title), todo := description, createdAt := Some(date));
    (Editor(t), t)
  }

  /** Id assignment happens once: a second creation, with any draws and any
      texts, keeps the id and owner id the first one produced. */
  lemma CreateIsIdempotent(e: Editor, title1: string, description1: string, date1: string,
                           id1: int, user1: int,
                           title2: string, description2: string, date2: string,
                           id2: int, user2: int)
    requires InRandomRange(id1) && InRandomRange(user1)
    requires InRandomRange(id2) && InRandomRange(user2)
    ensures var first := CreateTask(e, title1, description1, date1, id1, user1);
            var second := CreateTask(first.0, title2, description2, date2, id2, user2);
            second.1.id == first.1.id && second.1.userId == first.1.userId
  {
  }

  /** Each text change runs `UpdateTask` and then `CreateTask` with the same
      texts; for a task that already has an id the pair is just `UpdateTask`. */
  lemma UpdateThenCreateOnSavedIsUpdate(e: Editor, title: string, description: string, date: string,
                                        drawnId: int, drawnUserId: int)
    requires !e.task.IsUnsaved()
    requires InRandomRange(drawnId) && InRandomRange(drawnUserId)
    ensures CreateTask(UpdateTask(e, title, description, date), title, description, date,
                       drawnId, drawnUserId).0
         == UpdateTask(e, title, description, date)
  {
  }
}
