# To-do list core, modelled in Dafny

This project models the logic core of a small iOS to-do list app. The rest of the app is UIKit presentation. The core has four parts:

- **The list view-model** (`TaskViewModel`). It holds the loaded tasks and the shown, filtered list. It filters by a case-insensitive substring of the description and looks tasks up by index. It produces the blank "new task", whose id is the sentinel -1. A one-shot first-launch flag decides whether to seed from the remote endpoint or to load from the local store. Remote records are mapped to local tasks. Add, update and delete are guarded: a missing task is a no-op.
- **The detail editor** (`DetailViewModel`). It overwrites the edited task's texts in place. On creation, an unsaved task gets a random id and owner id from 1000...100000, and only while its id is still -1.
- **The detail screen's close rule** (`DetailViewController`). When the screen goes away, it decides whether the task is reported as created, as updated at its row, or not at all. It also forwards text edits to the editor.
- **The local store** (`TaskStore`). This is the change-set accumulator the store runs as the delegate of Core Data's fetched-results controller. "Will change" clears six lists. Section and row events are appended by kind. "Did change" hands over the lists. The store also has field copies for add and update, delete by position, and section and row counts.

Everything is modelled as pure functions over immutable values. Each stateful object becomes a datatype of its fields, and each method becomes a function from the old state to the new one. The list view-model records its calls into the store and the network as a sequence of `Call` values.

The source defines two different task types. `ToDoList/Model/TaskModel.swift` has `isCompleted` and a `Date` `createdAt`. The view-models build tasks with `completed` and a string `createdAt`. The model uses one record, `TaskModel.Task`, with these fields:

- `id`
- an optional `title`
- a `todo` description string
- `completed`
- `userId`
- an optional string `createdAt`

`todo` is not optional because `filterTasks` lower-cases it without optional chaining. `title` and `createdAt` are optional because the remote mapping sets them to nil.

Two points follow the code closely:

- The store's own update overwrites the record at a position in the fetched results. It does not look a record up by id.
- Remote records carry `todo` and `userId`.

Upsert and bulk-replace behaviour belongs to store methods outside this model. The model does not assume any.

## Model

| member | source | states |
|---|---|---|
| `Text.Contains` | ToDoList/ViewModel/TaskViewModel.swift:79 | substring test: true exactly when the needle occurs at some position of the text |
| `TaskViewModel.SelectMatching` | ToDoList/ViewModel/TaskViewModel.swift:79 | the filter keeps the original order and holds every task whose lower-cased description contains the lower-cased text, as often as the input does, and no other task |
| `TaskViewModel.FilterTasks` | ToDoList/ViewModel/TaskViewModel.swift:74-80 | never changes the loaded list or the flag; a nil or empty text, or no loaded list, shows the loaded list or `[]`; otherwise shows exactly the matching tasks in original order. The shown list is never longer than the loaded one and holds only loaded tasks |
| `TaskViewModel.MatchIgnoresCase` | ToDoList/ViewModel/TaskViewModel.swift:76-79 | tasks whose descriptions differ only in the case of ASCII letters are selected together, by search texts that differ only in case |
| `TaskViewModel.LiteralOccurrenceMatches` | ToDoList/ViewModel/TaskViewModel.swift:76-79 | a task whose description literally contains the text is found by that text written in any case |
| `TaskViewModel.EmptySearchRestores` | ToDoList/ViewModel/TaskViewModel.swift:74-80 | after any series of searches the loaded list is untouched, and searching for "" shows all of it again |
| `TaskViewModel.TaskAt` | ToDoList/ViewModel/TaskViewModel.swift:82-85 | nothing exactly when no list is shown or the index is negative or past the end; otherwise the shown task at that index |
| `TaskViewModel.FoundTaskMatches` | ToDoList/ViewModel/TaskViewModel.swift:74-85 | after a non-empty search, any task a lookup returns is a loaded task that matches the search |
| `TaskViewModel.EmptyTask` | ToDoList/ViewModel/TaskViewModel.swift:87-95 | the blank task: id and owner id -1, empty title, description and date, not completed |
| `TaskViewModel.IsFirstLaunch` | ToDoList/ViewModel/TaskViewModel.swift:102-108 | reports a first launch exactly when the flag was unset, and always leaves it set |
| `TaskViewModel.FetchTasks` | ToDoList/ViewModel/TaskViewModel.swift:66-72 | calls the remote endpoint exactly when the flag was unset, for page skip 0 and limit 30. On success it syncs the mapped records into the store and shows them. On failure it reports "Failed to fetch tasks: " with the error and keeps both lists. Otherwise it loads the store's list. The flag is always set afterwards |
| `TaskViewModel.RemoteFetchAtMostOnce` | ToDoList/ViewModel/TaskViewModel.swift:102-108 | over any series of fetches the remote endpoint is called once if the flag started unset and the series is non-empty, and never otherwise |
| `TaskViewModel.NoRemoteFetchAfterLaunch` | ToDoList/ViewModel/TaskViewModel.swift:102-108 | once the flag is set, no fetch reaches the remote endpoint |
| `TaskViewModel.FromRemote` | ToDoList/ViewModel/TaskViewModel.swift:132-141 | a task made from a remote record has no title and no creation date |
| `TaskViewModel.FromRemoteAll` | ToDoList/ViewModel/TaskViewModel.swift:130-141 | the mapping keeps the number of records, and no mapped task has a title or a creation date |
| `TaskViewModel.RemoteRoundTrip` | ToDoList/ViewModel/TaskViewModel.swift:132-141 | mapping keeps id, description, completion and owner of each record, position by position, and every remote record appears in the mapped list |
| `TaskViewModel.Load` | ToDoList/ViewModel/TaskViewModel.swift:122-128 | both lists become the store's list; the flag is kept; one store fetch |
| `TaskViewModel.AddTask` | ToDoList/ViewModel/TaskViewModel.swift:53-57 | a nil task changes nothing and calls nothing; otherwise one store insertion of that task, then a reload |
| `TaskViewModel.UpdateTask` | ToDoList/ViewModel/TaskViewModel.swift:47-51 | a nil task changes nothing and calls nothing; otherwise one store update keyed by the task's own id, then a reload |
| `TaskViewModel.UpdateIgnoresIndex` | ToDoList/ViewModel/TaskViewModel.swift:47-51 | the index path passed to update has no effect |
| `TaskViewModel.DeleteTask` | ToDoList/ViewModel/TaskViewModel.swift:59-64 | with no shown list, nothing happens; otherwise one store delete keyed by the id of the shown task at that row, then a reload; the row must be in range |
| `TaskViewModel.DeleteKeyIsLookedUpTask` | ToDoList/ViewModel/TaskViewModel.swift:59-64 | the delete key is the id that a lookup at the same row returns, and the section of the index path plays no part |
| `TaskViewModel.DeleteAll` | ToDoList/ViewModel/TaskViewModel.swift:97-99 | one store "delete all"; no reload; the view-model's state is unchanged |
| `TaskViewModel.NumberOfTasks` | ToDoList/ViewModel/TaskViewModel.swift:36-38 | the row count of the store's first section, or 0 when the fetch failed and left no section list |
| `TaskViewModel.EmptyStoreTrapsNumberOfTasks` | ToDoList/ViewModel/TaskViewModel.swift:36-38 | the empty store has a section list with no sections; `numberOfTasks` as written reads its first section, which does not exist, and `?? 0` does not catch that |
| `TaskViewModel.FirstSectionUndercounts` | ToDoList/ViewModel/TaskViewModel.swift:36-38 | with the store sectioned by description (ToDoList/CoreData/TaskStore.swift:45), two tasks with different descriptions form two sections, and `numberOfTasks` as written reports 1 |
| `TaskViewModel.TotalRows` | ToDoList/Controller/TaskListViewController.swift:165-172 | the row count over all sections: 0 exactly when every section is empty, never below any one section's count, and that section's count when there is only one |
| `TaskViewModel.TotalRowsCountsRows` | ToDoList/Controller/TaskListViewController.swift:165-193 | the total row count equals the length of the list of all rows in display order |
| `TaskViewModel.CountTasks` | ToDoList/Controller/TaskListViewController.swift:136-193 | the intended count, the number of tasks the list screen shows as rows and as its task count: the length of all rows across the description sections; 0 exactly when the fetch failed or no section has a row; equal to `NumberOfTasks` when there is one section |
| `TaskViewModel.EmptyStoreCountsZero` | ToDoListTests/TaskViewModelTests.swift:14-24 | the intended count is 0 on the empty store, as the view-model test expects after deleting all tasks, and when the fetch failed; two tasks in two sections count 2 |
| `TaskViewModel.MutationsStayLocal` | ToDoList/ViewModel/TaskViewModel.swift:47-64 | add, update and delete never change the first-launch flag and never call the remote endpoint |
| `DetailViewModel.UpdateTask` | ToDoList/ViewModel/DetailViewModel.swift:15-19 | title, description and date become the arguments; id, owner id and completion are unchanged |
| `DetailViewModel.CreateTask` | ToDoList/ViewModel/DetailViewModel.swift:21-30 | an unsaved task gets an id and owner id in 1000...100000; a saved one keeps both. Title, description and date come from the arguments and completion is kept. The result equals the editor's new task and never has id -1 |
| `DetailViewModel.CreateIsIdempotent` | ToDoList/ViewModel/DetailViewModel.swift:21-30 | a second creation, with any draws and texts, keeps the id and owner id of the first |
| `DetailViewModel.UpdateThenCreateOnSavedIsUpdate` | ToDoList/ViewModel/DetailViewModel.swift:15-30 | for a task with an id, update followed by create with the same texts has the effect of the update alone |
| `DetailViewController.OnDisappear` | ToDoList/Controller/TaskDetailViewController.swift:55-72 | at most one callback. Nothing is reported when there is no editor, when the title or the description is "" (a nil title passes), or when in edit mode without a row. In create mode it reports the creation of the current task. In edit mode it reports the update of the current task at the stored row |
| `DetailViewController.ForwardUpdate` | ToDoList/Controller/TaskDetailViewController.swift:81-83 | passes the texts unchanged to the editor's update; without an editor nothing changes |
| `DetailViewController.ForwardCreate` | ToDoList/Controller/TaskDetailViewController.swift:77-79 | passes the texts unchanged to the editor's create; without an editor nothing changes |
| `DetailViewController.TextChanged` | ToDoList/View/Detail/TaskDetailView.swift:133-145 | after a text change the task holds exactly the typed title, description and date, keeps its completion, and has a non-sentinel id: the drawn ids if it was unsaved, its own ids otherwise. Mode and row are kept; without an editor nothing changes |
| `DetailViewController.TextChangeOnSavedTaskIsUpdate` | ToDoList/View/Detail/TaskDetailView.swift:133-145 | for a task with an id, a text change (update then create) equals the update alone, whatever is drawn |
| `DetailViewController.CreateFlow` | ToDoList/Controller/TaskListViewController.swift:264-270 | a create screen on the blank task, as the list opens it, with text changes as the detail view sends them (ToDoList/View/Detail/TaskDetailView.swift:133-145), reports nothing if closed untouched. After a non-empty title and description it reports one creation, with the drawn ids and the typed texts |
| `DetailViewController.EditFlowReportsUpdate` | ToDoListTests/TaskDetailViewControllerTests.swift:33-44 | the test's edit updates title and description and is reported as an update at row (0, 0) |
| `DetailViewController.CreateModeOnSavedTaskReportsCreation` | ToDoListTests/TaskDetailViewControllerTests.swift:47-55 | the test's create-mode screen reports one creation of the task with its id 1 kept and the new texts |
| `TaskStore.Handle` | ToDoList/CoreData/TaskStore.swift:103-163 | "will change" empties all six lists. "Did change" hands over the lists and keeps them. Any other event hands over nothing, only extends the lists, and adds at most one entry in all |
| `TaskStore.HandleAppendsPicked` | ToDoList/CoreData/TaskStore.swift:112-151 | a section or row event appends exactly what the list-by-list reference definition picks from it. Section insert and delete go to their lists. A row delete or update records the old path, and an insert records the new path. A move records the pair only when both paths exist |
| `TaskStore.ContentAccumulates` | ToDoList/CoreData/TaskStore.swift:112-151 | a stream of section and row events appends, in arrival order, the reference update of that stream and hands over nothing |
| `TaskStore.BatchEmitsExpected` | ToDoList/CoreData/TaskStore.swift:103-163 | a complete batch ("will change", events, "did change") hands over exactly one update, the reference update of its events, whatever was accumulated before |
| `TaskStore.DidChangeRepeats` | ToDoList/CoreData/TaskStore.swift:153-163 | "did change" does not clear: two in a row hand over the same update twice |
| `TaskStore.NumberOfSections` | ToDoList/CoreData/TaskStore.swift:92-94 | 0 when the fetch failed and left no section list, else the number of sections |
| `TaskStore.NumberOfItemsInSection` | ToDoList/CoreData/TaskStore.swift:96-98 | 0 when the fetch failed and left no section list, else the row count of that section |
| `TaskStore.AddRecord` | ToDoList/CoreData/TaskStore.swift:65-74 | one new record carrying all six fields of the task, id included; the existing records are unchanged |
| `TaskStore.AddThenDeleteRestores` | ToDoList/CoreData/TaskStore.swift:65-90 | deleting the record just added, at a path that lists it, gives back the earlier records; adding puts exactly one more copy of the task into the records |
| `TaskStore.Overwrite` | ToDoList/CoreData/TaskStore.swift:76-84 | the record keeps its id; title, description, date, completion and owner come from the task |
| `TaskStore.OverwriteLastWins` | ToDoList/CoreData/TaskStore.swift:76-84 | of two overwrites the last one wins. Overwriting is idempotent. Overwriting with a task of the same id yields that task |
| `TaskStore.UpdateRecordAt` | ToDoList/CoreData/TaskStore.swift:76-84 | the record at the index path is overwritten, and every other record and the count are unchanged |
| `TaskStore.UpdateKeepsIds` | ToDoList/CoreData/TaskStore.swift:76-84 | updating at a position never changes any record's id |
| `TaskStore.DeleteRecordAt` | ToDoList/CoreData/TaskStore.swift:86-90 | removes exactly the record at the index path; the others keep their order |

## Left out

- Network and decoding are not modelled: the URL session fetch, error wrapping and JSON decoding in `ToDoList/Network/APIClient.swift`, and the `Codable` page type. The remote result is a parameter of `FetchTasks`: either the decoded `todos` or an error description.
- Core Data is not modelled:
  - the fetched-results controller's sorting and sectioning by description;
  - saving, whose errors `try?` swallows;
  - the `CoreDataManager` singleton.
  
  The fetched results are a sectioned list of positions into the context's records. The delegate calls are a stream of events.
- Some store methods the list view-model calls are not in the store source shown: `addTask(task:)`, `updateTask(updatedTask:at:)`, `deleteTask(at:)` by id, `fetchTasks()`, `syncWithAPI` and `deleteAllTasks`. They are recorded as `Call` values with no semantics of their own. The list `fetchTasks()` would return is passed in as a parameter.
- Dispatch to the main and background queues is modelled as synchronous. So are the `[weak self]` captures, which drop the work once the view-model is gone.
- The `didSet` notifications are not modelled. These are `didUpdateTasks` and the "list loaded" closure, which fire on every assignment of either list. Whether the store's delegate is present is not modelled either: `TaskStore.Handle` models what the store hands over.
- The first-launch flag's storage in `UserDefaults` is a plain boolean field.
- Text.Lower: lower-cases ASCII letters only; the source's `lowercased()` is Unicode-aware.
- Text.Contains: compares character by character (code point by code point). Swift's `String.contains` compares by canonical equivalence over grapheme clusters, so precomposed and decomposed accents differ here and agree there, and a base letter is found inside a decomposed accented one here but not there.
- TaskViewModel.NumberOfTasks: requires a section list with a first section, or none. The empty store, a section list with no sections, is excluded because the code as written traps there (see Findings); `CountTasks` states the intended count, 0 on the empty store and the total over all sections otherwise.
- DetailViewController.OnDisappear: states the callbacks the controller sends. Its delegate is a weak optional, and with no delegate set the callbacks are dropped; delegate presence is not modelled.
- The random draws are parameters, required to lie in 1000...100000. The source does not guarantee that a drawn id is unique. The model does not address collisions either.
- `Int64(…)` conversions in the store are the identity on the 64-bit platforms the app runs on and are not modelled.
- The out-of-range traps are preconditions, not modelled errors: `DeleteTask`'s row, `NumberOfItemsInSection`'s section, and the index path in update and delete at a position.
- Not modelled: all UIKit presentation, including tables, cells, skeletons, context menus, layout, fonts and localized strings. This also covers the list screen's batch updates and toggles, and the text views' editing behaviour.

## Findings

| source | as written | input that shows it | evidently intended | confidence | as-written member | corrected member |
|---|---|---|---|---|---|---|
| ToDoList/CoreData/TaskStore.swift:96-98 via ToDoList/ViewModel/TaskViewModel.swift:36-38 | `sections?[0].numberOfObjects ?? 0`: the `?? 0` only covers a missing section list | the empty store, after `deleteAll`: a section list with no sections, so `[0]` is out of range | 0 tasks, as ToDoListTests/TaskViewModelTests.swift:22-24 expects | not executed | `TaskViewModel.EmptyStoreTrapsNumberOfTasks` | `TaskViewModel.CountTasks` |
| ToDoList/ViewModel/TaskViewModel.swift:36-38 with ToDoList/CoreData/TaskStore.swift:45 | `numberOfTasks` reads the first section only, while the store makes one section per distinct description | two tasks with the descriptions "a" and "b": two sections of one row each, so the count is 1 | the count of all tasks, which the list screen uses for its single table section and its task counter (ToDoList/Controller/TaskListViewController.swift:165-193) | not executed | `TaskViewModel.FirstSectionUndercounts` | `TaskViewModel.CountTasks` |
