/** The list view-model: the working list and its filtered view, bounds-checked
    lookup, the first-launch decision between seeding from the remote endpoint
    and loading from the store, and the guarded mutation entry points.

    The store methods this view-model calls are not part of this model; each
    call is recorded as a `Call` value, and the list the store's `fetchTasks()`
    returns at that moment is passed in as `stored`. Dispatch hops to the main
    or a background queue are modelled as synchronous. */
module TaskViewModel {
  import opened TaskModel
  import Text
  import TaskStore

  /** The view-model's fields: the last loaded list, the list shown (the
      filtered view), and the persisted first-launch flag (`true` once the app
      has launched before). */
  datatype ListState = ListState(allTasks: Option<seq<Task>>, tasks: Option<seq<Task>>, launchFlag: bool)

  /** Calls the view-model makes into its collaborators, in order. */
  datatype Call =
    | StoreAdd(task: Task)
    | StoreUpdate(task: Task, key: int)
    | StoreDelete(key: int)
    | StoreDeleteAll
    | StoreSync(synced: seq<Task>)
    | StoreFetchAll
    | ApiFetch(skip: int, limit: int)
    | LoadFailed(message: string)

  /** The state after an operation and the calls it made. */
  datatype Outcome = Outcome(state: ListState, calls: seq<Call>)

  /** What the remote fetch delivered: the decoded page's `todos`, or an
      error with its description. */
  datatype ApiResult = Fetched(todos: seq<RemoteTask>) | FetchFailed(description: string)

  /** The fixed page the first launch asks for. */
  const PageSkip: int := 0
  const PageLimit: int := 30

  const LoadErrorPrefix: string := "Failed to fetch tasks: "

  // ---------------------------------------------------------------------------
  // Filtering

  /** `a` is `b` with some elements left out, the rest in their original order. */
  ghost predicate IsSubsequence<T>(a: seq<T>, b: seq<T>)
    decreases |b|
  {
    if a == [] then true
    else if b == [] then false
    else (a[0] == b[0] && IsSubsequence(a[1..], b[1..])) || IsSubsequence(a, b[1..])
  }

  /** Every element of a subsequence comes from the sequence it was taken from. */
  lemma {:induction false} SubsequenceMembers<T>(a: seq<T>, b: seq<T>)
    requires IsSubsequence(a, b)
    ensures |a| <= |b|
    ensures forall x :: x in a ==> x in b
    decreases |b|
  {
    if a != [] {
      if a[0] == b[0] && IsSubsequence(a[1..], b[1..]) {
        SubsequenceMembers(a[1..], b[1..]);
        forall x | x in a
          ensures x in b
        {
          if x != a[0] {
            assert x in a[1..];
          }
        }
      } else {
        SubsequenceMembers(a, b[1..]);
      }
    }
  }

  /** A task matches a search text when its lower-cased description contains
      the lower-cased text. */
  predicate Matches(t: Task, text: string) {
    Text.Contains(Text.Lower(t.todo), Text.Lower(text))
  }

  /** `allTasks.filter { … }`: the matching tasks in their original order.
      The contract pins the result down completely: an order-preserving
      selection that holds every matching task as often as the input does,
      and nothing else. */
  function SelectMatching(ts: seq<Task>, text: string): (r: seq<Task>)
    ensures IsSubsequence(r, ts)
    ensures forall t :: multiset(r)[t] == if Matches(t, text) then multiset(ts)[t] else 0
  {
    if ts == [] then []
    else
      var rest := SelectMatching(ts[1..], text);
      assert ts == [ts[0]] + ts[1..];
      if Matches(ts[0], text) then
        var r := [ts[0]] + rest;
        assert r[1..] == rest;
        r
      else
        assert rest == [] || IsSubsequence(rest, ts[1..]);
        rest
  }

  /** `filterTasks(with:)`. */
  function FilterTasks(s: ListState, searchText: Option<string>): (r: ListState)
    ensures r.allTasks == s.allTasks && r.launchFlag == s.launchFlag
    ensures searchText.None? || searchText.value == [] || s.allTasks.None? ==>
      r.tasks == Some(Coalesce(s.allTasks, []))
    ensures searchText.Some? && searchText.value != [] && s.allTasks.Some? ==>
      && r.tasks.Some?
      && IsSubsequence(r.tasks.value, s.allTasks.value)
      && forall t :: multiset(r.tasks.value)[t] ==
           if Matches(t, searchText.value) then multiset(s.allTasks.value)[t] else 0
    ensures r.tasks.Some? && |r.tasks.value| <= |Coalesce(s.allTasks, [])|
    ensures forall t :: t in r.tasks.value ==> t in Coalesce(s.allTasks, [])
  {
    if searchText.None? || searchText.value == [] || s.allTasks.None? then
      s.(tasks := Some(Coalesce(s.allTasks, [])))
    else
      var shown := SelectMatching(s.allTasks.value, searchText.value);
      SubsequenceMembers(shown, s.allTasks.value);
      s.(tasks := Some(shown))
  }

  /** Two strings that differ at most in the case of ASCII letters. */
  predicate SameUpToCase(a: string, b: string) {
    |a| == |b| && forall i :: 0 <= i < |a| ==> Text.LowerChar(a[i]) == Text.LowerChar(b[i])
  }

  /** The search ignores case on both sides: tasks whose descriptions differ
      only in case are selected together, by texts that differ only in case. */
  lemma MatchIgnoresCase(t: Task, u: Task, text: string, other: string)
    requires SameUpToCase(t.todo, u.todo) && SameUpToCase(text, other)
    ensures Matches(t, text) == Matches(u, other)
  {
    assert Text.Lower(t.todo) == Text.Lower(u.todo);
    assert Text.Lower(text) == Text.Lower(other);
  }

  /** A task whose description contains the text literally is found by the
      text in any case. */
  lemma LiteralOccurrenceMatches(t: Task, text: string, other: string)
    requires Text.Contains(t.todo, text) && SameUpToCase(text, other)
    ensures Matches(t, other)
  {
    Text.LowerKeepsOccurrence(text, t.todo);
    assert Text.Lower(text) == Text.Lower(other);
  }

  /** Applies the search texts one after the other. */
  function FilterAll(s: ListState, texts: seq<Option<string>>): ListState
    decreases |texts|
  {
    if texts == [] then s else FilterAll(FilterTasks(s, texts[0]), texts[1..])
  }

  /** However many searches ran before, filtering with the empty text shows the
      full loaded list again, and no search touched the loaded list. */
  lemma {:induction false} EmptySearchRestores(s: ListState, texts: seq<Option<string>>)
    ensures FilterAll(s, texts).allTasks == s.allTasks
    ensures FilterTasks(FilterAll(s, texts), Some("")).tasks == Some(Coalesce(s.allTasks, []))
    decreases |texts|
  {
    if texts != [] {
      EmptySearchRestores(FilterTasks(s, texts[0]), texts[1..]);
    }
  }

  // ---------------------------------------------------------------------------
  // Lookup and the empty task

  /** `task(at:)`: the shown task at `index`, or nothing when the list is
      unloaded or the index is out of range. */
  function TaskAt(s: ListState, index: int): (r: Option<Task>)
    ensures r.None? <==> s.tasks.None? || index < 0 || index >= |s.tasks.value|
    ensures r.Some? ==> r.value == s.tasks.value[index]
  {
    if s.tasks.None? || index < 0 || index >= |s.tasks.value| then None
    else Some(s.tasks.value[index])
  }

  /** After a non-empty search, whatever a lookup finds is a loaded task that
      matches the search. */
  lemma FoundTaskMatches(s: ListState, text: string, index: int)
    requires s.allTasks.Some? && text != []
    requires TaskAt(FilterTasks(s, Some(text)), index).Some?
    ensures TaskAt(FilterTasks(s, Some(text)), index).value in s.allTasks.value
    ensures Matches(TaskAt(FilterTasks(s, Some(text)), index).value, text)
  {
    var shown := FilterTasks(s, Some(text)).tasks.value;
    var t := shown[index];
    assert multiset(shown)[t] > 0;
  }

  /** `getEmptyTask()`: the blank task the create flow starts from. */
  function EmptyTask(): (t: Task)
    ensures t.IsUnsaved() && t.userId == SentinelId
    ensures t.title == Some("") && t.todo == "" && t.createdAt == Some("")
    ensures !t.completed
  {
    Task(SentinelId, Some(""), "", false, SentinelId, Some(""))
  }

  // ---------------------------------------------------------------------------
  // Loading

  /** `isFirstLaunch()`: reports whether the flag was still unset, and sets it.
      The result is the pair (first launch?, new flag). */
  function IsFirstLaunch(flag: bool): (r: (bool, bool))
    ensures r.1
    ensures r.0 <==> !flag
  {
    if !flag then (true, true) else (false, flag)
  }

  /** The local task a remote record becomes: no title and no creation date. */
  function FromRemote(rt: RemoteTask): (t: Task)
    ensures t.title.None? && t.createdAt.None?
  {
    Task(rt.id, None, rt.todo, rt.completed, rt.userId, None)
  }

  /** The remote fields of a task; the inverse of `FromRemote`. */
  function ToRemote(t: Task): RemoteTask {
    RemoteTask(t.id, t.todo, t.completed, t.userId)
  }

  /** The mapping in `processFetchedTasks`, element by element. */
  function FromRemoteAll(rts: seq<RemoteTask>): (ts: seq<Task>)
    ensures |ts| == |rts|
    ensures forall i :: 0 <= i < |ts| ==> ts[i].title.None? && ts[i].createdAt.None?
  {
    seq(|rts|, i requires 0 <= i < |rts| => FromRemote(rts[i]))
  }

  /** The mapping loses nothing the remote record carried: id, description,
      completion and owner come back unchanged, record by record and in order. */
  lemma RemoteRoundTrip(rts: seq<RemoteTask>)
    ensures forall i :: 0 <= i < |rts| ==> ToRemote(FromRemoteAll(rts)[i]) == rts[i]
    ensures forall rt :: rt in rts ==> FromRemote(rt) in FromRemoteAll(rts)
  {
    forall rt | rt in rts
      ensures FromRemote(rt) in FromRemoteAll(rts)
    {
      var i :| 0 <= i < |rts| && rts[i] == rt;
      assert FromRemoteAll(rts)[i] == FromRemote(rt);
    }
  }

  /** `loadTasksFromCoreData()`: both lists become what the store returns. */
  function Load(s: ListState, stored: seq<Task>): (r: Outcome)
    ensures r.state.allTasks == Some(stored) && r.state.tasks == Some(stored)
    ensures r.state.launchFlag == s.launchFlag
    ensures r.calls == [StoreFetchAll]
  {
    Outcome(s.(allTasks := Some(stored), tasks := Some(stored)), [StoreFetchAll])
  }

  /** `fetchTasks()`: the first launch asks the remote endpoint for the fixed
      page and, on success, syncs the mapped records into the store and shows
      them; on failure it reports the error and leaves both lists alone. Every
      later launch loads from the store. */
  function FetchTasks(s: ListState, api: ApiResult, stored: seq<Task>): (r: Outcome)
    ensures r.state.launchFlag
    ensures ApiFetch(PageSkip, PageLimit) in r.calls <==> !s.launchFlag
    ensures s.launchFlag ==> r == Outcome(s.(allTasks := Some(stored), tasks := Some(stored)), [StoreFetchAll])
    ensures !s.launchFlag && api.Fetched? ==>
      var mapped := FromRemoteAll(api.todos);
      && r.state.allTasks == Some(mapped) && r.state.tasks == Some(mapped)
      && r.calls == [ApiFetch(PageSkip, PageLimit), StoreSync(mapped)]
    ensures !s.launchFlag && api.FetchFailed? ==>
      && r.state.allTasks == s.allTasks && r.state.tasks == s.tasks
      && r.calls == [ApiFetch(PageSkip, PageLimit), LoadFailed(LoadErrorPrefix + api.description)]
  {
    var (first, flag) := IsFirstLaunch(s.launchFlag);
    var s1 := s.(launchFlag := flag);
    if first then
      match api
      case Fetched(todos) =>
        var mapped := FromRemoteAll(todos);
        Outcome(s1.(allTasks := Some(mapped), tasks := Some(mapped)),
                [ApiFetch(PageSkip, PageLimit), StoreSync(mapped)])
      case FetchFailed(description) =>
        Outcome(s1, [ApiFetch(PageSkip, PageLimit), LoadFailed(LoadErrorPrefix + description)])
    else
      Load(s1, stored)
  }

  /** What one call of `fetchTasks()` gets to see: the remote result it would
      receive and the store's contents. */
  datatype Round = Round(api: ApiResult, stored: seq<Task>)

  /** How many of a series of `fetchTasks()` calls go to the remote endpoint. */
  function RemoteFetches(s: ListState, rounds: seq<Round>): nat
    decreases |rounds|
  {
    if rounds == [] then 0
    else
      var o := FetchTasks(s, rounds[0].api, rounds[0].stored);
      (if ApiFetch(PageSkip, PageLimit) in o.calls then 1 else 0) + RemoteFetches(o.state, rounds[1..])
  }

  /** Once the flag is set, no call reaches the remote endpoint. */
  lemma {:induction false} NoRemoteFetchAfterLaunch(s: ListState, rounds: seq<Round>)
    requires s.launchFlag
    ensures RemoteFetches(s, rounds) == 0
    decreases |rounds|
  {
    if rounds != [] {
      NoRemoteFetchAfterLaunch(FetchTasks(s, rounds[0].api, rounds[0].stored).state, rounds[1..]);
    }
  }

  /** The remote seed happens at most once: exactly once over any non-empty
      series of calls that starts with the flag unset, never otherwise. */
  lemma {:induction false} RemoteFetchAtMostOnce(s: ListState, rounds: seq<Round>)
    ensures RemoteFetches(s, rounds) == if !s.launchFlag && rounds != [] then 1 else 0
  {
    if rounds != [] {
      NoRemoteFetchAfterLaunch(FetchTasks(s, rounds[0].api, rounds[0].stored).state, rounds[1..]);
    }
  }

  // ---------------------------------------------------------------------------
  // Mutations

  /** `addTask(task:)`: a missing task is ignored; otherwise the store inserts
      it and the lists are reloaded. */
  function AddTask(s: ListState, task: Option<Task>, stored: seq<Task>): (r: Outcome)
    ensures task.None? ==> r == Outcome(s, [])
    ensures task.Some? ==>
      && r.calls == [StoreAdd(task.value), StoreFetchAll]
      && r.state == ListState(Some(stored), Some(stored), s.launchFlag)
  {
    match task
    case None => Outcome(s, [])
    case Some(t) =>
      var loaded := Load(s, stored);
      Outcome(loaded.state, [StoreAdd(t)] + loaded.calls)
  }

  /** `updateTask(at:updatedTask:)`: a missing task is ignored; otherwise the
      store updates the record keyed by the task's own id and the lists are
      reloaded. The index path plays no part. */
  function UpdateTask(s: ListState, index: IndexPath, updated: Option<Task>, stored: seq<Task>): (r: Outcome)
    ensures updated.None? ==> r == Outcome(s, [])
    ensures updated.Some? ==>
      && r.calls == [StoreUpdate(updated.value, updated.value.id), StoreFetchAll]
      && r.state == ListState(Some(stored), Some(stored), s.launchFlag)
  {
    match updated
    case None => Outcome(s, [])
    case Some(t) =>
      var loaded := Load(s, stored);
      Outcome(loaded.state, [StoreUpdate(t, t.id)] + loaded.calls)
  }

  /** The index path passed to `UpdateTask` is ignored. */
  lemma UpdateIgnoresIndex(s: ListState, i: IndexPath, j: IndexPath, updated: Option<Task>, stored: seq<Task>)
    ensures UpdateTask(s, i, updated, stored) == UpdateTask(s, j, updated, stored)
  {
  }

  /** `deleteTask(at:)`: nothing happens while no list is shown; otherwise the
      store deletes by the id of the shown task at that row and the lists are
      reloaded. A row outside the shown list traps in the original, hence the
      precondition. */
  function DeleteTask(s: ListState, index: IndexPath, stored: seq<Task>): (r: Outcome)
    requires s.tasks.None? || 0 <= index.row < |s.tasks.value|
    ensures s.tasks.None? ==> r == Outcome(s, [])
    ensures s.tasks.Some? ==>
      && r.calls == [StoreDelete(s.tasks.value[index.row].id), StoreFetchAll]
      && r.state == ListState(Some(stored), Some(stored), s.launchFlag)
  {
    match s.tasks
    case None => Outcome(s, [])
    case Some(ts) =>
      var loaded := Load(s, stored);
      Outcome(loaded.state, [StoreDelete(ts[index.row].id)] + loaded.calls)
  }

  /** The delete key is the id of the task a lookup at the same row returns,
      whatever the section of the index path. */
  lemma DeleteKeyIsLookedUpTask(s: ListState, index: IndexPath, stored: seq<Task>)
    requires s.tasks.Some? && 0 <= index.row < |s.tasks.value|
    ensures TaskAt(s, index.row).Some?
    ensures DeleteTask(s, index, stored).calls[0] == StoreDelete(TaskAt(s, index.row).value.id)
    ensures DeleteTask(s, index, stored) == DeleteTask(s, IndexPath(0, index.row), stored)
  {
  }

  /** `deleteAll()`: asks the store to delete everything and reloads nothing. */
  function DeleteAll(s: ListState): (r: Outcome)
    ensures r.state == s
    ensures r.calls == [StoreDeleteAll]
  {
    Outcome(s, [StoreDeleteAll])
  }

  /** `numberOfTasks` as written: the row count of the store's first
      section, or 0 when the fetch failed and left no section list. With a
      section list but no first section (the empty store), the original
      traps, hence the precondition. */
  function NumberOfTasks(fr: TaskStore.FetchedResults): (n: nat)
    requires fr.sections.None? || |fr.sections.value| > 0
    ensures fr.sections.None? ==> n == 0
    ensures fr.sections.Some? ==> n == |fr.sections.value[0]|
  {
    TaskStore.NumberOfItemsInSection(fr, 0)
  }

  /** The inputs on which `numberOfTasks` traps: a section list without a
      first section. */
  predicate NumberOfTasksTraps(fr: TaskStore.FetchedResults) {
    fr.sections.Some? && |fr.sections.value| == 0
  }

  /** The empty store, where every task was deleted and no description is
      left to form a section, is such an input: `?? 0` does not catch it. */
  lemma EmptyStoreTrapsNumberOfTasks()
    ensures var empty := TaskStore.FetchedResults(Some([]));
            && TaskStore.NumberOfSections(empty) == 0
            && NumberOfTasksTraps(empty)
            && !(empty.sections.None? || |empty.sections.value| > 0)
  {
  }

  /** The store sections its rows by description, one section per distinct
      description, so with two descriptions the first section holds only
      some of the tasks: `numberOfTasks` as written reports 1 for a store of
      two. */
  lemma FirstSectionUndercounts()
    ensures var two := TaskStore.FetchedResults(Some([[0], [1]]));
            && |Rows(two.sections.value)| == 2
            && NumberOfTasks(two) == 1
  {
    assert Rows([[0], [1]]) == [0, 1] by {
      assert Rows([[1]]) == [1] + Rows([]);
    }
  }

  /** Every row of every section, in display order: the tasks the list
      screen shows in its one table section. */
  function Rows(sections: seq<seq<nat>>): seq<nat> {
    if sections == [] then [] else sections[0] + Rows(sections[1..])
  }

  /** The number of rows over all sections. */
  function TotalRows(sections: seq<seq<nat>>): (n: nat)
    ensures n == 0 <==> forall i :: 0 <= i < |sections| ==> sections[i] == []
    ensures forall i :: 0 <= i < |sections| ==> |sections[i]| <= n
    ensures |sections| == 1 ==> n == |sections[0]|
  {
    if sections == [] then 0
    else
      var rest := TotalRows(sections[1..]);
      assert forall i :: 1 <= i < |sections| ==> sections[i] == sections[1..][i - 1];
      |sections[0]| + rest
  }

  /** The total is the length of the flattened row list. */
  lemma {:induction false} TotalRowsCountsRows(sections: seq<seq<nat>>)
    ensures TotalRows(sections) == |Rows(sections)|
  {
    if sections != [] {
      TotalRowsCountsRows(sections[1..]);
    }
  }

  /** `numberOfTasks` as evidently intended: the number of tasks the store
      holds across all its description sections, which is what the list
      screen shows as its rows and its task count; 0 exactly when no section
      has a row, the empty store and a failed fetch included. It agrees with
      `numberOfTasks` as written while there is a single section. */
  function CountTasks(fr: TaskStore.FetchedResults): (n: nat)
    ensures fr.sections.None? ==> n == 0
    ensures fr.sections.Some? ==> n == |Rows(fr.sections.value)|
    ensures n == 0 <==>
      fr.sections.None? || forall i :: 0 <= i < |fr.sections.value| ==> fr.sections.value[i] == []
    ensures fr.sections.Some? ==>
      forall i :: 0 <= i < |fr.sections.value| ==> |fr.sections.value[i]| <= n
    ensures TaskStore.NumberOfSections(fr) == 1 ==> n == NumberOfTasks(fr)
  {
    if fr.sections.None? then 0
    else
      TotalRowsCountsRows(fr.sections.value);
      TotalRows(fr.sections.value)
  }

  /** With every task deleted, the count is 0, as the repository's view-model
      test expects. */
  lemma EmptyStoreCountsZero()
    ensures CountTasks(TaskStore.FetchedResults(Some([]))) == 0
    ensures CountTasks(TaskStore.FetchedResults(None)) == 0
    ensures CountTasks(TaskStore.FetchedResults(Some([[0], [1]]))) == 2
  {
  }

  /** No mutation entry point touches the first-launch flag or reaches the
      remote endpoint. */
  lemma MutationsStayLocal(s: ListState, t: Option<Task>, index: IndexPath, stored: seq<Task>)
    requires s.tasks.None? || 0 <= index.row < |s.tasks.value|
    ensures AddTask(s, t, stored).state.launchFlag == s.launchFlag
    ensures UpdateTask(s, index, t, stored).state.launchFlag == s.launchFlag
    ensures DeleteTask(s, index, stored).state.launchFlag == s.launchFlag
    ensures forall k :: k in AddTask(s, t, stored).calls ==> !k.ApiFetch?
    ensures forall k :: k in UpdateTask(s, index, t, stored).calls ==> !k.ApiFetch?
    ensures forall k :: k in DeleteTask(s, index, stored).calls ==> !k.ApiFetch?
  {
  }
}
