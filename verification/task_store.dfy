/** The local store: the change-set accumulator it runs as the delegate of the
    fetched-results controller, the field copies of its private add, update
    and delete, and its section and row counts.

    Core Data is abstract here: the context's managed objects are a sequence
    of task records, the fetched-results controller is a sectioned list of
    positions into that sequence, and its delegate calls are a stream of
    `Event`s. Sorting and sectioning by description, and saving, are not
    modelled. */
module TaskStore {
  import opened TaskModel

  // ---------------------------------------------------------------------------
  // Change sets

  /** A row that moved. */
  datatype IndexMove = IndexMove(from: IndexPath, to: IndexPath)

  /** `TaskStoreUpdate`; its six lists are also the store's six accumulators. */
  datatype StoreUpdate = StoreUpdate(
    insertedSections: seq<int>,
    deletedSections: seq<int>,
    insertedIndexes: seq<IndexPath>,
    deletedIndexes: seq<IndexPath>,
    updatedIndexes: seq<IndexPath>,
    movedIndexes: seq<IndexMove>)

  const NoChanges: StoreUpdate := StoreUpdate([], [], [], [], [], [])

  /** `NSFetchedResultsChangeType`; `Unknown` stands for any kind added later. */
  datatype ChangeType = Insert | Delete | Move | Update | Unknown

  /** The delegate calls of the fetched-results controller. */
  datatype Event =
    | WillChange
    | SectionChanged(sectionIndex: int, kind: ChangeType)
    | ObjectChanged(indexPath: Option<IndexPath>, kind: ChangeType, newIndexPath: Option<IndexPath>)
    | DidChange
  {
    /** A section or row change, as opposed to the brackets around a batch. */
    predicate IsContent() {
      SectionChanged? || ObjectChanged?
    }
  }

  /** Total number of entries in the six lists. */
  function Size(u: StoreUpdate): nat {
    |u.insertedSections| + |u.deletedSections| + |u.insertedIndexes|
      + |u.deletedIndexes| + |u.updatedIndexes| + |u.movedIndexes|
  }

  /** Every list of `b` starts with the corresponding list of `a`. */
  predicate Extends(a: StoreUpdate, b: StoreUpdate) {
    && a.insertedSections <= b.insertedSections
    && a.deletedSections <= b.deletedSections
    && a.insertedIndexes <= b.insertedIndexes
    && a.deletedIndexes <= b.deletedIndexes
    && a.updatedIndexes <= b.updatedIndexes
    && a.movedIndexes <= b.movedIndexes
  }

  /** One delegate call: the accumulators afterwards, and the update handed to
      the store's delegate, if any. "Will change" empties all six lists;
      "did change" hands over the lists as they are and keeps them; a content
      event appends to at most one list and leaves the other five as they were. */
  function Handle(acc: StoreUpdate, e: Event): (r: (StoreUpdate, Option<StoreUpdate>))
    ensures e.WillChange? ==> r == (NoChanges, None)
    ensures e.DidChange? ==> r == (acc, Some(acc))
    ensures e.IsContent() ==> r.1.None? && Extends(acc, r.0) && Size(r.0) <= Size(acc) + 1
  {
    match e
    case WillChange => (NoChanges, None)
    case SectionChanged(index, kind) =>
      (match kind
       case Insert => (acc.(insertedSections := acc.insertedSections + [index]), None)
       case Delete => (acc.(deletedSections := acc.deletedSections + [index]), None)
       case _ => (acc, None))
    case ObjectChanged(indexPath, kind, newIndexPath) =>
      (match kind
       case Delete =>
         if indexPath.Some? then (acc.(deletedIndexes := acc.deletedIndexes + [indexPath.value]), None)
         else (acc, None)
       case Insert =>
         if newIndexPath.Some? then (acc.(insertedIndexes := acc.insertedIndexes + [newIndexPath.value]), None)
         else (acc, None)
       case Update =>
         if indexPath.Some? then (acc.(updatedIndexes := acc.updatedIndexes + [indexPath.value]), None)
         else (acc, None)
       case Move =>
         if indexPath.Some? && newIndexPath.Some? then
           (acc.(movedIndexes := acc.movedIndexes + [IndexMove(indexPath.value, newIndexPath.value)]), None)
         else (acc, None)
       case Unknown => (acc, None))
    case DidChange => (acc, Some(acc))
  }

  /** The value of an optional, as a list of zero or one entries. */
  function AsSeq<T>(o: Option<T>): seq<T> {
    if o.Some? then [o.value] else []
  }

  /** Feeds a stream of delegate calls to the store: the final accumulators and
      every update handed over, in order. */
  function Process(acc: StoreUpdate, events: seq<Event>): (StoreUpdate, seq<StoreUpdate>)
    decreases |events|
  {
    if events == [] then (acc, [])
    else
      var step := Handle(acc, events[0]);
      var rest := Process(step.0, events[1..]);
      (rest.0, AsSeq(step.1) + rest.1)
  }

  // Reference definition: each list of a batch's update, described on its own.

  /** The entries `pick` finds in `events`, in arrival order. */
  function Collect<T>(events: seq<Event>, pick: Event -> Option<T>): seq<T>
    decreases |events|
  {
    if events == [] then [] else AsSeq(pick(events[0])) + Collect(events[1..], pick)
  }

  /** The index of a section insertion. */
  function InsertedSectionOf(e: Event): Option<int> {
    if e.SectionChanged? && e.kind == Insert then Some(e.sectionIndex) else None
  }

  /** The index of a section deletion. */
  function DeletedSectionOf(e: Event): Option<int> {
    if e.SectionChanged? && e.kind == Delete then Some(e.sectionIndex) else None
  }

  /** The new position of an inserted row. */
  function InsertedIndexOf(e: Event): Option<IndexPath> {
    if e.ObjectChanged? && e.kind == Insert then e.newIndexPath else None
  }

  /** The old position of a deleted row. */
  function DeletedIndexOf(e: Event): Option<IndexPath> {
    if e.ObjectChanged? && e.kind == Delete then e.indexPath else None
  }

  /** The old position of an updated row. */
  function UpdatedIndexOf(e: Event): Option<IndexPath> {
    if e.ObjectChanged? && e.kind == Update then e.indexPath else None
  }

  /** Both positions of a moved row, when both are known. */
  function MovedIndexOf(e: Event): Option<IndexMove> {
    if e.ObjectChanged? && e.kind == Move && e.indexPath.Some? && e.newIndexPath.Some? then
      Some(IndexMove(e.indexPath.value, e.newIndexPath.value))
    else None
  }

  /** The update a batch of content events should produce. */
  function Expected(events: seq<Event>): StoreUpdate {
    StoreUpdate(
      Collect(events, InsertedSectionOf),
      Collect(events, DeletedSectionOf),
      Collect(events, InsertedIndexOf),
      Collect(events, DeletedIndexOf),
      Collect(events, UpdatedIndexOf),
      Collect(events, MovedIndexOf))
  }

  /** List-by-list concatenation. */
  function Append(a: StoreUpdate, b: StoreUpdate): StoreUpdate {
    StoreUpdate(
      a.insertedSections + b.insertedSections,
      a.deletedSections + b.deletedSections,
      a.insertedIndexes + b.insertedIndexes,
      a.deletedIndexes + b.deletedIndexes,
      a.updatedIndexes + b.updatedIndexes,
      a.movedIndexes + b.movedIndexes)
  }

  /** A one-event stream contributes what `pick` finds in that event. */
  lemma CollectOne<T>(e: Event, pick: Event -> Option<T>)
    ensures Collect([e], pick) == AsSeq(pick(e))
  {
  }

  /** A stream split in two contributes the entries of both parts. */
  lemma {:induction false} CollectConcat<T>(a: seq<Event>, b: seq<Event>, pick: Event -> Option<T>)
    ensures Collect(a + b, pick) == Collect(a, pick) + Collect(b, pick)
    decreases |a|
  {
    if a == [] {
      assert a + b == b;
    } else {
      assert (a + b)[0] == a[0];
      assert (a + b)[1..] == a[1..] + b;
      CollectConcat(a[1..], b, pick);
    }
  }

  /** The reference update of a stream split in two is the two parts' updates, list by list. */
  lemma ExpectedConcat(a: seq<Event>, b: seq<Event>)
    ensures Expected(a + b) == Append(Expected(a), Expected(b))
  {
    CollectConcat(a, b, InsertedSectionOf);
    CollectConcat(a, b, DeletedSectionOf);
    CollectConcat(a, b, InsertedIndexOf);
    CollectConcat(a, b, DeletedIndexOf);
    CollectConcat(a, b, UpdatedIndexOf);
    CollectConcat(a, b, MovedIndexOf);
  }

  /** List-by-list concatenation is associative. */
  lemma AppendAssociative(a: StoreUpdate, b: StoreUpdate, c: StoreUpdate)
    ensures Append(Append(a, b), c) == Append(a, Append(b, c))
  {
  }

  /** One content event appends to the accumulators exactly what the
      reference definition picks from it. */
  lemma HandleAppendsPicked(acc: StoreUpdate, e: Event)
    requires e.IsContent()
    ensures Handle(acc, e) == (Append(acc, Expected([e])), None)
  {
    CollectOne(e, InsertedSectionOf);
    CollectOne(e, DeletedSectionOf);
    CollectOne(e, InsertedIndexOf);
    CollectOne(e, DeletedIndexOf);
    CollectOne(e, UpdatedIndexOf);
    CollectOne(e, MovedIndexOf);
    assert Append(acc, NoChanges) == acc;
  }

  /** Content events are accumulated in arrival order and nothing is handed over. */
  lemma {:induction false} ContentAccumulates(acc: StoreUpdate, events: seq<Event>)
    requires forall i :: 0 <= i < |events| ==> events[i].IsContent()
    ensures Process(acc, events) == (Append(acc, Expected(events)), [])
    decreases |events|
  {
    if events == [] {
      assert Append(acc, Expected(events)) == acc;
    } else {
      var e := events[0];
      var rest := events[1..];
      HandleAppendsPicked(acc, e);
      var acc1 := Append(acc, Expected([e]));
      ContentAccumulates(acc1, rest);
      var tail := Process(acc1, rest);
      assert tail.1 == [];
      assert Process(acc, events) == (tail.0, []) by {
        assert Handle(acc, e).1 == None;
        assert AsSeq(Handle(acc, e).1) + tail.1 == [];
      }
      assert events == [e] + rest;
      ExpectedConcat([e], rest);
      AppendAssociative(acc, Expected([e]), Expected(rest));
    }
  }

  /** Processing two streams one after the other is processing their concatenation. */
  lemma {:induction false} ProcessConcat(acc: StoreUpdate, a: seq<Event>, b: seq<Event>)
    ensures Process(acc, a + b).0 == Process(Process(acc, a).0, b).0
    ensures Process(acc, a + b).1 == Process(acc, a).1 + Process(Process(acc, a).0, b).1
    decreases |a|
  {
    if a == [] {
      assert a + b == b;
    } else {
      assert (a + b)[0] == a[0];
      assert (a + b)[1..] == a[1..] + b;
      ProcessConcat(Handle(acc, a[0]).0, a[1..], b);
    }
  }

  /** A complete batch (will change, content events, did change) hands over
      exactly one update, holding every recorded change in arrival order and
      nothing left from earlier batches; the accumulators keep that update. */
  lemma BatchEmitsExpected(acc: StoreUpdate, events: seq<Event>)
    requires forall i :: 0 <= i < |events| ==> events[i].IsContent()
    ensures Process(acc, [WillChange] + events + [DidChange]) == (Expected(events), [Expected(events)])
  {
    ProcessConcat(acc, [WillChange] + events, [DidChange]);
    ProcessConcat(acc, [WillChange], events);
    assert Process(acc, [WillChange]) == (NoChanges, []) by {
      assert [WillChange][1..] == [];
    }
    ContentAccumulates(NoChanges, events);
    assert Append(NoChanges, Expected(events)) == Expected(events);
    var mid := Expected(events);
    assert Process(mid, [DidChange]) == (mid, [mid]) by {
      assert [DidChange][1..] == [];
      assert [mid] + [] == [mid];
    }
    assert [] + [mid] == [mid];
  }

  /** "Did change" does not clear: a second one without a "will change" in
      between hands over the same update again. */
  lemma DidChangeRepeats(acc: StoreUpdate)
    ensures Process(acc, [DidChange, DidChange]) == (acc, [acc, acc])
  {
    assert [DidChange, DidChange][1..] == [DidChange];
    assert [DidChange][1..] == [];
    assert [acc] + [] == [acc];
    assert [acc] + [acc] == [acc, acc];
  }

  // ---------------------------------------------------------------------------
  // Records and counts

  /** The fetched-results controller's sections: absent when the fetch
      failed, empty for an empty store. Each row is the position of its
      record in the context. */
  datatype FetchedResults = FetchedResults(sections: Option<seq<seq<nat>>>)

  /** `numberOfSections`. */
  function NumberOfSections(fr: FetchedResults): (n: nat)
    ensures fr.sections.None? ==> n == 0
    ensures fr.sections.Some? ==> n == |fr.sections.value|
  {
    if fr.sections.None? then 0 else |fr.sections.value|
  }

  /** `numberOfItemsInSection(_:)`; a section index outside existing sections
      traps in the original, hence the precondition. */
  function NumberOfItemsInSection(fr: FetchedResults, section: int): (n: nat)
    requires fr.sections.None? || 0 <= section < |fr.sections.value|
    ensures fr.sections.None? ==> n == 0
    ensures fr.sections.Some? ==> n == |fr.sections.value[section]|
  {
    if fr.sections.None? then 0 else |fr.sections.value[section]|
  }

  /** `object(at:)` finds a record: the path names an existing row whose
      record is in the context. */
  predicate ValidPath(records: seq<Task>, fr: FetchedResults, ip: IndexPath) {
    && fr.sections.Some?
    && 0 <= ip.section < |fr.sections.value|
    && 0 <= ip.row < |fr.sections.value[ip.section]|
    && fr.sections.value[ip.section][ip.row] < |records|
  }

  /** `addTask(taskModel:)`: a new record holding all six fields of the task,
      id included; existing records stay as they were. */
  function AddRecord(records: seq<Task>, t: Task): (r: seq<Task>)
    ensures |r| == |records| + 1
    ensures r[..|records|] == records
    ensures r[|records|] == t
  {
    records + [t]
  }

  /** Adding then deleting the added record, at any path the fetched results
      list it under, gives back the records as they were. */
  lemma AddThenDeleteRestores(records: seq<Task>, t: Task, fr: FetchedResults, ip: IndexPath)
    requires ValidPath(AddRecord(records, t), fr, ip)
    requires fr.sections.value[ip.section][ip.row] == |records|
    ensures DeleteRecordAt(AddRecord(records, t), fr, ip) == records
    ensures multiset(AddRecord(records, t)) == multiset(records) + multiset{t}
  {
    var r := DeleteRecordAt(AddRecord(records, t), fr, ip);
    assert forall j :: 0 <= j < |records| ==> r[j] == records[j];
  }

  /** The field copy of `updateTask(at:taskModel:)`: everything but the id
      comes from the task; the record keeps its id. */
  function Overwrite(record: Task, t: Task): (r: Task)
    ensures r.id == record.id
    ensures r.title == t.title && r.todo == t.todo && r.createdAt == t.createdAt
    ensures r.completed == t.completed && r.userId == t.userId
  {
    t.(id := record.id)
  }

  /** Overwriting keeps only the last write, and overwriting a record with a
      task of the same id leaves exactly that task. */
  lemma OverwriteLastWins(record: Task, a: Task, b: Task)
    ensures Overwrite(Overwrite(record, a), b) == Overwrite(record, b)
    ensures a.id == record.id ==> Overwrite(record, a) == a
    ensures Overwrite(Overwrite(record, a), a) == Overwrite(record, a)
  {
  }

  /** `updateTask(at:taskModel:)`: overwrites the record at the path and no other. */
  function UpdateRecordAt(records: seq<Task>, fr: FetchedResults, ip: IndexPath, t: Task): (r: seq<Task>)
    requires ValidPath(records, fr, ip)
    ensures |r| == |records|
    ensures var k := fr.sections.value[ip.section][ip.row];
            && r[k] == Overwrite(records[k], t)
            && forall j :: 0 <= j < |records| && j != k ==> r[j] == records[j]
  {
    var k := fr.sections.value[ip.section][ip.row];
    records[k := Overwrite(records[k], t)]
  }

  /** `deleteTask(at:)`: removes the record at the path and keeps the others
      in order. */
  function DeleteRecordAt(records: seq<Task>, fr: FetchedResults, ip: IndexPath): (r: seq<Task>)
    requires ValidPath(records, fr, ip)
    ensures |r| == |records| - 1
    ensures var k := fr.sections.value[ip.section][ip.row];
            && multiset(r) + multiset{records[k]} == multiset(records)
            && (forall j :: 0 <= j < k ==> r[j] == records[j])
            && (forall j :: k <= j < |r| ==> r[j] == records[j + 1])
  {
    var k := fr.sections.value[ip.section][ip.row];
    assert records == records[..k] + [records[k]] + records[k + 1..];
    records[..k] + records[k + 1..]
  }

  /** Updating a record never changes the number of records or any id. */
  lemma UpdateKeepsIds(records: seq<Task>, fr: FetchedResults, ip: IndexPath, t: Task)
    requires ValidPath(records, fr, ip)
    ensures forall j :: 0 <= j < |records| ==> UpdateRecordAt(records, fr, ip, t)[j].id == records[j].id
  {
  }
}
