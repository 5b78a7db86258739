/** Automatic indexing over whole runs of the review queue: what is held back stays back, and nothing is indexed
    automatically but what was last assessed as needing no review. */
module AutoIndexing {
  import opened Wrappers
  import opened VersionedIndex
  import opened Scanner
  import opened ChangeQueue
  import opened QueueHistory
  import opened QueueSafety

  predicate IsAuto(q: Queue, path: string) {
    path in q.items && q.items[path].autoProcessing
  }

  /** The item is pending and waits for the operator. */
  predicate IsHeld(q: Queue, path: string) {
    path in q.items && !q.items[path].autoProcessing
  }

  /** The entries of one path, in order. */
  function EntriesOf(history: seq<Entry>, path: string): seq<Entry> {
    if history == [] then []
    else
      var last := history[|history| - 1];
      EntriesOf(history[..|history| - 1], path) + if last.item.path == path then [last] else []
  }

  /** The item, the document's versions and the reviews of the path are as they were. */
  ghost predicate Untouched(q: Queue, q': Queue, path: string) {
    && SameItem(q, q', path)
    && VersionsOf(q'.index, DocumentOf(path)) == VersionsOf(q.index, DocumentOf(path))
    && EntriesOf(q'.history, path) == EntriesOf(q.history, path)
  }

  lemma {:induction false} EntriesOfConcat(a: seq<Entry>, b: seq<Entry>, path: string)
    ensures EntriesOf(a + b, path) == EntriesOf(a, path) + EntriesOf(b, path)
  {
    if b == [] {
      assert a + b == a;
    } else {
      assert (a + b)[..|a + b| - 1] == a + b[..|b| - 1];
      EntriesOfConcat(a, b[..|b| - 1], path);
    }
  }

  lemma EntryOfOther(history: seq<Entry>, entry: Entry, path: string)
    requires entry.item.path != path
    ensures EntriesOf(history + [entry], path) == EntriesOf(history, path)
  {
    assert (history + [entry])[..|history|] == history;
  }

  // ---------------------------------------------------------------- accepting and rejecting another path

  lemma IndexingLeavesOthers(q: Queue, item: Item, path: string)
    requires item.path != path && IndexItem(q, item).Ok?
    ensures VersionsOf(IndexItem(q, item).value, DocumentOf(path)) == VersionsOf(q.index, DocumentOf(path))
  {
    DocumentsDiffer(item.path, path);
  }

  lemma AcceptLeavesOthers(q: Queue, other: string, action: Action, path: string)
    requires Consistent(q) && other in q.items && other != path && AcceptItem(q, q.items[other], action).Ok?
    ensures Untouched(q, AcceptItem(q, q.items[other], action).value, path)
  {
    assert GoodItem(q, other);
    IndexingLeavesOthers(q, q.items[other], path);
    EntryOfOther(q.history, Entry(q.nextId, q.items[other], action, Lookup(q.accepted, other)), path);
  }

  lemma RejectLeavesOthers(q: Queue, other: string, path: string)
    requires Consistent(q) && other != path
    ensures Untouched(q, Reject(q, other).0, path)
  {
    if other in q.items {
      assert GoodItem(q, other);
      EntryOfOther(q.history, Entry(q.nextId, q.items[other], RESTORE, Lookup(q.accepted, other)), path);
    }
  }

  // ---------------------------------------------------------------- automatic accepts

  /** Each of these entries indexed, automatically, an item that was due and cleared for it. */
  ghost predicate WereCleared(q: Queue, added: seq<Entry>, due: set<string>) {
    forall e | e in added ::
      && e.action == AUTO_INDEX && IsAuto(q, e.item.path) && q.items[e.item.path] == e.item && e.item.path in due
  }

  /** What automatic accepts do: they process cleared items, and touch nothing else. */
  ghost predicate Processes(q: Queue, q': Queue, due: set<string>) {
    && |q.history| <= |q'.history| && q'.history[..|q.history|] == q.history
    && WereCleared(q, q'.history[|q.history|..], due)
    && (forall path | IsAuto(q', path) :: path in q.items && q'.items[path] == q.items[path])
    && (forall path | !(IsAuto(q, path) && path in due) :: Untouched(q, q', path))
  }

  lemma AutoAcceptProcesses(q: Queue, path: string, due: set<string>)
    requires Consistent(q)
    ensures Processes(q, AutoAccept(q, path, due), due)
  {
    var q' := AutoAccept(q, path, due);
    if IsAuto(q, path) && path in due && AcceptItem(q, q.items[path], AUTO_INDEX).Ok? {
      SuccessProcesses(q, q', path, due);
    } else {
      FlagsProcess(q, q', path, due);
    }
  }

  lemma SuccessProcesses(q: Queue, q': Queue, path: string, due: set<string>)
    requires Consistent(q) && IsAuto(q, path) && path in due && AcceptItem(q, q.items[path], AUTO_INDEX) == Ok(q')
    ensures Processes(q, q', due)
  {
    assert GoodItem(q, path);
    AcceptAppends(q, q', path);
    forall other | other != path ensures Untouched(q, q', other) {
      AcceptLeavesOthers(q, path, AUTO_INDEX, other);
    }
  }

  /** At most the item of the path changed, to a held one; and if it did, it was cleared and due. */
  lemma FlagsProcess(q: Queue, q': Queue, path: string, due: set<string>)
    requires q'.history == q.history && q'.index == q.index
    requires forall other | other != path :: SameItem(q, q', other)
    requires SameItem(q, q', path) || (IsAuto(q, path) && path in due && IsHeld(q', path))
    ensures Processes(q, q', due)
  {
    assert q'.history[..|q.history|] == q.history && q'.history[|q.history|..] == [];
    forall other | IsAuto(q', other) ensures other in q.items && q'.items[other] == q.items[other] {
      assert other == path || SameItem(q, q', other);
    }
  }

  lemma AcceptAppends(q: Queue, q': Queue, path: string)
    requires path in q.items && q.items[path].path == path && AcceptItem(q, q.items[path], AUTO_INDEX) == Ok(q')
    ensures |q'.history| == |q.history| + 1 && q'.history[..|q.history|] == q.history
    ensures q'.history[|q.history|..] == [Entry(q.nextId, q.items[path], AUTO_INDEX, Lookup(q.accepted, path))]
    ensures q'.items == q.items - {path}
  {
  }

  lemma ProcessesTwice(q: Queue, q1: Queue, q2: Queue, due: set<string>)
    requires Processes(q, q1, due) && Processes(q1, q2, due)
    ensures Processes(q, q2, due)
  {
    var n := |q.history|;
    assert q2.history[..n] == q2.history[..|q1.history|][..n];
    assert q2.history[n..] == q1.history[n..] + q2.history[|q1.history|..];
    forall e | e in q2.history[n..]
      ensures e.action == AUTO_INDEX && IsAuto(q, e.item.path) && q.items[e.item.path] == e.item && e.item.path in due
    {
      if e !in q1.history[n..] {
        assert e in q2.history[|q1.history|..];
        assert IsAuto(q1, e.item.path) && q1.items[e.item.path] == e.item;
      }
    }
    forall path | !(IsAuto(q, path) && path in due) ensures Untouched(q, q2, path) {
      assert Untouched(q, q1, path);
      if IsAuto(q1, path) { assert q1.items[path] == q.items[path]; }
      assert Untouched(q1, q2, path);
    }
  }

  lemma {:induction false} AutoAcceptsProcess(q: Queue, order: seq<string>, due: set<string>)
    requires Consistent(q)
    ensures Processes(q, AutoAccepts(q, order, due), due)
  {
    if order == [] {
      assert q.history[..|q.history|] == q.history && q.history[|q.history|..] == [];
    } else {
      var q1 := AutoAccepts(q, order[..|order| - 1], due);
      AutoAcceptsProcess(q, order[..|order| - 1], due);
      AutoAcceptsKeep(q, order[..|order| - 1], due);
      AutoAcceptProcesses(q1, order[|order| - 1], due);
      ProcessesTwice(q, q1, AutoAccepts(q, order, due), due);
    }
  }

  // ---------------------------------------------------------------- polling

  /** A scan clears no item: one that it sets waits for its assessment. */
  ghost predicate ScansItems(q: Queue, q': Queue) {
    && q'.history == q.history && q'.index == q.index
    && (forall path | IsAuto(q', path) :: path in q.items && q'.items[path] == q.items[path])
    && (forall path | Lookup(q.scan, path) == Lookup(q.disk, path) :: SameItem(q, q', path))
  }

  lemma ScannedItem(q: Queue, q': Queue, paths: seq<string>, events: seq<ScanEvent>, applied: seq<ScanEvent>, path: string)
    requires Lists(paths, q.scan, q.disk) && events == EventsOver(q.scan, q.disk, paths)
    requires (forall e | e in applied :: e in events) && ItemAfter(q, q', applied, path)
    ensures IsAuto(q', path) ==> path in q.items && q'.items[path] == q.items[path]
    ensures Lookup(q.scan, path) == Lookup(q.disk, path) ==> SameItem(q, q', path)
  {
    EventsAreChanges(q.scan, q.disk, paths);
    if HasEvent(applied, path) {
      var e :| e in applied && e.path == path;
      assert IsItemOf(q, q', e) && TellsChange(e, q.scan, q.disk);
    }
  }

  lemma ScanSetsItems(q: Queue, paths: seq<string>, fault: Option<string>)
    requires Consistent(q) && Lists(paths, q.scan, q.disk)
    ensures ScansItems(q, Scanned(q, EventsOver(q.scan, q.disk, paths), fault))
  {
    var events := EventsOver(q.scan, q.disk, paths);
    var applied, q' := events[..FirstRaise(events, fault)], Scanned(q, events, fault);
    ScannedIsConsistent(q, events, fault);
    EventsAreChanges(q.scan, q.disk, paths);
    forall path
      ensures IsAuto(q', path) ==> path in q.items && q'.items[path] == q.items[path]
      ensures Lookup(q.scan, path) == Lookup(q.disk, path) ==> SameItem(q, q', path)
    {
      EventsSetItem(q.(scan := q.disk), applied, path);
      assert ItemAfter(q, q', applied, path);
      ScannedItem(q, q', paths, events, applied, path);
    }
  }

  /** What a poll does: it indexes only items cleared before it, and leaves alone what is held and unchanged. */
  ghost predicate PollsItems(q: Queue, q': Queue, due: set<string>) {
    && |q.history| <= |q'.history| && q'.history[..|q.history|] == q.history
    && WereCleared(q, q'.history[|q.history|..], due)
    && (forall path | IsAuto(q', path) :: path in q.items && q'.items[path] == q.items[path])
    && (forall path | Lookup(q.scan, path) == Lookup(q.disk, path) && !(IsAuto(q, path) && path in due) :: Untouched(q, q', path))
  }

  lemma ScanThenProcess(q: Queue, q1: Queue, q2: Queue, due: set<string>)
    requires ScansItems(q, q1) && Processes(q1, q2, due)
    ensures PollsItems(q, q2, due)
  {
    forall e | e in q2.history[|q.history|..]
      ensures e.action == AUTO_INDEX && IsAuto(q, e.item.path) && q.items[e.item.path] == e.item && e.item.path in due
    {
      assert IsAuto(q1, e.item.path) && q1.items[e.item.path] == e.item;
    }
    forall path | Lookup(q.scan, path) == Lookup(q.disk, path) && !(IsAuto(q, path) && path in due) ensures Untouched(q, q2, path) {
      assert SameItem(q, q1, path);
      assert Untouched(q1, q2, path);
    }
  }

  lemma PollTouches(q: Queue, paths: seq<string>, order: seq<string>, due: set<string>, fault: Option<string>)
    requires Consistent(q) && Lists(paths, q.scan, q.disk)
    ensures PollsItems(q, Poll(q, paths, order, due, fault), due)
  {
    var events := EventsOver(q.scan, q.disk, paths);
    var scanned := Scanned(q, events, fault);
    ScannedIsConsistent(q, events, fault);
    ScanSetsItems(q, paths, fault);
    NothingToDiscard(scanned);
    AutoAcceptsProcess(scanned, order, due);
    AutoAcceptsProcess(scanned, [], due);
    ScanThenProcess(q, scanned, AutoAccepts(scanned, order, due), due);
    ScanThenProcess(q, scanned, AutoAccepts(scanned, [], due), due);
  }

  // ---------------------------------------------------------------- restoring

  /** None of the entries is of the path. */
  predicate NoneOf(entries: seq<Entry>, path: string) {
    forall e | e in entries :: e.item.path != path
  }

  lemma {:induction false} NoEntriesOf(entries: seq<Entry>, path: string)
    requires NoneOf(entries, path)
    ensures EntriesOf(entries, path) == []
  {
    if entries != [] {
      assert entries[|entries| - 1] in entries;
      forall e | e in entries[..|entries| - 1] ensures e.item.path != path { assert e in entries; }
      NoEntriesOf(entries[..|entries| - 1], path);
    }
  }

  lemma UndoLeavesOthers(q: Queue, path: string)
    requires Consistent(q) && q.history != [] && q.history[|q.history| - 1].item.path != path
    ensures UndoLast(q).Ok? && VersionsOf(UndoLast(q).value.index, DocumentOf(path)) == VersionsOf(q.index, DocumentOf(path))
  {
    UndoLastIsConsistent(q);
    DocumentsDiffer(q.history[|q.history| - 1].item.path, path);
  }

  lemma {:induction false} UndoDownToLeavesOthers(q: Queue, position: nat, path: string)
    requires Consistent(q) && position <= |q.history| && NoneOf(q.history[position..], path)
    ensures UndoDownTo(q, position).Ok?
    ensures VersionsOf(UndoDownTo(q, position).value.index, DocumentOf(path)) == VersionsOf(q.index, DocumentOf(path))
    decreases |q.history|
  {
    if |q.history| == position {
      NothingToUndo(q);
    } else {
      SuffixSnoc(q.history, position);
      assert q.history[|q.history| - 1] in q.history[position..];
      UndoLeavesOthers(q, path);
      UndoLastIsConsistent(q);
      var q1 := UndoLast(q).value;
      UndoDownToLeavesOthers(q1, position, path);
      UndoStep(q, q1, position);
    }
  }

  /** No review of the path is taken back. */
  predicate Spares(q: Queue, id: nat, path: string) {
    NoneOf(q.history[EntryPosition(q.history, id)..], path)
  }

  lemma SparesExactly(targets: seq<Entry>, path: string)
    ensures NoneOf(targets, path) <==> FirstOf(targets, path) == |targets|
  {
    var k := FirstOf(targets, path);
    if k < |targets| { assert targets[k] in targets; }
  }

  /** What a restore leaves of a path. */
  lemma RestoredPath(q: Queue, id: nat, path: string) returns (q1: Queue)
    requires Consistent(q) && EntryPosition(q.history, id) < |q.history|
    ensures var position := EntryPosition(q.history, id); var q' := RestoreBefore(q, id).0;
            && UndoDownTo(q, position) == Ok(q1) && PathRestored(q, q1, q.history[position..], path)
            && q'.items == q1.items && q'.index == q1.index && q'.history == q.history[..position]
  {
    var position := EntryPosition(q.history, id);
    q1 := UndoRestoresPath(q, position, path);
    TargetsAreRestorable(q, position);
    RestoreUndoes(q, id, q1);
    RestoreReplaysPrefix(q, id);
  }

  lemma RestoreLeavesOthers(q: Queue, id: nat, path: string)
    requires Consistent(q) && Spares(q, id, path)
    ensures Untouched(q, RestoreBefore(q, id).0, path)
  {
    var position := EntryPosition(q.history, id);
    if position < |q.history| {
      var q1 := RestoredPath(q, id, path);
      SparesExactly(q.history[EntryPosition(q.history, id)..], path);
      UndoDownToLeavesOthers(q, position, path);
      SparedEntries(q.history, position, path);
    }
  }

  lemma SparedEntries(history: seq<Entry>, position: nat, path: string)
    requires position <= |history| && NoneOf(history[position..], path)
    ensures EntriesOf(history[..position], path) == EntriesOf(history, path)
  {
    NoEntriesOf(history[position..], path);
    EntriesOfConcat(history[..position], history[position..], path);
    assert history[..position] + history[position..] == history;
  }

  /** What a restore leaves pending is what was pending, or is held. */
  lemma RestoreClearsNothing(q: Queue, id: nat, path: string)
    requires Consistent(q)
    ensures var q' := RestoreBefore(q, id).0;
            && (IsAuto(q', path) ==> path in q.items && q'.items[path] == q.items[path])
            && |q'.history| <= |q.history|
  {
    if EntryPosition(q.history, id) < |q.history| {
      var q1 := RestoredPath(q, id, path);
    }
  }

  // ---------------------------------------------------------------- one step

  /** The step is an assessment that this very candidate needs no review. */
  predicate Clears(q: Queue, step: QueueStep, path: string) {
    step.AssessStep? && step.path == path && !step.reviewRequired && path in q.items && q.items[path].candidate == step.candidate
  }

  /** After a step an item is cleared only if the step cleared it, or it was and the step did not hold it. */
  lemma NextClearsOnly(q: Queue, step: QueueStep, path: string)
    requires Consistent(q) && Possible(q, step) && IsAuto(Next(q, step), path)
    ensures Clears(q, step, path) || (path in q.items && Next(q, step).items[path] == q.items[path] && step != HoldStep(path))
    ensures path in q.items && Next(q, step).items[path].candidate == q.items[path].candidate
  {
    match step
    case PollStep(paths, order, due, fault) => PollTouches(q, paths, order, due, fault);
    case AcceptStep(other) => if other in q.items { assert GoodItem(q, other); }
    case RejectStep(other) => if other in q.items { assert GoodItem(q, other); }
    case RestoreStep(id) => RestoreClearsNothing(q, id, path);
    case _ =>
  }

  /** Reviewing an item by hand is not indexing it automatically. */
  lemma ReviewsAreByHand(q: Queue, path: string)
    ensures var history' := Accept(q, path).0.history;
            |q.history| <= |history'| && forall e | e in history'[|q.history|..] :: e.action == INDEX
    ensures var history' := Reject(q, path).0.history;
            |q.history| <= |history'| && forall e | e in history'[|q.history|..] :: e.action == RESTORE
  {
  }

  /** Only a poll indexes automatically, and only what was cleared before it. */
  lemma NextIndexesCleared(q: Queue, step: QueueStep, e: Entry)
    requires Consistent(q) && Possible(q, step) && e.action == AUTO_INDEX
    requires |q.history| < |Next(q, step).history| && e in Next(q, step).history[|q.history|..]
    ensures step.PollStep? && e.item.path in step.due && IsAuto(q, e.item.path) && q.items[e.item.path] == e.item
  {
    match step
    case PollStep(paths, order, due, fault) => PollTouches(q, paths, order, due, fault);
    case AcceptStep(path) => ReviewsAreByHand(q, path);
    case RejectStep(path) => ReviewsAreByHand(q, path);
    case RestoreStep(id) => RestoreClearsNothing(q, id, "");
    case _ =>
  }

  /** The step is not about the path: it neither assesses this candidate, nor processes or restores the path; a
      poll finds its file as it was. */
  ghost predicate LeavesAlone(q: Queue, step: QueueStep, path: string) {
    match step
    case Write(_, _) => true
    case PollStep(_, _, _, _) => Lookup(q.scan, path) == Lookup(q.disk, path)
    case AssessStep(other, candidate, _) => other != path || (path in q.items && q.items[path].candidate != candidate)
    case AcceptStep(other) => other != path
    case RejectStep(other) => other != path
    case HoldStep(other) => true
    case RestoreStep(id) => Spares(q, id, path)
  }

  /** The item waits for the operator, and says so. */
  predicate IsWaiting(q: Queue, path: string) {
    IsHeld(q, path) && q.items[path].reviewRequired == Some(true)
  }

  lemma NextLeavesWaiting(q: Queue, step: QueueStep, path: string)
    requires Consistent(q) && Possible(q, step) && IsWaiting(q, path) && LeavesAlone(q, step, path)
    ensures Untouched(q, Next(q, step), path)
  {
    match step
    case PollStep(paths, order, due, fault) => PollTouches(q, paths, order, due, fault);
    case AcceptStep(other) =>
      if other in q.items && AcceptItem(q, q.items[other], INDEX).Ok? { AcceptLeavesOthers(q, other, INDEX, path); }
    case RejectStep(other) => RejectLeavesOthers(q, other, path);
    case RestoreStep(id) => RestoreLeavesOthers(q, id, path);
    case _ =>
  }

  // ---------------------------------------------------------------- who is held

  /** A hold makes an item wait. */
  lemma HoldHolds(q: Queue, path: string)
    requires path in q.items
    ensures IsWaiting(HoldForReview(q, path), path)
    ensures HoldForReview(q, path).items[path].candidate == q.items[path].candidate
  {
  }

  /** So does an automatic accept that fails. */
  lemma FailedAutoAcceptHolds(q: Queue, path: string, due: set<string>)
    requires IsAuto(q, path) && path in due && AcceptItem(q, q.items[path], AUTO_INDEX).Err?
    ensures IsWaiting(AutoAccept(q, path, due), path) && AutoAccept(q, path, due).history == q.history
    ensures AutoAccept(q, path, due).index == q.index
  {
  }

  /** So does a restore that takes a review of its path back. */
  lemma RestoreHolds(q: Queue, id: nat, path: string)
    requires Consistent(q) && EntryPosition(q.history, id) < |q.history| && !Spares(q, id, path)
    ensures IsWaiting(RestoreBefore(q, id).0, path)
  {
    var q1 := RestoredPath(q, id, path);
    SparesExactly(q.history[EntryPosition(q.history, id)..], path);
  }

  // ---------------------------------------------------------------- over whole runs

  /** An item that waits for the operator is still there, as it was, after any number of polls, whatever is due,
      any holds, and any steps on other paths; its document's versions are as they were, and nothing was
      indexed for it. */
  lemma {:induction false} WaitingStays(qs: seq<Queue>, steps: seq<QueueStep>, i: nat, j: nat, path: string)
    requires IsRun(qs, steps) && i <= j < |qs| && IsWaiting(qs[i], path)
    requires forall k | i <= k < j :: LeavesAlone(qs[k], steps[k], path)
    ensures Untouched(qs[i], qs[j], path) && IsWaiting(qs[j], path)
    decreases j - i
  {
    if i < j {
      WaitsOn(qs, steps, i, path);
      WaitingStays(qs, steps, i + 1, j, path);
    }
  }

  lemma WaitsOn(qs: seq<Queue>, steps: seq<QueueStep>, i: nat, path: string)
    requires IsRun(qs, steps) && i < |steps| && IsWaiting(qs[i], path) && LeavesAlone(qs[i], steps[i], path)
    ensures Untouched(qs[i], qs[i + 1], path) && IsWaiting(qs[i + 1], path)
  {
    var q, step := qs[i], steps[i];
    RunsAreConsistent(qs, steps, i);
    assert Possible(q, step) && qs[i + 1] == Next(q, step);
    NextLeavesWaiting(q, step, path);
  }

  /** The item was cleared at `m`, and from then until `n` nothing was done to it and it was not held. */
  ghost predicate WasClearedAt(qs: seq<Queue>, steps: seq<QueueStep>, m: nat, n: nat, path: string)
    requires n <= |steps| < |qs| && path in qs[n].items
  {
    && m < n && Clears(qs[m], steps[m], path) && qs[m].items[path].candidate == qs[n].items[path].candidate
    && (forall k | m < k <= n :: path in qs[k].items && qs[k].items[path] == qs[n].items[path])
    && (forall k | m < k < n :: steps[k] != HoldStep(path))
  }

  lemma ClearedOneMore(qs: seq<Queue>, steps: seq<QueueStep>, m: nat, n: nat, path: string)
    requires IsRun(qs, steps) && n < |steps| && path in qs[n].items && WasClearedAt(qs, steps, m, n, path)
    requires path in qs[n + 1].items && qs[n + 1].items[path] == qs[n].items[path] && steps[n] != HoldStep(path)
    ensures WasClearedAt(qs, steps, m, n + 1, path)
  {
  }

  lemma ClearedJustNow(qs: seq<Queue>, steps: seq<QueueStep>, n: nat, path: string)
    requires IsRun(qs, steps) && n < |steps| && path in qs[n + 1].items && Clears(qs[n], steps[n], path)
    requires qs[n + 1].items[path].candidate == qs[n].items[path].candidate
    ensures WasClearedAt(qs, steps, n, n + 1, path)
  {
  }

  lemma ClearedOrKept(qs: seq<Queue>, steps: seq<QueueStep>, n: nat, path: string)
    requires IsRun(qs, steps) && n < |steps| && IsAuto(qs[n + 1], path)
    ensures path in qs[n].items && qs[n + 1].items[path].candidate == qs[n].items[path].candidate
    ensures Clears(qs[n], steps[n], path) || (qs[n + 1].items[path] == qs[n].items[path] && steps[n] != HoldStep(path))
  {
    var q, step := qs[n], steps[n];
    RunsAreConsistent(qs, steps, n);
    assert Possible(q, step) && qs[n + 1] == Next(q, step);
    NextClearsOnly(q, step, path);
  }

  lemma {:induction false} ClearedBefore(qs: seq<Queue>, steps: seq<QueueStep>, n: nat, path: string) returns (m: nat)
    requires IsRun(qs, steps) && n < |qs| && IsAuto(qs[n], path)
    ensures WasClearedAt(qs, steps, m, n, path)
  {
    if n == 0 {
      assert false;
    } else {
      ClearedOrKept(qs, steps, n - 1, path);
      if Clears(qs[n - 1], steps[n - 1], path) {
        m := n - 1;
        ClearedJustNow(qs, steps, m, path);
      } else {
        m := ClearedBefore(qs, steps, n - 1, path);
        ClearedOneMore(qs, steps, m, n - 1, path);
      }
    }
  }

  /** Whatever a run indexes automatically, a poll indexes; and that very item was last assessed as needing no
      review, and was neither held, changed nor assessed since. */
  lemma AutoIndexedWasCleared(qs: seq<Queue>, steps: seq<QueueStep>, n: nat, e: Entry) returns (m: nat)
    requires IsRun(qs, steps) && n < |steps| && e.action == AUTO_INDEX
    requires |qs[n].history| < |qs[n + 1].history| && e in qs[n + 1].history[|qs[n].history|..]
    ensures steps[n].PollStep? && e.item.path in steps[n].due
    ensures e.item.path in qs[n].items && qs[n].items[e.item.path] == e.item
    ensures WasClearedAt(qs, steps, m, n, e.item.path)
  {
    RunsAreConsistent(qs, steps, n);
    assert Possible(qs[n], steps[n]) && qs[n + 1] == Next(qs[n], steps[n]);
    NextIndexesCleared(qs[n], steps[n], e);
    m := ClearedBefore(qs, steps, n, e.item.path);
  }
}
