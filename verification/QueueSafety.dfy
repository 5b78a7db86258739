/** Whole runs of the queue: the pending items are exactly the uncommitted changes, the history stays
    a complete account, and restores never fail. */
module QueueSafety {
  import opened Wrappers
  import opened VersionedIndex
  import opened Scanner
  import opened ChangeQueue
  import opened QueueHistory
  import opened IndexUndo

  // ---------------------------------------------------------------- the pending items are the diff

  /** The path has an item iff its scanned digest differs from the accepted one and the texts do not
      match, and the item names those two digests. */
  ghost predicate PathInStep(q: Queue, path: string) {
    var accepted, candidate := Lookup(q.accepted, path), Lookup(q.scan, path);
    && (path in q.items <==> IsDiff(q.config, path, accepted, candidate))
    && (path in q.items ==>
          q.items[path].baseline == accepted && q.items[path].candidate == candidate
          && q.items[path].change == ChangeOf(accepted, candidate))
  }

  ghost predicate InStep(q: Queue) {
    forall path {:trigger PathInStep(q, path)} :: PathInStep(q, path)
  }

  // ---------------------------------------------------------------- polling

  /** Only items changed, to good ones, and nothing captured was lost. */
  lemma ItemsMayChange(q: Queue, q': Queue)
    requires Consistent(q) && q'.accepted == q.accepted && q'.history == q.history && q'.config == q.config
    requires q'.restored == q.restored && q'.nextId == q.nextId && q.snapshots <= q'.snapshots
    requires forall path | path in q'.items :: GoodItem(q', path)
    ensures Consistent(q')
  {
    forall e | e in q'.history ensures Kept(q'.snapshots, e.item) {
      assert Kept(q.snapshots, e.item);
    }
  }

  lemma NewItemIsGood(q: Queue, q': Queue, path: string, candidate: Option<string>)
    requires Consistent(q) && q'.accepted == q.accepted && q'.config == q.config
    requires q'.snapshots == Captured(q.snapshots, candidate)
    requires path in q'.items && q'.items[path] == NewItem(path, Lookup(q.accepted, path), candidate)
    requires IsDiff(q.config, path, Lookup(q.accepted, path), candidate)
    ensures GoodItem(q', path)
  {
    assert path in q.accepted ==> q.accepted[path] in q.snapshots;
  }

  ghost predicate SameItem(q: Queue, q': Queue, path: string) {
    (path in q'.items <==> path in q.items) && (path in q'.items ==> q'.items[path] == q.items[path])
  }

  /** The item of the event's path is the path's uncommitted change. */
  ghost predicate IsItemOf(q: Queue, q': Queue, event: ScanEvent) {
    var accepted, candidate := Lookup(q.accepted, event.path), After(event);
    && (event.path in q'.items <==> IsDiff(q.config, event.path, accepted, candidate))
    && (event.path in q'.items ==> q'.items[event.path] == NewItem(event.path, accepted, candidate))
  }

  /** One event sets the item of its path, and no other item. */
  ghost predicate SetsItem(q: Queue, q': Queue, event: ScanEvent) {
    IsItemOf(q, q', event) && forall path | path != event.path :: SameItem(q, q', path)
  }

  lemma OneEventSetsItem(q: Queue, event: ScanEvent)
    ensures SetsItem(q, ApplyEvent(q, event), event)
  {
  }

  lemma SettingKeepsConsistent(q: Queue, q': Queue, event: ScanEvent)
    requires Consistent(q) && q'.accepted == q.accepted && q'.history == q.history && q'.config == q.config
    requires q'.restored == q.restored && q'.nextId == q.nextId && q'.snapshots == Captured(q.snapshots, After(event))
    requires SetsItem(q, q', event)
    ensures Consistent(q')
  {
    forall path | path in q'.items ensures GoodItem(q', path) {
      if path == event.path {
        NewItemIsGood(q, q', path, After(event));
      } else {
        assert SameItem(q, q', path);
        assert GoodItem(q, path);
      }
    }
    ItemsMayChange(q, q');
  }

  lemma EventKeepsConsistent(q: Queue, event: ScanEvent)
    requires Consistent(q)
    ensures Consistent(ApplyEvent(q, event))
  {
    OneEventSetsItem(q, event);
    SettingKeepsConsistent(q, ApplyEvent(q, event), event);
  }

  lemma {:induction false} EventsKeepConsistent(q: Queue, events: seq<ScanEvent>)
    requires Consistent(q)
    ensures Consistent(ApplyEvents(q, events))
    ensures var q' := ApplyEvents(q, events);
            q'.accepted == q.accepted && q'.scan == q.scan && q'.disk == q.disk && q'.config == q.config
            && q'.history == q.history && q'.index == q.index
  {
    if events != [] {
      EventsKeepConsistent(q, events[..|events| - 1]);
      EventKeepsConsistent(ApplyEvents(q, events[..|events| - 1]), events[|events| - 1]);
    }
  }

  /** What events over different paths leave as the item of a path. */
  ghost predicate ItemAfter(q: Queue, q': Queue, events: seq<ScanEvent>, path: string) {
    && (forall e | e in events && e.path == path :: IsItemOf(q, q', e))
    && (!HasEvent(events, path) ==> SameItem(q, q', path))
  }

  lemma {:induction false} EventsFrame(q: Queue, events: seq<ScanEvent>)
    ensures ApplyEvents(q, events).accepted == q.accepted && ApplyEvents(q, events).config == q.config
  {
    if events != [] { EventsFrame(q, events[..|events| - 1]); }
  }

  lemma {:induction false} EventsSetItem(q: Queue, events: seq<ScanEvent>, path: string)
    requires DistinctEvents(events)
    ensures ItemAfter(q, ApplyEvents(q, events), events, path)
  {
    if events != [] {
      var before, last := events[..|events| - 1], events[|events| - 1];
      EventsSetItem(q, before, path);
      EventsFrame(q, before);
      OneEventSetsItem(ApplyEvents(q, before), last);
      LastSetsItem(q, ApplyEvents(q, before), ApplyEvents(q, events), before, last, path);
      assert events == before + [last];
    }
  }

  lemma LastSetsItem(q: Queue, q1: Queue, q2: Queue, before: seq<ScanEvent>, last: ScanEvent, path: string)
    requires ItemAfter(q, q1, before, path) && SetsItem(q1, q2, last) && q1.accepted == q.accepted && q1.config == q.config
    requires DistinctEvents(before + [last])
    ensures ItemAfter(q, q2, before + [last], path)
  {
    var events := before + [last];
    assert last in events;
    forall e | e in before ensures e in events && e.path != last.path {
      var i :| 0 <= i < |before| && before[i] == e;
      assert events[i] == e && events[|before|] == last;
    }
    if path != last.path {
      assert SameItem(q1, q2, path);
      assert HasEvent(before, path) ==> HasEvent(events, path);
    }
  }

  lemma NothingToDiscard(q: Queue)
    requires Consistent(q)
    ensures DiscardReverted(q) == q
  {
    forall path | path in q.items
      ensures !SameText(q.config, path, q.items[path].baseline, q.items[path].candidate)
    {
      assert GoodItem(q, path);
    }
  }

  ghost predicate Moved(q: Queue, q': Queue) {
    q'.config == q.config && q'.scan == q.scan && q'.disk == q.disk
  }

  lemma AcceptKeepsConsistent(q: Queue, path: string, action: Action)
    requires Consistent(q) && path in q.items && action != RESTORE
    ensures var r := AcceptItem(q, q.items[path], action);
            r.Ok? ==>
              && Consistent(r.value) && Moved(q, r.value) && r.value.items == q.items - {path}
              && r.value.history == q.history + [Entry(q.nextId, q.items[path], action, Lookup(q.accepted, path))]
  {
    var item := q.items[path];
    var r := AcceptItem(q, item, action);
    assert GoodItem(q, path);
    if r.Ok? {
      AppendKeepsConsistent(q, r.value, item, action);
    }
  }

  /** Processing an item appends a good entry for it. */
  lemma AppendKeepsConsistent(q: Queue, q': Queue, item: Item, action: Action)
    requires Consistent(q) && item.path in q.items && GoodItem(q, item.path) && item == q.items[item.path]
    requires q'.config == q.config && q'.items == q.items - {item.path} && q'.snapshots == q.snapshots
    requires q'.restored == q.restored && q'.nextId == q.nextId + 1
    requires q'.history == q.history + [Entry(q.nextId, item, action, Lookup(q.accepted, item.path))]
    requires q'.accepted == if action == RESTORE then q.accepted else Committed(q.accepted, item)
    requires action != RESTORE && item.candidate.Some? ==> VersionFor(q.config, item.path, item.candidate.value).Some?
    ensures Consistent(q')
  {
    assert q'.history[..|q.history|] == q.history;
    AppendKeepsIds(q, q');
    forall path | path in q'.items ensures GoodItem(q', path) {
      assert GoodItem(q, path);
    }
  }

  lemma AppendKeepsIds(q: Queue, q': Queue)
    requires GoodIds(q) && q'.restored == q.restored && q'.nextId == q.nextId + 1
    requires |q'.history| == |q.history| + 1 && q'.history[..|q.history|] == q.history && q'.history[|q.history|].id == q.nextId
    ensures GoodIds(q')
  {
    assert forall i | 0 <= i < |q.history| :: q'.history[i] == q.history[i];
  }

  lemma AcceptKeepsInStep(q: Queue, path: string, action: Action)
    requires Consistent(q) && InStep(q) && path in q.items && action != RESTORE
    ensures var r := AcceptItem(q, q.items[path], action); r.Ok? ==> InStep(r.value)
  {
    var r := AcceptItem(q, q.items[path], action);
    assert GoodItem(q, path) && PathInStep(q, path);
    if r.Ok? {
      forall p ensures PathInStep(r.value, p) {
        assert PathInStep(q, p);
      }
    }
  }

  lemma FlagsKeepConsistent(q: Queue, path: string, autoProcessing: bool, reviewRequired: Option<bool>)
    requires Consistent(q) && path in q.items
    ensures var q' := q.(items := q.items[path := q.items[path].(autoProcessing := autoProcessing, reviewRequired := reviewRequired)]);
            Consistent(q') && (InStep(q) ==> InStep(q'))
  {
    var q' := q.(items := q.items[path := q.items[path].(autoProcessing := autoProcessing, reviewRequired := reviewRequired)]);
    forall p | p in q'.items ensures GoodItem(q', p) {
      assert GoodItem(q, p);
    }
    if InStep(q) {
      forall p ensures PathInStep(q', p) {
        assert PathInStep(q, p);
      }
    }
  }

  lemma AutoAcceptKeeps(q: Queue, path: string, due: set<string>)
    requires Consistent(q)
    ensures Consistent(AutoAccept(q, path, due)) && Moved(q, AutoAccept(q, path, due))
    ensures InStep(q) ==> InStep(AutoAccept(q, path, due))
  {
    if path in q.items && q.items[path].autoProcessing && path in due {
      if AcceptItem(q, q.items[path], AUTO_INDEX).Ok? {
        AcceptKeepsConsistent(q, path, AUTO_INDEX);
        if InStep(q) { AcceptKeepsInStep(q, path, AUTO_INDEX); }
      } else {
        FlagsKeepConsistent(q, path, false, Some(true));
      }
    }
  }

  lemma {:induction false} AutoAcceptsKeep(q: Queue, order: seq<string>, due: set<string>)
    requires Consistent(q)
    ensures Consistent(AutoAccepts(q, order, due)) && Moved(q, AutoAccepts(q, order, due))
    ensures InStep(q) ==> InStep(AutoAccepts(q, order, due))
  {
    if order != [] {
      AutoAcceptsKeep(q, order[..|order| - 1], due);
      AutoAcceptKeeps(AutoAccepts(q, order[..|order| - 1], due), order[|order| - 1], due);
    }
  }

  // ---------------------------------------------------------------- moving the cursor

  /** The file was not written since the last poll, or only so that no review of it is called for. */
  predicate Settled(q: Queue, path: string) {
    || Lookup(q.disk, path) == Lookup(q.scan, path)
    || (path !in q.items && !IsDiff(q.config, path, Lookup(q.accepted, path), Lookup(q.disk, path)))
  }

  /** Moving the cursor without applying the events keeps a path in step exactly if it is settled. */
  lemma SettledExactly(q: Queue, q': Queue, path: string)
    requires PathInStep(q, path) && q'.config == q.config
    requires Lookup(q'.accepted, path) == Lookup(q.accepted, path) && Lookup(q'.scan, path) == Lookup(q.disk, path)
    requires (path in q'.items <==> path in q.items) && (path in q.items ==> q'.items[path] == q.items[path])
    ensures PathInStep(q', path) <==> Settled(q, path)
  {
  }

  /** Saving the scan touches no item. */
  lemma ScanIsConsistent(q: Queue)
    requires Consistent(q)
    ensures Consistent(q.(scan := q.disk))
  {
    var q1 := q.(scan := q.disk);
    forall path | path in q1.items ensures GoodItem(q1, path) { assert GoodItem(q, path); }
  }

  lemma ScannedIsConsistent(q: Queue, events: seq<ScanEvent>, fault: Option<string>)
    requires Consistent(q)
    ensures var q' := Scanned(q, events, fault);
            && Consistent(q') && q'.config == q.config && q'.accepted == q.accepted && q'.scan == q.disk == q'.disk
            && q'.history == q.history && q'.index == q.index
  {
    ScanIsConsistent(q);
    EventsKeepConsistent(q.(scan := q.disk), events[..FirstRaise(events, fault)]);
  }

  /** The path changed, but its event was not applied. */
  ghost predicate Missed(events: seq<ScanEvent>, k: nat, path: string) {
    exists i :: k <= i < |events| && events[i].path == path
  }

  /** Once the first `k` events are applied, a path is in step exactly if it was not missed or is settled. */
  lemma ScannedPathInStep(q: Queue, q': Queue, paths: seq<string>, events: seq<ScanEvent>, k: nat, path: string)
    requires InStep(q) && Lists(paths, q.scan, q.disk) && events == EventsOver(q.scan, q.disk, paths) && k <= |events|
    requires q'.config == q.config && q'.accepted == q.accepted && q'.scan == q.disk
    requires ItemAfter(q.(scan := q.disk), q', events[..k], path)
    ensures PathInStep(q', path) <==> (Missed(events, k, path) ==> Settled(q, path))
  {
    assert PathInStep(q, path);
    EventsAreChanges(q.scan, q.disk, paths);
    if HasEvent(events[..k], path) {
      var e :| e in events[..k] && e.path == path;
      assert TellsChange(e, q.scan, q.disk) && IsItemOf(q, q', e);
      var i :| 0 <= i < k && events[i] == e;
      assert forall j | k <= j < |events| :: events[j].path != path;
    } else {
      SettledExactly(q, q', path);
      if !Missed(events, k, path) { UnchangedIsSettled(q, events, paths, k, path); }
    }
  }

  lemma AppliedOrMissed(events: seq<ScanEvent>, k: nat, path: string)
    requires k <= |events|
    ensures HasEvent(events, path) <==> HasEvent(events[..k], path) || Missed(events, k, path)
  {
    if HasEvent(events, path) {
      var e :| e in events && e.path == path;
      var i :| 0 <= i < |events| && events[i] == e;
      if i < k { assert events[..k][i] == e; }
    }
    if HasEvent(events[..k], path) {
      var e :| e in events[..k] && e.path == path;
      assert e in events;
    }
  }

  lemma UnchangedIsSettled(q: Queue, events: seq<ScanEvent>, paths: seq<string>, k: nat, path: string)
    requires Lists(paths, q.scan, q.disk) && events == EventsOver(q.scan, q.disk, paths) && k <= |events|
    requires !HasEvent(events[..k], path) && !Missed(events, k, path)
    ensures Settled(q, path)
  {
    EventsAreChanges(q.scan, q.disk, paths);
    AppliedOrMissed(events, k, path);
    assert path !in paths ==> path !in q.scan && path !in q.disk;
  }

  /** Every change whose event is not applied calls for no review. */
  ghost predicate MissesNothing(q: Queue, events: seq<ScanEvent>, k: nat) {
    forall i | k <= i < |events| :: Settled(q, events[i].path)
  }

  lemma ScannedPathExactly(q: Queue, q': Queue, paths: seq<string>, events: seq<ScanEvent>, fault: Option<string>, path: string)
    requires Consistent(q) && InStep(q) && Lists(paths, q.scan, q.disk) && events == EventsOver(q.scan, q.disk, paths)
    requires q' == Scanned(q, events, fault)
    ensures PathInStep(q', path) <==> (Missed(events, FirstRaise(events, fault), path) ==> Settled(q, path))
  {
    var k := FirstRaise(events, fault);
    ScannedIsConsistent(q, events, fault);
    EventsAreChanges(q.scan, q.disk, paths);
    EventsSetItem(q.(scan := q.disk), events[..k], path);
    ScannedPathInStep(q, q', paths, events, k, path);
  }

  lemma MissedExactly(q: Queue, q': Queue, events: seq<ScanEvent>, k: nat)
    requires k <= |events|
    requires forall path {:trigger PathInStep(q', path)} ::
               PathInStep(q', path) <==> (Missed(events, k, path) ==> Settled(q, path))
    ensures InStep(q') <==> MissesNothing(q, events, k)
  {
    if InStep(q') {
      forall i | k <= i < |events| ensures Settled(q, events[i].path) {
        assert PathInStep(q', events[i].path) && Missed(events, k, events[i].path);
      }
    }
  }

  /** Scanning keeps the queue in step exactly if every change from the raising one on is settled. */
  lemma ScanInStepExactly(q: Queue, paths: seq<string>, fault: Option<string>)
    requires Consistent(q) && InStep(q) && Lists(paths, q.scan, q.disk)
    ensures var events := EventsOver(q.scan, q.disk, paths);
            (InStep(Scanned(q, events, fault)) <==> MissesNothing(q, events, FirstRaise(events, fault)))
  {
    var events := EventsOver(q.scan, q.disk, paths);
    var k, q' := FirstRaise(events, fault), Scanned(q, events, fault);
    forall path ensures PathInStep(q', path) <==> (Missed(events, k, path) ==> Settled(q, path)) {
      ScannedPathExactly(q, q', paths, events, fault, path);
    }
    MissedExactly(q, q', events, k);
  }

  lemma PollKeeps(q: Queue, paths: seq<string>, order: seq<string>, due: set<string>, fault: Option<string>)
    requires Consistent(q) && Lists(paths, q.scan, q.disk)
    ensures var q' := Poll(q, paths, order, due, fault); Consistent(q') && q'.config == q.config && q'.scan == q.disk
  {
    var scanned := Scanned(q, EventsOver(q.scan, q.disk, paths), fault);
    ScannedIsConsistent(q, EventsOver(q.scan, q.disk, paths), fault);
    NothingToDiscard(scanned);
    AutoAcceptsKeep(scanned, order, due);
  }

  /** A poll keeps the queue in step exactly if it misses nothing; one that does not raise misses nothing. */
  lemma PollInStepExactly(q: Queue, paths: seq<string>, order: seq<string>, due: set<string>, fault: Option<string>)
    requires Consistent(q) && InStep(q) && Lists(paths, q.scan, q.disk)
    ensures var events := EventsOver(q.scan, q.disk, paths);
            (InStep(Poll(q, paths, order, due, fault)) <==> MissesNothing(q, events, FirstRaise(events, fault)))
  {
    var events := EventsOver(q.scan, q.disk, paths);
    var scanned := Scanned(q, events, fault);
    ScanInStepExactly(q, paths, fault);
    if FirstRaise(events, fault) == |events| {
      ScannedIsConsistent(q, events, fault);
      NothingToDiscard(scanned);
      AutoAcceptsKeep(scanned, order, due);
    }
  }

  // ---------------------------------------------------------------- rejecting

  lemma RejectKeepsConsistent(q: Queue, path: string)
    requires Consistent(q)
    ensures Keeps(q, Reject(q, path).0, false)
    ensures path in q.items ==> Reject(q, path).1.Ok?
  {
    if path in q.items {
      var item := q.items[path];
      assert GoodItem(q, path);
      AppendKeepsConsistent(q, Reject(q, path).0, item, RESTORE);
    }
  }

  /** Rejecting keeps the queue in step exactly when every other path is settled: the re-scan drops the
      events of all other paths. */
  lemma RejectInStepExactly(q: Queue, path: string)
    requires Consistent(q) && InStep(q) && path in q.items
    ensures InStep(Reject(q, path).0) <==> forall other | other != path :: Settled(q, other)
  {
    var q' := Reject(q, path).0;
    RejectedIsInStep(q, path);
    forall other | other != path ensures PathInStep(q', other) <==> Settled(q, other) {
      RejectElsewhere(q, path, other);
    }
  }

  lemma RejectedIsInStep(q: Queue, path: string)
    requires Consistent(q) && InStep(q) && path in q.items
    ensures PathInStep(Reject(q, path).0, path)
  {
    assert GoodItem(q, path) && PathInStep(q, path);
  }

  lemma RejectElsewhere(q: Queue, path: string, other: string)
    requires Consistent(q) && InStep(q) && path in q.items && other != path
    ensures PathInStep(Reject(q, path).0, other) <==> Settled(q, other)
  {
    assert GoodItem(q, path) && PathInStep(q, other);
    SettledExactly(q, Reject(q, path).0, other);
  }

  // ---------------------------------------------------------------- restoring

  /** The first entry of a path in a history, or its length. */
  function FirstOf(history: seq<Entry>, path: string): (i: nat)
    ensures i <= |history|
    ensures i < |history| ==> history[i].item.path == path
    ensures forall j | 0 <= j < i :: history[j].item.path != path
  {
    if history == [] || history[0].item.path == path then 0 else 1 + FirstOf(history[1..], path)
  }

  /** After undoing `targets`, a path reads as just before its first entry among them; but an accepted
      deletion leaves the file back on disk beside its reopened item. */
  ghost predicate PathRestored(q: Queue, q': Queue, targets: seq<Entry>, path: string) {
    var i := FirstOf(targets, path);
    if i == |targets| then
      && Lookup(q'.accepted, path) == Lookup(q.accepted, path) && Lookup(q'.disk, path) == Lookup(q.disk, path)
      && (path in q'.items <==> path in q.items) && (path in q.items ==> q'.items[path] == q.items[path])
    else
      var entry := targets[i];
      && path in q'.items
      && q'.items[path] == entry.item.(autoProcessing := false, reviewRequired := Some(true))
      && Lookup(q'.accepted, path) == entry.item.baseline
      && Lookup(q'.disk, path) == (if IsAcceptedDeletion(entry) then entry.item.baseline else entry.item.candidate)
  }

  lemma FirstOfSnoc(targets: seq<Entry>, entry: Entry, path: string)
    ensures FirstOf(targets + [entry], path)
         == if FirstOf(targets, path) < |targets| then FirstOf(targets, path)
            else if entry.item.path == path then |targets| else |targets| + 1
  {
    var i, all := FirstOf(targets, path), targets + [entry];
    var k := FirstOf(all, path);
    assert forall j | 0 <= j < |targets| :: all[j] == targets[j];
    assert all[|targets|] == entry;
    if k < |targets| { assert targets[k].item.path == path; }
  }

  lemma UndoLastRestoresPath(q: Queue, path: string)
    requires Consistent(q) && q.history != []
    ensures UndoLast(q).Ok? && PathRestored(q, UndoLast(q).value, [q.history[|q.history| - 1]], path)
  {
    UndoLastIsConsistent(q);
  }

  /** Undoing the last entry and then the ones before it restores the path to its first entry. */
  lemma RestoredInTurn(q: Queue, q1: Queue, q2: Queue, targets: seq<Entry>, entry: Entry, path: string)
    requires PathRestored(q, q1, [entry], path) && PathRestored(q1, q2, targets, path)
    ensures PathRestored(q, q2, targets + [entry], path)
  {
    FirstOfSnoc(targets, entry, path);
    FirstOfSnoc([], entry, path);
    assert [] + [entry] == [entry];
  }

  lemma SuffixSnoc(history: seq<Entry>, position: nat)
    requires position < |history|
    ensures history[position..] == history[..|history| - 1][position..] + [history[|history| - 1]]
  {
  }

  lemma NothingUndone(q: Queue, path: string)
    ensures PathRestored(q, q, [], path)
  {
  }

  lemma {:induction false} UndoRestoresPath(q: Queue, position: nat, path: string) returns (q': Queue)
    requires Consistent(q) && position <= |q.history|
    ensures UndoDownTo(q, position) == Ok(q') && PathRestored(q, q', q.history[position..], path)
    decreases |q.history|
  {
    if |q.history| == position {
      assert q.history[position..] == [];
      NothingToUndo(q);
      NothingUndone(q, path);
      q' := q;
    } else {
      var q1 := OnePathUndone(q, path);
      q' := UndoRestoresPath(q1, position, path);
      UndoStep(q, q1, position);
      AllRestored(q, q1, q', position, path);
    }
  }

  lemma AllRestored(q: Queue, q1: Queue, q': Queue, position: nat, path: string)
    requires position < |q.history| && q1.history == q.history[..|q.history| - 1]
    requires PathRestored(q, q1, [q.history[|q.history| - 1]], path) && PathRestored(q1, q', q1.history[position..], path)
    ensures PathRestored(q, q', q.history[position..], path)
  {
    SuffixSnoc(q.history, position);
    RestoredInTurn(q, q1, q', q1.history[position..], q.history[|q.history| - 1], path);
  }

  lemma OnePathUndone(q: Queue, path: string) returns (q1: Queue)
    requires Consistent(q) && q.history != []
    ensures UndoLast(q) == Ok(q1) && Consistent(q1) && q1.history == q.history[..|q.history| - 1]
    ensures PathRestored(q, q1, [q.history[|q.history| - 1]], path)
  {
    UndoLastIsConsistent(q);
    UndoLastRestoresPath(q, path);
    q1 := UndoLast(q).value;
  }

  /** The path's first entry among the targets is an accepted deletion. */
  ghost predicate ReopensDeletion(targets: seq<Entry>, path: string) {
    var i := FirstOf(targets, path);
    i < |targets| && IsAcceptedDeletion(targets[i])
  }

  lemma TargetIsGood(q: Queue, k: nat)
    requires Consistent(q) && k < |q.history|
    ensures WellFormedItem(q.config, q.history[k].item)
  {
    GoodPrefix(q.config, q.history, k + 1);
  }

  /** A path that is restored must not have been deleted by its first review; any other must be settled. */
  ghost predicate RestoresInStep(q: Queue, targets: seq<Entry>, path: string) {
    if FirstOf(targets, path) < |targets| then !ReopensDeletion(targets, path) else Settled(q, path)
  }

  lemma PathRestoredInStep(q: Queue, q': Queue, position: nat, path: string)
    requires Consistent(q) && PathInStep(q, path) && position <= |q.history|
    requires q'.config == q.config && q'.scan == q'.disk && PathRestored(q, q', q.history[position..], path)
    ensures PathInStep(q', path) <==> RestoresInStep(q, q.history[position..], path)
  {
    var targets := q.history[position..];
    var i := FirstOf(targets, path);
    if i < |targets| {
      assert targets[i] == q.history[position + i];
      TargetIsGood(q, position + i);
    } else {
      SettledExactly(q, q', path);
    }
  }

  /** Restoring keeps the queue in step exactly when no path it restores was first reviewed by an accepted
      deletion, and every path it leaves alone is settled. */
  lemma RestoreInStepExactly(q: Queue, id: nat)
    requires Consistent(q) && InStep(q) && EntryPosition(q.history, id) < |q.history|
    ensures InStep(RestoreBefore(q, id).0)
       <==> forall path :: RestoresInStep(q, q.history[EntryPosition(q.history, id)..], path)
  {
    var position := EntryPosition(q.history, id);
    var q' := RestoreBefore(q, id).0;
    forall path ensures PathInStep(q', path) <==> RestoresInStep(q, q.history[position..], path) {
      RestoredPathInStep(q, id, path);
    }
  }

  lemma RestoredPathInStep(q: Queue, id: nat, path: string)
    requires Consistent(q) && InStep(q) && EntryPosition(q.history, id) < |q.history|
    ensures PathInStep(RestoreBefore(q, id).0, path)
       <==> RestoresInStep(q, q.history[EntryPosition(q.history, id)..], path)
  {
    var position := EntryPosition(q.history, id);
    var q1 := UndoRestoresPath(q, position, path);
    TargetsAreRestorable(q, position);
    RestoreUndoes(q, id, q1);
    UndoDownToIsConsistent(q, position);
    assert PathInStep(q, path);
    PathRestoredInStep(q, Restored(q1, q.history[position..]), position, path);
  }

  // ---------------------------------------------------------------- runs

  datatype QueueStep =
    | Write(path: string, digest: Option<string>)
    | PollStep(paths: seq<string>, order: seq<string>, due: set<string>, fault: Option<string>)
    | AssessStep(path: string, candidate: Option<string>, reviewRequired: bool)
    | AcceptStep(path: string)
    | RejectStep(path: string)
    | HoldStep(path: string)
    | RestoreStep(id: nat)

  ghost predicate Possible(q: Queue, step: QueueStep) {
    step.PollStep? ==> Lists(step.paths, q.scan, q.disk)
  }

  function Next(q: Queue, step: QueueStep): Queue {
    match step
    case Write(path, digest) => q.(disk := Patch(q.disk, path, digest))
    case PollStep(paths, order, due, fault) => Poll(q, paths, order, due, fault)
    case AssessStep(path, candidate, reviewRequired) => Assess(q, path, candidate, reviewRequired)
    case AcceptStep(path) => Accept(q, path).0
    case RejectStep(path) => Reject(q, path).0
    case HoldStep(path) => HoldForReview(q, path)
    case RestoreStep(id) => RestoreBefore(q, id).0
  }

  /** An empty queue over any directory and any index. */
  predicate Initial(q: Queue) {
    q.accepted == map[] && q.items == map[] && q.history == [] && q.restored == [] && q.scan == map[]
  }

  ghost predicate IsRun(qs: seq<Queue>, steps: seq<QueueStep>) {
    && |qs| == |steps| + 1 && Initial(qs[0])
    && forall i | 0 <= i < |steps| :: Possible(qs[i], steps[i]) && qs[i + 1] == Next(qs[i], steps[i])
  }

  /** The step keeps the queue consistent; in step too, if `stays`. */
  ghost predicate Keeps(q: Queue, q': Queue, stays: bool) {
    Consistent(q') && q'.config == q.config && (stays && InStep(q) ==> InStep(q'))
  }

  lemma WriteKeeps(q: Queue, path: string, digest: Option<string>)
    requires Consistent(q)
    ensures Keeps(q, q.(disk := Patch(q.disk, path, digest)), true)
  {
    var q' := q.(disk := Patch(q.disk, path, digest));
    forall p | p in q'.items ensures GoodItem(q', p) { assert GoodItem(q, p); }
    if InStep(q) {
      forall p ensures PathInStep(q', p) { assert PathInStep(q, p); }
    }
  }

  lemma AssessKeeps(q: Queue, path: string, candidate: Option<string>, reviewRequired: bool)
    requires Consistent(q)
    ensures Keeps(q, Assess(q, path, candidate, reviewRequired), true)
  {
    if path in q.items { FlagsKeepConsistent(q, path, !reviewRequired, Some(reviewRequired)); }
  }

  lemma HoldingKeeps(q: Queue, path: string)
    requires Consistent(q)
    ensures Keeps(q, HoldForReview(q, path), true)
  {
    if path in q.items { FlagsKeepConsistent(q, path, false, Some(true)); }
  }

  lemma AcceptKeeps(q: Queue, path: string)
    requires Consistent(q)
    ensures Keeps(q, Accept(q, path).0, true)
  {
    if path in q.items {
      AcceptKeepsConsistent(q, path, INDEX);
      if InStep(q) { AcceptKeepsInStep(q, path, INDEX); }
    }
  }

  lemma RestoreKeeps(q: Queue, id: nat)
    requires Consistent(q)
    ensures Keeps(q, RestoreBefore(q, id).0, false)
  {
    var position := EntryPosition(q.history, id);
    if position < |q.history| {
      RestoreReplaysPrefix(q, id);
      UndoDownToIsConsistent(q, position);
    }
  }

  lemma NextKeepsConsistent(q: Queue, step: QueueStep)
    requires Consistent(q) && Possible(q, step)
    ensures Keeps(q, Next(q, step), !step.RejectStep? && !step.RestoreStep? && !step.PollStep?)
  {
    match step
    case Write(path, digest) => WriteKeeps(q, path, digest);
    case PollStep(paths, order, due, fault) => PollKeeps(q, paths, order, due, fault);
    case AssessStep(path, candidate, reviewRequired) => AssessKeeps(q, path, candidate, reviewRequired);
    case AcceptStep(path) => AcceptKeeps(q, path);
    case RejectStep(path) => RejectKeepsConsistent(q, path);
    case HoldStep(path) => HoldingKeeps(q, path);
    case RestoreStep(id) => RestoreKeeps(q, id);
  }

  /** In every state of every run the accepted map is the replay of the history, every entry names what
      was accepted before it, and every restore of a known entry succeeds. */
  lemma {:induction false} RunsAreConsistent(qs: seq<Queue>, steps: seq<QueueStep>, n: nat)
    requires IsRun(qs, steps) && n < |qs|
    ensures Consistent(qs[n]) && qs[n].config == qs[0].config
    ensures qs[n].accepted == Replay(qs[n].history)
  {
    if n > 0 {
      RunsAreConsistent(qs, steps, n - 1);
      assert qs[n] == Next(qs[n - 1], steps[n - 1]);
      NextKeepsConsistent(qs[n - 1], steps[n - 1]);
    }
  }

  /** Rejects and restores re-scan silently, and so does what is left of a poll that raises: what they leave
      alone must be settled. */
  ghost predicate Quiet(q: Queue, step: QueueStep) {
    match step
    case PollStep(paths, order, due, fault) =>
      var events := EventsOver(q.scan, q.disk, paths);
      MissesNothing(q, events, FirstRaise(events, fault))
    case RejectStep(path) => path in q.items ==> forall other | other != path :: Settled(q, other)
    case RestoreStep(id) =>
      var position := EntryPosition(q.history, id);
      position < |q.history| ==> forall path :: RestoresInStep(q, q.history[position..], path)
    case _ => true
  }

  lemma RejectKeepsInStep(q: Queue, path: string)
    requires Consistent(q) && InStep(q)
    ensures InStep(Reject(q, path).0) <==> Quiet(q, RejectStep(path))
  {
    if path in q.items { RejectInStepExactly(q, path); }
  }

  lemma RestoreKeepsInStep(q: Queue, id: nat)
    requires Consistent(q) && InStep(q)
    ensures InStep(RestoreBefore(q, id).0) <==> Quiet(q, RestoreStep(id))
  {
    if EntryPosition(q.history, id) < |q.history| { RestoreInStepExactly(q, id); }
  }

  /** A step keeps the queue in step exactly if it is quiet. */
  lemma NextKeepsInStep(q: Queue, step: QueueStep)
    requires Consistent(q) && InStep(q) && Possible(q, step)
    ensures InStep(Next(q, step)) <==> Quiet(q, step)
  {
    match step
    case PollStep(paths, order, due, fault) => PollInStepExactly(q, paths, order, due, fault);
    case RejectStep(path) => RejectKeepsInStep(q, path);
    case RestoreStep(id) => RestoreKeepsInStep(q, id);
    case _ => NextKeepsConsistent(q, step);
  }

  /** The pending queue is exactly the uncommitted diff, up to any state of any run, exactly if every step
      before it was quiet. */
  lemma {:induction false} PendingIsDiff(qs: seq<Queue>, steps: seq<QueueStep>, n: nat)
    requires IsRun(qs, steps) && n < |qs|
    ensures InStepUpTo(qs, n) <==> AllQuiet(qs, steps, n)
  {
    if n == 0 {
      forall path ensures PathInStep(qs[0], path) {}
    } else {
      PendingIsDiff(qs, steps, n - 1);
      OneStepFurther(qs, steps, n - 1);
    }
  }

  lemma OneStepFurther(qs: seq<Queue>, steps: seq<QueueStep>, n: nat)
    requires IsRun(qs, steps) && n < |steps|
    ensures InStep(qs[n]) ==> (InStep(qs[n + 1]) <==> Quiet(qs[n], steps[n]))
  {
    var q, step := qs[n], steps[n];
    RunsAreConsistent(qs, steps, n);
    assert Possible(q, step) && qs[n + 1] == Next(q, step);
    if InStep(q) { NextKeepsInStep(q, step); }
  }

  ghost predicate InStepUpTo(qs: seq<Queue>, n: nat)
    requires n < |qs|
  {
    InStep(qs[n]) && (n > 0 ==> InStepUpTo(qs, n - 1))
  }

  ghost predicate AllQuiet(qs: seq<Queue>, steps: seq<QueueStep>, n: nat)
    requires n <= |steps| < |qs|
  {
    n > 0 ==> Quiet(qs[n - 1], steps[n - 1]) && AllQuiet(qs, steps, n - 1)
  }

  // ---------------------------------------------------------------- the index over whole runs

  lemma ReindexedCongruence(config: QueueConfig, a: Index, b: Index, entry: Entry)
    requires SameLists(a, b)
    ensures SameLists(Reindexed(config, a, entry), Reindexed(config, b, entry))
  {
    var item, document := entry.item, DocumentOf(entry.item.path);
    assert VersionsOf(a, document) == VersionsOf(b, document);
    forall d ensures VersionsOf(Reindexed(config, a, entry), d) == VersionsOf(Reindexed(config, b, entry), d) {
      assert VersionsOf(a, d) == VersionsOf(b, d);
      if Commits(entry) && item.change == Deletion {
        var current := CurrentOf(a, document);
        if current.Some? {
          RemovedList(a, document, current.value, d);
          RemovedList(b, document, current.value, d);
        }
      } else if Commits(entry) && item.candidate.Some? {
        var version := VersionFor(config, item.path, item.candidate.value);
        if version.Some? {
          StoredList(a, document, version.value, d);
          StoredList(b, document, version.value, d);
        }
      }
    }
  }

  lemma AcceptReplays(q: Queue, start: Index, path: string, action: Action)
    requires Consistent(q) && IndexReplays(q, start) && path in q.items && action != RESTORE
    ensures var r := AcceptItem(q, q.items[path], action); r.Ok? ==> IndexReplays(r.value, start)
  {
    var r := AcceptItem(q, q.items[path], action);
    assert GoodItem(q, path);
    if r.Ok? {
      var entry := Entry(q.nextId, q.items[path], action, Lookup(q.accepted, path));
      assert r.value.index == Reindexed(q.config, q.index, entry);
      EntryReplays(q, r.value, start, entry);
    }
  }

  lemma EntryReplays(q: Queue, q': Queue, start: Index, entry: Entry)
    requires IndexReplays(q, start) && q'.config == q.config && q'.history == q.history + [entry]
    requires q'.index == Reindexed(q.config, q.index, entry)
    ensures IndexReplays(q', start)
  {
    assert q'.history[..|q.history|] == q.history;
    ReindexedCongruence(q.config, q.index, ReplayIndex(q.config, start, q.history), entry);
  }

  lemma {:induction false} AutoAcceptsReplay(q: Queue, start: Index, order: seq<string>, due: set<string>)
    requires Consistent(q) && IndexReplays(q, start)
    ensures IndexReplays(AutoAccepts(q, order, due), start)
  {
    if order != [] {
      var q1 := AutoAccepts(q, order[..|order| - 1], due);
      AutoAcceptsReplay(q, start, order[..|order| - 1], due);
      AutoAcceptsKeep(q, order[..|order| - 1], due);
      if order[|order| - 1] in q1.items {
        AcceptReplays(q1, start, order[|order| - 1], AUTO_INDEX);
      }
    }
  }

  lemma PollReplays(q: Queue, start: Index, paths: seq<string>, order: seq<string>, due: set<string>, fault: Option<string>)
    requires Consistent(q) && IndexReplays(q, start)
    ensures IndexReplays(Poll(q, paths, order, due, fault), start)
  {
    var scanned := Scanned(q, EventsOver(q.scan, q.disk, paths), fault);
    ScannedIsConsistent(q, EventsOver(q.scan, q.disk, paths), fault);
    NothingToDiscard(scanned);
    AutoAcceptsReplay(scanned, start, order, due);
  }

  lemma RejectReplays(q: Queue, start: Index, path: string)
    requires Consistent(q) && IndexReplays(q, start)
    ensures IndexReplays(Reject(q, path).0, start)
  {
    var q' := Reject(q, path).0;
    if q'.history != q.history {
      assert q'.history[..|q.history|] == q.history;
    }
  }

  /** A restore that loses no version stored where it stops. */
  ghost predicate ExactRestore(q: Queue, start: Index, step: QueueStep) {
    step.RestoreStep? ==>
      var position := EntryPosition(q.history, step.id);
      position < |q.history| ==> LosesNothing(ReplayIndex(q.config, start, q.history[..position]), q.history[position..])
  }

  lemma SameReplays(q: Queue, q': Queue, start: Index)
    requires IndexReplays(q, start) && q'.index == q.index && q'.history == q.history && q'.config == q.config
    ensures IndexReplays(q', start)
  {
  }

  lemma FlagsReplay(q: Queue, start: Index, path: string, candidate: Option<string>, reviewRequired: bool)
    requires IndexReplays(q, start)
    ensures IndexReplays(Assess(q, path, candidate, reviewRequired), start) && IndexReplays(HoldForReview(q, path), start)
  {
    SameReplays(q, Assess(q, path, candidate, reviewRequired), start);
    SameReplays(q, HoldForReview(q, path), start);
  }

  lemma AcceptingReplays(q: Queue, start: Index, path: string)
    requires Consistent(q) && IndexReplays(q, start)
    ensures IndexReplays(Accept(q, path).0, start)
  {
    if path in q.items { AcceptReplays(q, start, path, INDEX); }
  }

  lemma RestoreReplays(q: Queue, start: Index, id: nat)
    requires Consistent(q) && IndexReplays(q, start)
    ensures IndexReplays(RestoreBefore(q, id).0, start) <==> ExactRestore(q, start, RestoreStep(id))
  {
    var position := EntryPosition(q.history, id);
    if position < |q.history| {
      RestoreRestoresIndexExactly(q, start, id);
      RestoreReplaysPrefix(q, id);
      UndoDownToIsConsistent(q, position);
    }
  }

  lemma NextReplays(q: Queue, start: Index, step: QueueStep)
    requires Consistent(q) && IndexReplays(q, start) && Possible(q, step)
    ensures IndexReplays(Next(q, step), start) <==> ExactRestore(q, start, step)
  {
    match step
    case Write(path, digest) => SameReplays(q, q.(disk := Patch(q.disk, path, digest)), start);
    case PollStep(paths, order, due, fault) => PollReplays(q, start, paths, order, due, fault);
    case AssessStep(path, candidate, reviewRequired) => FlagsReplay(q, start, path, candidate, reviewRequired);
    case AcceptStep(path) => AcceptingReplays(q, start, path);
    case RejectStep(path) => RejectReplays(q, start, path);
    case HoldStep(path) => FlagsReplay(q, start, path, None, false);
    case RestoreStep(id) => RestoreReplays(q, start, id);
  }

  /** Up to any state of any run, the index is what the history makes of the index at the start, exactly if
      no restore before it lost a version stored where it stopped. */
  lemma {:induction false} IndexIsHistory(qs: seq<Queue>, steps: seq<QueueStep>, n: nat)
    requires IsRun(qs, steps) && n < |qs| && WellFormed(qs[0].index)
    ensures ReplaysUpTo(qs, n) <==> AllExact(qs, steps, n)
  {
    if n > 0 {
      IndexIsHistory(qs, steps, n - 1);
      OneReplayFurther(qs, steps, n - 1);
    }
  }

  lemma OneReplayFurther(qs: seq<Queue>, steps: seq<QueueStep>, n: nat)
    requires IsRun(qs, steps) && n < |steps|
    ensures IndexReplays(qs[n], qs[0].index) ==>
              (IndexReplays(qs[n + 1], qs[0].index) <==> ExactRestore(qs[n], qs[0].index, steps[n]))
  {
    var q, step, start := qs[n], steps[n], qs[0].index;
    RunsAreConsistent(qs, steps, n);
    assert Possible(q, step) && qs[n + 1] == Next(q, step);
    if IndexReplays(q, start) { NextReplays(q, start, step); }
  }

  ghost predicate ReplaysUpTo(qs: seq<Queue>, n: nat)
    requires n < |qs|
  {
    IndexReplays(qs[n], qs[0].index) && (n > 0 ==> ReplaysUpTo(qs, n - 1))
  }

  ghost predicate AllExact(qs: seq<Queue>, steps: seq<QueueStep>, n: nat)
    requires n <= |steps| < |qs|
  {
    n > 0 ==> ExactRestore(qs[n - 1], qs[0].index, steps[n - 1]) && AllExact(qs, steps, n - 1)
  }

  /** While the index is the history's, everything accepted is current in it. */
  lemma AcceptedIsCurrent(q: Queue, start: Index)
    requires Consistent(q) && IndexReplays(q, start)
    ensures Anchored(q.config, q.accepted, q.index)
  {
    ReplayIsAnchored(q.config, start, q.history);
  }

  /** Accepting a deletion whose document keeps an older version leaves that version current, so a later
      addition of the path cannot be accepted: it expects no current version. */
  lemma AdditionNeedsEmptyDocument(q: Queue, path: string)
    requires Consistent(q) && path in q.items && q.items[path].change == Addition
    requires VersionFor(q.config, path, q.items[path].candidate.value).Some?
    ensures Accept(q, path).1.Ok? <==> VersionsOf(q.index, DocumentOf(path)) == []
  {
    assert GoodItem(q, path);
  }
}
