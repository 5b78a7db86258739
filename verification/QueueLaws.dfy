/** What the steps of the review queue do on any queue, consistent or not: which changes are pending, what a
    poll drops, and where a restore or a reject stops. */
module QueueLaws {
  import opened Wrappers
  import opened VersionedIndex
  import opened Scanner
  import opened ChangeQueue
  import opened QueueHistory
  import opened QueueSafety

  // ---------------------------------------------------------------- what is pending

  /** Both files are there, can be extracted, and read the same. */
  ghost predicate ReadAlike(config: QueueConfig, path: string, a: Option<string>, b: Option<string>) {
    exists text: string ::
      a.Some? && b.Some? && config.extract(path, a.value) == Some(text) && config.extract(path, b.value) == Some(text)
  }

  lemma SameTextExactly(config: QueueConfig, path: string, a: Option<string>, b: Option<string>)
    ensures SameText(config, path, a, b) <==> ReadAlike(config, path, a, b)
  {
    if SameText(config, path, a, b) {
      assert config.extract(path, a.value) == Some(config.extract(path, a.value).value);
    }
  }

  /** While the queue is in step, a path is pending exactly if its file was added, removed or changed since it
      was accepted, and does not read as it did; and the item says which of the three it is. */
  lemma PendingExactly(q: Queue, path: string)
    requires InStep(q)
    ensures var accepted, found := Lookup(q.accepted, path), Lookup(q.scan, path);
            && (path in q.items <==> accepted != found && !ReadAlike(q.config, path, accepted, found))
            && (path in q.items ==>
                  var item := q.items[path];
                  && item.baseline == accepted && item.candidate == found
                  && (item.change == Addition <==> path !in q.accepted && path in q.scan)
                  && (item.change == Modification <==> path in q.accepted && path in q.scan)
                  && (item.change == Deletion <==> path in q.accepted && path !in q.scan))
  {
    assert PathInStep(q, path);
    SameTextExactly(q.config, path, Lookup(q.accepted, path), Lookup(q.scan, path));
  }

  // ---------------------------------------------------------------- what a poll drops

  /** The item's two files read the same. */
  ghost predicate IsReverted(config: QueueConfig, path: string, item: Item) {
    ReadAlike(config, path, item.baseline, item.candidate)
  }

  lemma DiscardsExactly(q: Queue, path: string)
    ensures path in DiscardReverted(q).items <==> path in q.items && !IsReverted(q.config, path, q.items[path])
    ensures path in DiscardReverted(q).items ==> DiscardReverted(q).items[path] == q.items[path]
  {
    if path in q.items { SameTextExactly(q.config, path, q.items[path].baseline, q.items[path].candidate); }
  }

  /** Every item of the second queue is one of the first, but for its flags. */
  ghost predicate OnlyFlagged(q: Queue, q': Queue) {
    && q'.config == q.config
    && forall path | path in q'.items ::
         path in q.items && q'.items[path].baseline == q.items[path].baseline && q'.items[path].candidate == q.items[path].candidate
  }

  lemma {:induction false} AutoAcceptsOnlyFlag(q: Queue, order: seq<string>, due: set<string>)
    ensures OnlyFlagged(q, AutoAccepts(q, order, due))
  {
    if order != [] { AutoAcceptsOnlyFlag(q, order[..|order| - 1], due); }
  }

  /** After a poll that does not raise no item is left whose two files read the same, however it came there. */
  lemma PollDropsReverted(q: Queue, paths: seq<string>, order: seq<string>, due: set<string>, fault: Option<string>, path: string)
    requires FirstRaise(EventsOver(q.scan, q.disk, paths), fault) == |EventsOver(q.scan, q.disk, paths)|
    requires path in Poll(q, paths, order, due, fault).items
    ensures !IsReverted(Poll(q, paths, order, due, fault).config, path, Poll(q, paths, order, due, fault).items[path])
  {
    var scanned := Scanned(q, EventsOver(q.scan, q.disk, paths), fault);
    AutoAcceptsOnlyFlag(DiscardReverted(scanned), order, due);
    DiscardsExactly(scanned, path);
  }

  // ---------------------------------------------------------------- where a reject or a restore stops

  /** A change or a deletion whose baseline was never kept cannot be rejected, and nothing happens. */
  lemma RejectNeedsBaseline(q: Queue, path: string)
    ensures var (q', result) := Reject(q, path);
            && (result.Ok? <==> path in q.items && (q.items[path].change == Addition || q.items[path].baseline.Some?))
            && (result.Err? ==> q' == q)
            && (result.Ok? && q.items[path].path == path ==>
                  Lookup(q'.disk, path) == if q.items[path].change == Addition then None else q.items[path].baseline)
  {
  }

  /** The digest is one that some of the entries need to be undone. */
  ghost predicate IsNeeded(entries: seq<Entry>, sha: string) {
    exists i :: 0 <= i < |entries| && (entries[i].item.baseline == Some(sha) || entries[i].item.candidate == Some(sha))
  }

  /** A restore that needs a snapshot which is gone changes nothing at all. */
  lemma RestoreNeedsSnapshots(q: Queue, id: nat, sha: string)
    requires EntryPosition(q.history, id) < |q.history|
    requires IsNeeded(q.history[EntryPosition(q.history, id)..], sha) && sha !in q.snapshots
    ensures RestoreBefore(q, id) == (q, Err(MissingSnapshot))
  {
    var entries := q.history[EntryPosition(q.history, id)..];
    var i :| 0 <= i < |entries| && (entries[i].item.baseline == Some(sha) || entries[i].item.candidate == Some(sha));
    assert entries[i] in entries;
  }

  /** `q1` is `q` undone down to the entry at `k`, which cannot be undone. */
  ghost predicate StopsAt(q: Queue, position: nat, k: nat, q1: Queue) {
    position <= k < |q.history| && UndoDownTo(q, k + 1) == Ok(q1) && q1.history == q.history[..k + 1] && UndoLast(q1).Err?
  }

  lemma {:induction false} UndoStops(q: Queue, position: nat) returns (k: nat, q1: Queue)
    requires position <= |q.history| && UndoDownTo(q, position).Err?
    ensures StopsAt(q, position, k, q1)
    ensures HalfUndone(q, position) == Interrupted(q1, q.history[k]) && UndoDownTo(q, position).error == UndoLast(q1).error
    decreases |q.history|
  {
    var last := |q.history| - 1;
    if UndoLast(q).Err? {
      k, q1 := last, q;
      NothingToUndo(q);
      assert q.history[..last + 1] == q.history;
    } else {
      var next := UndoLast(q).value;
      k, q1 := UndoStops(next, position);
      UndoStep(q, next, k + 1);
      assert next.history[..k + 1] == q.history[..k + 1];
    }
  }

  /** A restore that fails midway has undone every entry behind the one that cannot be undone, and put that one's
      file back if it is an accepted deletion whose baseline was kept; the history is as it was. */
  lemma RestoreStops(q: Queue, id: nat) returns (k: nat, q1: Queue)
    requires var position := EntryPosition(q.history, id);
             position < |q.history| && Restorable(q.snapshots, q.history[position..]) && UndoDownTo(q, position).Err?
    ensures StopsAt(q, EntryPosition(q.history, id), k, q1)
    ensures var (q', result), entry := RestoreBefore(q, id), q.history[k]; var path := entry.item.path;
            && result.Err? && q'.history == q.history && q'.scan == q.scan && q'.restored == q.restored
            && q'.accepted == q1.accepted && q'.items == q1.items && q'.index == q1.index
            && (forall other | other != path :: Lookup(q'.disk, other) == Lookup(q1.disk, other))
            && Lookup(q'.disk, path) == if entry.action != RESTORE && entry.item.change == Deletion && entry.item.baseline.Some?
                                        then entry.item.baseline else Lookup(q1.disk, path)
  {
    k, q1 := UndoStops(q, EntryPosition(q.history, id));
    UndoKeepsCursor(q, k + 1);
  }

  lemma {:induction false} UndoKeepsCursor(q: Queue, position: nat)
    requires position <= |q.history| && UndoDownTo(q, position).Ok?
    ensures UndoDownTo(q, position).value.scan == q.scan && UndoDownTo(q, position).value.restored == q.restored
    decreases |q.history|
  {
    if |q.history| == position {
      NothingToUndo(q);
    } else {
      UndoStep(q, UndoLast(q).value, position);
      UndoKeepsCursor(UndoLast(q).value, position);
    }
  }
}
