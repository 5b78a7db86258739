/** The queue of `change_queue.py` as the program runs it: dictionaries, files and an index changed in
    place. Every method is proved against the step of the same name. */
module WatchedDirectory {
  import opened Wrappers
  import opened VersionedIndex
  import opened Scanner
  import opened ChangeQueue
  import SqliteIndexer

  class DirectoryChangeQueue {
    const config: QueueConfig
    const indexer: SqliteIndexer.Indexer
    var accepted: Snapshot
    var items: map<string, Item>
    var history: seq<Entry>
    var restored: seq<nat>
    var scan: Snapshot
    var disk: Snapshot
    var snapshots: set<string>
    var nextId: nat

    constructor (config: QueueConfig, indexer: SqliteIndexer.Indexer, disk: Snapshot)
      requires indexer.Valid() && indexer.chunkSize == config.chunkSize && indexer.chunkOverlap == config.chunkOverlap
      ensures Valid() && State() == Queue(config, map[], map[], [], [], map[], disk, {}, indexer.index, 0)
      ensures this.indexer == indexer
    {
      this.config, this.indexer, this.disk := config, indexer, disk;
      accepted, items, history, restored, scan, snapshots, nextId := map[], map[], [], [], map[], {}, 0;
    }

    ghost predicate Valid()
      reads this, indexer
    {
      indexer.Valid() && indexer.chunkSize == config.chunkSize && indexer.chunkOverlap == config.chunkOverlap
    }

    ghost function State(): Queue
      reads this, indexer
    {
      Queue(config, accepted, items, history, restored, scan, disk, snapshots, indexer.index, nextId)
    }

    // ---------------------------------------------------------------- polling

    /** `_apply_event`: capturing the file may raise, before anything changed. */
    method ApplyEvent(event: ScanEvent, fault: Option<string>) returns (raised: bool)
      requires Valid()
      modifies this
      ensures Valid() && raised == Raises(event, fault)
      ensures State() == if raised then old(State()) else ChangeQueue.ApplyEvent(old(State()), event)
    {
      var path, candidate, before := event.path, After(event), Lookup(accepted, event.path);
      raised := Raises(event, fault);
      if raised {
        return;
      }
      if candidate.Some? {
        snapshots := snapshots + {candidate.value};
      }
      if before.Some? && candidate == before {
        items := items - {path};
        return;
      }
      if candidate.None? && before.None? {
        items := items - {path};
        return;
      }
      var change;
      if candidate.None? {
        change := Deletion;
      } else if before.None? {
        change := Addition;
      } else {
        change := Modification;
      }
      if SameText(config, path, before, candidate) {
        items := items - {path};
        return;
      }
      items := items[path := Item(path, change, before, candidate, false, None)];
    }

    /** The events in turn, up to one that raises. */
    method ApplyEvents(events: seq<ScanEvent>, fault: Option<string>) returns (raised: bool)
      requires Valid()
      modifies this
      ensures Valid() && raised == (FirstRaise(events, fault) < |events|)
      ensures State() == ChangeQueue.ApplyEvents(old(State()), events[..FirstRaise(events, fault)])
    {
      ghost var start := State();
      for i := 0 to |events|
        invariant Valid() && State() == ChangeQueue.ApplyEvents(start, events[..i])
        invariant forall j | 0 <= j < i :: !Raises(events[j], fault)
      {
        assert events[..i + 1][..i] == events[..i];
        raised := ApplyEvent(events[i], fault);
        if raised {
          assert FirstRaise(events, fault) == i;
          return;
        }
      }
      assert FirstRaise(events, fault) == |events|;
      return false;
    }

    /** `poll_once`. */
    method PollOnce(paths: seq<string>, order: seq<string>, due: set<string>, fault: Option<string>)
      requires Valid()
      modifies this, indexer
      ensures Valid() && State() == Poll(old(State()), paths, order, due, fault)
    {
      var events := Events(scan, disk, paths);
      scan := disk;
      var raised := ApplyEvents(events, fault);
      if raised {
        return;
      }
      DiscardReverted();
      AutoAccepts(order, due);
    }

    /** `_discard_textually_reverted_items_locked`. */
    method DiscardReverted()
      requires Valid()
      modifies this
      ensures Valid() && State() == ChangeQueue.DiscardReverted(old(State()))
    {
      items := map path | path in items && !SameText(config, path, items[path].baseline, items[path].candidate) :: items[path];
    }

    /** `_process_due_auto_indexes_locked`. */
    method AutoAccepts(order: seq<string>, due: set<string>)
      requires Valid()
      modifies this, indexer
      ensures Valid() && State() == ChangeQueue.AutoAccepts(old(State()), order, due)
    {
      ghost var kept := State();
      for i := 0 to |order|
        invariant Valid() && State() == ChangeQueue.AutoAccepts(kept, order[..i], due)
      {
        assert order[..i + 1][..i] == order[..i];
        AutoAccept(order[i], due);
      }
      assert order[..|order|] == order;
    }

    method AutoAccept(path: string, due: set<string>)
      requires Valid()
      modifies this, indexer
      ensures Valid() && State() == ChangeQueue.AutoAccept(old(State()), path, due)
    {
      if path !in items || !items[path].autoProcessing || path !in due {
        return;
      }
      var item := items[path];
      var error := AcceptItem(item, AUTO_INDEX);
      if error.Some? {
        items := items[path := item.(autoProcessing := false, reviewRequired := Some(true))];
      }
    }

    // ---------------------------------------------------------------- accepting

    /** The index part of `_accept_locked`. */
    method IndexItem(item: Item) returns (error: Option<QueueError>)
      requires Valid()
      modifies indexer
      ensures Valid()
      ensures match ChangeQueue.IndexItem(old(State()), item)
              case Ok(index) => error == None && State() == old(State()).(index := index)
              case Err(e) => error == Some(e) && State() == old(State())
    {
      if item.change == Deletion {
        RemoveCurrent(DocumentOf(item.path));
        return None;
      }
      if item.candidate.None? {
        return Some(MissingSnapshot);
      }
      error := IndexCandidate(item);
    }

    method RemoveCurrent(document: string)
      requires Valid()
      modifies indexer
      ensures Valid()
      ensures var index := old(State()).index;
              State() == old(State()).(index := if CurrentOf(index, document).Some?
                                                then Removed(index, document, CurrentOf(index, document).value) else index)
    {
      var current := indexer.GetCurrent(document);
      if current.Some? {
        var _ := indexer.RemoveAtomic(document, current.value, false);
      }
    }

    method IndexCandidate(item: Item) returns (error: Option<QueueError>)
      requires Valid() && item.change != Deletion && item.candidate.Some?
      modifies indexer
      ensures Valid()
      ensures match ChangeQueue.IndexItem(old(State()), item)
              case Ok(index) => error == None && State() == old(State()).(index := index)
              case Err(e) => error == Some(e) && State() == old(State())
    {
      var text := config.extract(item.path, item.candidate.value);
      if text.None? {
        return Some(ExtractionFailed);
      }
      var result := indexer.IndexAtomic(DocumentOf(item.path), item.candidate.value, text.value,
                                        SqliteIndexer.Expect(item.baseline), None);
      return if result.Err? then Some(IndexFailed(result.error)) else None;
    }

    method AppendHistory(item: Item, action: Action, acceptedBefore: Option<string>)
      modifies this`history, this`nextId
      ensures State() == Record(old(State()), item, action, acceptedBefore)
    {
      history := history + [Entry(nextId, item, action, acceptedBefore)];
      nextId := nextId + 1;
    }

    /** `_accept_locked`. */
    method AcceptItem(item: Item, action: Action) returns (error: Option<QueueError>)
      requires Valid()
      modifies this, indexer
      ensures Valid()
      ensures match ChangeQueue.AcceptItem(old(State()), item, action)
              case Ok(q) => error == None && State() == q
              case Err(e) => error == Some(e) && State() == old(State())
    {
      var acceptedBefore := Lookup(accepted, item.path);
      error := IndexItem(item);
      if error.Some? {
        return;
      }
      if item.change == Deletion {
        accepted := accepted - {item.path};
      } else {
        accepted := accepted[item.path := item.candidate.value];
      }
      items := items - {item.path};
      AppendHistory(item, action, acceptedBefore);
    }

    method Accept(path: string) returns (result: Result<(), QueueError>)
      requires Valid()
      modifies this, indexer
      ensures Valid() && (State(), result) == ChangeQueue.Accept(old(State()), path)
    {
      if path !in items {
        return Err(UnknownKey);
      }
      var error := AcceptItem(items[path], INDEX);
      return if error.Some? then Err(error.value) else Ok(());
    }

    // ---------------------------------------------------------------- holding and rejecting

    method HoldForReview(path: string) returns (result: Result<Item, QueueError>)
      requires Valid()
      modifies this
      ensures Valid() && State() == ChangeQueue.HoldForReview(old(State()), path)
      ensures result == if path in old(items) then Ok(items[path]) else Err(UnknownKey)
    {
      if path !in items {
        return Err(UnknownKey);
      }
      items := items[path := items[path].(autoProcessing := false, reviewRequired := Some(true))];
      return Ok(items[path]);
    }

    method RestoreToBaseline(item: Item)
      modifies this`disk
      ensures State() == old(State()).(disk := RestoredToBaseline(old(disk), item))
    {
      if item.change == Addition {
        disk := disk - {item.path};
      } else if item.baseline.Some? {
        disk := disk[item.path := item.baseline.value];
      } else {
        disk := disk - {item.path};
      }
    }

    method Reject(path: string) returns (result: Result<(), QueueError>)
      requires Valid()
      modifies this
      ensures Valid() && (State(), result) == ChangeQueue.Reject(old(State()), path)
    {
      if path !in items {
        return Err(UnknownKey);
      }
      var item := items[path];
      if item.change != Addition && item.baseline.None? {
        return Err(MissingSnapshot);
      }
      var acceptedBefore := Lookup(accepted, path);
      RestoreToBaseline(item);
      items := items - {path};
      AppendHistory(item, RESTORE, acceptedBefore);
      scan := disk;
      return Ok(());
    }

    // ---------------------------------------------------------------- undoing history

    /** `_undo_index_locked`, as far as the index goes. */
    method UnindexEntry(entry: Entry) returns (error: Option<QueueError>)
      requires Valid()
      modifies indexer
      ensures Valid()
      ensures match ChangeQueue.UnindexEntry(old(State()), entry)
              case Ok(index) => error == None && State() == old(State()).(index := index)
              case Err(e) => error == Some(e) && State() == old(State())
    {
      var item, document := entry.item, DocumentOf(entry.item.path);
      if entry.action == RESTORE {
        return None;
      }
      if item.change != Deletion {
        if item.candidate.Some? {
          var _ := indexer.RemoveAtomic(document, item.candidate.value, false);
        }
        return None;
      }
      if item.baseline.None? {
        return Some(MissingSnapshot);
      }
      var text := config.extract(item.path, item.baseline.value);
      if text.None? {
        return Some(ExtractionFailed);
      }
      var current := indexer.GetCurrent(document);
      var result := indexer.IndexAtomic(document, item.baseline.value, text.value, SqliteIndexer.Expect(current), None);
      return if result.Err? then Some(IndexFailed(result.error)) else None;
    }

    /** `_undo_history_entry_locked`: an undo that raises has put a deleted file back already. */
    method UndoEntry(entry: Entry) returns (error: Option<QueueError>)
      requires Valid()
      modifies this, indexer
      ensures Valid()
      ensures match ChangeQueue.UndoEntry(old(State()), entry)
              case Ok(q) => error == None && State() == q
              case Err(e) => error == Some(e) && State() == Interrupted(old(State()), entry)
    {
      var item := entry.item;
      var deleted := entry.action != RESTORE && item.change == Deletion;
      if deleted && item.baseline.Some? {
        RestoreToBaseline(item);
      }
      error := UnindexEntry(entry);
      if error.Some? {
        return;
      }
      if !deleted {
        disk := Patch(disk, item.path, item.candidate);
      }
      if entry.acceptedBefore.None? {
        accepted := accepted - {item.path};
      } else {
        accepted := accepted[item.path := entry.acceptedBefore.value];
      }
      items := items[item.path := item.(autoProcessing := false, reviewRequired := Some(true))];
    }

    /** The loop of `restore_history_before`, last entry first. */
    method UndoDownTo(position: nat) returns (error: Option<QueueError>)
      requires Valid() && position <= |history|
      modifies this, indexer
      ensures Valid()
      ensures match ChangeQueue.UndoDownTo(old(State()), position)
              case Ok(q) => error == None && State() == q
              case Err(e) => error == Some(e) && State() == HalfUndone(old(State()), position)
    {
      ghost var before := State();
      while |history| > position
        invariant Valid() && position <= |history|
        invariant HalfUndone(State(), position) == HalfUndone(before, position)
        invariant ChangeQueue.UndoDownTo(State(), position) == ChangeQueue.UndoDownTo(before, position)
        decreases |history|
      {
        error := UndoLast();
        if error.Some? {
          return;
        }
      }
      error := None;
    }

    method UndoLast() returns (error: Option<QueueError>)
      requires Valid() && history != []
      modifies this, indexer
      ensures Valid()
      ensures match ChangeQueue.UndoLast(old(State()))
              case Ok(q) => error == None && State() == q
              case Err(e) => error == Some(e) && State() == Interrupted(old(State()), old(history[|history| - 1]))
    {
      error := UndoEntry(history[|history| - 1]);
      if error.None? {
        history := history[..|history| - 1];
      }
    }

    /** `restore_history_before`. */
    method RestoreHistoryBefore(id: nat) returns (result: Result<nat, QueueError>)
      requires Valid()
      modifies this, indexer
      ensures Valid()
      ensures var (q, r) := RestoreBefore(old(State()), id); result == r && State() == q
    {
      var position := FindEntry(id);
      if position == |history| {
        return if id in restored then Ok(0) else Err(UnknownKey);
      }
      result := RestoreTargets(position);
    }

    /** The part of it behind the search for the entry. */
    method RestoreTargets(position: nat) returns (result: Result<nat, QueueError>)
      requires Valid() && position <= |history|
      modifies this, indexer
      ensures Valid()
      ensures var (q, r) := RestoreFrom(old(State()), position); result == r && State() == q
    {
      var targets := history[position..];
      if !Restorable(snapshots, targets) {
        return Err(MissingSnapshot);
      }
      var entries := history;
      var error := UndoDownTo(position);
      if error.Some? {
        history := entries;
        return Err(error.value);
      }
      RememberRestored(targets);
      return Ok(|targets|);
    }

    /** The end of a restore: the identifiers are remembered, the last 256 of them, and the cursor moves. */
    method RememberRestored(targets: seq<Entry>)
      requires Valid()
      modifies this
      ensures Valid() && State() == Restored(old(State()), targets)
    {
      restored := restored + Ids(targets);
      if |restored| > RESTORED_WINDOW {
        restored := restored[|restored| - RESTORED_WINDOW..];
      }
      scan := disk;
    }

    method FindEntry(id: nat) returns (position: nat)
      ensures position == EntryPosition(history, id)
    {
      for i := 0 to |history|
        invariant EntryPosition(history, id) == i + EntryPosition(history[i..], id)
      {
        if history[i].id == id {
          return i;
        }
        assert history[i..][1..] == history[i + 1..];
      }
      return |history|;
    }
  }
}
