/** The history of the queue is a complete account: the accepted map and the index are its replay,
    and undoing entries takes both back exactly. */
module QueueHistory {
  import opened Wrappers
  import opened VersionedIndex
  import opened Scanner
  import opened ChangeQueue

  // ---------------------------------------------------------------- replaying

  predicate Commits(entry: Entry) {
    entry.action != RESTORE
  }

  /** The accepted map as the history tells it. */
  function Replay(history: seq<Entry>): Snapshot {
    if history == [] then map[]
    else
      var before, last := Replay(history[..|history| - 1]), history[|history| - 1];
      if Commits(last) then Committed(before, last.item) else before
  }

  /** The index as the history tells it, from the index at the beginning. */
  function ReplayIndex(config: QueueConfig, start: Index, history: seq<Entry>): Index {
    if history == [] then start
    else Reindexed(config, ReplayIndex(config, start, history[..|history| - 1]), history[|history| - 1])
  }

  function Reindexed(config: QueueConfig, index: Index, entry: Entry): Index {
    var item, document := entry.item, DocumentOf(entry.item.path);
    if !Commits(entry) then index
    else if item.change == Deletion then
      var current := CurrentOf(index, document);
      if current.Some? then Removed(index, document, current.value) else index
    else if item.candidate.None? then index
    else
      var version := VersionFor(config, item.path, item.candidate.value);
      if version.Some? then Stored(index, document, version.value) else index
  }

  // ---------------------------------------------------------------- the invariant

  predicate WellFormedItem(config: QueueConfig, item: Item) {
    && IsDiff(config, item.path, item.baseline, item.candidate)
    && item.change == ChangeOf(item.baseline, item.candidate)
  }

  /** The entry was applied to `accepted`, and what it committed can be indexed. */
  predicate GoodEntry(config: QueueConfig, accepted: Snapshot, entry: Entry) {
    var item := entry.item;
    && WellFormedItem(config, item)
    && entry.acceptedBefore == item.baseline == Lookup(accepted, item.path)
    && (Commits(entry) && item.candidate.Some? ==> VersionFor(config, item.path, item.candidate.value).Some?)
  }

  predicate GoodHistory(config: QueueConfig, history: seq<Entry>) {
    history != [] ==>
      && GoodHistory(config, history[..|history| - 1])
      && GoodEntry(config, Replay(history[..|history| - 1]), history[|history| - 1])
  }

  predicate Kept(snapshots: set<string>, item: Item) {
    && (item.baseline.Some? ==> item.baseline.value in snapshots)
    && (item.candidate.Some? ==> item.candidate.value in snapshots)
  }

  predicate GoodItem(q: Queue, path: string)
    requires path in q.items
  {
    var item := q.items[path];
    && item.path == path && WellFormedItem(q.config, item)
    && item.baseline == Lookup(q.accepted, path) && Kept(q.snapshots, item)
  }

  ghost predicate GoodIds(q: Queue) {
    && (forall i | 0 <= i < |q.history| :: q.history[i].id < q.nextId && q.history[i].id !in q.restored)
    && (forall i, j | 0 <= i < j < |q.history| :: q.history[i].id != q.history[j].id)
    && (forall id | id in q.restored :: id < q.nextId)
  }

  /** Holds in every state of every run: no guard on the steps is needed. */
  ghost predicate Consistent(q: Queue) {
    && q.accepted == Replay(q.history) && GoodHistory(q.config, q.history)
    && (forall path | path in q.items :: GoodItem(q, path))
    && (forall e | e in q.history :: Kept(q.snapshots, e.item))
    && (forall path | path in q.accepted :: q.accepted[path] in q.snapshots)
    && GoodIds(q)
  }

  // ---------------------------------------------------------------- replay and undo of the accepted map

  /** Everything accepted can be extracted and indexed. */
  lemma {:induction false} AcceptedCanBeIndexed(config: QueueConfig, history: seq<Entry>)
    requires GoodHistory(config, history)
    ensures forall path | path in Replay(history) :: VersionFor(config, path, Replay(history)[path]).Some?
  {
    if history != [] {
      AcceptedCanBeIndexed(config, history[..|history| - 1]);
    }
  }

  lemma {:induction false} GoodPrefix(config: QueueConfig, history: seq<Entry>, n: nat)
    requires GoodHistory(config, history) && n <= |history|
    ensures GoodHistory(config, history[..n])
    decreases |history|
  {
    if n < |history| {
      GoodPrefix(config, history[..|history| - 1], n);
      assert history[..|history| - 1][..n] == history[..n];
    } else {
      assert history[..n] == history;
    }
  }

  /** Every entry names what the history before it had accepted for its path. */
  lemma EntryNamesBefore(q: Queue, k: nat)
    requires Consistent(q) && k < |q.history|
    ensures q.history[k].acceptedBefore == Lookup(Replay(q.history[..k]), q.history[k].item.path)
  {
    GoodPrefix(q.config, q.history, k + 1);
    assert q.history[..k + 1][..k] == q.history[..k];
  }

  /** Patching back what an entry replaced undoes its commit. */
  lemma UncommitIsInverse(config: QueueConfig, accepted: Snapshot, entry: Entry)
    requires GoodEntry(config, accepted, entry)
    ensures Patch(if Commits(entry) then Committed(accepted, entry.item) else accepted, entry.item.path, entry.acceptedBefore)
         == accepted
  {
  }

  /** Undoing leaves everything but the working state alone. */
  ghost predicate SameFrame(q: Queue, q': Queue) {
    && q'.config == q.config && q'.restored == q.restored && q'.nextId == q.nextId
    && q'.snapshots == q.snapshots && q'.scan == q.scan
  }

  /** Undoing the last entry succeeds and leaves a consistent queue with the history before it. */
  lemma UndoLastIsConsistent(q: Queue)
    requires Consistent(q) && q.history != []
    ensures UndoLast(q).Ok? && Consistent(UndoLast(q).value) && SameFrame(q, UndoLast(q).value)
  {
    var last := |q.history| - 1;
    var entry, before := q.history[last], q.history[..last];
    AcceptedCanBeIndexed(q.config, before);
    UncommitIsInverse(q.config, Replay(before), entry);
    assert UndoEntry(q, entry).Ok?;
    assert Kept(q.snapshots, entry.item);
    UndoneIsConsistent(q, UndoLast(q).value, entry, before);
  }

  lemma UndoneIsConsistent(q: Queue, q': Queue, entry: Entry, before: seq<Entry>)
    requires Consistent(q) && q.history == before + [entry] && GoodHistory(q.config, before)
    requires GoodEntry(q.config, Replay(before), entry) && Kept(q.snapshots, entry.item)
    requires SameFrame(q, q') && q'.history == before && q'.accepted == Replay(before)
    requires q'.accepted == Patch(q.accepted, entry.item.path, entry.acceptedBefore)
    requires q'.items == q.items[entry.item.path := entry.item.(autoProcessing := false, reviewRequired := Some(true))]
    ensures Consistent(q')
  {
    forall path | path in q'.items ensures GoodItem(q', path) {
      if path != entry.item.path { assert GoodItem(q, path); }
    }
    forall e | e in q'.history ensures Kept(q'.snapshots, e.item) {
      assert e in q.history;
    }
    forall path | path in q'.accepted ensures q'.accepted[path] in q'.snapshots {
      if path != entry.item.path { assert q'.accepted[path] == q.accepted[path]; }
    }
    assert forall i | 0 <= i < |before| :: q.history[i] == before[i];
  }

  lemma {:induction false} UndoDownToIsConsistent(q: Queue, position: nat)
    requires Consistent(q) && position <= |q.history|
    ensures UndoDownTo(q, position).Ok?
    ensures var q' := UndoDownTo(q, position).value;
            Consistent(q') && q'.history == q.history[..position] && SameFrame(q, q')
    decreases |q.history|
  {
    if |q.history| == position {
      assert q.history[..position] == q.history;
      NothingToUndo(q);
    } else {
      UndoLastIsConsistent(q);
      var q1 := UndoLast(q).value;
      UndoDownToIsConsistent(q1, position);
      UndoStep(q, q1, position);
      PrefixOfPrefix(q.history, position);
    }
  }

  lemma PrefixOfPrefix(history: seq<Entry>, position: nat)
    requires position < |history|
    ensures history[..|history| - 1][..position] == history[..position]
  {
  }

  lemma TargetsAreRestorable(q: Queue, position: nat)
    requires Consistent(q) && position <= |q.history|
    ensures Restorable(q.snapshots, q.history[position..])
  {
    forall e | e in q.history[position..] ensures Kept(q.snapshots, e.item) {
      var i :| 0 <= i < |q.history[position..]| && q.history[position..][i] == e;
      assert e == q.history[position + i];
    }
  }

  lemma RestoreFinishes(q: Queue, position: nat, q1: Queue)
    requires position <= |q.history| && Restorable(q.snapshots, q.history[position..])
    requires UndoDownTo(q, position) == Ok(q1)
    ensures RestoreFrom(q, position) == (Restored(q1, q.history[position..]), Ok(|q.history[position..]|))
  {
  }

  lemma RestoreUndoes(q: Queue, id: nat, q1: Queue)
    requires EntryPosition(q.history, id) < |q.history|
    requires Restorable(q.snapshots, q.history[EntryPosition(q.history, id)..])
    requires UndoDownTo(q, EntryPosition(q.history, id)) == Ok(q1)
    ensures var targets := q.history[EntryPosition(q.history, id)..];
            RestoreBefore(q, id) == (Restored(q1, targets), Ok(|targets|))
  {
    RestoreFinishes(q, EntryPosition(q.history, id), q1);
  }

  /** Restoring to before a known entry never fails: the history becomes the prefix before the entry and
      the accepted map exactly its replay. */
  lemma RestoreReplaysPrefix(q: Queue, id: nat)
    requires Consistent(q) && EntryPosition(q.history, id) < |q.history|
    ensures var position := EntryPosition(q.history, id); var (q', result) := RestoreBefore(q, id);
            && result.Ok? && result.value == |q.history| - position
            && q'.history == q.history[..position] && q'.accepted == Replay(q.history[..position])
            && q'.scan == q'.disk && Consistent(q')
  {
    var position := EntryPosition(q.history, id);
    UndoDownToIsConsistent(q, position);
    TargetsAreRestorable(q, position);
    RestoreUndoes(q, id, UndoDownTo(q, position).value);
    RestoredIsConsistent(q, UndoDownTo(q, position).value, position);
  }

  lemma RestoredIsConsistent(q: Queue, q1: Queue, position: nat)
    requires Consistent(q) && Consistent(q1) && SameFrame(q, q1)
    requires position <= |q.history| && q1.history == q.history[..position]
    ensures Consistent(Restored(q1, q.history[position..]))
  {
    var q' := Restored(q1, q.history[position..]);
    RestoredIdsAreGood(q, q1, position);
    forall path | path in q'.items ensures GoodItem(q', path) {
      assert GoodItem(q1, path);
    }
  }

  lemma RestoredIdsAreGood(q: Queue, q1: Queue, position: nat)
    requires GoodIds(q) && position <= |q.history| && q1.history == q.history[..position]
    requires q1.nextId == q.nextId && q1.restored == q.restored
    ensures GoodIds(Restored(q1, q.history[position..]))
  {
    var targets := q.history[position..];
    var all := q.restored + Ids(targets);
    forall id | id in Window(all) ensures id in q.restored || id in Ids(targets) {
      assert id in all;
    }
    forall id | id in Ids(targets)
      ensures id < q.nextId && forall i | 0 <= i < position :: q.history[i].id != id
    {
      var k :| 0 <= k < |targets| && Ids(targets)[k] == id;
      assert targets[k] == q.history[position + k];
    }
  }

  /** The window keeps the first of the targets exactly when there are at most 256 of them. */
  lemma WindowKeepsFirst(restored: seq<nat>, targets: seq<nat>)
    requires targets != [] && targets[0] !in restored && targets[0] !in targets[1..]
    ensures targets[0] in Window(restored + targets) <==> |targets| <= RESTORED_WINDOW
  {
    var all := restored + targets;
    var start := if |all| <= RESTORED_WINDOW then 0 else |all| - RESTORED_WINDOW;
    assert Window(all) == all[start..];
    if |targets| <= RESTORED_WINDOW {
      assert all[start..][|restored| - start] == targets[0];
    } else {
      assert all[start..] == targets[1..][start - |restored| - 1..];
    }
  }

  lemma PrefixForgets(q: Queue, position: nat)
    requires GoodIds(q) && position < |q.history|
    ensures EntryPosition(q.history[..position], q.history[position].id) == position
  {
    assert forall j | 0 <= j < position :: q.history[..position][j] == q.history[j];
  }

  lemma FirstIdIsNew(q: Queue, position: nat)
    requires GoodIds(q) && position < |q.history|
    ensures var ids := Ids(q.history[position..]);
            ids[0] == q.history[position].id && ids[0] !in q.restored && ids[0] !in ids[1..]
  {
    var ids := Ids(q.history[position..]);
    forall k | 0 <= k < |ids[1..]| ensures ids[1..][k] != ids[0] {
      assert ids[1..][k] == q.history[position + 1 + k].id;
    }
  }

  /** A repeated request is absorbed exactly when at most 256 entries were undone by the first one. */
  lemma RepeatIsAbsorbedExactly(q: Queue, id: nat)
    requires Consistent(q) && EntryPosition(q.history, id) < |q.history|
    ensures var (q', first) := RestoreBefore(q, id); var (q'', second) := RestoreBefore(q', id);
            && q'' == q' && first.Ok?
            && second == if first.value <= RESTORED_WINDOW then Ok(0) else Err(UnknownKey)
  {
    var position := EntryPosition(q.history, id);
    var targets := q.history[position..];
    UndoDownToIsConsistent(q, position);
    TargetsAreRestorable(q, position);
    RestoreUndoes(q, id, UndoDownTo(q, position).value);
    PrefixForgets(q, position);
    FirstIdIsNew(q, position);
    WindowKeepsFirst(q.restored, Ids(targets));
  }

  // ---------------------------------------------------------------- replay and undo of the index

  lemma DocumentsDiffer(a: string, b: string)
    ensures DocumentOf(a) == DocumentOf(b) ==> a == b
  {
    assert DocumentOf(a)[|"watch:"|..] == a && DocumentOf(b)[|"watch:"|..] == b;
  }

  ghost predicate SameLists(a: Index, b: Index) {
    forall document :: VersionsOf(a, document) == VersionsOf(b, document)
  }

  /** What was accepted for a path is the current version of its document. */
  ghost predicate Anchored(config: QueueConfig, accepted: Snapshot, index: Index) {
    forall path | path in accepted ::
      var versions := VersionsOf(index, DocumentOf(path));
      versions != [] && Some(versions[0]) == VersionFor(config, path, accepted[path])
  }

  /** No accept re-indexed a digest that was stored for its path. */
  ghost predicate Fresh(config: QueueConfig, index: Index, entry: Entry) {
    Commits(entry) && entry.item.change != Deletion && entry.item.candidate.Some? ==>
      !Holds(VersionsOf(index, DocumentOf(entry.item.path)), entry.item.candidate.value)
  }

  lemma ReindexedLaws(config: QueueConfig, index: Index, accepted: Snapshot, entry: Entry)
    requires WellFormed(index) && GoodEntry(config, accepted, entry) && Anchored(config, accepted, index)
    ensures WellFormed(Reindexed(config, index, entry))
    ensures forall d | d != DocumentOf(entry.item.path) :: VersionsOf(Reindexed(config, index, entry), d) == VersionsOf(index, d)
    ensures Anchored(config, if Commits(entry) then Committed(accepted, entry.item) else accepted, Reindexed(config, index, entry))
  {
    var item, document, index' := entry.item, DocumentOf(entry.item.path), Reindexed(config, index, entry);
    if Commits(entry) && item.change == Deletion {
      var current := CurrentOf(index, document);
      if current.Some? { RemovedLaws(index, document, current.value); }
    } else if Commits(entry) {
      StoredLaws(index, document, VersionFor(config, item.path, item.candidate.value).value);
    }
    var accepted' := if Commits(entry) then Committed(accepted, item) else accepted;
    forall path | path in accepted'
      ensures VersionsOf(index', DocumentOf(path)) != []
      ensures Some(VersionsOf(index', DocumentOf(path))[0]) == VersionFor(config, path, accepted'[path])
    {
      DocumentsDiffer(path, item.path);
      if path != item.path { assert path in accepted; }
    }
  }

  /** Replaying a history keeps the index well formed and everything accepted current. */
  lemma {:induction false} ReplayIsAnchored(config: QueueConfig, start: Index, history: seq<Entry>)
    requires WellFormed(start) && GoodHistory(config, history)
    ensures WellFormed(ReplayIndex(config, start, history))
    ensures Anchored(config, Replay(history), ReplayIndex(config, start, history))
  {
    if history != [] {
      var before := history[..|history| - 1];
      ReplayIsAnchored(config, start, before);
      ReindexedLaws(config, ReplayIndex(config, start, before), Replay(before), history[|history| - 1]);
    }
  }

  /** The index part of undoing one entry. */
  function Unindexed(config: QueueConfig, index: Index, entry: Entry): Index {
    var item, document := entry.item, DocumentOf(entry.item.path);
    if !Commits(entry) then index
    else if item.change != Deletion then
      if item.candidate.Some? then Removed(index, document, item.candidate.value) else index
    else if item.baseline.None? then index
    else
      var version := VersionFor(config, item.path, item.baseline.value);
      if version.Some? then Stored(index, document, version.value) else index
  }

  /** Undo is the exact inverse of one accepted entry on the index: each document has its old list again
      if and only if the entry did not re-index a digest stored for its path. */
  lemma UnindexIsInverseExactly(config: QueueConfig, index: Index, accepted: Snapshot, entry: Entry)
    requires WellFormed(index) && GoodEntry(config, accepted, entry) && Anchored(config, accepted, index)
    ensures SameLists(Unindexed(config, Reindexed(config, index, entry), entry), index) <==> Fresh(config, index, entry)
  {
    if Commits(entry) && entry.item.change == Deletion {
      UndoDeletionIsInverse(config, index, accepted, entry);
    } else if Commits(entry) {
      UndoIndexingIsInverseExactly(config, index, accepted, entry);
    }
  }

  lemma UndoDeletionIsInverse(config: QueueConfig, index: Index, accepted: Snapshot, entry: Entry)
    requires WellFormed(index) && GoodEntry(config, accepted, entry) && Anchored(config, accepted, index)
    requires Commits(entry) && entry.item.change == Deletion
    ensures SameLists(Unindexed(config, Reindexed(config, index, entry), entry), index)
  {
    var item, document := entry.item, DocumentOf(entry.item.path);
    var versions := VersionsOf(index, document);
    assert item.path in accepted && versions[0] == VersionFor(config, item.path, item.baseline.value).value;
    var index1 := Removed(index, document, versions[0].sha);
    assert Reindexed(config, index, entry) == index1;
    UndoRemoveCurrent(versions);
    forall d ensures VersionsOf(Stored(index1, document, versions[0]), d) == VersionsOf(index, d) {
      RemovedList(index, document, versions[0].sha, d);
      StoredList(index1, document, versions[0], d);
    }
  }

  lemma UndoIndexingIsInverseExactly(config: QueueConfig, index: Index, accepted: Snapshot, entry: Entry)
    requires WellFormed(index) && GoodEntry(config, accepted, entry) && Anchored(config, accepted, index)
    requires Commits(entry) && entry.item.change != Deletion
    ensures SameLists(Unindexed(config, Reindexed(config, index, entry), entry), index) <==> Fresh(config, index, entry)
  {
    var item, document := entry.item, DocumentOf(entry.item.path);
    var version := VersionFor(config, item.path, item.candidate.value).value;
    var index1 := Stored(index, document, version);
    var index2 := Removed(index1, document, version.sha);
    assert Unindexed(config, Reindexed(config, index, entry), entry) == index2;
    UndoPromoteExactly(VersionsOf(index, document), version);
    forall d ensures VersionsOf(index2, d) == if d == document then Without(Promote(VersionsOf(index, d), version), version.sha)
                                              else VersionsOf(index, d)
    {
      StoredList(index, document, version, d);
      RemovedList(index1, document, version.sha, d);
    }
  }

  lemma StoredList(index: Index, document: string, version: Version, d: string)
    ensures VersionsOf(Stored(index, document, version), d)
         == if d == document then Promote(VersionsOf(index, document), version) else VersionsOf(index, d)
  {
  }

  lemma RemovedList(index: Index, document: string, sha: string, d: string)
    ensures VersionsOf(Removed(index, document, sha), d)
         == if d == document then Without(VersionsOf(index, document), sha) else VersionsOf(index, d)
  {
  }

  /** The index of the queue is the replay of its history, up to documents with no versions. */
  ghost predicate IndexReplays(q: Queue, start: Index) {
    WellFormed(start) && SameLists(q.index, ReplayIndex(q.config, start, q.history))
  }

  lemma UndoStep(q: Queue, q1: Queue, position: nat)
    requires position < |q.history| && UndoLast(q) == Ok(q1)
    ensures UndoDownTo(q, position) == UndoDownTo(q1, position)
  {
  }

  lemma NothingToUndo(q: Queue)
    ensures UndoDownTo(q, |q.history|) == Ok(q)
  {
  }
}
