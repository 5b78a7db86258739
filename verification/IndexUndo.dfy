/** What a restore of many reviews does to the index: exactly which stored versions it loses, and so when
    it is an inverse. */
module IndexUndo {
  import opened Wrappers
  import opened VersionedIndex
  import opened Scanner
  import opened ChangeQueue
  import opened QueueHistory

  // ---------------------------------------------------------------- the versions a restore loses

  predicate Indexes(entry: Entry) {
    Commits(entry) && entry.item.change != Deletion
  }

  /** The digest an entry puts on top of its document, or takes off it. */
  function DigestOf(entry: Entry): Option<string> {
    if !Commits(entry) then None
    else if entry.item.change == Deletion then entry.item.baseline
    else entry.item.candidate
  }

  predicate Touches(entry: Entry, document: string, sha: string) {
    DocumentOf(entry.item.path) == document && DigestOf(entry) == Some(sha)
  }

  /** The digests of a document whose first review among the targets indexes them: undoing that review
      takes them out, whether they were stored before it or not. */
  function Lost(targets: seq<Entry>, document: string): set<string> {
    if targets == [] then {}
    else
      var first, rest := targets[0], Lost(targets[1..], document);
      if DocumentOf(first.item.path) != document || DigestOf(first).None? then rest
      else if Indexes(first) then rest + {DigestOf(first).value}
      else rest - {DigestOf(first).value}
  }

  lemma {:induction false} LostExactly(targets: seq<Entry>, document: string, sha: string)
    ensures sha in Lost(targets, document)
       <==> exists k :: 0 <= k < |targets| && Touches(targets[k], document, sha) && Indexes(targets[k])
              && forall j | 0 <= j < k :: !Touches(targets[j], document, sha)
  {
    if targets != [] {
      var first, rest := targets[0], targets[1..];
      LostExactly(rest, document, sha);
      if !Touches(first, document, sha) {
        if sha in Lost(rest, document) {
          var k :| 0 <= k < |rest| && Touches(rest[k], document, sha) && Indexes(rest[k])
                   && forall j | 0 <= j < k :: !Touches(rest[j], document, sha);
          assert targets[k + 1] == rest[k];
          assert forall j | 0 < j < k + 1 :: targets[j] == rest[j - 1];
        }
        if k :| 0 <= k < |targets| && Touches(targets[k], document, sha) && Indexes(targets[k])
                && forall j | 0 <= j < k :: !Touches(targets[j], document, sha) {
          assert rest[k - 1] == targets[k];
          assert forall j | 0 <= j < k - 1 :: rest[j] == targets[j + 1];
        }
      }
    }
  }

  function Keep(versions: seq<Version>, lost: set<string>): seq<Version> {
    if versions == [] then []
    else (if versions[0].sha in lost then [] else [versions[0]]) + Keep(versions[1..], lost)
  }

  lemma {:induction false} KeepLaws(versions: seq<Version>, lost: set<string>)
    ensures |Keep(versions, lost)| <= |versions|
    ensures Keep(versions, lost) == versions <==> forall v | v in versions :: v.sha !in lost
    ensures forall v | v in Keep(versions, lost) :: v in versions
  {
    if versions != [] {
      KeepLaws(versions[1..], lost);
      assert versions == [versions[0]] + versions[1..];
    }
  }

  /** Digests that are not stored make no difference. */
  lemma {:induction false} KeepCongruence(versions: seq<Version>, a: set<string>, b: set<string>)
    requires forall v | v in versions :: v.sha in a <==> v.sha in b
    ensures Keep(versions, a) == Keep(versions, b)
  {
    if versions != [] { KeepCongruence(versions[1..], a, b); }
  }

  lemma HeldOnce(versions: seq<Version>, sha: string)
    requires Distinct(versions)
    ensures forall v | v in Without(versions, sha) :: v.sha != sha && v in versions
  {
    if Holds(versions, sha) {
      WithoutAt(versions, sha);
    }
  }

  /** Losing a digest too is deleting it first. */
  lemma {:induction false} KeepWithout(versions: seq<Version>, sha: string, lost: set<string>)
    requires Distinct(versions)
    ensures Keep(Without(versions, sha), lost) == Keep(versions, lost + {sha})
  {
    if versions != [] {
      var rest := versions[1..];
      if versions[0].sha == sha {
        assert Without(versions, sha) == rest;
        forall v | v in rest ensures v.sha != sha {
          var j :| 0 <= j < |rest| && rest[j] == v;
          assert versions[j + 1] == v;
        }
        KeepCongruence(rest, lost, lost + {sha});
      } else {
        KeepWithout(rest, sha, lost);
        WithoutLater(versions, sha);
      }
    }
  }

  lemma WithoutLater(versions: seq<Version>, sha: string)
    requires versions != [] && versions[0].sha != sha
    ensures Without(versions, sha) == [versions[0]] + Without(versions[1..], sha)
  {
    var rest := versions[1..];
    var i := Position(rest, sha);
    assert Position(versions, sha) == i + 1;
    if i < |rest| {
      assert versions[..i + 1] == [versions[0]] + rest[..i];
      assert versions[i + 2..] == rest[i + 1..];
      KeptFirst([versions[0]], rest[..i], rest[i + 1..]);
    }
  }

  lemma KeptFirst(a: seq<Version>, b: seq<Version>, c: seq<Version>)
    ensures a + (b + c) == a + b + c
  {
  }

  lemma AbsentStays(versions: seq<Version>, sha: string)
    requires forall v | v in versions :: v.sha != sha
    ensures Without(versions, sha) == versions
  {
  }

  /** Undoing an indexing, after whatever was undone before it. */
  lemma UndoIndexing(versions: seq<Version>, version: Version, lost: set<string>)
    requires Distinct(versions)
    ensures Without(Keep(Promote(versions, version), lost), version.sha) == Keep(versions, lost + {version.sha})
  {
    var rest := Without(versions, version.sha);
    HeldOnce(versions, version.sha);
    KeepWithout(versions, version.sha, lost);
    KeepLaws(rest, lost);
    assert Promote(versions, version)[1..] == rest;
    AbsentStays(Keep(rest, lost), version.sha);
    if version.sha !in lost {
      WithoutFirst(version, Keep(rest, lost));
    }
  }

  lemma WithoutFirst(version: Version, rest: seq<Version>)
    ensures Without([version] + rest, version.sha) == rest
  {
    assert Position([version] + rest, version.sha) == 0;
  }

  /** Undoing a deletion, after whatever was undone before it. */
  lemma UndoDeletion(version: Version, rest: seq<Version>, lost: set<string>)
    requires Distinct([version] + rest)
    ensures Promote(Keep(rest, lost), version) == Keep([version] + rest, lost - {version.sha})
  {
    var all := [version] + rest;
    assert all[1..] == rest;
    forall v | v in rest ensures v.sha != version.sha {
      var j :| 0 <= j < |rest| && rest[j] == v;
      assert all[j + 1] == v && all[0] == version;
    }
    KeepLaws(rest, lost);
    AbsentStays(Keep(rest, lost), version.sha);
    KeepCongruence(rest, lost, lost - {version.sha});
  }

  // ---------------------------------------------------------------- undoing step by step

  /** The index holds what the replayed one does, but for what the undone reviews lost. */
  ghost predicate Undone(index: Index, replayed: Index, targets: seq<Entry>) {
    forall d :: VersionsOf(index, d) == Keep(VersionsOf(replayed, d), Lost(targets, d))
  }

  lemma NothingLost(index: Index, replayed: Index)
    ensures Undone(index, replayed, []) <==> SameLists(index, replayed)
  {
    forall d ensures Keep(VersionsOf(replayed, d), Lost([], d)) == VersionsOf(replayed, d) {
      KeepLaws(VersionsOf(replayed, d), {});
    }
  }

  lemma UndoOne(config: QueueConfig, before: Index, accepted: Snapshot, entry: Entry, index: Index, targets: seq<Entry>)
    requires WellFormed(before) && GoodEntry(config, accepted, entry) && Anchored(config, accepted, before)
    requires Undone(index, Reindexed(config, before, entry), targets)
    ensures Undone(Unindexed(config, index, entry), before, [entry] + targets)
  {
    forall d ensures VersionsOf(Unindexed(config, index, entry), d) == Keep(VersionsOf(before, d), Lost([entry] + targets, d)) {
      assert ([entry] + targets)[1..] == targets;
      if !Commits(entry) {
      } else if entry.item.change == Deletion {
        UndoOneDeletion(config, before, accepted, entry, index, targets, d);
      } else {
        UndoOneIndexing(config, before, entry, index, targets, d);
      }
    }
  }

  lemma UndoOneIndexing(config: QueueConfig, before: Index, entry: Entry, index: Index, targets: seq<Entry>, d: string)
    requires WellFormed(before) && Commits(entry) && entry.item.change != Deletion && entry.item.candidate.Some?
    requires VersionFor(config, entry.item.path, entry.item.candidate.value).Some?
    requires Undone(index, Reindexed(config, before, entry), targets)
    ensures VersionsOf(Unindexed(config, index, entry), d) == Keep(VersionsOf(before, d), Lost([entry] + targets, d))
  {
    var document := DocumentOf(entry.item.path);
    var version := VersionFor(config, entry.item.path, entry.item.candidate.value).value;
    assert ([entry] + targets)[1..] == targets;
    StoredList(before, document, version, d);
    RemovedList(index, document, version.sha, d);
    UndoIndexing(VersionsOf(before, document), version, Lost(targets, document));
  }

  lemma UndoOneDeletion(config: QueueConfig, before: Index, accepted: Snapshot, entry: Entry, index: Index,
                        targets: seq<Entry>, d: string)
    requires WellFormed(before) && GoodEntry(config, accepted, entry) && Anchored(config, accepted, before)
    requires Commits(entry) && entry.item.change == Deletion
    requires Undone(index, Reindexed(config, before, entry), targets)
    ensures VersionsOf(Unindexed(config, index, entry), d) == Keep(VersionsOf(before, d), Lost([entry] + targets, d))
  {
    var item, document := entry.item, DocumentOf(entry.item.path);
    var versions := VersionsOf(before, document);
    assert item.path in accepted && versions[0] == VersionFor(config, item.path, item.baseline.value).value;
    assert ([entry] + targets)[1..] == targets;
    var rest := Without(versions, versions[0].sha);
    UndoRemoveCurrent(versions);
    assert versions == [versions[0]] + versions[1..];
    WithoutFirst(versions[0], versions[1..]);
    RemovedList(before, document, versions[0].sha, d);
    StoredList(index, document, versions[0], d);
    UndoDeletion(versions[0], rest, Lost(targets, document));
  }

  lemma UndoLastUnindexes(q: Queue)
    requires Consistent(q) && q.history != [] && UndoLast(q).Ok?
    ensures UndoLast(q).value.index == Unindexed(q.config, q.index, q.history[|q.history| - 1])
  {
    AcceptedCanBeIndexed(q.config, q.history[..|q.history| - 1]);
  }

  lemma OneUndone(q: Queue, start: Index, targets: seq<Entry>) returns (q1: Queue)
    requires Consistent(q) && WellFormed(start) && q.history != []
    requires Undone(q.index, ReplayIndex(q.config, start, q.history), targets)
    ensures UndoLast(q) == Ok(q1) && Consistent(q1) && q1.config == q.config && q1.history == q.history[..|q.history| - 1]
    ensures Undone(q1.index, ReplayIndex(q1.config, start, q1.history), [q.history[|q.history| - 1]] + targets)
  {
    var last := |q.history| - 1;
    var entry, before := q.history[last], q.history[..last];
    UndoLastIsConsistent(q);
    UndoLastUnindexes(q);
    q1 := UndoLast(q).value;
    ReplayIsAnchored(q.config, start, before);
    UndoOne(q.config, ReplayIndex(q.config, start, before), Replay(before), entry, q.index, targets);
  }

  /** `q'` is `q` undone down to `position`, after `targets` had been undone before. */
  ghost predicate RestoredAfter(q: Queue, q': Queue, start: Index, position: nat, targets: seq<Entry>)
    requires position <= |q.history|
  {
    && UndoDownTo(q, position) == Ok(q')
    && Undone(q'.index, ReplayIndex(q.config, start, q.history[..position]), q.history[position..] + targets)
  }

  lemma {:induction false} AllUndone(q: Queue, start: Index, position: nat, targets: seq<Entry>) returns (q': Queue)
    requires Consistent(q) && WellFormed(start) && position <= |q.history|
    requires Undone(q.index, ReplayIndex(q.config, start, q.history), targets)
    ensures RestoredAfter(q, q', start, position, targets)
    decreases |q.history|
  {
    if |q.history| == position {
      q' := q;
      NoneUndone(q, start, targets);
    } else {
      var q1 := OneUndone(q, start, targets);
      q' := AllUndone(q1, start, position, [q.history[|q.history| - 1]] + targets);
      OneMoreUndone(q, q1, q', start, position, targets);
    }
  }

  lemma NoneUndone(q: Queue, start: Index, targets: seq<Entry>)
    requires Undone(q.index, ReplayIndex(q.config, start, q.history), targets)
    ensures RestoredAfter(q, q, start, |q.history|, targets)
  {
    var n := |q.history|;
    NothingToUndo(q);
    assert q.history[..n] == q.history && q.history[n..] + targets == targets;
  }

  lemma OneMoreUndone(q: Queue, q1: Queue, q': Queue, start: Index, position: nat, targets: seq<Entry>)
    requires position < |q.history| && UndoLast(q) == Ok(q1)
    requires q1.config == q.config && q1.history == q.history[..|q.history| - 1]
    requires RestoredAfter(q1, q', start, position, [q.history[|q.history| - 1]] + targets)
    ensures RestoredAfter(q, q', start, position, targets)
  {
    UndoStep(q, q1, position);
    MovesOver(q.history, position, targets);
  }

  lemma MovesOver(history: seq<Entry>, position: nat, targets: seq<Entry>)
    requires position < |history|
    ensures var last := |history| - 1;
            && history[..last][..position] == history[..position]
            && history[..last][position..] + ([history[last]] + targets) == history[position..] + targets
  {
  }

  // ---------------------------------------------------------------- when a restore is an inverse

  /** No version stored at the end of the kept history is lost. */
  ghost predicate LosesNothing(index: Index, targets: seq<Entry>) {
    forall d, sha :: Holds(VersionsOf(index, d), sha) ==> sha !in Lost(targets, d)
  }

  lemma UndoneExactly(index: Index, replayed: Index, targets: seq<Entry>)
    requires Undone(index, replayed, targets)
    ensures SameLists(index, replayed) <==> LosesNothing(replayed, targets)
  {
    forall d ensures VersionsOf(index, d) == VersionsOf(replayed, d)
                <==> forall sha | Holds(VersionsOf(replayed, d), sha) :: sha !in Lost(targets, d)
    {
      KeepsExactly(VersionsOf(replayed, d), Lost(targets, d));
    }
    if SameLists(index, replayed) {
      forall d, sha | Holds(VersionsOf(replayed, d), sha) ensures sha !in Lost(targets, d) {
        assert VersionsOf(index, d) == VersionsOf(replayed, d);
      }
    }
  }

  lemma KeepsExactly(versions: seq<Version>, lost: set<string>)
    ensures Keep(versions, lost) == versions <==> forall sha | Holds(versions, sha) :: sha !in lost
  {
    KeepLaws(versions, lost);
    if forall sha | Holds(versions, sha) :: sha !in lost {
      forall v | v in versions ensures v.sha !in lost {
        var i: nat :| i < |versions| && versions[i] == v;
        StandsAt(versions, i, v.sha);
      }
    }
    if forall v | v in versions :: v.sha !in lost {
      forall sha | Holds(versions, sha) ensures sha !in lost {
        assert versions[Position(versions, sha)] in versions;
      }
    }
  }

  /** Restoring to before an entry gives every document the ordered versions, and so the current digest, it
      had just before that entry, exactly if no version it had then is first reviewed, among the entries
      taken back, by being indexed again. */
  lemma RestoreRestoresIndexExactly(q: Queue, start: Index, id: nat)
    requires Consistent(q) && IndexReplays(q, start) && EntryPosition(q.history, id) < |q.history|
    ensures var position := EntryPosition(q.history, id);
            var kept := ReplayIndex(q.config, start, q.history[..position]);
            SameLists(RestoreBefore(q, id).0.index, kept) <==> LosesNothing(kept, q.history[position..])
  {
    var position := EntryPosition(q.history, id);
    NothingLost(q.index, ReplayIndex(q.config, start, q.history));
    var q1 := AllUndone(q, start, position, []);
    assert q.history[position..] + [] == q.history[position..];
    TargetsAreRestorable(q, position);
    RestoreUndoes(q, id, q1);
    UndoneExactly(q1.index, ReplayIndex(q.config, start, q.history[..position]), q.history[position..]);
  }
}
