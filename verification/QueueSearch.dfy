/** Searching the index that the review queue writes: every run keeps it as `Search` needs it. */
module QueueSearch {
  import opened Wrappers
  import opened VersionedIndex
  import opened Scanner
  import opened ChangeQueue
  import opened QueueHistory
  import opened QueueSafety
  import Search

  /** The digests of a directory are 64 lower-case hexadecimal digits. */
  predicate IsDigested(disk: Snapshot) {
    forall path | path in disk :: Search.IsSha256(disk[path])
  }

  ghost predicate AllDigested(q: Queue) {
    IsDigested(q.disk) && forall sha | sha in q.snapshots :: Search.IsSha256(sha)
  }

  /** Everything the queue can index has a digest, and its index is well kept. */
  ghost predicate IsKept(q: Queue) {
    Consistent(q) && AllDigested(q) && Search.WellKept(q.index, q.config.chunkSize)
  }

  // ---------------------------------------------------------------- indexing and undoing

  lemma VersionKeepsWell(config: QueueConfig, index: Index, path: string, sha: string)
    requires Search.WellKept(index, config.chunkSize) && Search.IsSha256(sha) && VersionFor(config, path, sha).Some?
    ensures Search.WellKept(Stored(index, DocumentOf(path), VersionFor(config, path, sha).value), config.chunkSize)
  {
    Search.StoringKeepsWell(index, DocumentOf(path), sha, config.extract(path, sha).value, config.chunkSize, config.chunkOverlap);
  }

  lemma AcceptKeepsKept(q: Queue, path: string, action: Action)
    requires IsKept(q) && path in q.items && action != RESTORE
    ensures AcceptItem(q, q.items[path], action).Ok? ==> IsKept(AcceptItem(q, q.items[path], action).value)
  {
    var item, document := q.items[path], DocumentOf(path);
    assert GoodItem(q, path);
    AcceptKeepsConsistent(q, path, action);
    if AcceptItem(q, item, action).Ok? {
      if item.change != Deletion {
        VersionKeepsWell(q.config, q.index, path, item.candidate.value);
      } else if CurrentOf(q.index, document).Some? {
        Search.RemovingKeepsWell(q.index, document, CurrentOf(q.index, document).value, q.config.chunkSize);
      }
    }
  }

  lemma FlagsKeepKept(q: Queue, path: string, autoProcessing: bool, reviewRequired: Option<bool>)
    requires IsKept(q) && path in q.items
    ensures IsKept(q.(items := q.items[path := q.items[path].(autoProcessing := autoProcessing, reviewRequired := reviewRequired)]))
  {
    FlagsKeepConsistent(q, path, autoProcessing, reviewRequired);
  }

  lemma {:induction false} AutoAcceptsKeepKept(q: Queue, order: seq<string>, due: set<string>)
    requires IsKept(q)
    ensures IsKept(AutoAccepts(q, order, due))
  {
    if order != [] {
      var q1, path := AutoAccepts(q, order[..|order| - 1], due), order[|order| - 1];
      AutoAcceptsKeepKept(q, order[..|order| - 1], due);
      if path in q1.items && q1.items[path].autoProcessing && path in due {
        AcceptKeepsKept(q1, path, AUTO_INDEX);
        FlagsKeepKept(q1, path, false, Some(true));
      }
    }
  }

  lemma {:induction false} EventsAreCaptured(q: Queue, events: seq<ScanEvent>)
    requires forall sha | sha in q.snapshots :: Search.IsSha256(sha)
    requires forall e | e in events :: After(e).Some? ==> Search.IsSha256(After(e).value)
    ensures forall sha | sha in ApplyEvents(q, events).snapshots :: Search.IsSha256(sha)
  {
    if events != [] {
      var before, last := events[..|events| - 1], events[|events| - 1];
      forall e | e in before ensures After(e).Some? ==> Search.IsSha256(After(e).value) {
        assert e in events;
      }
      EventsAreCaptured(q, before);
      assert last in events;
    }
  }

  lemma ScannedIsKept(q: Queue, paths: seq<string>, fault: Option<string>)
    requires IsKept(q) && Lists(paths, q.scan, q.disk)
    ensures IsKept(Scanned(q, EventsOver(q.scan, q.disk, paths), fault))
  {
    var events := EventsOver(q.scan, q.disk, paths);
    var applied := events[..FirstRaise(events, fault)];
    EventsAreChanges(q.scan, q.disk, paths);
    forall e | e in applied ensures After(e).Some? ==> Search.IsSha256(After(e).value) {
      assert TellsChange(e, q.scan, q.disk);
    }
    EventsAreCaptured(q.(scan := q.disk), applied);
    ScannedIsConsistent(q, events, fault);
  }

  lemma PollKeepsKept(q: Queue, paths: seq<string>, order: seq<string>, due: set<string>, fault: Option<string>)
    requires IsKept(q) && Lists(paths, q.scan, q.disk)
    ensures IsKept(Poll(q, paths, order, due, fault))
  {
    var scanned := Scanned(q, EventsOver(q.scan, q.disk, paths), fault);
    ScannedIsKept(q, paths, fault);
    NothingToDiscard(scanned);
    AutoAcceptsKeepKept(scanned, order, due);
  }

  lemma RejectKeepsKept(q: Queue, path: string)
    requires IsKept(q)
    ensures IsKept(Reject(q, path).0)
  {
    RejectKeepsConsistent(q, path);
    if path in q.items { assert GoodItem(q, path); }
  }

  lemma UndoLastKeepsKept(q: Queue)
    requires IsKept(q) && q.history != []
    ensures UndoLast(q).Ok? && IsKept(UndoLast(q).value)
  {
    var last := |q.history| - 1;
    var entry := q.history[last];
    assert Kept(q.snapshots, entry.item);
    UndoLastIsConsistent(q);
    UnindexKeepsWell(q, entry);
  }

  lemma UnindexKeepsWell(q: Queue, entry: Entry)
    requires AllDigested(q) && Search.WellKept(q.index, q.config.chunkSize) && Kept(q.snapshots, entry.item)
    ensures UnindexEntry(q, entry).Ok? ==> Search.WellKept(UnindexEntry(q, entry).value, q.config.chunkSize)
  {
    var item := entry.item;
    if entry.action != RESTORE && item.change != Deletion && item.candidate.Some? {
      Search.RemovingKeepsWell(q.index, DocumentOf(item.path), item.candidate.value, q.config.chunkSize);
    } else if entry.action != RESTORE && item.change == Deletion && UnindexEntry(q, entry).Ok? {
      VersionKeepsWell(q.config, q.index, item.path, item.baseline.value);
    }
  }

  lemma {:induction false} UndoDownToKeepsKept(q: Queue, position: nat)
    requires IsKept(q) && position <= |q.history|
    ensures UndoDownTo(q, position).Ok? && IsKept(UndoDownTo(q, position).value)
    decreases |q.history|
  {
    if |q.history| == position {
      NothingToUndo(q);
    } else {
      UndoLastKeepsKept(q);
      UndoDownToKeepsKept(UndoLast(q).value, position);
      UndoStep(q, UndoLast(q).value, position);
    }
  }

  lemma RestoreKeepsKept(q: Queue, id: nat)
    requires IsKept(q)
    ensures IsKept(RestoreBefore(q, id).0)
  {
    var position := EntryPosition(q.history, id);
    if position < |q.history| {
      UndoDownToKeepsKept(q, position);
      TargetsAreRestorable(q, position);
      RestoreUndoes(q, id, UndoDownTo(q, position).value);
      RestoreReplaysPrefix(q, id);
    }
  }

  // ---------------------------------------------------------------- over whole runs

  predicate WritesDigest(step: QueueStep) {
    step.Write? && step.digest.Some? ==> Search.IsSha256(step.digest.value)
  }

  lemma NextKeepsKept(q: Queue, step: QueueStep)
    requires IsKept(q) && Possible(q, step) && WritesDigest(step)
    ensures IsKept(Next(q, step)) && Next(q, step).config == q.config
  {
    NextKeepsConsistent(q, step);
    match step
    case Write(path, digest) =>
    case PollStep(paths, order, due, fault) => PollKeepsKept(q, paths, order, due, fault);
    case AssessStep(path, candidate, reviewRequired) =>
    case AcceptStep(path) => if path in q.items { AcceptKeepsKept(q, path, INDEX); }
    case RejectStep(path) => RejectKeepsKept(q, path);
    case HoldStep(path) =>
    case RestoreStep(id) => RestoreKeepsKept(q, id);
  }

  /** The directory and the snapshots at the beginning, and every file written since, have digests. */
  ghost predicate IsDigestedRun(qs: seq<Queue>, steps: seq<QueueStep>) {
    && IsRun(qs, steps) && AllDigested(qs[0]) && Search.WellKept(qs[0].index, qs[0].config.chunkSize)
    && forall i | 0 <= i < |steps| :: WritesDigest(steps[i])
  }

  lemma {:induction false} QueueRunsAreKept(qs: seq<Queue>, steps: seq<QueueStep>, n: nat)
    requires IsDigestedRun(qs, steps) && n < |qs|
    ensures IsKept(qs[n]) && qs[n].config == qs[0].config
  {
    if n == 0 {
      RunsAreConsistent(qs, steps, 0);
    } else {
      QueueRunsAreKept(qs, steps, n - 1);
      StaysKept(qs, steps, n - 1);
    }
  }

  lemma StaysKept(qs: seq<Queue>, steps: seq<QueueStep>, n: nat)
    requires IsDigestedRun(qs, steps) && n < |steps| && IsKept(qs[n])
    ensures IsKept(qs[n + 1]) && qs[n + 1].config == qs[n].config
  {
    var q, step := qs[n], steps[n];
    assert Possible(q, step) && qs[n + 1] == Next(q, step);
    NextKeepsKept(q, step);
  }

  /** Whatever was reviewed, a search within the API's bounds is answered, and the answer is accepted by its
      validators exactly if an unscoped search shows no document named outside them. */
  lemma QueueResponsesAreValidExactly(qs: seq<Queue>, steps: seq<QueueStep>, n: nat, rows: seq<Search.ChunkRow>, query: string,
                                      scoring: Search.Scoring, limit: int, scope: Option<string>)
    requires IsDigestedRun(qs, steps) && n < |qs|
    requires Search.Enumerates(rows, qs[n].index, scope) && qs[0].config.chunkSize <= 16000
    requires 1 <= |query| <= 2000 && 0 < limit <= 50 && (scope.Some? ==> Search.IsDocumentId(scope.value))
    ensures var response := Search.Respond(qs[n].index, rows, query, scoring, limit, scope);
            response.Some? && (Search.ValidResponse(response.value) <==> Search.Answers(rows, query, scoring, limit, scope))
  {
    QueueRunsAreKept(qs, steps, n);
    Search.ResponsesAreValidExactly(qs[n].index, rows, query, scoring, limit, scope, qs[n].config.chunkSize);
  }

  /** A document of the queue is named within the bounds exactly if its path has at most 194 characters. */
  lemma WatchedDocumentFitsExactly(path: string)
    ensures Search.IsDocumentId(DocumentOf(path)) <==> |path| <= 194
  {
    assert |DocumentOf(path)| == |"watch:"| + |path|;
  }
}
