/** Short runs of the review queue from an empty directory, each ending where one of its guarantees does. */
module QueueWitnesses {
  import opened Wrappers
  import opened VersionedIndex
  import opened Scanner
  import opened ChangeQueue
  import opened QueueHistory
  import opened QueueSafety
  import SqliteIndexer
  import Search
  import TextSplitter

  // ---------------------------------------------------------------- growing a run

  /** A run of quiet steps: it is in step throughout. */
  ghost predicate IsQuietRun(qs: seq<Queue>, steps: seq<QueueStep>) {
    IsRun(qs, steps) && AllQuiet(qs, steps, |steps|)
  }

  /** The longer run begins with the shorter one. */
  ghost predicate Extends(qs: seq<Queue>, qs': seq<Queue>) {
    |qs| <= |qs'| && qs'[..|qs|] == qs
  }

  lemma ExtendsAt(qs: seq<Queue>, qs': seq<Queue>, i: nat)
    requires Extends(qs, qs') && i < |qs|
    ensures qs'[i] == qs[i]
  {
    assert qs'[..|qs|][i] == qs[i];
  }

  lemma ExtendsTwice(qs: seq<Queue>, qs1: seq<Queue>, qs2: seq<Queue>)
    requires Extends(qs, qs1) && Extends(qs1, qs2)
    ensures Extends(qs, qs2)
  {
    assert qs2[..|qs1|][..|qs|] == qs2[..|qs|];
  }

  lemma RunOn(qs: seq<Queue>, steps: seq<QueueStep>, step: QueueStep)
    requires IsRun(qs, steps) && Possible(qs[|steps|], step)
    ensures IsRun(qs + [Next(qs[|steps|], step)], steps + [step])
  {
    var qs', steps' := qs + [Next(qs[|steps|], step)], steps + [step];
    forall i | 0 <= i < |steps'| ensures Possible(qs'[i], steps'[i]) && qs'[i + 1] == Next(qs'[i], steps'[i]) {
      if i < |steps| { assert steps'[i] == steps[i] && qs'[i + 1] == qs[i + 1]; }
    }
  }

  lemma {:induction false} QuietAlike(qs: seq<Queue>, steps: seq<QueueStep>, q: Queue, step: QueueStep, n: nat)
    requires n <= |steps| < |qs| && AllQuiet(qs, steps, n)
    ensures AllQuiet(qs + [q], steps + [step], n)
  {
    if n > 0 { QuietAlike(qs, steps, q, step, n - 1); }
  }

  lemma {:induction false} InStepAlike(qs: seq<Queue>, q: Queue, n: nat)
    requires n < |qs| && InStepUpTo(qs, n)
    ensures InStepUpTo(qs + [q], n)
  {
    if n > 0 { InStepAlike(qs, q, n - 1); }
  }

  lemma OneMore(qs: seq<Queue>, steps: seq<QueueStep>, step: QueueStep) returns (qs': seq<Queue>, steps': seq<QueueStep>)
    requires IsQuietRun(qs, steps) && Possible(qs[|steps|], step) && Quiet(qs[|steps|], step)
    ensures qs' == qs + [Next(qs[|steps|], step)] && steps' == steps + [step] && IsQuietRun(qs', steps') && Extends(qs, qs')
  {
    qs', steps' := qs + [Next(qs[|steps|], step)], steps + [step];
    RunOn(qs, steps, step);
    QuietAlike(qs, steps, Next(qs[|steps|], step), step, |steps|);
  }

  /** The step that is not quiet ends it. */
  lemma FallsOutOfStep(qs: seq<Queue>, steps: seq<QueueStep>, step: QueueStep) returns (qs': seq<Queue>, steps': seq<QueueStep>)
    requires IsQuietRun(qs, steps) && Possible(qs[|steps|], step) && !Quiet(qs[|steps|], step)
    ensures qs' == qs + [Next(qs[|steps|], step)] && steps' == steps + [step]
    ensures IsRun(qs', steps') && InStepUpTo(qs', |steps|) && !InStep(qs'[|steps'|])
  {
    var n, q := |steps|, qs[|steps|];
    qs', steps' := qs + [Next(q, step)], steps + [step];
    RunOn(qs, steps, step);
    PendingIsDiff(qs, steps, n);
    RunsAreConsistent(qs, steps, n);
    NextKeepsInStep(q, step);
    InStepAlike(qs, Next(q, step), n);
  }

  // ---------------------------------------------------------------- one review of one file

  /** An empty queue over an empty directory. */
  predicate IsEmpty(q: Queue) {
    Initial(q) && q.disk == map[] && q.index == map[]
  }

  /** Only this document stores versions: these. */
  ghost predicate StoresOnly(index: Index, document: string, versions: seq<Version>) {
    forall d :: VersionsOf(index, d) == if d == document then versions else []
  }

  /** Nothing is pending and nothing unscanned; only this path may be there, as it was accepted, and its
      document alone stores versions. */
  ghost predicate AtRest(q: Queue, path: string, digest: Option<string>, versions: seq<Version>) {
    && Consistent(q) && q.items == map[] && q.scan == q.disk && q.disk.Keys <= {path}
    && Lookup(q.disk, path) == digest == Lookup(q.accepted, path)
    && StoresOnly(q.index, DocumentOf(path), versions)
  }

  lemma StartsAtRest(q: Queue, path: string)
    requires IsEmpty(q)
    ensures AtRest(q, path, None, []) && IsQuietRun([q], [])
  {
    RunsAreConsistent([q], [], 0);
  }

  function PollOf(path: string): QueueStep {
    PollStep([path], [], {}, None)
  }

  lemma OneEvent(previous: Snapshot, current: Snapshot, path: string)
    ensures EventsOver(previous, current, [path]) == EventsAt(previous, current, path)
  {
    assert [path][..0] == [] && EventsOver(previous, current, []) == [];
  }

  /** The file is written, and the poll proposes the change. */
  ghost predicate Proposes(q: Queue, q': Queue, path: string, was: Option<string>, now: Option<string>) {
    && Consistent(q') && q'.config == q.config && q'.items == map[path := NewItem(path, was, now)]
    && q'.disk == Patch(q.disk, path, now) && q'.scan == q'.disk
    && q'.accepted == q.accepted && q'.index == q.index && q'.history == q.history && q'.nextId == q.nextId
  }

  lemma WriteIsProposed(q: Queue, path: string, was: Option<string>, versions: seq<Version>, now: Option<string>)
    requires AtRest(q, path, was, versions) && IsDiff(q.config, path, was, now)
    ensures var q1 := Next(q, Write(path, now));
            Possible(q1, PollOf(path)) && Quiet(q1, PollOf(path)) && Proposes(q, Next(q1, PollOf(path)), path, was, now)
  {
    var q1 := Next(q, Write(path, now));
    NextKeepsConsistent(q, Write(path, now));
    WriteTellsOne(q, q1, path, now);
    var event := EventsAt(q1.scan, q1.disk, path)[0];
    OneEventPolled(q1, path, event);
    EventIsProposed(q, q1, path, was, now, event);
  }

  lemma WriteTellsOne(q: Queue, q1: Queue, path: string, now: Option<string>)
    requires q.scan == q.disk && q.disk.Keys <= {path} && Lookup(q.disk, path) != now && q1 == q.(disk := Patch(q.disk, path, now))
    ensures Lists([path], q1.scan, q1.disk)
    ensures var events := EventsAt(q1.scan, q1.disk, path);
            |events| == 1 && events == [events[0]] && events[0].path == path && After(events[0]) == now
  {
    assert forall p | p in q1.scan || p in q1.disk :: p == path;
  }

  /** A poll that finds one change applies it. */
  lemma OneEventPolled(q: Queue, path: string, event: ScanEvent)
    requires Consistent(q) && EventsAt(q.scan, q.disk, path) == [event]
    ensures Next(q, PollOf(path)) == ApplyEvent(q.(scan := q.disk), event) && Consistent(Next(q, PollOf(path)))
    ensures Quiet(q, PollOf(path))
  {
    OneEvent(q.scan, q.disk, path);
    var events := EventsOver(q.scan, q.disk, [path]);
    assert FirstRaise(events, None) == 1 && events[..1] == events;
    OneEventApplied(q.(scan := q.disk), events);
    ScannedIsConsistent(q, events, None);
    NothingToDiscard(Scanned(q, events, None));
  }

  lemma EventIsProposed(q: Queue, q1: Queue, path: string, was: Option<string>, now: Option<string>, event: ScanEvent)
    requires q.items == map[] && Lookup(q.accepted, path) == was && IsDiff(q.config, path, was, now)
    requires q1 == q.(disk := Patch(q.disk, path, now)) && event.path == path && After(event) == now
    requires Consistent(ApplyEvent(q1.(scan := q1.disk), event))
    ensures Proposes(q, ApplyEvent(q1.(scan := q1.disk), event), path, was, now)
  {
  }

  lemma OneEventApplied(q: Queue, events: seq<ScanEvent>)
    requires |events| == 1
    ensures ApplyEvents(q, events) == ApplyEvent(q, events[0])
  {
    assert events[..0] == [];
  }

  /** What accepting a digest, or a deletion, leaves of the document's versions. */
  function Reviewed(config: QueueConfig, path: string, versions: seq<Version>, now: Option<string>): seq<Version> {
    if now.None? then if versions == [] then [] else Without(versions, versions[0].sha)
    else
      var version := VersionFor(config, path, now.value);
      if version.None? then versions else Promote(versions, version.value)
  }

  lemma ProposalIsAccepted(q: Queue, q2: Queue, path: string, was: Option<string>, versions: seq<Version>, now: Option<string>)
    requires AtRest(q, path, was, versions) && Current(versions) == was
    requires now.Some? ==> VersionFor(q.config, path, now.value).Some?
    requires Proposes(q, q2, path, was, now) && IsDiff(q.config, path, was, now)
    ensures var q3 := Next(q2, AcceptStep(path));
            && AtRest(q3, path, now, Reviewed(q.config, path, versions, now)) && q3.config == q.config
            && q3.history == q.history + [Entry(q.nextId, NewItem(path, was, now), INDEX, was)]
  {
    var q3 := Next(q2, AcceptStep(path));
    ProposalIsIndexed(q, q2, path, was, versions, now);
    RestsAgain(q, q2, q3, path, was, now);
    AcceptStaysConsistent(q2, path);
  }

  lemma AcceptStaysConsistent(q: Queue, path: string)
    requires Consistent(q)
    ensures Consistent(Next(q, AcceptStep(path)))
  {
    if path in q.items { AcceptKeepsConsistent(q, path, INDEX); }
  }

  lemma ProposalIsIndexed(q: Queue, q2: Queue, path: string, was: Option<string>, versions: seq<Version>, now: Option<string>)
    requires StoresOnly(q.index, DocumentOf(path), versions) && Current(versions) == was
    requires now.Some? ==> VersionFor(q.config, path, now.value).Some?
    requires q2.config == q.config && q2.index == q.index && was != now
    ensures var index := IndexItem(q2, NewItem(path, was, now));
            index.Ok? && StoresOnly(index.value, DocumentOf(path), Reviewed(q.config, path, versions, now))
  {
    var document, index' := DocumentOf(path), IndexItem(q2, NewItem(path, was, now)).value;
    forall d ensures VersionsOf(index', d) == if d == document then Reviewed(q.config, path, versions, now) else [] {
      assert VersionsOf(q.index, d) == if d == document then versions else [];
      if now.Some? {
        StoredList(q.index, document, VersionFor(q.config, path, now.value).value, d);
      } else {
        RemovedList(q.index, document, versions[0].sha, d);
      }
    }
  }

  lemma RestsAgain(q: Queue, q2: Queue, q3: Queue, path: string, was: Option<string>, now: Option<string>)
    requires Proposes(q, q2, path, was, now) && was != now && q.disk.Keys <= {path}
    requires IndexItem(q2, NewItem(path, was, now)).Ok? && q3 == Next(q2, AcceptStep(path)) && Lookup(q.accepted, path) == was
    ensures q3.items == map[] && q3.scan == q3.disk && q3.disk.Keys <= {path} && Lookup(q3.disk, path) == now == Lookup(q3.accepted, path)
    ensures q3.config == q.config && q3.index == IndexItem(q2, NewItem(path, was, now)).value
    ensures q3.history == q.history + [Entry(q.nextId, NewItem(path, was, now), INDEX, was)]
  {
    assert q2.items[path] == NewItem(path, was, now);
    assert q2.items - {path} == map[];
  }

  /** Write and poll. */
  lemma Propose(qs: seq<Queue>, steps: seq<QueueStep>, path: string, was: Option<string>, versions: seq<Version>, now: Option<string>)
    returns (qs': seq<Queue>, steps': seq<QueueStep>)
    requires IsQuietRun(qs, steps) && AtRest(qs[|steps|], path, was, versions) && IsDiff(qs[|steps|].config, path, was, now)
    ensures IsQuietRun(qs', steps') && |steps'| == |steps| + 2 && Extends(qs, qs')
    ensures steps' == steps + [Write(path, now)] + [PollOf(path)]
    ensures Proposes(qs[|steps|], qs'[|steps'|], path, was, now)
  {
    WriteIsProposed(qs[|steps|], path, was, versions, now);
    qs', steps' := OneMore(qs, steps, Write(path, now));
    qs', steps' := OneMore(qs', steps', PollOf(path));
  }

  /** Write, poll, accept. */
  lemma Review(qs: seq<Queue>, steps: seq<QueueStep>, path: string, was: Option<string>, versions: seq<Version>, now: Option<string>)
    returns (qs': seq<Queue>, steps': seq<QueueStep>)
    requires IsQuietRun(qs, steps) && AtRest(qs[|steps|], path, was, versions) && Current(versions) == was
    requires IsDiff(qs[|steps|].config, path, was, now)
    requires now.Some? ==> VersionFor(qs[|steps|].config, path, now.value).Some?
    ensures IsQuietRun(qs', steps') && |steps'| == |steps| + 3 && Extends(qs, qs')
    ensures steps' == steps + [Write(path, now)] + [PollOf(path)] + [AcceptStep(path)]
    ensures var q, q' := qs[|steps|], qs'[|steps'|];
            && AtRest(q', path, now, Reviewed(q.config, path, versions, now)) && q'.config == q.config
            && q'.history == q.history + [Entry(q.nextId, NewItem(path, was, now), INDEX, was)]
  {
    var qs1, steps1 := Propose(qs, steps, path, was, versions, now);
    ProposalIsAccepted(qs[|steps|], qs1[|steps1|], path, was, versions, now);
    qs', steps' := OneMore(qs1, steps1, AcceptStep(path));
    ExtendsTwice(qs, qs1, qs');
  }

  /** Two digests that can be indexed and extract to different texts. */
  predicate Differ(config: QueueConfig, path: string, a: string, b: string) {
    && VersionFor(config, path, a).Some? && VersionFor(config, path, b).Some?
    && config.extract(path, a) != config.extract(path, b)
  }

  // ---------------------------------------------------------------- a restore that loses a version

  /** Two reviews: a, then b. */
  lemma TwoReviews(q: Queue, path: string, a: string, b: string) returns (qs: seq<Queue>, steps: seq<QueueStep>)
    requires IsEmpty(q) && Differ(q.config, path, a, b)
    ensures IsQuietRun(qs, steps) && |steps| == 6 && qs[0] == q && qs[6].config == q.config && |qs[6].history| == 2
    ensures AtRest(qs[6], path, Some(b), [VersionFor(q.config, path, b).value, VersionFor(q.config, path, a).value])
  {
    StartsAtRest(q, path);
    ThreeReviewed(VersionFor(q.config, path, a).value, VersionFor(q.config, path, b).value);
    qs, steps := Review([q], [], path, None, [], Some(a));
    ExtendsAt([q], qs, 0);
    var before := qs;
    qs, steps := Review(qs, steps, path, Some(a), [VersionFor(q.config, path, a).value], Some(b));
    ExtendsAt(before, qs, 0);
  }

  /** Accepting a, b and a again stores a over b; restoring the third review takes a out, which the first
      had stored. */
  lemma RestoreLosesVersion(q: Queue, path: string, a: string, b: string) returns (qs: seq<Queue>, steps: seq<QueueStep>)
    requires IsEmpty(q) && Differ(q.config, path, a, b)
    ensures IsRun(qs, steps) && |steps| == 10 && qs[0] == q
    ensures var document, v, w := DocumentOf(path), VersionFor(q.config, path, a).value, VersionFor(q.config, path, b).value;
            && |qs[9].history| == 3 && steps[9] == RestoreStep(qs[9].history[2].id) && qs[10].history == qs[6].history
            && VersionsOf(qs[6].index, document) == [w, v] && VersionsOf(qs[10].index, document) == [w]
  {
    var before, steps1 := TwoReviews(q, path, a, b);
    qs, steps := LosesFirst(before, steps1, path, a, VersionFor(q.config, path, a).value, VersionFor(q.config, path, b).value);
    ExtendsAt(before, qs, 0);
    ExtendsAt(before, qs, 6);
  }

  lemma LosesFirst(qs: seq<Queue>, steps: seq<QueueStep>, path: string, a: string, v: Version, w: Version)
    returns (qs': seq<Queue>, steps': seq<QueueStep>)
    requires IsQuietRun(qs, steps) && |qs[|steps|].history| == 2 && AtRest(qs[|steps|], path, Some(w.sha), [w, v])
    requires var config := qs[|steps|].config;
             VersionFor(config, path, a) == Some(v) && config.extract(path, w.sha) != config.extract(path, a) && w.sha != a
    ensures var n := |steps|;
            && IsRun(qs', steps') && |steps'| == n + 4 && Extends(qs, qs')
            && |qs'[n + 3].history| == 3 && steps'[n + 3] == RestoreStep(qs'[n + 3].history[2].id)
            && qs'[n + 4].history == qs[n].history && VersionsOf(qs'[n + 4].index, DocumentOf(path)) == [w]
  {
    var n := |steps|;
    ThreeReviewed(v, w);
    var qs1, steps1 := Review(qs, steps, path, Some(w.sha), [w, v], Some(a));
    var last := qs1[n + 3];
    assert last.history[..2] == qs[n].history;
    LastIsRestored(last, path, a, v, w);
    qs', steps' := RunFurther(qs1, steps1, RestoreStep(last.history[2].id));
    ExtendsTwice(qs, qs1, qs');
    ExtendsAt(qs1, qs', n + 3);
  }

  lemma RunFurther(qs: seq<Queue>, steps: seq<QueueStep>, step: QueueStep) returns (qs': seq<Queue>, steps': seq<QueueStep>)
    requires IsRun(qs, steps) && Possible(qs[|steps|], step)
    ensures IsRun(qs', steps') && Extends(qs, qs') && |steps'| == |steps| + 1
    ensures steps'[|steps|] == step && qs'[|steps| + 1] == Next(qs[|steps|], step)
  {
    RunOn(qs, steps, step);
    qs', steps' := qs + [Next(qs[|steps|], step)], steps + [step];
  }

  lemma ThreeReviewed(v: Version, w: Version)
    requires v.sha != w.sha
    ensures Promote([], v) == [v] && Promote([v], w) == [w, v] && Promote([w, v], v) == [v, w] && Without([v, w], v.sha) == [w]
  {
    assert Position([v], w.sha) == 1;
    assert Position([w, v], v.sha) == 1;
    assert Position([v, w], v.sha) == 0;
    assert [w, v][..1] + [w, v][2..] == [w];
    assert [v, w][..0] + [v, w][1..] == [w];
  }

  lemma LastIsRestored(q: Queue, path: string, a: string, v: Version, w: Version)
    requires Consistent(q) && |q.history| == 3 && v.sha == a && v.sha != w.sha
    requires VersionsOf(q.index, DocumentOf(path)) == [v, w]
    requires var entry := q.history[2];
             entry.action == INDEX && entry.item.path == path && entry.item.change != Deletion && entry.item.candidate == Some(a)
    ensures var q' := Next(q, RestoreStep(q.history[2].id));
            q'.history == q.history[..2] && VersionsOf(q'.index, DocumentOf(path)) == [w]
  {
    PositionOfLast(q);
    LastIsUndone(q, path, a, v, w);
    RestoreUndoesLast(q, UndoLast(q).value);
  }

  lemma RestoreUndoesLast(q: Queue, q1: Queue)
    requires Consistent(q) && q.history != [] && UndoLast(q) == Ok(q1) && q1.history == q.history[..|q.history| - 1]
    requires EntryPosition(q.history, q.history[|q.history| - 1].id) == |q.history| - 1
    ensures var q' := Next(q, RestoreStep(q.history[|q.history| - 1].id)); q'.history == q1.history && q'.index == q1.index
  {
    var position := |q.history| - 1;
    UndoesOne(q, q1);
    TargetsAreRestorable(q, position);
    RestoreUndoes(q, q.history[position].id, q1);
    RestoredSame(q1, q.history[position..]);
  }

  lemma UndoesOne(q: Queue, q1: Queue)
    requires q.history != [] && UndoLast(q) == Ok(q1) && |q1.history| == |q.history| - 1
    ensures UndoDownTo(q, |q.history| - 1) == Ok(q1)
  {
    UndoStep(q, q1, |q.history| - 1);
    NothingToUndo(q1);
  }

  lemma RestoredSame(q: Queue, targets: seq<Entry>)
    ensures Restored(q, targets).history == q.history && Restored(q, targets).index == q.index
  {
  }

  lemma LastIsUndone(q: Queue, path: string, a: string, v: Version, w: Version)
    requires Consistent(q) && |q.history| == 3 && v.sha == a && v.sha != w.sha
    requires VersionsOf(q.index, DocumentOf(path)) == [v, w]
    requires var entry := q.history[2];
             entry.action == INDEX && entry.item.path == path && entry.item.change != Deletion && entry.item.candidate == Some(a)
    ensures UndoLast(q).Ok? && UndoLast(q).value.history == q.history[..2]
    ensures VersionsOf(UndoLast(q).value.index, DocumentOf(path)) == [w]
  {
    ThreeReviewed(v, w);
    UndoLastIsConsistent(q);
  }

  lemma PositionOfLast(q: Queue)
    requires GoodIds(q) && q.history != []
    ensures EntryPosition(q.history, q.history[|q.history| - 1].id) == |q.history| - 1
  {
    PrefixForgets(q, |q.history| - 1);
    var n := |q.history| - 1;
    assert forall j | 0 <= j < n :: q.history[j].id != q.history[n].id;
  }

  // ---------------------------------------------------------------- changes that are dropped

  /** A second file written after the poll: rejecting the first drops its event. */
  lemma RejectDropsChange(q: Queue, path: string, other: string, a: string, x: string) returns (qs: seq<Queue>, steps: seq<QueueStep>)
    requires IsEmpty(q) && other != path
    ensures IsRun(qs, steps) && |steps| == 4 && qs[0] == q && InStepUpTo(qs, 3) && !InStep(qs[4])
    ensures steps[2] == Write(other, Some(x)) && steps[3] == RejectStep(path)
  {
    StartsAtRest(q, path);
    qs, steps := Propose([q], [], path, None, [], Some(a));
    qs, steps := OneMore(qs, steps, Write(other, Some(x)));
    WrittenIsUnsettled(qs[2], other, x);
    qs, steps := FallsOutOfStep(qs, steps, RejectStep(path));
  }

  lemma WrittenIsUnsettled(q: Queue, other: string, x: string)
    requires q.scan == q.disk && other !in q.disk && other !in q.items && other !in q.accepted
    ensures !Settled(Next(q, Write(other, Some(x))), other)
  {
  }

  /** A second file written after the poll: restoring the first drops its event. */
  lemma RestoreDropsChange(q: Queue, path: string, other: string, a: string, x: string) returns (qs: seq<Queue>, steps: seq<QueueStep>)
    requires IsEmpty(q) && other != path && VersionFor(q.config, path, a).Some?
    ensures IsRun(qs, steps) && |steps| == 5 && qs[0] == q && InStepUpTo(qs, 4) && !InStep(qs[5])
    ensures steps[3] == Write(other, Some(x)) && steps[4].RestoreStep?
  {
    StartsAtRest(q, path);
    qs, steps := Review([q], [], path, None, [], Some(a));
    var q3 := qs[3];
    assert q3.history == [q3.history[0]];
    OthersAreNotAccepted(q3, path, other);
    qs, steps := OneMore(qs, steps, Write(other, Some(x)));
    WrittenIsUnsettled(q3, other, x);
    LeftAlone(qs[4], other);
    qs, steps := FallsOutOfStep(qs, steps, RestoreStep(q3.history[0].id));
  }

  lemma OthersAreNotAccepted(q: Queue, path: string, other: string)
    requires Consistent(q) && |q.history| == 1 && q.history[0].item.path == path != other
    ensures other !in q.accepted
  {
    assert q.history[..0] == [] && Replay([]) == map[];
  }

  lemma LeftAlone(q: Queue, other: string)
    requires |q.history| == 1 && q.history[0].item.path != other && !Settled(q, other)
    ensures EntryPosition(q.history, q.history[0].id) == 0 && !Quiet(q, RestoreStep(q.history[0].id))
  {
    assert FirstOf(q.history[0..], other) == 1;
    assert !RestoresInStep(q, q.history[0..], other);
  }

  /** Restoring an accepted deletion reopens it beside the file it puts back. */
  lemma RestoreReopensDeletion(q: Queue, path: string, a: string) returns (qs: seq<Queue>, steps: seq<QueueStep>)
    requires IsEmpty(q) && VersionFor(q.config, path, a).Some?
    ensures IsRun(qs, steps) && |steps| == 7 && qs[0] == q && InStepUpTo(qs, 6) && !InStep(qs[7])
    ensures steps[3] == Write(path, None) && steps[5] == AcceptStep(path) && steps[6].RestoreStep?
  {
    StartsAtRest(q, path);
    var v := VersionFor(q.config, path, a).value;
    assert Promote([], v) == [v];
    var before, steps1 := Review([q], [], path, None, [], Some(a));
    ExtendsAt([q], before, 0);
    qs, steps := DeletionIsReopened(before, steps1, path, a, v);
    ExtendsAt(before, qs, 0);
  }

  lemma DeletionIsReopened(qs: seq<Queue>, steps: seq<QueueStep>, path: string, a: string, v: Version)
    returns (qs': seq<Queue>, steps': seq<QueueStep>)
    requires IsQuietRun(qs, steps) && |qs[|steps|].history| == 1 && AtRest(qs[|steps|], path, Some(a), [v]) && v.sha == a
    ensures var n := |steps|;
            && IsRun(qs', steps') && |steps'| == n + 4 && Extends(qs, qs') && InStepUpTo(qs', n + 3) && !InStep(qs'[n + 4])
            && steps'[n] == Write(path, None) && steps'[n + 2] == AcceptStep(path) && steps'[n + 3].RestoreStep?
  {
    var n := |steps|;
    var qs1, steps1 := Review(qs, steps, path, Some(a), [v], None);
    var last := qs1[n + 3];
    PositionOfLast(last);
    ReopensLast(last, path);
    qs', steps' := FallsOutOfStep(qs1, steps1, RestoreStep(last.history[1].id));
    ExtendsTwice(qs, qs1, qs');
  }

  lemma ReopensLast(q: Queue, path: string)
    requires |q.history| == 2 && EntryPosition(q.history, q.history[1].id) == 1
    requires q.history[1].item.path == path && IsAcceptedDeletion(q.history[1])
    ensures !Quiet(q, RestoreStep(q.history[1].id))
  {
    var targets := q.history[1..];
    assert targets[0] == q.history[1] && FirstOf(targets, path) == 0;
    assert !RestoresInStep(q, targets, path);
  }

  /** A capture that raises drops the change for good: the scan was saved before. */
  lemma RaisingPollDropsChange(q: Queue, path: string, a: string) returns (qs: seq<Queue>, steps: seq<QueueStep>)
    requires IsEmpty(q)
    ensures IsRun(qs, steps) && |steps| == 2 && qs[0] == q && InStepUpTo(qs, 1) && !InStep(qs[2])
    ensures steps[1] == PollStep([path], [], {}, Some(path))
  {
    StartsAtRest(q, path);
    qs, steps := OneMore([q], [], Write(path, Some(a)));
    var q1, step := qs[1], PollStep([path], [], {}, Some(path));
    OneEvent(q1.scan, q1.disk, path);
    var events := EventsOver(q1.scan, q1.disk, [path]);
    assert events == [Created(path, a)] && Raises(events[0], Some(path));
    assert FirstRaise(events, Some(path)) == 0 && !Settled(q1, events[0].path);
    qs, steps := FallsOutOfStep(qs, steps, step);
  }

  // ---------------------------------------------------------------- an addition that is refused

  /** Accepting a, b, and the deletion of b leaves a current, and the addition of c is refused as stale. */
  lemma AdditionIsRefused(q: Queue, path: string, a: string, b: string, c: string) returns (qs: seq<Queue>, steps: seq<QueueStep>)
    requires IsEmpty(q) && Differ(q.config, path, a, b) && VersionFor(q.config, path, c).Some?
    ensures IsRun(qs, steps) && |steps| == 11 && qs[0] == q && path in qs[11].items && qs[11].items[path].change == Addition
    ensures Accept(qs[11], path) == (qs[11], Err(IndexFailed(SqliteIndexer.StaleBaseline)))
  {
    var v, w := VersionFor(q.config, path, a).value, VersionFor(q.config, path, b).value;
    var before, steps1 := TwoReviews(q, path, a, b);
    qs, steps := AdditionIsStale(before, steps1, path, v, w, c);
    ExtendsAt(before, qs, 0);
  }

  lemma AdditionIsStale(qs: seq<Queue>, steps: seq<QueueStep>, path: string, v: Version, w: Version, c: string)
    returns (qs': seq<Queue>, steps': seq<QueueStep>)
    requires IsQuietRun(qs, steps) && AtRest(qs[|steps|], path, Some(w.sha), [w, v]) && v.sha != w.sha
    requires VersionFor(qs[|steps|].config, path, c).Some?
    ensures IsRun(qs', steps') && |steps'| == |steps| + 5 && Extends(qs, qs')
    ensures var q' := qs'[|steps'|];
            && path in q'.items && q'.items[path].change == Addition
            && Accept(q', path) == (q', Err(IndexFailed(SqliteIndexer.StaleBaseline)))
  {
    ThreeReviewed(w, v);
    var qs1, steps1 := Review(qs, steps, path, Some(w.sha), [w, v], None);
    qs', steps' := Propose(qs1, steps1, path, None, [v], Some(c));
    ExtendsTwice(qs, qs1, qs');
    StaleAddition(qs1[|steps1|], qs'[|steps'|], path, v, c);
  }

  lemma StaleAddition(q: Queue, q2: Queue, path: string, v: Version, c: string)
    requires AtRest(q, path, None, [v]) && Proposes(q, q2, path, None, Some(c)) && VersionFor(q.config, path, c).Some?
    ensures path in q2.items && q2.items[path].change == Addition
    ensures Accept(q2, path) == (q2, Err(IndexFailed(SqliteIndexer.StaleBaseline)))
  {
    assert q2.items[path] == NewItem(path, None, Some(c));
    assert CurrentOf(q2.index, DocumentOf(path)) == Some(v.sha);
  }

  // ---------------------------------------------------------------- a hold that is overtaken

  function DuePoll(path: string): QueueStep {
    PollStep([path], [path], {path}, None)
  }

  /** A poll that finds no change processes what is due. */
  lemma IdlePollProcesses(q: Queue, path: string)
    requires Consistent(q) && q.scan == q.disk
    ensures Next(q, DuePoll(path)) == AutoAccept(q, path, {path}) && Quiet(q, DuePoll(path))
  {
    OneEvent(q.scan, q.disk, path);
    var events := EventsOver(q.scan, q.disk, [path]);
    assert events == [] && events[..0] == [];
    assert q.(scan := q.disk) == q;
    NothingToDiscard(q);
    OneAutoAccept(q, path);
  }

  lemma OneAutoAccept(q: Queue, path: string)
    ensures AutoAccepts(q, [path], {path}) == AutoAccept(q, path, {path})
  {
    assert [path][..0] == [] && AutoAccepts(q, [], {path}) == q;
  }

  /** An addition that is cleared and due is indexed. */
  lemma DueIsIndexed(q: Queue, path: string, a: string)
    requires CurrentOf(q.index, DocumentOf(path)) == None && VersionFor(q.config, path, a).Some?
    requires path in q.items && q.items[path] == NewItem(path, None, Some(a)).(autoProcessing := true, reviewRequired := Some(false))
    ensures var history := AutoAccept(q, path, {path}).history;
            |history| == |q.history| + 1 && history[|q.history|].action == AUTO_INDEX && history[|q.history|].item == q.items[path]
  {
    assert IndexItem(q, q.items[path]).Ok?;
  }

  /** The operator holds an item while its assessment is still under way; the assessment ends with no review
      required, for the same file, and the next poll indexes it. */
  lemma LateAssessmentOverridesHold(q: Queue, path: string, a: string) returns (qs: seq<Queue>, steps: seq<QueueStep>)
    requires IsEmpty(q) && VersionFor(q.config, path, a).Some?
    ensures IsRun(qs, steps) && |steps| == 5 && qs[0] == q
    ensures steps[2] == HoldStep(path) && path in qs[3].items && !qs[3].items[path].autoProcessing
    ensures steps[3] == AssessStep(path, Some(a), false) && steps[4].PollStep?
    ensures |qs[5].history| == 1 && qs[5].history[0].action == AUTO_INDEX && qs[5].history[0].item.path == path
  {
    StartsAtRest(q, path);
    var qs2, steps2 := Propose([q], [], path, None, [], Some(a));
    qs, steps := HoldIsOverridden(q, qs2, steps2, path, a);
    ExtendsAt([q], qs2, 0);
    ExtendsAt(qs2, qs, 0);
  }

  lemma HoldIsOverridden(q: Queue, qs: seq<Queue>, steps: seq<QueueStep>, path: string, a: string)
    returns (qs': seq<Queue>, steps': seq<QueueStep>)
    requires IsEmpty(q) && IsQuietRun(qs, steps) && Proposes(q, qs[|steps|], path, None, Some(a)) && VersionFor(q.config, path, a).Some?
    ensures IsRun(qs', steps') && Extends(qs, qs') && |steps'| == |steps| + 3
    ensures steps' == steps + [HoldStep(path)] + [AssessStep(path, Some(a), false)] + [DuePoll(path)]
    ensures var held, last := qs'[|steps| + 1], qs'[|steps'|];
            && path in held.items && !held.items[path].autoProcessing
            && |last.history| == 1 && last.history[0].action == AUTO_INDEX && last.history[0].item.path == path
  {
    HeldThenAssessed(q, qs[|steps|], path, a);
    var qs2, steps2 := HoldAndAssess(qs, steps, path, a);
    qs', steps' := IndexesNow(qs2, steps2, path, a);
    ExtendsTwice(qs, qs2, qs');
    ExtendsAt(qs2, qs', |steps| + 1);
  }

  lemma HoldAndAssess(qs: seq<Queue>, steps: seq<QueueStep>, path: string, a: string) returns (qs': seq<Queue>, steps': seq<QueueStep>)
    requires IsQuietRun(qs, steps)
    ensures IsQuietRun(qs', steps') && Extends(qs, qs') && steps' == steps + [HoldStep(path)] + [AssessStep(path, Some(a), false)]
    ensures var q3 := Next(qs[|steps|], HoldStep(path));
            qs'[|steps| + 1] == q3 && qs'[|steps| + 2] == Next(q3, AssessStep(path, Some(a), false))
  {
    var qs1, steps1 := OneMore(qs, steps, HoldStep(path));
    qs', steps' := OneMore(qs1, steps1, AssessStep(path, Some(a), false));
    ExtendsTwice(qs, qs1, qs');
  }

  lemma IndexesNow(qs: seq<Queue>, steps: seq<QueueStep>, path: string, a: string) returns (qs': seq<Queue>, steps': seq<QueueStep>)
    requires IsQuietRun(qs, steps) && IsCleared(qs[|steps|], path, a) && VersionFor(qs[|steps|].config, path, a).Some?
    ensures IsRun(qs', steps') && Extends(qs, qs') && steps' == steps + [DuePoll(path)]
    ensures var history := qs'[|steps'|].history; |history| == 1 && history[0].action == AUTO_INDEX && history[0].item.path == path
  {
    ClearedIsIndexed(qs[|steps|], path, a);
    qs', steps' := OneMore(qs, steps, DuePoll(path));
  }

  /** The item is pending and cleared, as it was proposed. */
  ghost predicate IsCleared(q: Queue, path: string, a: string) {
    && Consistent(q) && q.scan == q.disk == map[path := a] && q.history == [] && CurrentOf(q.index, DocumentOf(path)) == None
    && path in q.items && q.items[path] == NewItem(path, None, Some(a)).(autoProcessing := true, reviewRequired := Some(false))
  }

  lemma HeldThenAssessed(q: Queue, q2: Queue, path: string, a: string)
    requires IsEmpty(q) && Proposes(q, q2, path, None, Some(a))
    ensures var q3 := Next(q2, HoldStep(path));
            && path in q3.items && !q3.items[path].autoProcessing
            && IsCleared(Next(q3, AssessStep(path, Some(a), false)), path, a)
  {
    var q3 := Next(q2, HoldStep(path));
    NextKeepsConsistent(q2, HoldStep(path));
    NextKeepsConsistent(q3, AssessStep(path, Some(a), false));
  }

  lemma ClearedIsIndexed(q: Queue, path: string, a: string)
    requires IsCleared(q, path, a) && VersionFor(q.config, path, a).Some?
    ensures Possible(q, DuePoll(path)) && Quiet(q, DuePoll(path))
    ensures var history := Next(q, DuePoll(path)).history;
            |history| == 1 && history[0].action == AUTO_INDEX && history[0].item.path == path
  {
    IdlePollProcesses(q, path);
    DueIsIndexed(q, path, a);
  }

  // ---------------------------------------------------------------- a repeated restore that is refused

  lemma ProposalIsRejected(q: Queue, q2: Queue, path: string, versions: seq<Version>, a: string)
    requires AtRest(q, path, None, versions) && Proposes(q, q2, path, None, Some(a))
    ensures var q3 := Next(q2, RejectStep(path));
            AtRest(q3, path, None, versions) && |q3.history| == |q.history| + 1 && Quiet(q2, RejectStep(path))
  {
    RejectKeepsConsistent(q2, path);
    assert q2.items - {path} == map[];
    assert Patch(q.disk, path, Some(a)) - {path} == q.disk;
  }

  /** A file that is written and rejected again and again. */
  lemma {:induction false} Rejections(q: Queue, path: string, a: string, n: nat) returns (qs: seq<Queue>, steps: seq<QueueStep>)
    requires IsEmpty(q)
    ensures IsQuietRun(qs, steps) && qs[0] == q && AtRest(qs[|steps|], path, None, []) && |qs[|steps|].history| == n
  {
    if n == 0 {
      StartsAtRest(q, path);
      qs, steps := [q], [];
    } else {
      qs, steps := Rejections(q, path, a, n - 1);
      var rest := qs[|steps|];
      qs, steps := Propose(qs, steps, path, None, [], Some(a));
      ProposalIsRejected(rest, qs[|steps|], path, [], a);
      qs, steps := OneMore(qs, steps, RejectStep(path));
    }
  }

  /** Restoring 257 reviews succeeds; the same request again is refused as unknown. */
  lemma RepeatIsRefused(q: Queue, path: string, a: string) returns (qs: seq<Queue>, steps: seq<QueueStep>, id: nat)
    requires IsEmpty(q)
    ensures IsRun(qs, steps) && qs[0] == q
    ensures var (q', first) := RestoreBefore(qs[|steps|], id); first == Ok(257) && RestoreBefore(q', id) == (q', Err(UnknownKey))
  {
    qs, steps := Rejections(q, path, a, 257);
    var last := qs[|steps|];
    id := last.history[0].id;
    assert EntryPosition(last.history, id) == 0;
    RestoreReplaysPrefix(last, id);
    RepeatIsAbsorbedExactly(last, id);
  }

  // ---------------------------------------------------------------- a search that is refused

  function RowsOf(document: string, version: Version): (rows: seq<Search.ChunkRow>)
    ensures |rows| == |version.chunks|
  {
    seq(|version.chunks|, i requires 0 <= i < |version.chunks| => Search.ChunkRow(document, version.sha, i, version.chunks[i]))
  }

  lemma OneDocumentRows(index: Index, document: string, version: Version)
    requires StoresOnly(index, document, [version])
    ensures Search.Enumerates(RowsOf(document, version), index, None)
  {
    var rows := RowsOf(document, version);
    forall row ensures row in rows <==> Search.IsCurrentRow(index, None, row) {
      if Search.IsCurrentRow(index, None, row) { assert rows[row.index] == row; }
    }
  }

  /** The queue accepts a file with a path of more than 194 characters; a search that finds it is answered, and
      the answer is refused. */
  lemma LongNameIsRefused(q: Queue, path: string, a: string, query: string, scoring: Search.Scoring, limit: int)
    returns (qs: seq<Queue>, steps: seq<QueueStep>, rows: seq<Search.ChunkRow>)
    requires IsEmpty(q) && VersionFor(q.config, path, a).Some? && |path| > 194
    requires 1 <= |query| <= 2000 && TextSplitter.Strip(query) != "" && 0 < limit <= 50
    requires forall text :: scoring(TextSplitter.Strip(query), text) > 0
    ensures IsRun(qs, steps) && |steps| == 3 && qs[0] == q && Search.Enumerates(rows, qs[3].index, None)
    ensures var response := Search.Respond(qs[3].index, rows, query, scoring, limit, None);
            response.Some? && !Search.ValidResponse(response.value)
  {
    var document, v := DocumentOf(path), VersionFor(q.config, path, a).value;
    StartsAtRest(q, path);
    assert Promote([], v) == [v];
    qs, steps := Review([q], [], path, None, [], Some(a));
    rows := RowsOf(document, v);
    OneDocumentRows(qs[3].index, document, v);
    FirstRowIsShown(rows, Search.ScoreFor(scoring, query), limit);
  }

  lemma FirstRowIsShown(rows: seq<Search.ChunkRow>, score: string -> int, limit: nat)
    requires Search.DistinctRows(rows) && rows != [] && limit > 0 && forall text :: score(text) > 0
    requires forall row | row in rows :: |row.document| > 200
    ensures exists hit :: hit in Search.TopHits(rows, score, limit) && !Search.ValidHit(hit)
  {
    Search.SortIsScored(rows, score);
    Search.TopHitsFromRows(rows, score, limit);
    var hits := Search.TopHits(rows, score, limit);
    assert Search.Hit(rows[0], score(rows[0].text)) in Search.Sort(Search.ScoredHits(rows, score));
    assert hits[0] in hits;
  }
}
