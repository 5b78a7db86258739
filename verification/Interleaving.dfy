/** Preparing holds no lock from end to end: it reads the index and allocates a version before it stores the
    analysis. This module takes it apart. A run of interleaved preparations is a run of the gateway, so that
    every theorem about those holds for it; only the numbering of versions depends on who overlaps whom. */
module Interleaving {
  import opened Wrappers
  import opened Contracts
  import opened VersionedIndex
  import opened Gate
  import opened Operations
  import opened Dashboard
  import opened Runs
  import opened AuthoritySafety
  import opened StepEffects
  import opened Lineage
  import ApprovalSafety
  import Quarantine
  import FirstApproval
  import LogViews

  /** A version as it was allocated, and the originals it was counted from. */
  datatype Allocation = Allocation(version: nat, counted: set<string>)

  /** A preparation under way: the snapshots, the version that was current, and the version allocated. */
  datatype Ticket = Ticket(
    baseline: Snapshot, candidate: Snapshot, changedBy: string, expected: Option<string>, allocation: Option<Allocation>)

  datatype Open = Open(world: World, tickets: map<string, Ticket>)

  /** An operation, the start or the end of a dispatch, or a part of `prepare_streams`. */
  datatype Move =
    | Whole(step: Step)
    | Begin(ticket: string, baseline: Snapshot, candidate: Snapshot, changedBy: string)
    | Allocate(ticket: string, version: nat)
    | Deposit(ticket: string, token: string)

  ghost function Originals(w: World, document: string): set<string> {
    set id | id in w.records && IsOriginal(w.records[id].prepared, document)
  }

  ghost predicate CanMove(o: Open, m: Move) {
    match m
    case Whole(step) => Possible(o.world, step) && !step.Store? && !step.Look?
    case Begin(ticket, baseline, candidate, _) =>
      var current := CurrentOf(o.world.index, candidate.documentId);
      && ticket !in o.tickets && baseline.documentId == candidate.documentId
      && (current.None? || current.value == baseline.sha256)
    case Allocate(ticket, version) =>
      && ticket in o.tickets && o.tickets[ticket].allocation.None?
      && IsNextVersion(o.world, o.tickets[ticket].candidate.documentId, version)
    case Deposit(ticket, token) =>
      ticket in o.tickets && o.tickets[ticket].allocation.Some? && "anl_" + token !in o.world.records
  }

  /** The storing step that a ticket has become. */
  function Storing(t: Ticket, token: string): (step: Step)
    requires t.allocation.Some?
    ensures step.Store?
  {
    Store(t.baseline, t.candidate, t.changedBy, t.expected, t.allocation.value.version, token)
  }

  ghost function After(o: Open, m: Move): Open
    requires CanMove(o, m)
  {
    match m
    case Whole(step) => o.(world := Next(o.world, step))
    case Begin(ticket, baseline, candidate, changedBy) =>
      var current := CurrentOf(o.world.index, candidate.documentId);
      o.(tickets := o.tickets[ticket := Ticket(baseline, candidate, changedBy, current, None)])
    case Allocate(ticket, version) =>
      var t := o.tickets[ticket];
      o.(tickets := o.tickets[ticket := t.(allocation := Some(Allocation(version, Originals(o.world, t.candidate.documentId))))])
    case Deposit(ticket, token) =>
      Open(StoreStep(o.world, Put(Storing(o.tickets[ticket], token), o.world.clock), token), o.tickets - {ticket})
  }

  ghost predicate Moves(o: Open, m: Move, o': Open) {
    CanMove(o, m) && o' == After(o, m)
  }

  ghost predicate IsOpenRun(os: seq<Open>, moves: seq<Move>) {
    && |os| == |moves| + 1 && Initial(os[0].world) && os[0].tickets == map[]
    && forall i | 0 <= i < |moves| :: Moves(os[i], moves[i], os[i + 1])
  }

  // ---------------------------------------------------------------- interleavings are runs

  /** What a move is to the gateway. */
  function StepOf(o: Open, m: Move): Step {
    match m
    case Whole(step) => step
    case Deposit(ticket, token) =>
      if ticket in o.tickets && o.tickets[ticket].allocation.Some? then Storing(o.tickets[ticket], token) else Look
    case _ => Look
  }

  predicate Fits(t: Ticket) {
    t.baseline.documentId == t.candidate.documentId && (t.expected.Some? ==> t.expected.value == t.baseline.sha256)
  }

  predicate TicketsFit(o: Open) {
    forall t | t in o.tickets :: Fits(o.tickets[t])
  }

  lemma MoveIsStep(o: Open, m: Move)
    requires TicketsFit(o) && CanMove(o, m)
    ensures Possible(o.world, StepOf(o, m)) && After(o, m).world == Next(o.world, StepOf(o, m)) && TicketsFit(After(o, m))
  {
  }

  function Worlds(os: seq<Open>): (ws: seq<World>)
    ensures |ws| == |os| && forall i | 0 <= i < |os| :: ws[i] == os[i].world
  {
    seq(|os|, i requires 0 <= i < |os| => os[i].world)
  }

  function Steps(os: seq<Open>, moves: seq<Move>): (steps: seq<Step>)
    requires |os| == |moves| + 1
    ensures |steps| == |moves| && forall i | 0 <= i < |moves| :: steps[i] == StepOf(os[i], moves[i])
  {
    seq(|moves|, i requires 0 <= i < |moves| => StepOf(os[i], moves[i]))
  }

  lemma {:induction false} TicketsAlwaysFit(os: seq<Open>, moves: seq<Move>, n: nat)
    requires IsOpenRun(os, moves) && n < |os|
    ensures TicketsFit(os[n])
  {
    if n > 0 {
      TicketsAlwaysFit(os, moves, n - 1);
      assert Moves(os[n - 1], moves[n - 1], os[n]);
      MoveIsStep(os[n - 1], moves[n - 1]);
    }
  }

  lemma MoveTaken(os: seq<Open>, moves: seq<Move>, n: nat)
    requires IsOpenRun(os, moves) && n < |moves|
    ensures Possible(os[n].world, StepOf(os[n], moves[n])) && os[n + 1].world == Next(os[n].world, StepOf(os[n], moves[n]))
  {
    TicketsAlwaysFit(os, moves, n);
    assert Moves(os[n], moves[n], os[n + 1]);
    MoveIsStep(os[n], moves[n]);
  }

  /** However preparations and dispatches interleave, the gateway takes a run. */
  lemma OpenRunsAreRuns(os: seq<Open>, moves: seq<Move>)
    requires IsOpenRun(os, moves)
    ensures IsRun(Worlds(os), Steps(os, moves))
  {
    var ws, steps := Worlds(os), Steps(os, moves);
    forall i | 0 <= i < |steps| ensures Possible(ws[i], steps[i]) && ws[i + 1] == Next(ws[i], steps[i]) {
      MoveTaken(os, moves, i);
    }
  }

  ghost predicate IsGuardedOpenRun(os: seq<Open>, moves: seq<Move>) {
    IsOpenRun(os, moves) && forall i | 0 <= i < |moves| :: Guarded(os[i].world, StepOf(os[i], moves[i]))
  }

  lemma GuardedOpenRunsAreGuardedRuns(os: seq<Open>, moves: seq<Move>)
    requires IsGuardedOpenRun(os, moves)
    ensures IsGuardedRun(Worlds(os), Steps(os, moves))
  {
    OpenRunsAreRuns(os, moves);
    var ws, steps := Worlds(os), Steps(os, moves);
    forall i | 0 <= i < |steps| ensures Guarded(ws[i], steps[i]) {
      assert steps[i] == StepOf(os[i], moves[i]);
    }
  }

  /** Interleaved or not, only approved content is indexed, exactly if no approval escaped. */
  lemma OpenRunsIndexOnlyApproved(os: seq<Open>, moves: seq<Move>, n: nat)
    requires IsOpenRun(os, moves) && n < |os|
    ensures ApprovalSafety.ApprovedUpTo(Worlds(os), n) <==> ApprovalSafety.NoneEscapes(Worlds(os), Steps(os, moves), n)
  {
    OpenRunsAreRuns(os, moves);
    ApprovalSafety.OnlyApprovedIsIndexed(Worlds(os), Steps(os, moves), n);
  }

  /** Interleaved or not, a quarantine is for good. */
  lemma OpenRunsKeepQuarantine(os: seq<Open>, moves: seq<Move>, i: nat, j: nat, id: string)
    requires IsOpenRun(os, moves) && i <= j < |moves|
    requires Quarantine.IsQuarantined(os[i].world, id) && Quarantine.IsAbout(StepOf(os[j], moves[j]), id)
    ensures Quarantine.IsQuarantined(os[j].world, id)
    ensures Quarantine.AtMostRemoves(os[j].world, os[j + 1].world.index, os[j].world.records[id].prepared)
  {
    OpenRunsAreRuns(os, moves);
    Quarantine.QuarantinedIsNeverIndexed(Worlds(os), Steps(os, moves), i, j, id);
  }

  /** Interleaved or not, the console finds no issue, and the attempts form chains that lead to a live one. */
  lemma OpenRunsAreTrusted(os: seq<Open>, moves: seq<Move>, n: nat)
    requires IsGuardedOpenRun(os, moves) && n < |os|
    ensures forall id | id in os[n].world.records :: Trusted(os[n].world, id)
    ensures Chained(ForestOf(os[n].world))
  {
    GuardedOpenRunsAreGuardedRuns(os, moves);
    GuardedRunsAreChained(Worlds(os), Steps(os, moves), n);
    forall id | id in os[n].world.records ensures Trusted(os[n].world, id) {
      GuardedRunsAreTrusted(Worlds(os), Steps(os, moves), n, id);
    }
  }

  /** A dispatch that fails late leaves its analysis trusted exactly if the console would still offer it,
      whatever happened since it was started. */
  lemma LateFailureExactly(w: World, id: string, requestId: string)
    requires AllSound(w) && id in w.records
    ensures var w' := Next(w, Fail(id, requestId));
            id in w'.records && (Trusted(w', id) <==> CanDispatch(StatusOf(w, id), w.records[id].prepared))
  {
    assert Sound(w, id);
    SoundIsTrusted(w, id);
    FailureReads(w, id, requestId);
    FailureIsTrustedExactly(w, Next(w, Fail(id, requestId)), id, requestId);
  }

  lemma FailureIsTrustedExactly(w: World, w': World, id: string, requestId: string)
    requires AllSound(w) && id in w.records && w' == Log(w, id, DispatchFailed(requestId)) && id in w'.records
    requires LogViews.ViewOf(w', id).at == LogViews.ViewOf(w, id).at.(state := ANALYSIS_FAILED)
    ensures Trusted(w', id) <==> IsPrePolicy(StatusOf(w, id).state)
  {
    assert Sound(w, id);
    if IsPrePolicy(LogViews.ViewOf(w, id).at.state) {
      FailKeepsSound(w, id, requestId);
      assert Sound(w', id);
      SoundIsTrusted(w', id);
    } else {
      FailedAfterOutcome(StatusOf(w', id), w'.records[id].prepared);
    }
  }

  // ---------------------------------------------------------------- the numbering of versions

  /** The originals an allocation counted carry the versions below it, and are still there. */
  ghost predicate AllocationHolds(w: World, document: string, a: Allocation) {
    && a.version >= 1 && a.counted <= Originals(w, document)
    && (forall id | id in a.counted :: id in w.records && w.records[id].prepared.version < a.version)
    && (forall u: nat | 1 <= u < a.version :: Counts(w, a.counted, u))
  }

  ghost predicate Counts(w: World, counted: set<string>, version: nat) {
    exists id :: id in counted && id in w.records && w.records[id].prepared.version == version
  }

  ghost predicate AllocationsHold(o: Open) {
    forall t | t in o.tickets && o.tickets[t].allocation.Some? ::
      AllocationHolds(o.world, o.tickets[t].candidate.documentId, o.tickets[t].allocation.value)
  }

  lemma AllocationLasts(w: World, w': World, document: string, a: Allocation)
    requires AllocationHolds(w, document, a) && Grows(w, w')
    ensures AllocationHolds(w', document, a)
  {
    forall u: nat | 1 <= u < a.version ensures Counts(w', a.counted, u) {
      assert Counts(w, a.counted, u);
      var id :| id in a.counted && id in w.records && w.records[id].prepared.version == u;
      assert RecordGrows(w.records[id], w'.records[id]);
    }
  }

  /** A fresh allocation counts an original for each version below it. */
  lemma FreshAllocationHolds(w: World, document: string, version: nat)
    requires Numbered(ForestOf(w)) && IsNextVersion(w, document, version)
    ensures AllocationHolds(w, document, Allocation(version, Originals(w, document)))
  {
    var f := ForestOf(w);
    NextIsNextVersion(w, document, version);
    forall u: nat | 1 <= u < version ensures Counts(w, Originals(w, document), u) {
      VersionsBelow(f, document, version - 1, u);
      var id :| IsOriginalVersion(f, id, document, u);
      assert id in Originals(w, document);
    }
  }

  /** The version is recorded after another original of the document was. */
  ghost predicate Overlaps(o: Open, m: Move) {
    m.Deposit? && m.ticket in o.tickets && o.tickets[m.ticket].allocation.Some?
    && Originals(o.world, o.tickets[m.ticket].candidate.documentId) != o.tickets[m.ticket].allocation.value.counted
  }

  /** A version is still the next one exactly if no other original was recorded since it was allocated. */
  lemma StillNextExactly(w: World, document: string, a: Allocation)
    requires Ordered(ForestOf(w)) && AllocationHolds(w, document, a)
    ensures IsNext(ForestOf(w), document, a.version) <==> Originals(w, document) == a.counted
  {
    var f := ForestOf(w);
    if Originals(w, document) == a.counted {
      if a.version > 1 { CountedIsThere(w, document, a); }
    } else {
      var id :| id in Originals(w, document) && id !in a.counted;
      LaterIsHigher(w, document, a, id);
      assert id in f && IsOriginal(f[id].p, document);
    }
  }

  lemma CountedIsThere(w: World, document: string, a: Allocation)
    requires AllocationHolds(w, document, a) && a.version > 1
    ensures HasVersion(ForestOf(w), document, a.version - 1)
  {
    assert Counts(w, a.counted, a.version - 1);
    var id :| id in a.counted && id in w.records && w.records[id].prepared.version == a.version - 1;
    assert id in Originals(w, document);
    assert IsOriginalVersion(ForestOf(w), id, document, a.version - 1);
  }

  lemma LaterIsHigher(w: World, document: string, a: Allocation, id: string)
    requires Ordered(ForestOf(w)) && AllocationHolds(w, document, a) && id in Originals(w, document) && id !in a.counted
    ensures w.records[id].prepared.version >= a.version
  {
    var f, u := ForestOf(w), w.records[id].prepared.version;
    assert IsNumbered(f, f[id].p);
    if u < a.version {
      assert Counts(w, a.counted, u);
      var other :| other in a.counted && other in w.records && w.records[other].prepared.version == u;
      assert other in Originals(w, document);
      assert IsOriginalVersion(f, other, document, u) && IsOriginalVersion(f, id, document, u);
    }
  }

  /** What is recorded is in turn exactly if it does not overlap. */
  lemma InTurnExactly(o: Open, m: Move)
    requires Ordered(ForestOf(o.world)) && AllocationsHold(o) && CanMove(o, m)
    ensures InTurn(o.world, StepOf(o, m)) <==> !Overlaps(o, m)
  {
    if m.Deposit? {
      var t := o.tickets[m.ticket];
      StillNextExactly(o.world, t.candidate.documentId, t.allocation.value);
      NextIsNextVersion(o.world, t.candidate.documentId, t.allocation.value.version);
    }
  }

  // ---------------------------------------------------------------- what every interleaving keeps

  /** Every version has its original and the versions below it, whether or not preparations overlapped. */
  lemma MoveKeepsNumbered(o: Open, m: Move)
    requires AllSound(o.world) && TicketsFit(o) && CanMove(o, m) && Guarded(o.world, StepOf(o, m))
    requires Numbered(ForestOf(o.world)) && AllocationsHold(o)
    ensures Numbered(ForestOf(After(o, m).world)) && AllocationsHold(After(o, m))
  {
    MoveIsStep(o, m);
    NextHasEffect(o.world, StepOf(o, m));
    if m.Deposit? {
      RecordKeepsNumbered(o, m);
    } else {
      EffectKeepsNumbered(o.world, After(o, m).world, StepOf(o, m));
    }
    MoveKeepsAllocations(o, m);
  }

  lemma RecordKeepsNumbered(o: Open, m: Move)
    requires m.Deposit? && TicketsFit(o) && CanMove(o, m) && Numbered(ForestOf(o.world)) && AllocationsHold(o)
    ensures Numbered(ForestOf(After(o, m).world))
  {
    var t := o.tickets[m.ticket];
    var p := Put(Storing(t, m.token), o.world.clock);
    MoveIsStep(o, m);
    StoreHasEffect(o.world, Storing(t, m.token));
    AddedForest(o.world, After(o, m).world, p);
    if p.version > 1 { CountedIsThere(o.world, p.documentId, t.allocation.value); }
    OriginalKeepsNumbered(ForestOf(o.world), p);
  }

  lemma EffectKeepsNumbered(w: World, w': World, step: Step)
    requires Numbered(ForestOf(w)) && Possible(w, step) && !step.Store? && HasEffect(w, w', step)
    ensures Numbered(ForestOf(w'))
  {
    if AddsSome(w, w', step) {
      var p :| IsAddedBy(w, step, p) && AddsOriginal(w, w', p);
      AddedForest(w, w', p);
      NextIsNextVersion(w, p.documentId, p.version);
      OriginalKeepsNumbered(ForestOf(w), p);
    } else if ExtendsSome(w, w') {
      var id :| Extends(w, w', id);
      ExtendedForest(w, w', id);
    } else if SupersedesSome(w, w') {
      var id, newId :| Supersedes(w, w', id, newId);
      SupersededForest(w, w', id, newId);
      ReplacementNumbers(ForestOf(w), id, newId, w'.records[newId].prepared);
    }
  }

  lemma MoveKeepsAllocations(o: Open, m: Move)
    requires TicketsFit(o) && CanMove(o, m) && Numbered(ForestOf(o.world)) && AllocationsHold(o)
    ensures AllocationsHold(After(o, m))
  {
    var o' := After(o, m);
    MoveIsStep(o, m);
    NextGrows(o.world, StepOf(o, m));
    forall t | t in o'.tickets && o'.tickets[t].allocation.Some?
      ensures AllocationHolds(o'.world, o'.tickets[t].candidate.documentId, o'.tickets[t].allocation.value)
    {
      if m.Allocate? && m.ticket == t {
        FreshAllocationHolds(o.world, o.tickets[t].candidate.documentId, m.version);
      } else {
        AllocationLasts(o.world, o'.world, o.tickets[t].candidate.documentId, o.tickets[t].allocation.value);
      }
    }
  }

  /** On every interleaving each version that is stored has an original, and so has every version below it. */
  lemma {:induction false} OpenRunsAreNumbered(os: seq<Open>, moves: seq<Move>, n: nat)
    requires IsGuardedOpenRun(os, moves) && n < |os|
    ensures Numbered(ForestOf(os[n].world)) && AllocationsHold(os[n])
  {
    if n > 0 {
      OpenRunsAreNumbered(os, moves, n - 1);
      StaysNumbered(os, moves, n - 1);
    }
  }

  lemma StaysNumbered(os: seq<Open>, moves: seq<Move>, n: nat)
    requires IsGuardedOpenRun(os, moves) && n < |moves| && Numbered(ForestOf(os[n].world)) && AllocationsHold(os[n])
    ensures Numbered(ForestOf(os[n + 1].world)) && AllocationsHold(os[n + 1])
  {
    var o, m := os[n], moves[n];
    OpenRunsAreSound(os, moves, n);
    TicketsAlwaysFit(os, moves, n);
    assert Moves(o, m, os[n + 1]) && Guarded(o.world, StepOf(o, m));
    MoveKeepsNumbered(o, m);
  }

  lemma OpenRunsAreSound(os: seq<Open>, moves: seq<Move>, n: nat)
    requires IsGuardedOpenRun(os, moves) && n < |os|
    ensures AllSound(os[n].world)
  {
    GuardedOpenRunsAreGuardedRuns(os, moves);
    GuardedRunsAreSound(Worlds(os), Steps(os, moves), n);
  }

  // ---------------------------------------------------------------- what overlapping costs

  ghost predicate NoneOverlaps(os: seq<Open>, moves: seq<Move>, n: nat)
    requires n <= |moves| < |os|
  {
    n > 0 ==> !Overlaps(os[n - 1], moves[n - 1]) && NoneOverlaps(os, moves, n - 1)
  }

  /** Up to any state of any interleaving each version has one original and one live analysis, exactly if no
      version was recorded after another original of its document that it had not counted. */
  lemma {:induction false} NumberingHoldsExactly(os: seq<Open>, moves: seq<Move>, n: nat)
    requires IsGuardedOpenRun(os, moves) && n < |os|
    ensures OrderedUpTo(Worlds(os), n) <==> NoneOverlaps(os, moves, n)
  {
    if n > 0 {
      NumberingHoldsExactly(os, moves, n - 1);
      OneMoveFurther(os, moves, n - 1);
    }
  }

  lemma OneMoveFurther(os: seq<Open>, moves: seq<Move>, n: nat)
    requires IsGuardedOpenRun(os, moves) && n < |moves|
    ensures Ordered(ForestOf(os[n].world)) ==> (Ordered(ForestOf(os[n + 1].world)) <==> !Overlaps(os[n], moves[n]))
  {
    GuardedOpenRunsAreGuardedRuns(os, moves);
    StepOrdersExactly(Worlds(os), Steps(os, moves), n);
    OpenRunsAreNumbered(os, moves, n);
    assert Moves(os[n], moves[n], os[n + 1]);
    if Ordered(ForestOf(os[n].world)) { InTurnExactly(os[n], moves[n]); }
  }

  // ---------------------------------------------------------------- a run that loses the numbering

  /** Both preparations of a new document have allocated version 1. */
  lemma BothAllocate(o: Open, baseline: Snapshot, candidate: Snapshot, changedBy: string)
    returns (o1: Open, o2: Open, o3: Open, o4: Open)
    requires Initial(o.world) && o.tickets == map[] && baseline.documentId == candidate.documentId
    ensures Moves(o, Begin("a", baseline, candidate, changedBy), o1) && Moves(o1, Begin("b", baseline, candidate, changedBy), o2)
    ensures Moves(o2, Allocate("a", 1), o3) && Moves(o3, Allocate("b", 1), o4)
    ensures o4.world == o.world
    ensures var t := Ticket(baseline, candidate, changedBy, None, Some(Allocation(1, {})));
            o4.tickets == map["a" := t, "b" := t]
  {
    o1 := After(o, Begin("a", baseline, candidate, changedBy));
    o2 := After(o1, Begin("b", baseline, candidate, changedBy));
    o3 := After(o2, Allocate("a", 1));
    o4 := After(o3, Allocate("b", 1));
    assert Originals(o.world, candidate.documentId) == {};
  }

  /** The one that stores first makes the other overlap. */
  lemma FirstStores(o: Open, token: string, token': string) returns (o1: Open)
    requires Initial(o.world) && TicketsFit(o)
    requires "a" in o.tickets && "b" in o.tickets && o.tickets["a"] == o.tickets["b"] && token != token'
    requires o.tickets["a"].allocation == Some(Allocation(1, {}))
    ensures Moves(o, Deposit("a", token), o1) && !Overlaps(o, Deposit("a", token))
    ensures CanMove(o1, Deposit("b", token')) && Overlaps(o1, Deposit("b", token'))
  {
    o1 := After(o, Deposit("a", token));
    var step := Storing(o.tickets["a"], token);
    StoreHasEffect(o.world, step);
    FirstApproval.IdsDiffer(token, token');
    assert Put(step, o.world.clock).analysisId in Originals(o1.world, step.candidate.documentId);
    assert Originals(o.world, step.candidate.documentId) == {};
  }

  ghost predicate IsQuietRun(os: seq<Open>, moves: seq<Move>) {
    && IsGuardedOpenRun(os, moves) && NoneOverlaps(os, moves, |moves|)
    && forall i | 0 <= i < |moves| :: !moves[i].Whole?
  }

  /** Two overlapping preparations of one new document lose the numbering. */
  lemma CollisionIsReachable(w: World, baseline: Snapshot, candidate: Snapshot, changedBy: string, token: string, token': string)
    returns (os: seq<Open>, moves: seq<Move>)
    requires Initial(w) && baseline.documentId == candidate.documentId && token != token'
    ensures IsGuardedOpenRun(os, moves) && |moves| == 6 && os[0].world == w
    ensures OrderedUpTo(Worlds(os), 5) && !Ordered(ForestOf(os[6].world))
  {
    os, moves := BothOpen(w, baseline, candidate, changedBy);
    os, moves := LoseNumbering(os, moves, token, token');
  }

  lemma BothOpen(w: World, baseline: Snapshot, candidate: Snapshot, changedBy: string) returns (os: seq<Open>, moves: seq<Move>)
    requires Initial(w) && baseline.documentId == candidate.documentId
    ensures IsQuietRun(os, moves) && |moves| == 4 && os[0].world == w && os[4].world == w
    ensures var t := Ticket(baseline, candidate, changedBy, None, Some(Allocation(1, {})));
            os[4].tickets == map["a" := t, "b" := t]
  {
    var o1, o2, o3, o4 := BothAllocate(Open(w, map[]), baseline, candidate, changedBy);
    os, moves := TwoMore([Open(w, map[])], [], Begin("a", baseline, candidate, changedBy),
                         Begin("b", baseline, candidate, changedBy), o1, o2);
    os, moves := TwoMore(os, moves, Allocate("a", 1), Allocate("b", 1), o3, o4);
  }

  lemma LoseNumbering(os: seq<Open>, moves: seq<Move>, token: string, token': string) returns (os': seq<Open>, moves': seq<Move>)
    requires IsQuietRun(os, moves) && token != token'
    requires var o := os[|moves|]; Initial(o.world) && TicketsFit(o) && "a" in o.tickets && "b" in o.tickets
                                   && o.tickets["a"] == o.tickets["b"] && o.tickets["a"].allocation == Some(Allocation(1, {}))
    ensures IsGuardedOpenRun(os', moves') && |moves'| == |moves| + 2 && os'[0] == os[0]
    ensures OrderedUpTo(Worlds(os'), |moves| + 1) && !Ordered(ForestOf(os'[|moves'|].world))
  {
    var o := FirstStores(os[|moves|], token, token');
    var os1, moves1 := OneMore(os, moves, Deposit("a", token), o);
    os', moves' := Collide(os1, moves1, Deposit("b", token'));
    assert os'[0] == os1[0] == os[0];
  }

  lemma TwoMore(os: seq<Open>, moves: seq<Move>, m: Move, m': Move, o: Open, o': Open) returns (os': seq<Open>, moves': seq<Move>)
    requires IsQuietRun(os, moves) && Moves(os[|moves|], m, o) && Moves(o, m', o')
    requires !m.Whole? && !m.Deposit? && !m'.Whole? && !m'.Deposit?
    ensures os' == os + [o] + [o'] && moves' == moves + [m] + [m'] && IsQuietRun(os', moves')
  {
    os', moves' := OneMore(os, moves, m, o);
    os', moves' := OneMore(os', moves', m', o');
  }

  lemma {:induction false} OverlapsAlike(os: seq<Open>, moves: seq<Move>, os': seq<Open>, moves': seq<Move>, n: nat)
    requires n <= |moves| < |os| && NoneOverlaps(os, moves, n)
    requires |moves| <= |moves'| < |os'| && |os| <= |os'| && moves'[..|moves|] == moves && os'[..|os|] == os
    ensures NoneOverlaps(os', moves', n)
  {
    if n > 0 {
      OverlapsAlike(os, moves, os', moves', n - 1);
      assert os'[n - 1] == os'[..|os|][n - 1] && moves'[n - 1] == moves'[..|moves|][n - 1];
    }
  }

  lemma OneMore(os: seq<Open>, moves: seq<Move>, m: Move, o: Open) returns (os': seq<Open>, moves': seq<Move>)
    requires IsQuietRun(os, moves) && !m.Whole? && Moves(os[|moves|], m, o) && !Overlaps(os[|moves|], m)
    ensures os' == os + [o] && moves' == moves + [m] && IsQuietRun(os', moves')
  {
    os', moves' := os + [o], moves + [m];
    MovesOn(os, moves, m, o);
    OverlapsAlike(os, moves, os', moves', |moves|);
  }

  lemma MovesOn(os: seq<Open>, moves: seq<Move>, m: Move, o: Open)
    requires IsQuietRun(os, moves) && !m.Whole? && Moves(os[|moves|], m, o)
    ensures IsGuardedOpenRun(os + [o], moves + [m])
  {
    var os', moves' := os + [o], moves + [m];
    forall i | 0 <= i < |moves'| ensures Moves(os'[i], moves'[i], os'[i + 1]) && !moves'[i].Whole? {
      if i < |moves| { assert Moves(os[i], moves[i], os[i + 1]); }
    }
    assert os'[0] == os[0];
    PartsAreGuarded(os', moves');
  }

  lemma PartsAreGuarded(os: seq<Open>, moves: seq<Move>)
    requires IsOpenRun(os, moves) && forall i | 0 <= i < |moves| :: !moves[i].Whole?
    ensures IsGuardedOpenRun(os, moves)
  {
    forall i | 0 <= i < |moves| ensures Guarded(os[i].world, StepOf(os[i], moves[i])) {
      PartIsGuarded(os[i], moves[i]);
    }
  }

  lemma PartIsGuarded(o: Open, m: Move)
    requires !m.Whole?
    ensures Guarded(o.world, StepOf(o, m))
  {
  }

  lemma {:induction false} OrderedAlike(os: seq<Open>, os': seq<Open>, n: nat)
    requires n < |os| <= |os'| && os'[..|os|] == os && OrderedUpTo(Worlds(os), n)
    ensures OrderedUpTo(Worlds(os'), n)
  {
    if n > 0 { OrderedAlike(os, os', n - 1); }
    assert os'[n] == os'[..|os|][n];
  }

  lemma Collide(os: seq<Open>, moves: seq<Move>, m: Move) returns (os': seq<Open>, moves': seq<Move>)
    requires IsQuietRun(os, moves) && CanMove(os[|moves|], m) && m.Deposit? && Overlaps(os[|moves|], m)
    ensures os' == os + [After(os[|moves|], m)] && moves' == moves + [m] && IsGuardedOpenRun(os', moves')
    ensures OrderedUpTo(Worlds(os'), |moves|) && !Ordered(ForestOf(os'[|moves'|].world))
  {
    var n := |moves|;
    os', moves' := os + [After(os[n], m)], moves + [m];
    MovesOn(os, moves, m, After(os[n], m));
    NumberingHoldsExactly(os, moves, n);
    OrderedAlike(os, os', n);
    OneMoveFurther(os', moves', n);
  }
}
