/** On guarded runs reanalysis forms linear chains that end in a live analysis; and every document version
    has exactly one live analysis, exactly if every version was stored while it was the next one. */
module Lineage {
  import opened Wrappers
  import opened Contracts
  import opened Gate
  import opened Operations
  import opened Dashboard
  import opened Runs
  import opened AuthoritySafety
  import opened StepEffects

  /** An analysis and whether it is still live, that is, not superseded. */
  datatype Node = Node(p: PreparedAnalysis, live: bool)

  type Forest = map<string, Node>

  function ForestOf(w: World): Forest {
    map id | id in w.records :: Node(w.records[id].prepared, Fold(w.records[id].events).state != SUPERSEDED)
  }

  predicate SameVersion(a: PreparedAnalysis, b: PreparedAnalysis) {
    a.documentId == b.documentId && a.version == b.version
  }

  ghost predicate IsOriginalVersion(f: Forest, id: string, document: string, version: nat) {
    id in f && IsOriginal(f[id].p, document) && f[id].p.version == version
  }

  ghost predicate HasVersion(f: Forest, document: string, version: nat) {
    exists id :: IsOriginalVersion(f, id, document, version)
  }

  ghost predicate KeyedById(f: Forest) {
    forall id | id in f :: f[id].p.analysisId == id
  }

  /** Every replacement continues an analysis that is no longer live; an original is a first attempt. */
  ghost predicate Continued(f: Forest) {
    forall id | id in f ::
      match f[id].p.supersedes
      case None => f[id].p.attempt == 1
      case Some(before) => before in f && !f[before].live && Continues(f[before].p, f[id].p)
  }

  /** No analysis is superseded twice. */
  ghost predicate Linear(f: Forest) {
    forall a, b | a in f && b in f && f[a].p.supersedes.Some? && f[a].p.supersedes == f[b].p.supersedes :: a == b
  }

  ghost predicate OneLive(f: Forest) {
    forall a, b | a in f && b in f && f[a].live && f[b].live && SameVersion(f[a].p, f[b].p) :: a == b
  }

  ghost predicate IsLiveFor(f: Forest, id: string, p: PreparedAnalysis) {
    id in f && f[id].live && SameVersion(f[id].p, p)
  }

  ghost predicate HasLive(f: Forest, p: PreparedAnalysis) {
    exists live :: IsLiveFor(f, live, p)
  }

  ghost predicate SomeLive(f: Forest) {
    forall id {:trigger HasLive(f, f[id].p)} | id in f :: HasLive(f, f[id].p)
  }

  /** Every version has an original, and below it every version down to 1. */
  ghost predicate Numbered(f: Forest) {
    forall id {:trigger IsNumbered(f, f[id].p)} | id in f :: IsNumbered(f, f[id].p)
  }

  ghost predicate IsNumbered(f: Forest, p: PreparedAnalysis) {
    && p.version >= 1 && HasVersion(f, p.documentId, p.version)
    && (p.version > 1 ==> HasVersion(f, p.documentId, p.version - 1))
  }

  ghost predicate DistinctOriginals(f: Forest) {
    forall a, b, document, version: nat ::
      IsOriginalVersion(f, a, document, version) && IsOriginalVersion(f, b, document, version) ==> a == b
  }

  /** Chains of attempts, each leading to a live one: nothing a step does undoes this. */
  ghost predicate Chained(f: Forest) {
    KeyedById(f) && Continued(f) && Linear(f) && SomeLive(f)
  }

  ghost predicate Ordered(f: Forest) {
    Chained(f) && OneLive(f) && Numbered(f) && DistinctOriginals(f)
  }

  // ---------------------------------------------------------------- a new original

  lemma HasVersionKept(f: Forest, f': Forest, document: string, version: nat)
    requires HasVersion(f, document, version)
    requires forall id | id in f :: id in f' && f'[id].p == f[id].p
    ensures HasVersion(f', document, version)
  {
    var id :| IsOriginalVersion(f, id, document, version);
    assert IsOriginalVersion(f', id, document, version);
  }

  lemma NumberedKept(f: Forest, f': Forest)
    requires Numbered(f)
    requires forall id | id in f :: id in f' && f'[id].p == f[id].p
    requires forall id | id in f' && id !in f :: IsNumbered(f', f'[id].p)
    ensures Numbered(f')
  {
    forall id | id in f && id in f' ensures IsNumbered(f', f'[id].p) {
      assert IsNumbered(f, f[id].p);
      HasVersionKept(f, f', f[id].p.documentId, f[id].p.version);
      if f[id].p.version > 1 { HasVersionKept(f, f', f[id].p.documentId, f[id].p.version - 1); }
    }
  }

  /** `version` is free in the forest and the one before it is taken. */
  ghost predicate IsNext(f: Forest, document: string, version: nat) {
    && version >= 1 && (version > 1 ==> HasVersion(f, document, version - 1))
    && forall id | id in f && IsOriginal(f[id].p, document) :: f[id].p.version < version
  }

  lemma NextIsFree(f: Forest, p: PreparedAnalysis, id: string)
    requires Numbered(f) && IsNext(f, p.documentId, p.version) && id in f
    ensures !SameVersion(f[id].p, p)
  {
    assert IsNumbered(f, f[id].p);
    var o :| IsOriginalVersion(f, o, f[id].p.documentId, f[id].p.version);
    assert f[id].p.documentId == p.documentId ==> f[o].p.version < p.version;
  }

  lemma OriginalKeepsSomeLive(f: Forest, p: PreparedAnalysis)
    requires SomeLive(f) && p.analysisId !in f
    ensures SomeLive(f[p.analysisId := Node(p, true)])
  {
    var n := p.analysisId;
    var f' := f[n := Node(p, true)];
    forall id | id in f' ensures HasLive(f', f'[id].p) {
      if id == n {
        assert IsLiveFor(f', n, p);
      } else {
        assert HasLive(f, f[id].p);
        var live :| IsLiveFor(f, live, f[id].p);
        assert IsLiveFor(f', live, f'[id].p);
      }
    }
  }

  lemma OriginalKeepsOneLive(f: Forest, p: PreparedAnalysis)
    requires OneLive(f) && p.analysisId !in f
    requires forall id | id in f :: !SameVersion(f[id].p, p)
    ensures OneLive(f[p.analysisId := Node(p, true)])
  {
  }

  lemma OriginalKeepsNumbered(f: Forest, p: PreparedAnalysis)
    requires Numbered(f) && p.analysisId !in f && p.supersedes.None? && p.version >= 1
    requires p.version > 1 ==> HasVersion(f, p.documentId, p.version - 1)
    ensures Numbered(f[p.analysisId := Node(p, true)])
  {
    var n := p.analysisId;
    var f' := f[n := Node(p, true)];
    assert IsOriginalVersion(f', n, p.documentId, p.version);
    if p.version > 1 { HasVersionKept(f, f', p.documentId, p.version - 1); }
    NumberedKept(f, f');
  }

  lemma OriginalKeepsDistinct(f: Forest, p: PreparedAnalysis)
    requires DistinctOriginals(f) && p.analysisId !in f && IsNext(f, p.documentId, p.version)
    ensures DistinctOriginals(f[p.analysisId := Node(p, true)])
  {
    var n := p.analysisId;
    var f' := f[n := Node(p, true)];
    forall a, b, document, version: nat | IsOriginalVersion(f', a, document, version) && IsOriginalVersion(f', b, document, version)
      ensures a == b
    {
      if a != n { assert IsOriginalVersion(f, a, document, version); }
      if b != n { assert IsOriginalVersion(f, b, document, version); }
    }
  }

  lemma OriginalKeepsChained(f: Forest, p: PreparedAnalysis)
    requires Chained(f) && p.analysisId !in f && p.supersedes.None? && p.attempt == 1
    ensures Chained(f[p.analysisId := Node(p, true)])
  {
    OriginalKeepsSomeLive(f, p);
  }

  lemma NextKeepsOrder(f: Forest, p: PreparedAnalysis)
    requires Ordered(f) && p.analysisId !in f && p.supersedes.None? && p.attempt == 1
    requires IsNext(f, p.documentId, p.version)
    ensures Ordered(f[p.analysisId := Node(p, true)])
  {
    forall id | id in f ensures !SameVersion(f[id].p, p) {
      NextIsFree(f, p, id);
    }
    OriginalKeepsChained(f, p);
    OriginalKeepsOneLive(f, p);
    OriginalKeepsNumbered(f, p);
    OriginalKeepsDistinct(f, p);
  }

  /** A version that is not the next one leaves a gap below it, or is taken. */
  lemma NotNextBreaksOrder(f: Forest, p: PreparedAnalysis)
    requires Ordered(f) && p.analysisId !in f && p.supersedes.None? && !IsNext(f, p.documentId, p.version)
    ensures !Ordered(f[p.analysisId := Node(p, true)])
  {
    var n := p.analysisId;
    var f' := f[n := Node(p, true)];
    if p.version >= 1 && (p.version > 1 ==> HasVersion(f, p.documentId, p.version - 1)) {
      var id :| id in f && IsOriginal(f[id].p, p.documentId) && f[id].p.version >= p.version;
      assert IsOriginalVersion(f, id, p.documentId, f[id].p.version);
      VersionsBelow(f, p.documentId, f[id].p.version, p.version);
      var taken :| IsOriginalVersion(f, taken, p.documentId, p.version);
      assert IsOriginalVersion(f', taken, p.documentId, p.version) && IsOriginalVersion(f', n, p.documentId, p.version);
    } else if Ordered(f') {
      assert IsNumbered(f', f'[n].p);
      var o :| IsOriginalVersion(f', o, p.documentId, p.version - 1);
      assert IsOriginalVersion(f, o, p.documentId, p.version - 1);
    }
  }

  /** A new original keeps the order exactly if its version is the next one. */
  lemma OriginalOrdersExactly(f: Forest, p: PreparedAnalysis)
    requires Ordered(f) && p.analysisId !in f && p.supersedes.None? && p.attempt == 1
    ensures Ordered(f[p.analysisId := Node(p, true)]) <==> IsNext(f, p.documentId, p.version)
  {
    if IsNext(f, p.documentId, p.version) {
      NextKeepsOrder(f, p);
    } else {
      NotNextBreaksOrder(f, p);
    }
  }

  // ---------------------------------------------------------------- a reanalysis

  function Replaced(f: Forest, id: string, newId: string, r: PreparedAnalysis): Forest
    requires id in f
  {
    f[id := Node(f[id].p, false)][newId := Node(r, true)]
  }

  lemma ReplacementKeepsChained(f: Forest, id: string, newId: string, r: PreparedAnalysis)
    requires Chained(f) && id in f && f[id].live && newId !in f && r.analysisId == newId && Continues(f[id].p, r)
    ensures Chained(Replaced(f, id, newId, r))
  {
    ReplacementContinues(f, id, newId, r);
    ReplacementSomeLive(f, id, newId, r);
  }

  lemma ReplacementKeepsOrder(f: Forest, id: string, newId: string, r: PreparedAnalysis)
    requires Ordered(f) && id in f && f[id].live && newId !in f && r.analysisId == newId && Continues(f[id].p, r)
    ensures Ordered(Replaced(f, id, newId, r))
  {
    ReplacementKeepsChained(f, id, newId, r);
    ReplacementOneLive(f, id, newId, r);
    ReplacementNumbers(f, id, newId, r);
    ReplacementKeepsDistinct(f, id, newId, r);
  }

  lemma ReplacementSomeLive(f: Forest, id: string, newId: string, r: PreparedAnalysis)
    requires SomeLive(f) && id in f && newId !in f && SameVersion(f[id].p, r)
    ensures SomeLive(Replaced(f, id, newId, r))
  {
    var f' := Replaced(f, id, newId, r);
    forall other | other in f' ensures HasLive(f', f'[other].p) {
      if SameVersion(r, f'[other].p) {
        assert IsLiveFor(f', newId, f'[other].p);
      } else {
        assert HasLive(f, f[other].p);
        var live :| IsLiveFor(f, live, f[other].p);
        assert IsLiveFor(f', live, f'[other].p);
      }
    }
  }

  lemma ReplacementNumbers(f: Forest, id: string, newId: string, r: PreparedAnalysis)
    requires Numbered(f) && id in f && newId !in f && Continues(f[id].p, r)
    ensures Numbered(Replaced(f, id, newId, r))
  {
    var f' := Replaced(f, id, newId, r);
    assert IsNumbered(f, f[id].p);
    HasVersionKept(f, f', r.documentId, r.version);
    if r.version > 1 { HasVersionKept(f, f', r.documentId, r.version - 1); }
    NumberedKept(f, f');
  }

  lemma ReplacementKeepsDistinct(f: Forest, id: string, newId: string, r: PreparedAnalysis)
    requires DistinctOriginals(f) && id in f && newId !in f && Continues(f[id].p, r)
    ensures DistinctOriginals(Replaced(f, id, newId, r))
  {
    var f' := Replaced(f, id, newId, r);
    forall a, b, document, version: nat | IsOriginalVersion(f', a, document, version) && IsOriginalVersion(f', b, document, version)
      ensures a == b
    {
      assert IsOriginalVersion(f, a, document, version) && IsOriginalVersion(f, b, document, version);
    }
  }

  lemma ReplacementContinues(f: Forest, id: string, newId: string, r: PreparedAnalysis)
    requires KeyedById(f) && Continued(f) && Linear(f)
    requires id in f && f[id].live && newId !in f && r.analysisId == newId && Continues(f[id].p, r)
    ensures KeyedById(Replaced(f, id, newId, r)) && Continued(Replaced(f, id, newId, r)) && Linear(Replaced(f, id, newId, r))
  {
    assert forall other | other in f :: f[other].p.supersedes != Some(id);
    ReplacementIsContinued(f, id, newId, r);
    ReplacementIsLinear(f, id, newId, r);
  }

  lemma ReplacementIsContinued(f: Forest, id: string, newId: string, r: PreparedAnalysis)
    requires KeyedById(f) && Continued(f)
    requires id in f && f[id].live && newId !in f && r.analysisId == newId && Continues(f[id].p, r)
    ensures Continued(Replaced(f, id, newId, r))
  {
  }

  lemma ReplacementIsLinear(f: Forest, id: string, newId: string, r: PreparedAnalysis)
    requires Linear(f) && id in f && newId !in f && r.supersedes == Some(id)
    requires forall other | other in f :: f[other].p.supersedes != Some(id)
    ensures Linear(Replaced(f, id, newId, r))
  {
  }

  lemma ReplacementOneLive(f: Forest, id: string, newId: string, r: PreparedAnalysis)
    requires OneLive(f) && id in f && f[id].live && newId !in f && SameVersion(f[id].p, r)
    ensures OneLive(Replaced(f, id, newId, r))
  {
  }

  // ---------------------------------------------------------------- every step

  lemma ExtendedForest(w: World, w': World, id: string)
    requires Extends(w, w', id)
    ensures ForestOf(w') == ForestOf(w)
  {
  }

  lemma AddedForest(w: World, w': World, p: PreparedAnalysis)
    requires AddsOriginal(w, w', p)
    ensures ForestOf(w') == ForestOf(w)[p.analysisId := Node(p, true)]
  {
  }

  lemma SupersededForest(w: World, w': World, id: string, newId: string)
    requires Supersedes(w, w', id, newId)
    ensures ForestOf(w') == Replaced(ForestOf(w), id, newId, w'.records[newId].prepared)
  {
  }

  /** What `next_document_version` allocates is the next version of the forest. */
  lemma NextIsNextVersion(w: World, document: string, version: nat)
    ensures IsNextVersion(w, document, version) <==> IsNext(ForestOf(w), document, version)
  {
    var f := ForestOf(w);
    if version > 1 && IsVersionOf(w, document, version - 1) {
      var id :| id in w.records && IsOriginal(w.records[id].prepared, document) && w.records[id].prepared.version == version - 1;
      assert IsOriginalVersion(f, id, document, version - 1);
    }
    if version > 1 && HasVersion(f, document, version - 1) {
      var id :| IsOriginalVersion(f, id, document, version - 1);
    }
    if IsNext(f, document, version) {
      forall id | id in w.records && IsOriginal(w.records[id].prepared, document) ensures w.records[id].prepared.version < version {
        assert id in f;
      }
    }
  }

  /** A version is stored while it is the next one: always so if preparing holds a lock throughout. */
  ghost predicate InTurn(w: World, step: Step) {
    step.Store? ==> IsNextVersion(w, step.candidate.documentId, step.version)
  }

  lemma AddedOrdersExactly(w: World, w': World, step: Step, p: PreparedAnalysis)
    requires Ordered(ForestOf(w)) && Possible(w, step) && IsAddedBy(w, step, p) && AddsOriginal(w, w', p)
    ensures Ordered(ForestOf(w')) <==> InTurn(w, step)
  {
    AddedForest(w, w', p);
    OriginalOrdersExactly(ForestOf(w), p);
    NextIsNextVersion(w, p.documentId, p.version);
  }

  /** Every step keeps the chains, and the order exactly if what it stores is in turn. */
  lemma EffectOrdersExactly(w: World, w': World, step: Step)
    requires Possible(w, step) && HasEffect(w, w', step) && (step.Store? ==> AddsSome(w, w', step))
    ensures Chained(ForestOf(w)) ==> Chained(ForestOf(w'))
    ensures Ordered(ForestOf(w)) ==> (Ordered(ForestOf(w')) <==> InTurn(w, step))
  {
    if AddsSome(w, w', step) {
      var p :| IsAddedBy(w, step, p) && AddsOriginal(w, w', p);
      AddedForest(w, w', p);
      if Chained(ForestOf(w)) { OriginalKeepsChained(ForestOf(w), p); }
      if Ordered(ForestOf(w)) { AddedOrdersExactly(w, w', step, p); }
    } else if ExtendsSome(w, w') {
      var id :| Extends(w, w', id);
      ExtendedForest(w, w', id);
    } else if SupersedesSome(w, w') {
      var id, newId :| Supersedes(w, w', id, newId);
      SupersededForest(w, w', id, newId);
      if Chained(ForestOf(w)) { ReplacementKeepsChained(ForestOf(w), id, newId, w'.records[newId].prepared); }
      if Ordered(ForestOf(w)) { ReplacementKeepsOrder(ForestOf(w), id, newId, w'.records[newId].prepared); }
    }
  }

  lemma NextOrdersExactly(w: World, step: Step)
    requires AllSound(w) && Possible(w, step) && Guarded(w, step)
    ensures Chained(ForestOf(w)) ==> Chained(ForestOf(Next(w, step)))
    ensures Ordered(ForestOf(w)) ==> (Ordered(ForestOf(Next(w, step))) <==> InTurn(w, step))
  {
    NextHasEffect(w, step);
    if step.Store? { StoreHasEffect(w, step); }
    EffectOrdersExactly(w, Next(w, step), step);
  }

  // ---------------------------------------------------------------- over whole runs

  ghost predicate OrderedUpTo(ws: seq<World>, n: nat)
    requires n < |ws|
  {
    Ordered(ForestOf(ws[n])) && (n > 0 ==> OrderedUpTo(ws, n - 1))
  }

  ghost predicate InTurnUpTo(ws: seq<World>, steps: seq<Step>, n: nat)
    requires n <= |steps| < |ws|
  {
    n > 0 ==> InTurn(ws[n - 1], steps[n - 1]) && InTurnUpTo(ws, steps, n - 1)
  }

  lemma StepOrdersExactly(ws: seq<World>, steps: seq<Step>, n: nat)
    requires IsGuardedRun(ws, steps) && n < |steps|
    ensures Chained(ForestOf(ws[n])) ==> Chained(ForestOf(ws[n + 1]))
    ensures Ordered(ForestOf(ws[n])) ==> (Ordered(ForestOf(ws[n + 1])) <==> InTurn(ws[n], steps[n]))
  {
    GuardedRunsAreSound(ws, steps, n);
    TakesStep(ws, steps, n);
    NextOrdersExactly(ws[n], steps[n]);
  }

  ghost predicate ChainedUpTo(ws: seq<World>, n: nat)
    requires n < |ws|
  {
    Chained(ForestOf(ws[n])) && (n > 0 ==> ChainedUpTo(ws, n - 1))
  }

  /** In every state of every guarded run the attempts form chains, each of them leading to a live analysis. */
  lemma {:induction false} GuardedRunsAreChained(ws: seq<World>, steps: seq<Step>, n: nat)
    requires IsGuardedRun(ws, steps) && n < |ws|
    ensures ChainedUpTo(ws, n)
  {
    if n > 0 {
      GuardedRunsAreChained(ws, steps, n - 1);
      StepOrdersExactly(ws, steps, n - 1);
    }
  }

  /** On every guarded run the versions are numbered 1..n with one live analysis each, up to any state, exactly
      if every version was stored in turn. */
  lemma {:induction false} GuardedRunsAreOrderedExactly(ws: seq<World>, steps: seq<Step>, n: nat)
    requires IsGuardedRun(ws, steps) && n < |ws|
    ensures OrderedUpTo(ws, n) <==> InTurnUpTo(ws, steps, n)
  {
    if n > 0 {
      GuardedRunsAreOrderedExactly(ws, steps, n - 1);
      StepOrdersExactly(ws, steps, n - 1);
    }
  }

  /** Every document version has exactly one analysis that is not superseded. */
  lemma ExactlyOneLive(ws: seq<World>, steps: seq<Step>, n: nat, id: string)
    requires IsGuardedRun(ws, steps) && n < |ws| && InTurnUpTo(ws, steps, n) && id in ws[n].records
    ensures var f := ForestOf(ws[n]);
            exists live :: IsLiveFor(f, live, f[id].p) && forall other | IsLiveFor(f, other, f[id].p) :: other == live
  {
    GuardedRunsAreOrderedExactly(ws, steps, n);
    var f := ForestOf(ws[n]);
    assert HasLive(f, f[id].p);
    var live :| IsLiveFor(f, live, f[id].p);
    forall other | IsLiveFor(f, other, f[id].p) ensures other == live {
      assert SameVersion(f[other].p, f[live].p);
    }
  }

  lemma {:induction false} VersionsBelow(f: Forest, document: string, version: nat, lower: nat)
    requires Numbered(f) && HasVersion(f, document, version) && 1 <= lower <= version
    ensures HasVersion(f, document, lower)
    decreases version - lower
  {
    if lower < version {
      var id :| IsOriginalVersion(f, id, document, version);
      assert IsNumbered(f, f[id].p);
      VersionsBelow(f, document, version - 1, lower);
    }
  }

  /** The originals of a document carry the versions 1..n, one each. */
  lemma OriginalsAreNumbered(ws: seq<World>, steps: seq<Step>, n: nat, id: string, lower: nat)
    requires IsGuardedRun(ws, steps) && n < |ws| && InTurnUpTo(ws, steps, n) && id in ws[n].records
    requires 1 <= lower <= ws[n].records[id].prepared.version
    ensures var f, document := ForestOf(ws[n]), ws[n].records[id].prepared.documentId;
            exists original :: IsOriginalVersion(f, original, document, lower)
              && forall other | IsOriginalVersion(f, other, document, lower) :: other == original
  {
    GuardedRunsAreOrderedExactly(ws, steps, n);
    var f := ForestOf(ws[n]);
    assert IsNumbered(f, f[id].p);
    VersionsBelow(f, f[id].p.documentId, f[id].p.version, lower);
    var original :| IsOriginalVersion(f, original, f[id].p.documentId, lower);
  }

  /** `chain` leads from a first attempt to `id`, one supersession at a time, on the same evidence. */
  ghost predicate IsChain(f: Forest, chain: seq<string>, id: string) {
    && id in f && chain != [] && chain[|chain| - 1] == id
    && forall i | 0 <= i < |chain| :: IsLink(f, chain, i, f[id].p)
  }

  ghost predicate IsLink(f: Forest, chain: seq<string>, i: nat, last: PreparedAnalysis)
    requires i < |chain|
  {
    && chain[i] in f
    && var p := f[chain[i]].p;
    && p.attempt == i + 1 && p.supersedes == (if i == 0 then None else Some(chain[i - 1]))
    && SameVersion(p, last) && p.diff == last.diff && p.baseline == last.baseline && p.candidate == last.candidate
  }

  /** Every analysis ends a chain of as many attempts as it counts. */
  lemma {:induction false} ChainsReachAnOriginal(f: Forest, id: string)
    requires Chained(f) && id in f
    ensures exists chain :: IsChain(f, chain, id) && |chain| == f[id].p.attempt
    decreases f[id].p.attempt
  {
    if f[id].p.supersedes.None? {
      assert IsLink(f, [id], 0, f[id].p);
      assert IsChain(f, [id], id);
    } else {
      var before := f[id].p.supersedes.value;
      ChainsReachAnOriginal(f, before);
      var chain :| IsChain(f, chain, before) && |chain| == f[before].p.attempt;
      ChainGrows(f, chain, before, id);
    }
  }

  lemma ChainGrows(f: Forest, chain: seq<string>, before: string, id: string)
    requires IsChain(f, chain, before) && |chain| == f[before].p.attempt
    requires id in f && f[id].p.supersedes == Some(before) && Continues(f[before].p, f[id].p)
    ensures IsChain(f, chain + [id], id)
  {
    forall i | 0 <= i < |chain| + 1 ensures IsLink(f, chain + [id], i, f[id].p) {
      if i < |chain| { assert IsLink(f, chain, i, f[before].p); }
    }
  }

  // ---------------------------------------------------------------- the console's view of a replacement

  /** A reanalysis that adds a replacement adds one the console finds no issue with. */
  lemma ReplacementIsTrusted(w: World, id: string, command: OperatorCommand, token: string, env: Surroundings)
    requires AllSound(w) && id in w.records && "anl_" + token !in w.records && env.removeFault.None?
    ensures var (w', result), newId := ExecuteStep(w, id, command, token, env), "anl_" + token;
            && (result.Ok? && command.action == Reanalyze && !result.value.idempotentReplay ==> newId in w'.records)
            && (newId in w'.records ==>
                  ReplacementAuthorityIssues(w.records[id].prepared, StatusOf(w', newId), w'.records[newId].prepared, newId) == [])
  {
    var w', newId := ExecuteStep(w, id, command, token, env).0, "anl_" + token;
    ExecuteEffect(w, id, command, token, env);
    ExecuteKeepsSound(w, id, command, token, env);
    if command.action == Reanalyze { SuccessAddsReplacement(w, id, command, token, env); }
    if newId in w'.records { ContinuedIsTrusted(w, w', id, newId); }
  }

  lemma SuccessAddsReplacement(w: World, id: string, command: OperatorCommand, token: string, env: Surroundings)
    requires id in w.records && "anl_" + token !in w.records && command.action == Reanalyze
    ensures var (w', result) := ExecuteStep(w, id, command, token, env);
            result.Ok? && !result.value.idempotentReplay ==> "anl_" + token in w'.records
  {
  }

  lemma ContinuedIsTrusted(w: World, w': World, id: string, newId: string)
    requires AllSound(w) && AllSound(w') && Supersedes(w, w', id, newId)
    ensures ReplacementAuthorityIssues(w.records[id].prepared, StatusOf(w', newId), w'.records[newId].prepared, newId) == []
  {
    assert Sound(w, id) && Sound(w', newId);
    SoundIsTrusted(w', newId);
  }
}
