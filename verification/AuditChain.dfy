/** The hash-chained event log of `audit.py`: every event carries the digest of the one before it. */
module AuditChain {

  /** What `_event_hash` hashes. The payload stands for the event type and its canonical JSON. */
  datatype HashInput<+P> = HashInput(analysisId: string, sequence: nat, payload: P, createdAt: nat, previousHash: string)

  datatype AuditEvent<+P> =
    AuditEvent(sequence: nat, payload: P, createdAt: nat, previousHash: string, eventHash: string)

  const GENESIS_HASH := "0000000000000000000000000000000000000000000000000000000000000000"

  function InputOf<P>(analysisId: string, event: AuditEvent<P>): HashInput<P> {
    HashInput(analysisId, event.sequence, event.payload, event.createdAt, event.previousHash)
  }

  function LastHash<P>(events: seq<AuditEvent<P>>): string {
    if events == [] then GENESIS_HASH else events[|events| - 1].eventHash
  }

  function NextSequence<P>(events: seq<AuditEvent<P>>): nat {
    if events == [] then 1 else events[|events| - 1].sequence + 1
  }

  /** `_append_event_in_transaction`. */
  function Append<P>(hash: HashInput<P> -> string, analysisId: string, events: seq<AuditEvent<P>>,
                     payload: P, now: nat): seq<AuditEvent<P>>
  {
    var input := HashInput(analysisId, NextSequence(events), payload, now, LastHash(events));
    events + [AuditEvent(input.sequence, payload, now, input.previousHash, hash(input))]
  }

  /** The event at `i` is numbered, linked and hashed as an append would have it. */
  predicate Linked<P>(hash: HashInput<P> -> string, analysisId: string, events: seq<AuditEvent<P>>, i: nat)
    requires i < |events|
  {
    && events[i].sequence == i + 1
    && events[i].previousHash == LastHash(events[..i])
    && events[i].eventHash == hash(InputOf(analysisId, events[i]))
  }

  ghost predicate VerifyChain<P>(hash: HashInput<P> -> string, analysisId: string, events: seq<AuditEvent<P>>) {
    events != [] && forall i | 0 <= i < |events| :: Linked(hash, analysisId, events, i)
  }

  /** The loop of `verify_chain`, carrying the digest the next event must name. */
  method Verify<P>(hash: HashInput<P> -> string, analysisId: string, events: seq<AuditEvent<P>>) returns (valid: bool)
    ensures valid <==> VerifyChain(hash, analysisId, events)
  {
    if |events| == 0 {
      return false;
    }
    var expectedPrevious := GENESIS_HASH;
    for i := 0 to |events|
      invariant expectedPrevious == LastHash(events[..i])
      invariant forall j | 0 <= j < i :: Linked(hash, analysisId, events, j)
    {
      var event := events[i];
      if event.sequence != i + 1 || event.previousHash != expectedPrevious
         || event.eventHash != hash(InputOf(analysisId, event)) {
        assert !Linked(hash, analysisId, events, i);
        return false;
      }
      expectedPrevious := event.eventHash;
      assert events[..i + 1][i] == event;
    }
    return true;
  }

  /** The log that appending `entries` (payloads with their times) in order builds. */
  function Build<P>(hash: HashInput<P> -> string, analysisId: string, entries: seq<(P, nat)>): seq<AuditEvent<P>> {
    if entries == [] then []
    else
      var last := entries[|entries| - 1];
      Append(hash, analysisId, Build(hash, analysisId, entries[..|entries| - 1]), last.0, last.1)
  }

  // ---------------------------------------------------------------- what the chain guarantees

  /** Appending keeps a verifying log verifying, and starts one on an empty log. */
  lemma AppendVerifies<P>(hash: HashInput<P> -> string, analysisId: string, events: seq<AuditEvent<P>>, payload: P, now: nat)
    requires events == [] || VerifyChain(hash, analysisId, events)
    ensures VerifyChain(hash, analysisId, Append(hash, analysisId, events, payload, now))
  {
    var after := Append(hash, analysisId, events, payload, now);
    forall i | 0 <= i < |after| ensures Linked(hash, analysisId, after, i) {
      assert after[..i] == events[..i];
      if i < |events| {
        assert Linked(hash, analysisId, events, i);
      } else {
        assert events[..i] == events;
        assert events != [] ==> Linked(hash, analysisId, events, |events| - 1);
      }
    }
  }

  lemma {:induction false} BuildVerifies<P>(hash: HashInput<P> -> string, analysisId: string, entries: seq<(P, nat)>)
    ensures entries != [] ==> VerifyChain(hash, analysisId, Build(hash, analysisId, entries))
    ensures entries == [] ==> Build(hash, analysisId, entries) == []
  {
    if entries != [] {
      var before := entries[..|entries| - 1];
      BuildVerifies(hash, analysisId, before);
      var last := entries[|entries| - 1];
      AppendVerifies(hash, analysisId, Build(hash, analysisId, before), last.0, last.1);
    }
  }

  /** The log holds the payloads that were appended, in their order and with their times. */
  lemma {:induction false} BuiltHolds<P>(hash: HashInput<P> -> string, analysisId: string, entries: seq<(P, nat)>)
    ensures var events := Build(hash, analysisId, entries);
            && |events| == |entries|
            && forall i | 0 <= i < |entries| :: events[i].payload == entries[i].0 && events[i].createdAt == entries[i].1
  {
    if entries != [] {
      BuiltHolds(hash, analysisId, entries[..|entries| - 1]);
    }
  }

  function Entries<P>(events: seq<AuditEvent<P>>): seq<(P, nat)> {
    seq(|events|, i requires 0 <= i < |events| => (events[i].payload, events[i].createdAt))
  }

  lemma PrefixVerifies<P>(hash: HashInput<P> -> string, analysisId: string, events: seq<AuditEvent<P>>, n: nat)
    requires VerifyChain(hash, analysisId, events) && 0 < n <= |events|
    ensures VerifyChain(hash, analysisId, events[..n])
  {
    forall i | 0 <= i < n ensures Linked(hash, analysisId, events[..n], i) {
      assert Linked(hash, analysisId, events, i);
      assert events[..n][..i] == events[..i];
    }
  }

  lemma {:induction false} VerifiedIsBuilt<P>(hash: HashInput<P> -> string, analysisId: string, events: seq<AuditEvent<P>>)
    requires VerifyChain(hash, analysisId, events)
    ensures events == Build(hash, analysisId, Entries(events))
    decreases |events|
  {
    var n := |events| - 1;
    var before := events[..n];
    assert Linked(hash, analysisId, events, n);
    assert Entries(events)[..n] == Entries(before);
    if n > 0 {
      PrefixVerifies(hash, analysisId, events, n);
      assert Linked(hash, analysisId, events, n - 1);
      VerifiedIsBuilt(hash, analysisId, before);
    }
    assert events == before + [events[n]];
  }

  /** `verify_chain` accepts exactly the non-empty logs that appends can build. */
  lemma VerifiesExactlyBuilt<P(!new)>(hash: HashInput<P> -> string, analysisId: string, events: seq<AuditEvent<P>>)
    ensures VerifyChain(hash, analysisId, events)
       <==> exists entries :: entries != [] && events == Build(hash, analysisId, entries)
  {
    if VerifyChain(hash, analysisId, events) {
      VerifiedIsBuilt(hash, analysisId, events);
      assert Entries(events) != [];
    } else {
      forall entries: seq<(P, nat)> | entries != [] ensures events != Build(hash, analysisId, entries) {
        BuildVerifies(hash, analysisId, entries);
      }
    }
  }

  ghost predicate Injective<P(!new)>(hash: HashInput<P> -> string) {
    forall x, y :: hash(x) == hash(y) ==> x == y
  }

  /** The last digest pins the whole log and its analysis: no event can be edited, dropped or moved behind it,
      and no log can be passed off as that of another analysis. */
  lemma {:induction false} LastHashPinsLog<P(!new)>(hash: HashInput<P> -> string, analysisId: string, otherId: string,
                                                    a: seq<AuditEvent<P>>, b: seq<AuditEvent<P>>)
    requires Injective(hash)
    requires VerifyChain(hash, analysisId, a) && VerifyChain(hash, otherId, b)
    requires LastHash(a) == LastHash(b)
    ensures a == b && analysisId == otherId
    decreases |a|
  {
    var n, m := |a| - 1, |b| - 1;
    assert Linked(hash, analysisId, a, n) && Linked(hash, otherId, b, m);
    assert InputOf(analysisId, a[n]) == InputOf(otherId, b[m]);
    assert n == m && a[n] == b[n];
    if n > 0 {
      PrefixVerifies(hash, analysisId, a, n);
      PrefixVerifies(hash, otherId, b, n);
      LastHashPinsLog(hash, analysisId, otherId, a[..n], b[..n]);
    }
    assert a == a[..n] + [a[n]] && b == b[..n] + [b[n]];
  }
}
