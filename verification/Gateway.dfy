/** The gateway as the program runs it: a store, a gate and the operations on them, updated in
    place. Every method is proved against the step function of the same name. */
module Gateway {
  import opened Wrappers
  import opened Contracts
  import opened Gate
  import opened Operations
  import AuditChain
  import SqliteIndexer

  /** `AuditStore`: prepared analyses and their append-only logs. */
  class AuditStore {
    const hash: AuditChain.HashInput<Payload> -> string
    var records: map<string, Record>
    var clock: nat

    constructor (hash: AuditChain.HashInput<Payload> -> string)
      ensures this.hash == hash && records == map[] && clock == 0
    {
      this.hash := hash;
      records, clock := map[], 0;
    }

    /** `append_event`: one more event for a known analysis. */
    method AppendEvent(id: string, payload: Payload) returns (result: Result<(), Failure>)
      modifies this
      ensures result == if id in old(records) then Ok(()) else Err(NotFound)
      ensures result.Err? ==> records == old(records) && clock == old(clock)
      ensures result.Ok? ==>
                && clock == old(clock) + 1
                && var was := old(records)[id];
                   records == old(records)[id := was.(events := AuditChain.Append(hash, id, was.events, payload, old(clock)))]
    {
      if id !in records {
        return Err(NotFound);
      }
      AppendKnown(id, payload);
      return Ok(());
    }

    /** The appending itself. */
    method AppendKnown(id: string, payload: Payload)
      requires id in records
      modifies this
      ensures clock == old(clock) + 1
      ensures var was := old(records[id]);
              records == old(records)[id := was.(events := AuditChain.Append(hash, id, was.events, payload, old(clock)))]
    {
      var record := records[id];
      var sequence, previousHash := 1, AuditChain.GENESIS_HASH;
      if |record.events| > 0 {
        var last := record.events[|record.events| - 1];
        sequence, previousHash := last.sequence + 1, last.eventHash;
      }
      var eventHash := hash(AuditChain.HashInput(id, sequence, payload, clock, previousHash));
      var event := AuditChain.AuditEvent(sequence, payload, clock, previousHash, eventHash);
      records := records[id := record.(events := record.events + [event])];
      clock := clock + 1;
    }

    /** `record_prepared_analysis`: a new analysis starts its log; the same one again changes nothing, and
        other content under its identifier is refused, as is a candidate without its bytes. */
    method RecordPrepared(p: PreparedAnalysis, blob: Blob) returns (result: Result<(), Failure>)
      modifies this
      ensures result == if blob != Content(p.candidate.sha256)
                           || (p.analysisId in old(records) && old(records[p.analysisId]).prepared != p)
                        then Err(Integrity) else Ok(())
      ensures result.Err? || p.analysisId in old(records) ==> records == old(records) && clock == old(clock)
      ensures result.Ok? && p.analysisId !in old(records) ==>
                && clock == old(clock) + 1
                && records == old(records)[p.analysisId :=
                     Record(p, AuditChain.Append(hash, p.analysisId, [], AnalysisPrepared(p), old(clock)))]
    {
      if blob != Content(p.candidate.sha256) {
        return Err(Integrity);
      }
      if p.analysisId in records {
        return if records[p.analysisId].prepared != p then Err(Integrity) else Ok(());
      }
      records := records[p.analysisId := Record(p, [])];
      AppendKnown(p.analysisId, AnalysisPrepared(p));
      return Ok(());
    }

    /** `verify_chain`. */
    method VerifyChain(id: string) returns (valid: Result<bool, Failure>)
      ensures valid == if id in records then Ok(AuditChain.VerifyChain(hash, id, records[id].events)) else Err(NotFound)
    {
      if id !in records {
        return Err(NotFound);
      }
      var verifies := VerifyKnown(id);
      return Ok(verifies);
    }

    method VerifyKnown(id: string) returns (valid: bool)
      requires id in records
      ensures valid <==> AuditChain.VerifyChain(hash, id, records[id].events)
    {
      valid := AuditChain.Verify(hash, id, records[id].events);
    }

    /** `next_document_version`: one more than the highest version of an original, starting at 1. */
    method NextDocumentVersion(document: string) returns (version: nat)
      ensures version >= 1
      ensures forall id | id in records && IsOriginal(records[id].prepared, document) ::
                records[id].prepared.version < version
      ensures version > 1 ==> exists id :: id in records && IsOriginal(records[id].prepared, document)
                                           && records[id].prepared.version == version - 1
    {
      var highest := 0;
      var rows := records.Keys;
      while rows != {}
        invariant rows <= records.Keys
        invariant forall id | id in records && id !in rows && IsOriginal(records[id].prepared, document) ::
                    records[id].prepared.version <= highest
        invariant highest > 0 ==> exists id :: id in records && IsOriginal(records[id].prepared, document)
                                               && records[id].prepared.version == highest
        decreases rows
      {
        var id :| id in rows;
        rows := rows - {id};
        var p := records[id].prepared;
        if p.documentId == document && p.supersedes.None? && p.version > highest {
          highest := p.version;
        }
      }
      version := highest + 1;
    }
  }

  /** `hard_blocking_artifacts`. */
  method HardBlockingArtifacts(artifacts: seq<Artifact>) returns (blockers: seq<Artifact>)
    ensures blockers == HardBlocking(artifacts)
    ensures forall artifact :: artifact in blockers <==> artifact in artifacts && IsHardBlock(artifact)
  {
    blockers := [];
    for i := 0 to |artifacts|
      invariant blockers == HardBlocking(artifacts[..i])
      invariant forall artifact :: artifact in blockers <==> artifact in artifacts[..i] && IsHardBlock(artifact)
    {
      var artifact := artifacts[i];
      assert artifacts[..i + 1][..i] == artifacts[..i];
      if artifact.hardBlock || (artifact.kind in HARD_BLOCK_ARTIFACT_TYPES && !artifact.explicitlyEmpty) {
        blockers := blockers + [artifact];
      }
    }
    assert artifacts[..|artifacts|] == artifacts;
  }

  class IndexGate {
    const audit: AuditStore
    const indexer: SqliteIndexer.Indexer

    constructor (audit: AuditStore, indexer: SqliteIndexer.Indexer)
      requires indexer.Valid()
      ensures this.audit == audit && this.indexer == indexer && Valid()
    {
      this.audit, this.indexer := audit, indexer;
    }

    ghost predicate Valid()
      reads this, indexer
    {
      indexer.Valid()
    }

    /** The state the methods act on. */
    ghost function State(): World
      requires Valid()
      reads this, audit, indexer
    {
      World(Settings(audit.hash, indexer.chunkSize, indexer.chunkOverlap), audit.records, indexer.index, audit.clock)
    }

    method RemoveCandidate(p: PreparedAnalysis, env: Surroundings) returns (error: Option<string>)
      requires Valid()
      modifies indexer
      ensures Valid() && State() == Gate.RemoveCandidate(old(State()), p, env)
      ensures error == env.removeFault
    {
      var removed := indexer.RemoveAtomic(p.documentId, p.candidate.sha256, env.removeFault.Some?);
      return if removed.None? then env.removeFault else None;
    }

    method Deny(p: PreparedAnalysis, reason: Reason, record: bool, remove: bool, env: Surroundings)
      returns (outcome: IndexOutcome)
      requires Valid()
      modifies audit, indexer
      ensures Valid() && GateStep(State(), Some(outcome)) == Gate.Deny(old(State()), p, reason, record, remove, env)
    {
      var removalError := None;
      if remove {
        removalError := RemoveCandidate(p, env);
      }
      outcome := IndexOutcome(p.analysisId, p.documentId, p.candidate.sha256, removalError.Some?, 0, QUARANTINE,
                              reason.(removalError := removalError));
      if record && p.analysisId in audit.records {
        audit.AppendKnown(p.analysisId, IndexGateApplied(outcome));
      }
    }

    method NotIndexed(p: PreparedAnalysis, reason: Reason, env: Surroundings) returns (outcome: IndexOutcome)
      requires Valid() && p.analysisId in audit.records
      modifies audit, indexer
      ensures Valid() && GateStep(State(), Some(outcome)) == Gate.NotIndexed(old(State()), p, reason, env)
    {
      var removalError := RemoveCandidate(p, env);
      outcome := IndexOutcome(p.analysisId, p.documentId, p.candidate.sha256, removalError.Some?, 0, HOLD,
                              reason.(removalError := removalError));
      audit.AppendKnown(p.analysisId, IndexGateApplied(outcome));
    }

    /** `hold`. */
    method Hold(p: PreparedAnalysis, code: string, env: Surroundings) returns (outcome: IndexOutcome)
      requires Valid()
      modifies audit, indexer
      ensures Valid() && GateStep(State(), Some(outcome)) == HoldStep(old(State()), p, code, env)
    {
      if p.analysisId !in audit.records {
        outcome := Deny(p, Because("ANALYSIS_NOT_AUDITED"), false, true, env);
        return;
      }
      if audit.records[p.analysisId].prepared != p {
        outcome := Deny(p, Because("PREPARED_ANALYSIS_MISMATCH"), true, true, env);
        return;
      }
      var valid := audit.VerifyKnown(p.analysisId);
      if !valid {
        outcome := Deny(p, Because("AUDIT_CHAIN_INVALID"), false, true, env);
        return;
      }
      outcome := NotIndexed(p, Because(code), env);
    }

    method IsQuarantined(id: string) returns (quarantined: bool)
      requires id in audit.records
      ensures quarantined <==> AlreadyQuarantined(audit.records[id].events)
    {
      var events := audit.records[id].events;
      for i := 0 to |events|
        invariant forall j | 0 <= j < i :: !IsQuarantine(events[j].payload)
      {
        if events[i].payload.IndexGateApplied? && events[i].payload.outcome.action == QUARANTINE {
          return true;
        }
      }
      return false;
    }

    /** The checks of `_apply_locked` between the recorded policy and the index. */
    method Check(stored: PreparedAnalysis, p: PreparedAnalysis, policy: PolicyResult, indexIfAllowed: bool, blob: Blob)
      returns (verdict: Verdict)
      ensures verdict == Judge(stored, p, policy, indexIfAllowed, blob)
    {
      if stored != p { return Refuse(Because("PREPARED_ANALYSIS_MISMATCH")); }
      if p.documentId != p.candidate.documentId { return Refuse(Because("DOCUMENT_ID_MISMATCH")); }
      if p.baseline.sha256 != p.diff.baselineSha256 { return Refuse(Because("BASELINE_SHA256_MISMATCH")); }
      if p.expectedCurrent.Some? && p.expectedCurrent.value != p.baseline.sha256 {
        return Refuse(Because("TRUSTED_BASELINE_SHA256_MISMATCH"));
      }
      if p.candidate.sha256 != p.diff.candidateSha256 { return Refuse(Because("CANDIDATE_SHA256_MISMATCH")); }
      if policy.candidateSha256.Some? && policy.candidateSha256.value != p.candidate.sha256 {
        return Refuse(Because("POLICY_CANDIDATE_SHA256_MISMATCH"));
      }
      if policy.decision == ALLOW && policy.candidateSha256.None? {
        return Refuse(Because("POLICY_CANDIDATE_SHA256_REQUIRED"));
      }
      var blobFailure := BlobFailure(blob, p.candidate.sha256);
      if blobFailure.Some? { return Refuse(Because(blobFailure.value)); }
      var blockers := HardBlockingArtifacts(p.candidate.artifacts);
      if blockers != [] { return Refuse(Reason("HARD_BLOCK_ARTIFACT", Kinds(blockers), None)); }
      if policy.status != COMPLETED { return Refuse(Because("ANALYSIS_NOT_COMPLETED")); }
      if policy.decision == REVIEW { return KeepOut(Because("POLICY_REVIEW_HOLD")); }
      if policy.decision == BLOCK { return Refuse(Because("POLICY_BLOCK")); }
      if !indexIfAllowed { return KeepOut(Because("INDEX_NOT_REQUESTED")); }
      return Admit;
    }

    /** `index_atomic` and what follows it: the outcome, or None if the audit write raised. */
    method IndexCandidate(p: PreparedAnalysis, env: Surroundings) returns (outcome: Option<IndexOutcome>)
      requires Valid() && p.analysisId in audit.records
      modifies audit, indexer
      ensures Valid() && GateStep(State(), outcome) == AdmitStep(old(State()), p, env)
    {
      var result := indexer.IndexAtomic(p.candidate.documentId, p.candidate.sha256, p.candidate.text,
                                        SqliteIndexer.Expect(p.expectedCurrent), env.writeFault);
      if result.Err? {
        var denied;
        if result.error.StaleBaseline? {
          denied := Deny(p, Because("STALE_BASELINE_VERSION"), true, false, env);
        } else {
          denied := Deny(p, Reason("INDEXER_ERROR", {ErrorName(result.error)}, None), true, true, env);
        }
        return Some(denied);
      }
      var receipt := if env.receipt.Some? then env.receipt.value else result.value;
      if receipt.document != p.documentId || receipt.sha != p.candidate.sha256 || receipt.chunkCount <= 0 {
        var denied := Deny(p, Because("INVALID_INDEX_RECEIPT"), true, true, env);
        return Some(denied);
      }
      if env.auditFault {
        var _ := RemoveCandidate(p, env);
        return None;
      }
      var indexed := IndexOutcome(p.analysisId, p.documentId, p.candidate.sha256, true, receipt.chunkCount, INDEX,
                                  Because("POLICY_ALLOW_INDEXED"));
      audit.AppendKnown(p.analysisId, IndexGateApplied(indexed));
      return Some(indexed);
    }

    /** Carry out a verdict. */
    method Settle(p: PreparedAnalysis, verdict: Verdict, env: Surroundings) returns (outcome: Option<IndexOutcome>)
      requires Valid() && p.analysisId in audit.records
      modifies audit, indexer
      ensures Valid() && GateStep(State(), outcome) == SettleStep(old(State()), p, verdict, env)
    {
      match verdict {
        case Refuse(reason) =>
          var denied := Deny(p, reason, true, true, env);
          outcome := Some(denied);
        case KeepOut(reason) =>
          var held := NotIndexed(p, reason, env);
          outcome := Some(held);
        case Admit =>
          outcome := IndexCandidate(p, env);
      }
    }

    /** `apply` on a known analysis with a well-formed policy. */
    method ApplyAudited(p: PreparedAnalysis, policy: PolicyResult, indexIfAllowed: bool, env: Surroundings)
      returns (outcome: Option<IndexOutcome>)
      requires Valid() && p.analysisId in audit.records
      modifies audit, indexer
      ensures Valid() && GateStep(State(), outcome) == AuditedStep(old(State()), p, policy, indexIfAllowed, env)
    {
      var id := p.analysisId;
      var valid := audit.VerifyKnown(id);
      if !valid {
        var denied := Deny(p, Because("AUDIT_CHAIN_INVALID"), false, true, env);
        return Some(denied);
      }
      var quarantined := IsQuarantined(id);
      if quarantined {
        var denied := Deny(p, Because("ANALYSIS_ALREADY_QUARANTINED"), true, true, env);
        return Some(denied);
      }
      outcome := Decide(p, policy, indexIfAllowed, env);
    }

    /** The rest of `_apply_locked`: record the policy, check, and carry out the verdict. */
    method Decide(p: PreparedAnalysis, policy: PolicyResult, indexIfAllowed: bool, env: Surroundings)
      returns (outcome: Option<IndexOutcome>)
      requires Valid() && p.analysisId in audit.records
      modifies audit, indexer
      ensures Valid()
      ensures GateStep(State(), outcome) == SettleStep(
                Log(old(State()), p.analysisId, PolicyResultReceived(policy)), p,
                Judge(old(audit.records[p.analysisId].prepared), p, policy, indexIfAllowed, env.blob), env)
    {
      var stored := audit.records[p.analysisId].prepared;
      audit.AppendKnown(p.analysisId, PolicyResultReceived(policy));
      var verdict := Check(stored, p, policy, indexIfAllowed, env.blob);
      outcome := Settle(p, verdict, env);
    }

    /** `apply`. */
    method Apply(p: PreparedAnalysis, policy: PolicyResult, indexIfAllowed: bool, env: Surroundings)
      returns (outcome: Option<IndexOutcome>)
      requires Valid()
      modifies audit, indexer
      ensures Valid() && GateStep(State(), outcome) == ApplyStep(old(State()), p, policy, indexIfAllowed, env)
    {
      if !policy.Valid() {
        if p.analysisId in audit.records {
          audit.AppendKnown(p.analysisId, PolicyResultRejected);
        }
        var denied := Deny(p, Because("INVALID_POLICY_RESULT"), true, true, env);
        return Some(denied);
      }
      if p.analysisId !in audit.records {
        var denied := Deny(p, Because("ANALYSIS_NOT_AUDITED"), false, true, env);
        return Some(denied);
      }
      outcome := ApplyAudited(p, policy, indexIfAllowed, env);
    }
  }
}
