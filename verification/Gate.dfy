/** The fail-closed boundary of `rag/gate.py`, as steps on one state: the audited analyses
    and the index they protect. */
module Gate {
  import opened Wrappers
  import opened Contracts
  import opened AuditChain
  import opened VersionedIndex
  import SqliteIndexer
  import TextSplitter

  type Event = AuditEvent<Payload>

  datatype Record = Record(prepared: PreparedAnalysis, events: seq<Event>)

  /** `hash` is the digest of an audit event; chunks are cut by `chunkSize` and `chunkOverlap`. */
  datatype Settings = Settings(hash: HashInput<Payload> -> string, chunkSize: nat, chunkOverlap: nat)

  /** The settings the index accepts. */
  type Config = c: Settings | c.chunkOverlap < c.chunkSize witness Settings(_ => "", 1, 0)

  datatype World = World(config: Config, records: map<string, Record>, index: Index, clock: nat)

  /** What is found where the candidate's bytes should be. */
  datatype Blob = Missing | Unreadable | Content(sha: string)

  /** What the surroundings do during one call: the blob store, the index adapter, the audit write behind
      an indexing, and the write of the completed command. */
  datatype Surroundings = Surroundings(
    blob: Blob,
    removeFault: Option<string>,
    writeFault: Option<nat>,
    receipt: Option<SqliteIndexer.Receipt>,
    auditFault: bool,
    completionFault: bool)

  const HARD_BLOCK_ARTIFACT_TYPES: set<string> := {
    "ACTIVE_CONTENT", "ARCHIVE_LIMIT_EXCEEDED", "ENCRYPTED", "ENCRYPTED_DOCUMENT", "FORMAT_MISMATCH", "MACRO",
    "MALFORMED_ARCHIVE", "MALFORMED_DOCUMENT", "OLE", "PATH_TRAVERSAL", "SCRIPT", "SCRIPT_PAYLOAD",
    "UNSAFE_ARCHIVE", "UNSCANNABLE_ACTIVE_CONTENT", "UNSCANNABLE_CONTENT", "VBA", "ZIP_BOMB" }

  predicate IsHardBlock(artifact: Artifact) {
    artifact.hardBlock || (artifact.kind in HARD_BLOCK_ARTIFACT_TYPES && !artifact.explicitlyEmpty)
  }

  function HardBlocking(artifacts: seq<Artifact>): seq<Artifact> {
    if artifacts == [] then []
    else HardBlocking(artifacts[..|artifacts| - 1])
         + if IsHardBlock(artifacts[|artifacts| - 1]) then [artifacts[|artifacts| - 1]] else []
  }

  function Kinds(artifacts: seq<Artifact>): set<string> {
    set artifact | artifact in artifacts :: artifact.kind
  }

  function Because(code: string): Reason { Reason(code, {}, None) }

  // ---------------------------------------------------------------- the audit log

  /** Append one event to the log of a known analysis. */
  function Log(w: World, id: string, payload: Payload): World
    requires id in w.records
  {
    var record := w.records[id];
    w.(records := w.records[id := record.(events := Append(w.config.hash, id, record.events, payload, w.clock))],
       clock := w.clock + 1)
  }

  function LogIfKnown(w: World, id: string, payload: Payload): World {
    if id in w.records then Log(w, id, payload) else w
  }

  ghost predicate ChainValid(w: World, id: string)
    requires id in w.records
  {
    VerifyChain(w.config.hash, id, w.records[id].events)
  }

  // ---------------------------------------------------------------- refusing

  function RemoveCandidate(w: World, p: PreparedAnalysis, env: Surroundings): World {
    if env.removeFault.Some? then w else w.(index := Removed(w.index, p.documentId, p.candidate.sha256))
  }

  /** The outcome of a call that does not index; a failed removal is reported as still indexed. */
  function RefusalOutcome(p: PreparedAnalysis, action: IndexAction, reason: Reason, removalError: Option<string>): IndexOutcome {
    IndexOutcome(p.analysisId, p.documentId, p.candidate.sha256, removalError.Some?, 0, action,
                 reason.(removalError := removalError))
  }

  /** A step of the gate: the state after it, and the outcome unless the call raised. */
  datatype GateStep = GateStep(world: World, outcome: Option<IndexOutcome>)

  function Deny(w: World, p: PreparedAnalysis, reason: Reason, record: bool, remove: bool, env: Surroundings): (step: GateStep)
    ensures step.outcome.Some? && step.world.records.Keys == w.records.Keys && step.world.config == w.config
  {
    var removalError := if remove then env.removeFault else None;
    var outcome := RefusalOutcome(p, QUARANTINE, reason, removalError);
    var removed := if remove then RemoveCandidate(w, p, env) else w;
    GateStep(if record then LogIfKnown(removed, p.analysisId, IndexGateApplied(outcome)) else removed, Some(outcome))
  }

  function NotIndexed(w: World, p: PreparedAnalysis, reason: Reason, env: Surroundings): (step: GateStep)
    requires p.analysisId in w.records
    ensures step.outcome.Some? && step.world.records.Keys == w.records.Keys && step.world.config == w.config
  {
    var outcome := RefusalOutcome(p, HOLD, reason, env.removeFault);
    GateStep(Log(RemoveCandidate(w, p, env), p.analysisId, IndexGateApplied(outcome)), Some(outcome))
  }

  ghost function HoldStep(w: World, p: PreparedAnalysis, code: string, env: Surroundings): (step: GateStep)
    ensures step.outcome.Some? && step.world.records.Keys == w.records.Keys && step.world.config == w.config
  {
    if p.analysisId !in w.records then Deny(w, p, Because("ANALYSIS_NOT_AUDITED"), false, true, env)
    else if w.records[p.analysisId].prepared != p then Deny(w, p, Because("PREPARED_ANALYSIS_MISMATCH"), true, true, env)
    else if !ChainValid(w, p.analysisId) then Deny(w, p, Because("AUDIT_CHAIN_INVALID"), false, true, env)
    else NotIndexed(w, p, Because(code), env)
  }

  // ---------------------------------------------------------------- deciding

  datatype Verdict = Refuse(reason: Reason) | KeepOut(reason: Reason) | Admit

  function BlobFailure(blob: Blob, sha: string): Option<string> {
    match blob
    case Missing => Some("CANDIDATE_BLOB_MISSING")
    case Unreadable => Some("CANDIDATE_BLOB_UNREADABLE")
    case Content(actual) => if actual != sha then Some("CANDIDATE_BLOB_SHA256_MISMATCH") else None
  }

  /** The checks between the recorded policy and the index, in their order. */
  function Judge(stored: PreparedAnalysis, p: PreparedAnalysis, policy: PolicyResult, indexIfAllowed: bool, blob: Blob)
    : (verdict: Verdict)
    ensures verdict.Admit? ==> indexIfAllowed
  {
    var blobFailure := BlobFailure(blob, p.candidate.sha256);
    var blockers := HardBlocking(p.candidate.artifacts);
    if stored != p then Refuse(Because("PREPARED_ANALYSIS_MISMATCH"))
    else if p.documentId != p.candidate.documentId then Refuse(Because("DOCUMENT_ID_MISMATCH"))
    else if p.baseline.sha256 != p.diff.baselineSha256 then Refuse(Because("BASELINE_SHA256_MISMATCH"))
    else if p.expectedCurrent.Some? && p.expectedCurrent.value != p.baseline.sha256
      then Refuse(Because("TRUSTED_BASELINE_SHA256_MISMATCH"))
    else if p.candidate.sha256 != p.diff.candidateSha256 then Refuse(Because("CANDIDATE_SHA256_MISMATCH"))
    else if policy.candidateSha256.Some? && policy.candidateSha256.value != p.candidate.sha256
      then Refuse(Because("POLICY_CANDIDATE_SHA256_MISMATCH"))
    else if policy.decision == ALLOW && policy.candidateSha256.None?
      then Refuse(Because("POLICY_CANDIDATE_SHA256_REQUIRED"))
    else if blobFailure.Some? then Refuse(Because(blobFailure.value))
    else if blockers != [] then Refuse(Reason("HARD_BLOCK_ARTIFACT", Kinds(blockers), None))
    else if policy.status != COMPLETED then Refuse(Because("ANALYSIS_NOT_COMPLETED"))
    else if policy.decision == REVIEW then KeepOut(Because("POLICY_REVIEW_HOLD"))
    else if policy.decision == BLOCK then Refuse(Because("POLICY_BLOCK"))
    else if !indexIfAllowed then KeepOut(Because("INDEX_NOT_REQUESTED"))
    else Admit
  }

  predicate IsQuarantine(payload: Payload) {
    payload.IndexGateApplied? && payload.outcome.action == QUARANTINE
  }

  ghost predicate AlreadyQuarantined(events: seq<Event>) {
    exists i :: 0 <= i < |events| && IsQuarantine(events[i].payload)
  }

  // ---------------------------------------------------------------- indexing

  function CandidateVersion(w: World, p: PreparedAnalysis): Version
  {
    Version(p.candidate.sha256, TextSplitter.SplitText(p.candidate.text, w.config.chunkSize, w.config.chunkOverlap))
  }

  function ErrorName(error: SqliteIndexer.IndexError): string {
    match error
    case EmptyText => "ValueError"
    case StaleBaseline => "StaleBaselineError"
    case WriteFailed => "OperationalError"
  }

  function IndexedOutcome(p: PreparedAnalysis, chunkCount: nat): IndexOutcome {
    IndexOutcome(p.analysisId, p.documentId, p.candidate.sha256, true, chunkCount, INDEX, Because("POLICY_ALLOW_INDEXED"))
  }

  predicate ReceiptFits(receipt: SqliteIndexer.Receipt, p: PreparedAnalysis) {
    receipt.document == p.documentId && receipt.sha == p.candidate.sha256 && receipt.chunkCount > 0
  }

  /** The last part of `_apply_locked`: index, check the receipt, record, and take back if recording fails. */
  function AdmitStep(w: World, p: PreparedAnalysis, env: Surroundings): (step: GateStep)
    requires p.analysisId in w.records
    ensures step.outcome.None? ==> env.auditFault
    ensures step.world.records.Keys == w.records.Keys && step.world.config == w.config
  {
    var version := CandidateVersion(w, p);
    var result := SqliteIndexer.IndexResult(
      p.candidate.documentId, p.candidate.sha256, version.chunks, SqliteIndexer.Expect(p.expectedCurrent),
      CurrentOf(w.index, p.candidate.documentId), env.writeFault);
    match result
    case Err(StaleBaseline) => Deny(w, p, Because("STALE_BASELINE_VERSION"), true, false, env)
    case Err(error) => Deny(w, p, Reason("INDEXER_ERROR", {ErrorName(error)}, None), true, true, env)
    case Ok(own) =>
      var indexed := w.(index := Stored(w.index, p.candidate.documentId, version));
      var receipt := if env.receipt.Some? then env.receipt.value else own;
      if !ReceiptFits(receipt, p) then Deny(indexed, p, Because("INVALID_INDEX_RECEIPT"), true, true, env)
      else if env.auditFault then GateStep(RemoveCandidate(indexed, p, env), None)
      else
        var outcome := IndexedOutcome(p, receipt.chunkCount);
        GateStep(Log(indexed, p.analysisId, IndexGateApplied(outcome)), Some(outcome))
  }

  /** Carry out a verdict. */
  function SettleStep(w: World, p: PreparedAnalysis, verdict: Verdict, env: Surroundings): (step: GateStep)
    requires p.analysisId in w.records
    ensures step.outcome.None? ==> verdict.Admit? && env.auditFault
    ensures step.world.records.Keys == w.records.Keys && step.world.config == w.config
  {
    match verdict
    case Refuse(reason) => Deny(w, p, reason, true, true, env)
    case KeepOut(reason) => NotIndexed(w, p, reason, env)
    case Admit => AdmitStep(w, p, env)
  }

  /** `apply` on a known analysis with a well-formed policy. */
  ghost function AuditedStep(w: World, p: PreparedAnalysis, policy: PolicyResult, indexIfAllowed: bool, env: Surroundings)
    : (step: GateStep)
    requires p.analysisId in w.records
    ensures step.outcome.None? ==> indexIfAllowed && env.auditFault
    ensures step.world.records.Keys == w.records.Keys && step.world.config == w.config
  {
    var id := p.analysisId;
    if !ChainValid(w, id) then Deny(w, p, Because("AUDIT_CHAIN_INVALID"), false, true, env)
    else if AlreadyQuarantined(w.records[id].events) then
      Deny(w, p, Because("ANALYSIS_ALREADY_QUARANTINED"), true, true, env)
    else
      SettleStep(Log(w, id, PolicyResultReceived(policy)), p,
                 Judge(w.records[id].prepared, p, policy, indexIfAllowed, env.blob), env)
  }

  /** `apply`. */
  ghost function ApplyStep(w: World, p: PreparedAnalysis, policy: PolicyResult, indexIfAllowed: bool, env: Surroundings)
    : (step: GateStep)
    ensures step.outcome.None? ==> indexIfAllowed && env.auditFault
    ensures step.world.records.Keys == w.records.Keys && step.world.config == w.config
  {
    var id := p.analysisId;
    if !policy.Valid() then Deny(LogIfKnown(w, id, PolicyResultRejected), p, Because("INVALID_POLICY_RESULT"), true, true, env)
    else if id !in w.records then Deny(w, p, Because("ANALYSIS_NOT_AUDITED"), false, true, env)
    else AuditedStep(w, p, policy, indexIfAllowed, env)
  }
}
