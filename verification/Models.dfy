/** The signed and hashed records (src/finality_ref/models.py, pop.py, crypto.py). */
module Models {
  import opened Wrappers
  import opened Sorting
  import opened Unicode
  import opened Values
  import opened Canonical

  /** The reasons that the policy, the protected state and the sink give, under their own names. */
  datatype Reason =
    | CandidateNotNonEffective | PolicyEpochMismatch | PurposeNotAllowed | JurisdictionNotAllowed
    | SinkNotAllowed | BoundaryNotAllowed | EffectClassNotAllowed | EmptyScope | ScopeNotAllowed
    | DuplicateScope | SourceRevoked | InvalidFreshness | CandidateFromFuture | CandidateStale
    | RuntimeEvidenceMismatch | QuotaExhausted | BudgetExhausted | EffectClassMismatch | SinkBindingMismatch
    | BoundaryBindingMismatch | ScopeBindingMismatch | ScopeNotSupportedBySink | NonceBindingMismatch
    | CapabilityFromFuture | CapabilityExpired | CapabilityOutlivesCandidate | CapabilitySignatureInvalid
    | PresentationProofRequired | PresenterBindingMismatch | PresentationCapabilityMismatch
    | PresentationCandidateMismatch | PresentationSinkBoundaryMismatch | PresentationNonceMismatch
    | PresentationStale | PresentationSignatureInvalid | CandidateDigestMismatch | DescriptorDigestMismatch
    | ValidationEvidenceMissing | ValidationEvidenceSignatureInvalid | ValidationEvidenceNotAllow
    | AuthorityBindingMismatch | EvidenceCandidateMismatch | EvidenceDescriptorMismatch
    | EvidenceTransitionMismatch | EvidenceEpochMismatch | ProtectedStateTransitionInvalid

  datatype Error =
    | ValidationDenied(reasons: seq<Reason>)
    | VerificationFailed(reason: Reason)
    | ReplayDetected
    | EvidenceCommitFailure
    | EvidenceSignatureInvalid
    | DuplicateEvidence
    | EffectDenied
    | CanonicalizationError
    | ValueError
    | TypeError

  // ---- Hashing and signing ----

  /** NFC, SHA-256 and HMAC-SHA-256 as functions, and the byte strings that a run hashes. */
  datatype Env = Env(nfc: Nfc, hash: Bytes -> Text, mac: (Bytes, Bytes) -> Text, hashed: Bytes -> bool)

  /** Digests and signatures are lower-case hexadecimal, and no two byte strings that the run hashes
      collide. */
  ghost predicate EnvLaws(env: Env) {
    && NfcLaws(env.nfc)
    && (forall b: Bytes :: IsPlain(env.hash(b)))
    && (forall key: Bytes, b: Bytes :: IsPlain(env.mac(key, b)))
    && (forall a: Bytes, b: Bytes :: env.hashed(a) && env.hashed(b) && env.hash(a) == env.hash(b) ==> a == b)
  }

  function Canon(env: Env, v: Value): Option<Bytes> { CanonicalBytes(env.nfc, v, false) }

  /** `sha256_hex`. */
  function Digest(env: Env, v: Value): Option<Text> {
    var b :- Canon(env, v);
    Some(env.hash(b))
  }

  /** The run may hash `v`. */
  predicate MayHash(env: Env, v: Value) {
    var b := Canon(env, v);
    b.Some? ==> env.hashed(b.value)
  }

  datatype Authenticator = HMAC(key: Bytes, key_id: Text) {
    function Sign(env: Env, v: Value): Option<Text> {
      var b :- Canon(env, v);
      Some(env.mac(key, b))
    }

    /** `verify`, which raises when `v` has no canonical form, and then in `hmac.compare_digest` when the
        signature is not ASCII. */
    function Verify(env: Env, v: Value, signature: Text, keyId: Text): Result<bool, Error> {
      if keyId != key_id then Ok(false)
      else
        match Sign(env, v)
        case None => Err(CanonicalizationError)
        case Some(expected) => if IsAscii(signature) then Ok(expected == signature) else Err(TypeError)
    }
  }

  // ---- Records as values ----

  function FieldsOf(names: seq<string>, vals: seq<Value>): (r: seq<Pair<Key, Value>>)
    requires |names| == |vals|
    ensures |r| == |names|
    ensures forall i :: 0 <= i < |names| ==> r[i] == Pair(StrKey(Lit(names[i])), vals[i])
  {
    seq(|names|, i requires 0 <= i < |names| => Pair(StrKey(Lit(names[i])), vals[i]))
  }

  function Texts(ts: seq<Text>): (r: seq<Value>)
    ensures |r| == |ts| && forall i :: 0 <= i < |ts| ==> r[i] == Str(ts[i])
  {
    seq(|ts|, i requires 0 <= i < |ts| => Str(ts[i]))
  }

  datatype ActStatus = NON_EFFECTIVE | EFFECTIVE

  function StatusText(s: ActStatus): Text { Lit(if s.NON_EFFECTIVE? then "NON_EFFECTIVE" else "EFFECTIVE") }

  datatype Decision = ALLOW | DENY

  function DecisionText(d: Decision): Text { Lit(if d.ALLOW? then "ALLOW" else "DENY") }

  datatype CandidateAct = CandidateAct(
    act_id: Text, act_class: Text, effect_class: Text, source: Text, destination: Text, purpose: Text,
    jurisdiction: Text, policy_epoch: int, nonce: Text, issued_at_ns: int, freshness_ns: int,
    sink_id: Text, boundary_id: Text, scope: seq<Text>, payload: Value, runtime_evidence_digest: Text,
    authority_context: seq<Pair<Key, Value>>, status: ActStatus)

  const CANDIDATE_FIELDS: seq<string> := [
    "act_id", "act_class", "effect_class", "source", "destination", "purpose", "jurisdiction", "policy_epoch",
    "nonce", "issued_at_ns", "freshness_ns", "sink_id", "boundary_id", "scope", "payload",
    "runtime_evidence_digest", "authority_context", "status"]

  function CandidateValues(c: CandidateAct): (r: seq<Value>)
    ensures |r| == |CANDIDATE_FIELDS|
  {
    [Str(c.act_id), Str(c.act_class), Str(c.effect_class), Str(c.source), Str(c.destination), Str(c.purpose),
     Str(c.jurisdiction), Int(c.policy_epoch), Str(c.nonce), Int(c.issued_at_ns), Int(c.freshness_ns),
     Str(c.sink_id), Str(c.boundary_id), Tuple(Texts(c.scope)), c.payload, Str(c.runtime_evidence_digest),
     Dict(c.authority_context), Str(StatusText(c.status))]
  }

  function CandidateValue(c: CandidateAct): Value { Record(FieldsOf(CANDIDATE_FIELDS, CandidateValues(c))) }

  /** `CandidateAct.digest`. */
  function CandidateDigest(env: Env, c: CandidateAct): Option<Text> { Digest(env, CandidateValue(c)) }

  datatype HCAD = HCAD(act: CandidateAct, sink_id: Text, boundary_id: Text, payload_digest: Text)

  const HCAD_FIELDS: seq<string> := [
    "schema", "act_id", "act_class", "effect_class", "source", "destination", "purpose", "jurisdiction",
    "policy_epoch", "nonce", "issued_at_ns", "freshness_ns", "sink_id", "boundary_id", "scope",
    "payload_digest", "runtime_evidence_digest"]

  function HCADValues(h: HCAD): (r: seq<Value>)
    ensures |r| == |HCAD_FIELDS|
  {
    var c := h.act;
    [Str(Lit("finality-hcad/v1")), Str(c.act_id), Str(c.act_class), Str(c.effect_class), Str(c.source),
     Str(c.destination), Str(c.purpose), Str(c.jurisdiction), Int(c.policy_epoch), Str(c.nonce),
     Int(c.issued_at_ns), Int(c.freshness_ns), Str(h.sink_id), Str(h.boundary_id), Tuple(Texts(c.scope)),
     Str(h.payload_digest), Str(c.runtime_evidence_digest)]
  }

  function HCADValue(h: HCAD): Value { Record(FieldsOf(HCAD_FIELDS, HCADValues(h))) }

  /** `build_hcad`, which raises when the payload has no canonical form. */
  function BuildHCAD(env: Env, c: CandidateAct, sinkId: Text, boundaryId: Text): Option<HCAD> {
    var d :- Digest(env, c.payload);
    Some(HCAD(c, sinkId, boundaryId, d))
  }

  /** The descriptor digest of `c` at a sink with this identity. */
  function DescriptorDigest(env: Env, c: CandidateAct, sinkId: Text, boundaryId: Text): Option<Text> {
    var h :- BuildHCAD(env, c, sinkId, boundaryId);
    Digest(env, HCADValue(h))
  }

  datatype StateTransition = StateTransition(
    transition_id: Text, nonce: Text, source: Text, before_version: int, after_version: int,
    quota_before: int, quota_after: int, budget_before: int, budget_after: int, policy_epoch: int)

  const TRANSITION_FIELDS: seq<string> := [
    "nonce", "source", "before_version", "after_version", "quota_before", "quota_after",
    "budget_before", "budget_after", "policy_epoch", "candidate_digest"]

  function TransitionValues(t: StateTransition, candidateDigest: Text): (r: seq<Value>)
    ensures |r| == |TRANSITION_FIELDS|
  {
    [Str(t.nonce), Str(t.source), Int(t.before_version), Int(t.after_version), Int(t.quota_before),
     Int(t.quota_after), Int(t.budget_before), Int(t.budget_after), Int(t.policy_epoch), Str(candidateDigest)]
  }

  /** What a transition id is the digest of. */
  function TransitionCore(t: StateTransition, candidateDigest: Text): Value {
    Dict(FieldsOf(TRANSITION_FIELDS, TransitionValues(t, candidateDigest)))
  }

  datatype ValidationEvidence = ValidationEvidence(
    evidence_id: Text, authority_id: Text, descriptor_digest: Text, candidate_digest: Text, transition_id: Text,
    policy_epoch: int, decision: Decision, reasons: seq<Text>, committed_at_ns: int, key_id: Text, signature: Text)

  const EVIDENCE_FIELDS: seq<string> := [
    "authority_id", "descriptor_digest", "candidate_digest", "transition_id", "policy_epoch", "decision",
    "reasons", "committed_at_ns", "key_id"]

  function EvidenceValues(e: ValidationEvidence): (r: seq<Value>)
    ensures |r| == |EVIDENCE_FIELDS|
  {
    [Str(e.authority_id), Str(e.descriptor_digest), Str(e.candidate_digest), Str(e.transition_id),
     Int(e.policy_epoch), Str(DecisionText(e.decision)), List(Texts(e.reasons)), Int(e.committed_at_ns), Str(e.key_id)]
  }

  /** What an evidence id is the digest of. */
  function EvidenceCore(e: ValidationEvidence): Value { Dict(FieldsOf(EVIDENCE_FIELDS, EvidenceValues(e))) }

  /** `ValidationEvidence.unsigned`, what the authority signs. */
  function EvidenceUnsigned(e: ValidationEvidence): Value {
    Dict(FieldsOf(["evidence_id"] + EVIDENCE_FIELDS, [Str(e.evidence_id)] + EvidenceValues(e)))
  }

  datatype Capability = Capability(
    capability_id: Text, authority_id: Text, candidate_digest: Text, descriptor_digest: Text, sink_id: Text,
    boundary_id: Text, nonce: Text, scope: seq<Text>, policy_epoch: int, evidence_id: Text, transition_id: Text,
    issued_at_ns: int, expires_at_ns: int, key_id: Text, signature: Text)

  const CAPABILITY_FIELDS: seq<string> := [
    "authority_id", "candidate_digest", "descriptor_digest", "sink_id", "boundary_id", "nonce", "scope",
    "policy_epoch", "evidence_id", "transition_id", "issued_at_ns", "expires_at_ns", "key_id"]

  function CapabilityValues(c: Capability): (r: seq<Value>)
    ensures |r| == |CAPABILITY_FIELDS|
  {
    [Str(c.authority_id), Str(c.candidate_digest), Str(c.descriptor_digest), Str(c.sink_id), Str(c.boundary_id),
     Str(c.nonce), List(Texts(c.scope)), Int(c.policy_epoch), Str(c.evidence_id), Str(c.transition_id),
     Int(c.issued_at_ns), Int(c.expires_at_ns), Str(c.key_id)]
  }

  /** What a capability id is the digest of. */
  function CapabilityCore(c: Capability): Value { Dict(FieldsOf(CAPABILITY_FIELDS, CapabilityValues(c))) }

  /** `Capability.unsigned`, what the authority signs. */
  function CapabilityUnsigned(c: Capability): Value {
    Dict(FieldsOf(["capability_id"] + CAPABILITY_FIELDS, [Str(c.capability_id)] + CapabilityValues(c)))
  }

  datatype SinkContext = SinkContext(
    sink_id: Text, boundary_id: Text, policy_epoch: int, supported_scopes: set<Text>, effect_class: Text)

  datatype SinkReceipt = SinkReceipt(
    receipt_id: Text, capability_id: Text, candidate_digest: Text, descriptor_digest: Text, sink_id: Text,
    boundary_id: Text, transition_id: Text, scope: seq<Text>, committed_at_ns: int, effect_reference: Text,
    key_id: Text, signature: Text)

  const RECEIPT_FIELDS: seq<string> := [
    "capability_id", "candidate_digest", "descriptor_digest", "sink_id", "boundary_id", "transition_id", "scope",
    "effect_status", "committed_at_ns", "effect_reference", "key_id"]

  function ReceiptValues(r: SinkReceipt): (vs: seq<Value>)
    ensures |vs| == |RECEIPT_FIELDS|
  {
    [Str(r.capability_id), Str(r.candidate_digest), Str(r.descriptor_digest), Str(r.sink_id), Str(r.boundary_id),
     Str(r.transition_id), List(Texts(r.scope)), Str(Lit("EFFECTIVE")), Int(r.committed_at_ns),
     Str(r.effect_reference), Str(r.key_id)]
  }

  function ReceiptCore(r: SinkReceipt): Value { Dict(FieldsOf(RECEIPT_FIELDS, ReceiptValues(r))) }

  /** `SinkReceipt.unsigned`, what the sink signs. */
  function ReceiptUnsigned(r: SinkReceipt): Value {
    Dict(FieldsOf(["receipt_id"] + RECEIPT_FIELDS, [Str(r.receipt_id)] + ReceiptValues(r)))
  }

  datatype PresentationProof = PresentationProof(
    capability_id: Text, candidate_digest: Text, sink_id: Text, boundary_id: Text, nonce: Text,
    presented_at_ns: int, presenter_key_id: Text, signature: Text)

  const PROOF_FIELDS: seq<string> := [
    "capability_id", "candidate_digest", "sink_id", "boundary_id", "nonce", "presented_at_ns", "presenter_key_id"]

  function ProofValues(p: PresentationProof): (r: seq<Value>)
    ensures |r| == |PROOF_FIELDS|
  {
    [Str(p.capability_id), Str(p.candidate_digest), Str(p.sink_id), Str(p.boundary_id), Str(p.nonce),
     Int(p.presented_at_ns), Str(p.presenter_key_id)]
  }

  /** `PresentationProof.unsigned`, what the presenter signs. */
  function ProofUnsigned(p: PresentationProof): Value { Dict(FieldsOf(PROOF_FIELDS, ProofValues(p))) }

  /** `Presenter.prove`, which raises when a text is not Unicode. */
  function ProofBy(env: Env, presenter: Authenticator, capabilityId: Text, candidateDigest: Text, sinkId: Text,
                   boundaryId: Text, nonce: Text, now: int): Option<PresentationProof> {
    var p := PresentationProof(capabilityId, candidateDigest, sinkId, boundaryId, nonce, now, presenter.key_id, []);
    var signature :- presenter.Sign(env, ProofUnsigned(p));
    Some(p.(signature := signature))
  }

  /** `d.get(name)` on a dictionary. */
  function Get(es: seq<Pair<Key, Value>>, name: Text): Option<Value> {
    if es == [] then None
    else if es[0].key == StrKey(name) then Some(es[0].val)
    else Get(es[1..], name)
  }
}
