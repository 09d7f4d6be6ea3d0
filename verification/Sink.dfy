/** Verification and effect at the boundary (src/finality_ref/sink.py). */
module Sink {
  import opened Wrappers
  import opened Sorting
  import opened Unicode
  import opened Values
  import opened Models
  import opened Stores
  import State

  /** What a sink is configured with; `presenters` is its presenter registry, if it has one. */
  datatype Settings = Settings(
    context: SinkContext, auth: Authenticator, max_clock_skew_ns: int, receipt_auth: Authenticator,
    presenters: Option<map<Text, Authenticator>>, require_presentation_proof: bool, presentation_freshness_ns: int)

  datatype Request = Request(candidate: CandidateAct, cap: Capability, now: int, proof: Option<PresentationProof>)

  function Failed(reason: Reason): Result<(), Error> { Err(VerificationFailed(reason)) }

  function Need(ok: bool, reason: Reason): Result<(), Error> { if ok then Ok(()) else Failed(reason) }

  /** The comparisons before the signature is looked at. */
  function CheckBindings(k: Settings, r: Request): Result<(), Error> {
    var (c, cap, ctx) := (r.candidate, r.cap, k.context);
    if c.status != NON_EFFECTIVE then Failed(CandidateNotNonEffective)
    else if c.effect_class != ctx.effect_class then Failed(EffectClassMismatch)
    else if c.sink_id != ctx.sink_id || cap.sink_id != ctx.sink_id then Failed(SinkBindingMismatch)
    else if c.boundary_id != ctx.boundary_id || cap.boundary_id != ctx.boundary_id then Failed(BoundaryBindingMismatch)
    else if c.policy_epoch != ctx.policy_epoch || cap.policy_epoch != ctx.policy_epoch then Failed(PolicyEpochMismatch)
    else if c.scope != cap.scope then Failed(ScopeBindingMismatch)
    else if exists i ::
      0 <= i < |cap.scope| && cap.scope[i] !in ctx.supported_scopes then Failed(ScopeNotSupportedBySink)
    else if cap.nonce != c.nonce then Failed(NonceBindingMismatch)
    else if r.now < cap.issued_at_ns - k.max_clock_skew_ns then Failed(CapabilityFromFuture)
    else if r.now > cap.expires_at_ns then Failed(CapabilityExpired)
    else if cap.expires_at_ns > c.issued_at_ns + c.freshness_ns then Failed(CapabilityOutlivesCandidate)
    else Ok(())
  }

  function Accepted(verdict: Result<bool, Error>, reason: Reason): Result<(), Error> {
    match verdict
    case Err(x) => Err(x)
    case Ok(ok) => Need(ok, reason)
  }

  function Abs(i: int): int { if i < 0 then -i else i }

  /** `PresenterVerifierRegistry.verify`. */
  function VerifyProof(env: Env, presenters: map<Text, Authenticator>, p: PresentationProof): Result<bool, Error> {
    if p.presenter_key_id !in presenters then Ok(false)
    else presenters[p.presenter_key_id].Verify(env, ProofUnsigned(p), p.signature, p.presenter_key_id)
  }

  /** The strict, non-bearer part; `digest` is the candidate's, if it has one. */
  function CheckProof(env: Env, k: Settings, r: Request, digest: Option<Text>): Result<(), Error> {
    if !k.require_presentation_proof then Ok(())
    else if r.proof.None? || k.presenters.None? then Failed(PresentationProofRequired)
    else
      var p := r.proof.value;
      if Get(r.candidate.authority_context, Lit("presenter_key_id"))
              != Some(Str(p.presenter_key_id)) then Failed(PresenterBindingMismatch)
      else if p.capability_id != r.cap.capability_id then Failed(PresentationCapabilityMismatch)
      else if digest.None? then Err(CanonicalizationError)
      else if p.candidate_digest != digest.value then Failed(PresentationCandidateMismatch)
      else if p.sink_id != k.context.sink_id
              || p.boundary_id != k.context.boundary_id then Failed(PresentationSinkBoundaryMismatch)
      else if p.nonce != r.candidate.nonce then Failed(PresentationNonceMismatch)
      else if Abs(r.now - p.presented_at_ns) > k.presentation_freshness_ns then Failed(PresentationStale)
      else Accepted(VerifyProof(env, k.presenters.value, p), PresentationSignatureInvalid)
  }

  /** The digests, of the candidate and of the descriptor rebuilt with the sink's own identity. */
  function CheckDigests(env: Env, k: Settings, r: Request): Result<(), Error> {
    var digest := CandidateDigest(env, r.candidate);
    if digest.None? then Err(CanonicalizationError)
    else if r.cap.candidate_digest != digest.value then Failed(CandidateDigestMismatch)
    else
      var descriptor := DescriptorDigest(env, r.candidate, k.context.sink_id, k.context.boundary_id);
      if descriptor.None? then Err(CanonicalizationError)
      else Need(r.cap.descriptor_digest == descriptor.value, DescriptorDigestMismatch)
  }

  /** Everything that `verify` decides from its arguments alone. */
  function CheckLocal(env: Env, k: Settings, r: Request): Result<(), Error> {
    var _ :- CheckBindings(k, r);
    var _ :- Accepted(k.auth.Verify(env, CapabilityUnsigned(r.cap), r.cap.signature, r.cap.key_id),
                      CapabilitySignatureInvalid);
    var _ :- CheckProof(env, k, r, CandidateDigest(env, r.candidate));
    CheckDigests(env, k, r)
  }

  /** What `verify` requires of the evidence that it finds. */
  function CheckFound(env: Env, k: Settings, r: Request, found: Option<ValidationEvidence>): Result<(), Error> {
    match found
    case None => Failed(ValidationEvidenceMissing)
    case Some(e) =>
      var _ :- Accepted(k.auth.Verify(env, EvidenceUnsigned(e), e.signature, e.key_id),
                        ValidationEvidenceSignatureInvalid);
      if e.decision != ALLOW then Failed(ValidationEvidenceNotAllow)
      else if e.authority_id != r.cap.authority_id then Failed(AuthorityBindingMismatch)
      else if e.candidate_digest != r.cap.candidate_digest then Failed(EvidenceCandidateMismatch)
      else if e.descriptor_digest != r.cap.descriptor_digest then Failed(EvidenceDescriptorMismatch)
      else if e.transition_id != r.cap.transition_id then Failed(EvidenceTransitionMismatch)
      else Need(e.policy_epoch == r.cap.policy_epoch, EvidenceEpochMismatch)
  }

  function CheckEvidence(env: Env, k: Settings, r: Request, records: Records): Result<(), Error> {
    CheckFound(env, k, r, if r.cap.evidence_id in records then Some(records[r.cap.evidence_id]) else None)
  }

  function CheckTransition(r: Request, s: State.Protected): Result<(), Error> {
    Need(State.VerifyTransition(s, r.cap.transition_id, r.candidate), ProtectedStateTransitionInvalid)
  }

  /** `verify` run without interruption. */
  function Verify(env: Env, k: Settings, r: Request, records: Records, s: State.Protected): Result<(), Error> {
    var _ :- CheckLocal(env, k, r);
    var _ :- CheckEvidence(env, k, r, records);
    CheckTransition(r, s)
  }

  function ClaimRow(k: Settings, r: Request): Claim {
    Claim(k.context.sink_id, k.context.boundary_id, r.cap.nonce, r.now)
  }

  /** The receipt of an effect. */
  function MakeReceipt(env: Env, k: Settings, r: Request, rec: EffectRecord): Option<SinkReceipt> {
    var d :- CandidateDigest(env, r.candidate);
    var h :- DescriptorDigest(env, r.candidate, k.context.sink_id, k.context.boundary_id);
    var core := SinkReceipt(
      [], r.cap.capability_id, d, h, k.context.sink_id, k.context.boundary_id,
      r.cap.transition_id, r.cap.scope, r.now, rec.effect_reference, k.receipt_auth.key_id, []);
    var id :- Digest(env, ReceiptCore(core));
    var receipt := core.(receipt_id := id);
    var signature :- k.receipt_auth.Sign(env, ReceiptUnsigned(receipt));
    Some(receipt.(signature := signature))
  }

  lemma ReceiptReference(env: Env, k: Settings, r: Request, rec: EffectRecord)
    requires MakeReceipt(env, k, r, rec).Some?
    ensures MakeReceipt(env, k, r, rec).value.effect_reference == rec.effect_reference
  {
    hide CandidateDigest, DescriptorDigest, Canon, ReceiptCore, ReceiptUnsigned;
  }

  /** A receipt names the request and the record that it is for, under the hash of itself, and verifies
      under the sink's receipt key. */
  lemma ReceiptTells(env: Env, k: Settings, r: Request, rec: EffectRecord)
    requires EnvLaws(env) && MakeReceipt(env, k, r, rec).Some?
    ensures var receipt := MakeReceipt(env, k, r, rec).value;
      && receipt.capability_id == r.cap.capability_id && receipt.transition_id == r.cap.transition_id
      && Some(receipt.candidate_digest) == CandidateDigest(env, r.candidate)
      && Some(receipt.descriptor_digest) == DescriptorDigest(env, r.candidate, k.context.sink_id, k.context.boundary_id)
      && receipt.sink_id == k.context.sink_id && receipt.boundary_id == k.context.boundary_id
      && receipt.scope == r.cap.scope && receipt.committed_at_ns == r.now
      && receipt.effect_reference == rec.effect_reference
      && Some(receipt.receipt_id) == Digest(env, ReceiptCore(receipt))
      && k.receipt_auth.Verify(env, ReceiptUnsigned(receipt), receipt.signature, receipt.key_id) == Ok(true)
  {
    hide CandidateDigest, DescriptorDigest, Canon, FieldsOf;
    var receipt := MakeReceipt(env, k, r, rec).value;
    assert ReceiptValues(receipt) == ReceiptValues(receipt.(receipt_id := [], signature := []));
    assert ReceiptValues(receipt) == ReceiptValues(receipt.(signature := []));
  }

  /** What `effectuate` makes of the result of the effect. */
  function AfterEffect(env: Env, k: Settings, r: Request, done: Result<EffectRecord, Error>)
    : Result<SinkReceipt, Error>
  {
    match done
    case Err(_) => Err(EffectDenied)
    case Ok(rec) =>
      match MakeReceipt(env, k, r, rec)
      case None => Err(CanonicalizationError)
      case Some(receipt) => Ok(receipt)
  }

  /** Claim, effect and receipt of a verified request. */
  function AfterVerify(env: Env, k: Settings, r: Request, claims: Claims, effects: Effects)
    : (Claims, Effects, Result<SinkReceipt, Error>)
  {
    var (claims', claimed) := TryClaim(claims, r.cap.capability_id, ClaimRow(k, r));
    if claimed.Err? then (claims', effects, Err(claimed.error))
    else
      var (effects', done) := TryEffect(env, effects, r.candidate);
      (claims', effects', AfterEffect(env, k, r, done))
  }

  /** Nothing more after an adverse verdict. */
  function Unless(env: Env, verdict: Result<(), Error>, k: Settings, r: Request, claims: Claims, effects: Effects)
    : (Claims, Effects, Result<SinkReceipt, Error>)
  {
    if verdict.Err? then (claims, effects, Err(verdict.error)) else AfterVerify(env, k, r, claims, effects)
  }

  /** `effectuate` run without interruption: the new claims and effects, and what it returns. */
  function Effectuate(env: Env, k: Settings, r: Request, records: Records, s: State.Protected, claims: Claims,
                      effects: Effects)
    : (Claims, Effects, Result<SinkReceipt, Error>)
  {
    Unless(env, Verify(env, k, r, records, s), k, r, claims, effects)
  }

  class FinalitySink {
    const settings: Settings
    const evidence_store: EvidenceStore
    const protected_state: State.ProtectedState
    const consumption_store: InMemoryConsumptionStore
    const effector: GuardedEffector
    const marker: Marker

    constructor (settings: Settings, evidence_store: EvidenceStore, protected_state: State.ProtectedState,
                 consumption_store: InMemoryConsumptionStore, effector: GuardedEffector)
      ensures this.settings == settings && this.evidence_store == evidence_store
      ensures this.protected_state == protected_state && this.consumption_store == consumption_store
      ensures this.effector == effector && marker == effector.marker
    {
      this.settings, this.evidence_store, this.protected_state := settings, evidence_store, protected_state;
      this.consumption_store, this.effector, marker := consumption_store, effector, effector.marker;
    }

    method VerifyRequest(env: Env, r: Request) returns (verdict: Result<(), Error>)
      ensures verdict == Verify(env, settings, r, evidence_store.records, protected_state.Contents())
    {
      hide CheckLocal, CheckFound, State.VerifyTransition;
      verdict := CheckLocal(env, settings, r);
      if verdict.Err? {
        return;
      }
      var found := evidence_store.Lookup(r.cap.evidence_id);
      verdict := CheckFound(env, settings, r, found);
      if verdict.Err? {
        return;
      }
      var ok := protected_state.Verify(r.cap.transition_id, r.candidate);
      verdict := Need(ok, ProtectedStateTransitionInvalid);
    }

    method EffectuateRequest(env: Env, r: Request) returns (receipt: Result<SinkReceipt, Error>)
      requires marker == effector.marker
      modifies consumption_store, effector
      ensures (consumption_store.claims, effector.Contents(), receipt)
              == Effectuate(env, settings, r, evidence_store.records, protected_state.Contents(),
                            old(consumption_store.claims), old(effector.Contents()))
    {
      hide Verify, MakeReceipt, CandidateDigest, Digest;
      var verdict := VerifyRequest(env, r);
      if verdict.Err? {
        return Err(verdict.error);
      }
      var claimed := consumption_store.Claim(r.cap.capability_id, ClaimRow(settings, r));
      if claimed.Err? {
        return Err(claimed.error);
      }
      var done := effector.Commit(env, r.candidate, marker);
      if done.Err? {
        return Err(EffectDenied);
      }
      var made := MakeReceipt(env, settings, r, done.value);
      receipt := if made.None? then Err(CanonicalizationError) else Ok(made.value);
    }
  }
}
