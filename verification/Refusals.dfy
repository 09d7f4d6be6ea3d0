/** Why a sink refuses: every reason it gives is true, and it accepts exactly when there is none. */
module Refusals {
  import opened Wrappers
  import opened Unicode
  import opened Values
  import opened Models
  import opened Stores
  import opened Sink
  import opened Verdicts
  import State

  predicate Supports(ctx: SinkContext, scope: seq<Text>) { forall t :: t in scope ==> t in ctx.supported_scopes }

  /** What the comparisons before the signature object to. */
  predicate BindingGrounds(k: Settings, r: Request, reason: Reason) {
    var (c, cap, ctx) := (r.candidate, r.cap, k.context);
    match reason
    case CandidateNotNonEffective => c.status == EFFECTIVE
    case EffectClassMismatch => c.effect_class != ctx.effect_class
    case SinkBindingMismatch => !(c.sink_id == ctx.sink_id == cap.sink_id)
    case BoundaryBindingMismatch => !(c.boundary_id == ctx.boundary_id == cap.boundary_id)
    case PolicyEpochMismatch => !(c.policy_epoch == ctx.policy_epoch == cap.policy_epoch)
    case ScopeBindingMismatch => c.scope != cap.scope
    case ScopeNotSupportedBySink => !Supports(ctx, cap.scope)
    case NonceBindingMismatch => c.nonce != cap.nonce
    case CapabilityFromFuture => r.now + k.max_clock_skew_ns < cap.issued_at_ns
    case CapabilityExpired => cap.expires_at_ns < r.now
    case CapabilityOutlivesCandidate => c.issued_at_ns + c.freshness_ns < cap.expires_at_ns
    case _ => false
  }

  /** What the strict part objects to, given the digest of the candidate. */
  predicate ProofGrounds(env: Env, k: Settings, r: Request, digest: Option<Text>, reason: Reason) {
    if !k.require_presentation_proof then false
    else if r.proof.None? || k.presenters.None? then reason == PresentationProofRequired
    else
      var p := r.proof.value;
      || (reason == PresenterBindingMismatch
          && Get(r.candidate.authority_context, Lit("presenter_key_id")) != Some(Str(p.presenter_key_id)))
      || (reason == PresentationCapabilityMismatch && p.capability_id != r.cap.capability_id)
      || (reason == PresentationCandidateMismatch && digest != Some(p.candidate_digest))
      || (reason == PresentationSinkBoundaryMismatch
          && (p.sink_id != k.context.sink_id || p.boundary_id != k.context.boundary_id))
      || (reason == PresentationNonceMismatch && p.nonce != r.candidate.nonce)
      || (reason == PresentationStale
          && (r.now - p.presented_at_ns > k.presentation_freshness_ns
              || p.presented_at_ns - r.now > k.presentation_freshness_ns))
      || (reason == PresentationSignatureInvalid && VerifyProof(env, k.presenters.value, p) != Ok(true))
  }

  predicate DigestGrounds(env: Env, k: Settings, r: Request, reason: Reason) {
    match reason
    case CapabilitySignatureInvalid =>
      k.auth.Verify(env, CapabilityUnsigned(r.cap), r.cap.signature, r.cap.key_id) != Ok(true)
    case CandidateDigestMismatch => CandidateDigest(env, r.candidate) != Some(r.cap.candidate_digest)
    case DescriptorDigestMismatch =>
      DescriptorDigest(env, r.candidate, k.context.sink_id, k.context.boundary_id) != Some(r.cap.descriptor_digest)
    case _ => false
  }

  predicate EvidenceGrounds(env: Env, k: Settings, r: Request, records: Records, reason: Reason) {
    if r.cap.evidence_id !in records then reason == ValidationEvidenceMissing
    else
      var e := records[r.cap.evidence_id];
      || (reason == ValidationEvidenceSignatureInvalid
          && k.auth.Verify(env, EvidenceUnsigned(e), e.signature, e.key_id) != Ok(true))
      || (reason == ValidationEvidenceNotAllow && e.decision == DENY)
      || (reason == AuthorityBindingMismatch && e.authority_id != r.cap.authority_id)
      || (reason == EvidenceCandidateMismatch && e.candidate_digest != r.cap.candidate_digest)
      || (reason == EvidenceDescriptorMismatch && e.descriptor_digest != r.cap.descriptor_digest)
      || (reason == EvidenceTransitionMismatch && e.transition_id != r.cap.transition_id)
      || (reason == EvidenceEpochMismatch && e.policy_epoch != r.cap.policy_epoch)
  }

  /** What the protected state objects to: the transition is not recorded, is not of this candidate, does
      not count up and down by one and spend, or is not the one that the nonce led to. */
  predicate TransitionGrounds(s: State.Protected, id: Text, c: CandidateAct) {
    if id !in s.transitions then true
    else
      var t := s.transitions[id];
      || t.nonce != c.nonce || t.source != c.source || t.policy_epoch != c.policy_epoch
      || t.after_version - t.before_version != 1 || t.quota_before - t.quota_after != 1
      || t.budget_before <= t.budget_after
      || c.nonce !in s.nonces || id != s.nonces[c.nonce]
  }

  /** The reason holds of the request, wherever in `verify` it is looked at. */
  predicate Grounds(env: Env, k: Settings, r: Request, records: Records, s: State.Protected, reason: Reason) {
    || BindingGrounds(k, r, reason)
    || ProofGrounds(env, k, r, CandidateDigest(env, r.candidate), reason)
    || DigestGrounds(env, k, r, reason)
    || EvidenceGrounds(env, k, r, records, reason)
    || (reason == ProtectedStateTransitionInvalid && TransitionGrounds(s, r.cap.transition_id, r.candidate))
  }

  lemma SupportsExact(ctx: SinkContext, scope: seq<Text>)
    ensures Supports(ctx, scope) <==> !exists i :: 0 <= i < |scope| && scope[i] !in ctx.supported_scopes
  {
    if Supports(ctx, scope) {
      forall i | 0 <= i < |scope| ensures scope[i] in ctx.supported_scopes {
        assert scope[i] in scope;
      }
    }
  }

  lemma BindingsExact(k: Settings, r: Request)
    ensures CheckBindings(k, r) == Ok(()) <==> forall reason :: !BindingGrounds(k, r, reason)
    ensures CheckBindings(k, r).Err? ==>
      CheckBindings(k, r).error.VerificationFailed? && BindingGrounds(k, r, CheckBindings(k, r).error.reason)
  {
    hide Supports;
    SupportsExact(k.context, r.cap.scope);
    var verdict := CheckBindings(k, r);
    if verdict.Err? {
      var reason := verdict.error.reason;
      assert BindingGrounds(k, r, reason);
    }
  }

  lemma ProofExact(env: Env, k: Settings, r: Request, digest: Option<Text>)
    ensures CheckProof(env, k, r, digest) == Ok(()) <==> forall reason :: !ProofGrounds(env, k, r, digest, reason)
    ensures var verdict := CheckProof(env, k, r, digest);
      verdict.Err? && verdict.error.VerificationFailed? ==> ProofGrounds(env, k, r, digest, verdict.error.reason)
  {
    hide ProofUnsigned, Canon, Get;
    OnlyUnit(CheckProof(env, k, r, digest));
    if CheckProof(env, k, r, digest).Ok? {
      forall reason ensures !ProofGrounds(env, k, r, digest, reason) {
      }
    } else {
      var reason := ProofObjection(env, k, r, digest);
      assert ProofGrounds(env, k, r, digest, reason);
    }
  }

  /** Verifying a signature raises errors of its own. */
  lemma ProofErrors(env: Env, presenters: map<Text, Authenticator>, p: PresentationProof)
    ensures VerifyProof(env, presenters, p).Err? ==> !VerifyProof(env, presenters, p).error.VerificationFailed?
  {
    hide ProofUnsigned, Authenticator.Verify;
    if p.presenter_key_id in presenters {
      SignatureErrors(env, presenters[p.presenter_key_id], ProofUnsigned(p), p.signature, p.presenter_key_id);
    }
  }

  /** A reason that holds when the strict part does not pass. */
  lemma ProofObjection(env: Env, k: Settings, r: Request, digest: Option<Text>) returns (reason: Reason)
    requires CheckProof(env, k, r, digest).Err?
    ensures ProofGrounds(env, k, r, digest, reason)
  {
    hide Get, Lit, VerifyProof, CandidateDigest;
    if r.proof.Some? && k.presenters.Some? {
      ProofErrors(env, k.presenters.value, r.proof.value);
    }
    var error := CheckProof(env, k, r, digest).error;
    if error.VerificationFailed? {
      reason := error.reason;
    } else if digest.None? {
      reason := PresentationCandidateMismatch;
    } else {
      reason := PresentationSignatureInvalid;
    }
  }

  lemma SignatureErrors(env: Env, auth: Authenticator, v: Value, signature: Text, keyId: Text)
    ensures auth.Verify(env, v, signature, keyId).Err? ==>
              !auth.Verify(env, v, signature, keyId).error.VerificationFailed?
  {
    hide Canon;
  }

  lemma EvidenceExact(env: Env, k: Settings, r: Request, records: Records)
    ensures CheckEvidence(env, k, r, records) == Ok(()) <==> forall reason ::
      !EvidenceGrounds(env, k, r, records, reason)
    ensures var verdict := CheckEvidence(env, k, r, records);
      verdict.Err? && verdict.error.VerificationFailed? ==> EvidenceGrounds(env, k, r, records, verdict.error.reason)
  {
    hide EvidenceUnsigned, Authenticator.Verify;
    OnlyUnit(CheckEvidence(env, k, r, records));
    if r.cap.evidence_id in records {
      var e := records[r.cap.evidence_id];
      SignatureErrors(env, k.auth, EvidenceUnsigned(e), e.signature, e.key_id);
    }
    if CheckEvidence(env, k, r, records).Err? {
      var error := CheckEvidence(env, k, r, records).error;
      var reason := if error.VerificationFailed? then error.reason else ValidationEvidenceSignatureInvalid;
      assert EvidenceGrounds(env, k, r, records, reason);
    } else {
      forall reason ensures !EvidenceGrounds(env, k, r, records, reason) {
      }
    }
  }

  /** The signature and the digests, between and after the other checks. */
  lemma DigestsExact(env: Env, k: Settings, r: Request)
    ensures var signed := Accepted(k.auth.Verify(env, CapabilityUnsigned(r.cap), r.cap.signature, r.cap.key_id),
                                   CapabilitySignatureInvalid);
      && (signed == Ok(()) && CheckDigests(env, k, r) == Ok(()) <==> forall reason :: !DigestGrounds(env, k, r, reason))
      && (signed.Err? && signed.error.VerificationFailed? ==> DigestGrounds(env, k, r, signed.error.reason))
      && (CheckDigests(env, k, r).Err? && CheckDigests(env, k, r).error.VerificationFailed?
          ==> DigestGrounds(env, k, r, CheckDigests(env, k, r).error.reason))
  {
    hide CapabilityUnsigned, CandidateDigest, DescriptorDigest, Canon;
    var signed := Accepted(k.auth.Verify(env, CapabilityUnsigned(r.cap), r.cap.signature, r.cap.key_id),
                           CapabilitySignatureInvalid);
    OnlyUnit(signed);
    OnlyUnit(CheckDigests(env, k, r));
    if signed.Err? {
      assert DigestGrounds(env, k, r, CapabilitySignatureInvalid);
    } else if CheckDigests(env, k, r).Err? {
      assert DigestGrounds(env, k, r, CandidateDigestMismatch) || DigestGrounds(env, k, r, DescriptorDigestMismatch);
    } else {
      forall reason ensures !DigestGrounds(env, k, r, reason) {
      }
    }
  }

  /** The checks of `CheckLocal`, one by one. */
  lemma LocalParts(env: Env, k: Settings, r: Request)
    ensures var signed := Accepted(k.auth.Verify(env, CapabilityUnsigned(r.cap), r.cap.signature, r.cap.key_id),
                                   CapabilitySignatureInvalid);
      var proven := CheckProof(env, k, r, CandidateDigest(env, r.candidate));
      CheckLocal(env, k, r)
      == if CheckBindings(k, r).Err? then CheckBindings(k, r) else if signed.Err? then signed
         else if proven.Err? then proven else CheckDigests(env, k, r)
  {
    hide CheckBindings, CheckProof, CheckDigests, CapabilityUnsigned, CandidateDigest, Canon;
    OnlyUnit(CheckBindings(k, r));
  }

  lemma TransitionExact(r: Request, s: State.Protected)
    ensures CheckTransition(r, s) == Ok(()) <==> !TransitionGrounds(s, r.cap.transition_id, r.candidate)
    ensures CheckTransition(r, s).Err? ==>
      CheckTransition(r, s).error == VerificationFailed(ProtectedStateTransitionInvalid)
  {
  }

  /** Verification succeeds exactly when no reason holds of the request, and a reason that it fails with
      holds of the request. */
  lemma VerifyExact(env: Env, k: Settings, r: Request, records: Records, s: State.Protected)
    ensures Verify(env, k, r, records, s) == Ok(()) <==> forall reason :: !Grounds(env, k, r, records, s, reason)
    ensures var verdict := Verify(env, k, r, records, s);
      verdict.Err? && verdict.error.VerificationFailed? ==> Grounds(env, k, r, records, s, verdict.error.reason)
  {
    hide CheckBindings, CheckProof, CheckDigests, CheckEvidence, BindingGrounds, ProofGrounds, DigestGrounds;
    hide EvidenceGrounds, TransitionGrounds, CheckTransition;
    hide CapabilityUnsigned, CandidateDigest, Canon, CheckLocal;
    TransitionExact(r, s);
    BindingsExact(k, r);
    ProofExact(env, k, r, CandidateDigest(env, r.candidate));
    DigestsExact(env, k, r);
    EvidenceExact(env, k, r, records);
    LocalParts(env, k, r);
    OnlyUnit(CheckBindings(k, r));
    OnlyUnit(Accepted(k.auth.Verify(env, CapabilityUnsigned(r.cap), r.cap.signature, r.cap.key_id),
                      CapabilitySignatureInvalid));
    OnlyUnit(CheckProof(env, k, r, CandidateDigest(env, r.candidate)));
    VerdictParts(env, k, r, records, s);
    if forall reason :: !Grounds(env, k, r, records, s, reason) {
      forall reason ensures !BindingGrounds(k, r, reason) && !DigestGrounds(env, k, r, reason)
        && !ProofGrounds(env, k, r, CandidateDigest(env, r.candidate), reason)
        && !EvidenceGrounds(env, k, r, records, reason)
      {
        assert !Grounds(env, k, r, records, s, reason);
      }
      assert !Grounds(env, k, r, records, s, ProtectedStateTransitionInvalid);
    }
    if Verify(env, k, r, records, s) == Ok(()) {
      forall reason ensures !Grounds(env, k, r, records, s, reason) {
        assert !BindingGrounds(k, r, reason) && !DigestGrounds(env, k, r, reason);
      }
    }
  }

  // ---- Which reason is given ----

  /** The place at which `verify` looks at a reason. */
  function Rank(reason: Reason): nat {
    match reason
    case CandidateNotNonEffective => 0
    case EffectClassMismatch => 1
    case SinkBindingMismatch => 2
    case BoundaryBindingMismatch => 3
    case PolicyEpochMismatch => 4
    case ScopeBindingMismatch => 5
    case ScopeNotSupportedBySink => 6
    case NonceBindingMismatch => 7
    case CapabilityFromFuture => 8
    case CapabilityExpired => 9
    case CapabilityOutlivesCandidate => 10
    case CapabilitySignatureInvalid => 11
    case PresentationProofRequired => 12
    case PresenterBindingMismatch => 13
    case PresentationCapabilityMismatch => 14
    case PresentationCandidateMismatch => 15
    case PresentationSinkBoundaryMismatch => 16
    case PresentationNonceMismatch => 17
    case PresentationStale => 18
    case PresentationSignatureInvalid => 19
    case CandidateDigestMismatch => 20
    case DescriptorDigestMismatch => 21
    case ValidationEvidenceMissing => 22
    case ValidationEvidenceSignatureInvalid => 23
    case ValidationEvidenceNotAllow => 24
    case AuthorityBindingMismatch => 25
    case EvidenceCandidateMismatch => 26
    case EvidenceDescriptorMismatch => 27
    case EvidenceTransitionMismatch => 28
    case EvidenceEpochMismatch => 29
    case ProtectedStateTransitionInvalid => 30
    case _ => 31
  }

  lemma BindingRank(reason: Reason)
    ensures reason == CandidateNotNonEffective ==> Rank(reason) == 0
    ensures reason == EffectClassMismatch ==> Rank(reason) == 1
    ensures reason == SinkBindingMismatch ==> Rank(reason) == 2
    ensures reason == BoundaryBindingMismatch ==> Rank(reason) == 3
    ensures reason == PolicyEpochMismatch ==> Rank(reason) == 4
    ensures reason == ScopeBindingMismatch ==> Rank(reason) == 5
    ensures reason == ScopeNotSupportedBySink ==> Rank(reason) == 6
    ensures reason == NonceBindingMismatch ==> Rank(reason) == 7
    ensures reason == CapabilityFromFuture ==> Rank(reason) == 8
    ensures reason == CapabilityExpired ==> Rank(reason) == 9
    ensures reason == CapabilityOutlivesCandidate ==> Rank(reason) == 10
  {
  }

  lemma BindingsFirst(k: Settings, r: Request, other: Reason)
    requires BindingGrounds(k, r, other)
    ensures Rank(other) < 11 && CheckBindings(k, r).Err? && CheckBindings(k, r).error.VerificationFailed?
    ensures Rank(CheckBindings(k, r).error.reason) <= Rank(other)
  {
    hide Rank, Supports;
    BindingRank(other);
    SupportsExact(k.context, r.cap.scope);
    BindingRank(CheckBindings(k, r).error.reason);
  }

  lemma ProofRank(reason: Reason)
    ensures reason == PresentationProofRequired ==> Rank(reason) == 12
    ensures reason == PresenterBindingMismatch ==> Rank(reason) == 13
    ensures reason == PresentationCapabilityMismatch ==> Rank(reason) == 14
    ensures reason == PresentationCandidateMismatch ==> Rank(reason) == 15
    ensures reason == PresentationSinkBoundaryMismatch ==> Rank(reason) == 16
    ensures reason == PresentationNonceMismatch ==> Rank(reason) == 17
    ensures reason == PresentationStale ==> Rank(reason) == 18
    ensures reason == PresentationSignatureInvalid ==> Rank(reason) == 19
  {
  }

  lemma ProofFirst(env: Env, k: Settings, r: Request, digest: Option<Text>, other: Reason)
    requires ProofGrounds(env, k, r, digest, other)
    ensures 11 < Rank(other) < 20 && CheckProof(env, k, r, digest).Err?
    ensures var verdict := CheckProof(env, k, r, digest);
      verdict.Err? && verdict.error.VerificationFailed? ==> Rank(verdict.error.reason) <= Rank(other)
  {
    hide Get, Lit, VerifyProof, Rank;
    ProofRank(other);
    var verdict := CheckProof(env, k, r, digest);
    if verdict.Err? && verdict.error.VerificationFailed? {
      ProofRank(verdict.error.reason);
    }
    if r.proof.Some? && k.presenters.Some? {
      ProofErrors(env, k.presenters.value, r.proof.value);
    }
  }

  lemma DigestsFirst(env: Env, k: Settings, r: Request, other: Reason)
    requires DigestGrounds(env, k, r, other)
    ensures Rank(other) == 11 || Rank(other) == 20 || Rank(other) == 21
    ensures Rank(other) == 11 ==> SignatureCheck(env, k, r).Err?
    ensures var verdict := CheckDigests(env, k, r);
      Rank(other) > 11 ==>
        verdict.Err? && (verdict.error.VerificationFailed? ==> Rank(verdict.error.reason) <= Rank(other))
  {
    hide CapabilityUnsigned, CandidateDigest, DescriptorDigest, Authenticator.Verify;
  }

  /** The signature check is between the bindings and the proof. */
  function SignatureCheck(env: Env, k: Settings, r: Request): Result<(), Error> {
    Accepted(k.auth.Verify(env, CapabilityUnsigned(r.cap), r.cap.signature, r.cap.key_id), CapabilitySignatureInvalid)
  }

  lemma EvidenceRank(reason: Reason)
    ensures reason == ValidationEvidenceMissing ==> Rank(reason) == 22
    ensures reason == ValidationEvidenceSignatureInvalid ==> Rank(reason) == 23
    ensures reason == ValidationEvidenceNotAllow ==> Rank(reason) == 24
    ensures reason == AuthorityBindingMismatch ==> Rank(reason) == 25
    ensures reason == EvidenceCandidateMismatch ==> Rank(reason) == 26
    ensures reason == EvidenceDescriptorMismatch ==> Rank(reason) == 27
    ensures reason == EvidenceTransitionMismatch ==> Rank(reason) == 28
    ensures reason == EvidenceEpochMismatch ==> Rank(reason) == 29
  {
  }

  lemma EvidenceFirst(env: Env, k: Settings, r: Request, records: Records, other: Reason)
    requires EvidenceGrounds(env, k, r, records, other)
    ensures 21 < Rank(other) < 30 && CheckEvidence(env, k, r, records).Err?
    ensures var verdict := CheckEvidence(env, k, r, records);
      verdict.Err? && verdict.error.VerificationFailed? ==> Rank(verdict.error.reason) <= Rank(other)
  {
    hide EvidenceUnsigned, Authenticator.Verify, Rank;
    if r.cap.evidence_id in records {
      var e := records[r.cap.evidence_id];
      SignatureErrors(env, k.auth, EvidenceUnsigned(e), e.signature, e.key_id);
    }
    EvidenceRank(other);
    var verdict := CheckEvidence(env, k, r, records);
    if verdict.Err? && verdict.error.VerificationFailed? {
      EvidenceRank(verdict.error.reason);
    }
  }

  /** The checks of `verify`, one by one. */
  lemma VerdictSteps(env: Env, k: Settings, r: Request, records: Records, s: State.Protected)
    ensures var signed := SignatureCheck(env, k, r);
      var proven := CheckProof(env, k, r, CandidateDigest(env, r.candidate));
      Verify(env, k, r, records, s)
      == if CheckBindings(k, r).Err? then CheckBindings(k, r) else if signed.Err? then signed
         else if proven.Err? then proven else if CheckDigests(env, k, r).Err? then CheckDigests(env, k, r)
         else if CheckEvidence(env, k, r, records).Err? then CheckEvidence(env, k, r, records)
         else CheckTransition(r, s)
  {
    hide CheckBindings, CheckProof, CheckDigests, CheckEvidence, CheckTransition, CapabilityUnsigned, CandidateDigest;
    hide Canon, CheckLocal, Authenticator.Verify, Accepted;
    LocalParts(env, k, r);
  }

  predicate IsRanked(verdict: Result<(), Error>, low: nat, high: nat) {
    verdict.Err? && verdict.error.VerificationFailed? ==> low <= Rank(verdict.error.reason) < high
  }

  /** Each check gives reasons of its own ranks. */
  lemma StepRanks(env: Env, k: Settings, r: Request, records: Records, s: State.Protected)
    ensures IsRanked(CheckBindings(k, r), 0, 11) && IsRanked(SignatureCheck(env, k, r), 11, 12)
    ensures IsRanked(CheckProof(env, k, r, CandidateDigest(env, r.candidate)), 12, 20)
    ensures IsRanked(CheckDigests(env, k, r), 20, 22) && IsRanked(CheckEvidence(env, k, r, records), 22, 30)
    ensures IsRanked(CheckTransition(r, s), 30, 31)
  {
    hide CheckBindings, CheckProof, CheckEvidence, CandidateDigest, DescriptorDigest, Canon, CapabilityUnsigned;
    hide BindingGrounds, ProofGrounds, EvidenceGrounds, State.VerifyTransition, Rank;
    var digest := CandidateDigest(env, r.candidate);
    BindingsExact(k, r);
    if CheckBindings(k, r).Err? {
      BindingsFirst(k, r, CheckBindings(k, r).error.reason);
    }
    ProofExact(env, k, r, digest);
    var proven := CheckProof(env, k, r, digest);
    if proven.Err? && proven.error.VerificationFailed? {
      ProofFirst(env, k, r, digest, proven.error.reason);
    }
    EvidenceExact(env, k, r, records);
    var found := CheckEvidence(env, k, r, records);
    if found.Err? && found.error.VerificationFailed? {
      EvidenceFirst(env, k, r, records, found.error.reason);
    }
    OtherRanks();
  }

  lemma OtherRanks()
    ensures Rank(CapabilitySignatureInvalid) == 11 && Rank(CandidateDigestMismatch) == 20
    ensures Rank(DescriptorDigestMismatch) == 21 && Rank(ProtectedStateTransitionInvalid) == 30
  {
  }

  /** The reason given is the first that holds, in the order in which `verify` looks. */
  lemma VerifyFirst(env: Env, k: Settings, r: Request, records: Records, s: State.Protected, other: Reason)
    requires Grounds(env, k, r, records, s, other)
    ensures var verdict := Verify(env, k, r, records, s);
      verdict.Err? && (verdict.error.VerificationFailed? ==> Rank(verdict.error.reason) <= Rank(other))
  {
    hide CheckBindings, CheckProof, CheckDigests, CheckEvidence, CheckTransition, CheckLocal, Verify;
    hide BindingGrounds, ProofGrounds, DigestGrounds, EvidenceGrounds, TransitionGrounds, SignatureCheck, Rank;
    hide CandidateDigest, Canon;
    var digest := CandidateDigest(env, r.candidate);
    VerdictSteps(env, k, r, records, s);
    StepRanks(env, k, r, records, s);
    if BindingGrounds(k, r, other) {
      BindingsExact(k, r);
      BindingsFirst(k, r, other);
    } else if DigestGrounds(env, k, r, other) {
      DigestsFirst(env, k, r, other);
    } else if ProofGrounds(env, k, r, digest, other) {
      ProofExact(env, k, r, digest);
      ProofFirst(env, k, r, digest, other);
    } else if EvidenceGrounds(env, k, r, records, other) {
      EvidenceExact(env, k, r, records);
      EvidenceFirst(env, k, r, records, other);
    } else {
      TransitionExact(r, s);
      OnlyUnit(CheckTransition(r, s));
      OtherRanks();
    }
  }
}
