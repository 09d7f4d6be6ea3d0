/** What the operations do, each stated outright: hashing and signatures, the protected state, the stores,
    and the issue of a capability. */
module Outcomes {
  import opened Wrappers
  import opened Unicode
  import opened Values
  import opened Canonical
  import opened Models
  import opened Stores
  import opened Binding
  import opened Agreement
  import opened Completeness
  import Authority
  import Policy
  import Sink
  import State

  // ---- Hashes and signatures ----

  /** Digests are of the canonical bytes of the local profile, which takes every integer and `bytes`. */
  lemma DigestExact(env: Env, v: Value)
    ensures Digest(env, v).Some? <==> CanonicalBytes(env.nfc, v, false).Some?
    ensures Digest(env, v).Some? ==> Digest(env, v).value == env.hash(CanonicalBytes(env.nfc, v, false).value)
    ensures v.Int? ==> Digest(env, v) == Some(env.hash(Utf8(Decimal(v.i))))
    ensures v.Bin? ==> Digest(env, v).Some?
  {
  }

  /** A signature verifies exactly if it is the MAC of the canonical bytes under the key, and is presented
      under the name of that key. */
  lemma VerifyExact(env: Env, auth: Authenticator, v: Value, signature: Text, keyId: Text)
    requires EnvLaws(env)
    ensures auth.Verify(env, v, signature, keyId) == Ok(true) <==>
              && keyId == auth.key_id && CanonicalBytes(env.nfc, v, false).Some?
              && signature == env.mac(auth.key, CanonicalBytes(env.nfc, v, false).value)
    ensures keyId != auth.key_id ==> auth.Verify(env, v, signature, keyId) == Ok(false)
  {
    hide CanonicalBytes;
    assert forall key: Bytes, b: Bytes :: IsAscii(env.mac(key, b)) by {
      assert forall key: Bytes, b: Bytes :: IsPlain(env.mac(key, b));
    }
  }

  /** A presentation proof verifies exactly if the sink knows the presenter and the presenter's key made it. */
  lemma VerifyProofExact(env: Env, presenters: map<Text, Authenticator>, p: PresentationProof)
    requires EnvLaws(env)
    ensures Sink.VerifyProof(env, presenters, p) == Ok(true) <==>
              && p.presenter_key_id in presenters && presenters[p.presenter_key_id].key_id == p.presenter_key_id
              && CanonicalBytes(env.nfc, ProofUnsigned(p), false).Some?
              && p.signature
                 == env.mac(presenters[p.presenter_key_id].key, CanonicalBytes(env.nfc, ProofUnsigned(p), false).value)
  {
    hide CanonicalBytes, EnvLaws, ProofUnsigned, Authenticator.Verify;
    if p.presenter_key_id in presenters {
      VerifyExact(env, presenters[p.presenter_key_id], ProofUnsigned(p), p.signature, p.presenter_key_id);
    }
  }

  // ---- The protected state ----

  /** The transition, and the state after it. */
  ghost predicate IsTransition(env: Env, s: State.Protected, c: CandidateAct, cost: int, x: State.SourceState,
                               s': State.Protected, t: StateTransition) {
    && t == StateTransition(t.transition_id, c.nonce, c.source, x.version, x.version + 1, x.quota, x.quota - 1,
                            x.budget, x.budget - cost, c.policy_epoch)
    && CandidateDigest(env, c).Some?
    && Digest(env, TransitionCore(t, CandidateDigest(env, c).value)) == Some(t.transition_id)
    && s'.default_quota == s.default_quota && s'.default_budget == s.default_budget
    && s'.sources == s.sources[c.source := State.SourceState(x.version + 1, x.quota - 1, x.budget - cost)]
    && s'.nonces == s.nonces[c.nonce := t.transition_id]
    && s'.transitions == s.transitions[t.transition_id := t]
  }

  /** Which transition an authorization makes, or which error it raises, and what it leaves behind: a cost
      that is not positive and a used nonce change nothing, any later refusal only creates the source. */
  lemma TransitionOutcome(env: Env, s: State.Protected, c: CandidateAct, cost: int, x: State.SourceState)
    requires x == if c.source in s.sources then s.sources[c.source]
                  else State.SourceState(0, s.default_quota, s.default_budget)
    ensures var (s', result) := State.Authorize(env, s, c, cost);
      if cost <= 0 then s' == s && result == Err(ValueError)
      else if c.nonce in s.nonces then s' == s && result == Err(ReplayDetected)
      else if result.Ok? then x.quota >= 1 && x.budget >= cost && IsTransition(env, s, c, cost, x, s', result.value)
      else
        && s' == s.(sources := s.sources[c.source := x])
        && result.error
           == if x.quota < 1 then ValidationDenied([QuotaExhausted])
              else if x.budget < cost then ValidationDenied([BudgetExhausted])
              else CanonicalizationError
  {
    hide CandidateDigest, Digest, TransitionCore;
    var (s', result) := State.Authorize(env, s, c, cost);
    if result.Ok? {
      var t := result.value;
      var core := State.TransitionFrom(x, c, cost);
      SameCore(core, t, CandidateDigest(env, c).value);
      assert s'.sources == s.sources[c.source := State.SourceState(x.version + 1, x.quota - 1, x.budget - cost)];
    }
  }

  lemma SameCore(t: StateTransition, u: StateTransition, d: Text)
    requires u == t.(transition_id := u.transition_id)
    ensures TransitionCore(t, d) == TransitionCore(u, d)
  {
    assert TransitionValues(t, d) == TransitionValues(u, d);
  }

  /** The digests exist whenever the texts are Unicode and the payload has canonical bytes, so no other error
      is left: with a digest of the candidate, an affordable authorization of a new nonce succeeds. */
  lemma TransitionGranted(env: Env, s: State.Protected, c: CandidateAct, cost: int, x: State.SourceState)
    requires EnvLaws(env) && CandidateDigest(env, c).Some? && cost > 0 && c.nonce !in s.nonces
    requires x == if c.source in s.sources then s.sources[c.source]
                  else State.SourceState(0, s.default_quota, s.default_budget)
    requires x.quota >= 1 && x.budget >= cost
    ensures State.Authorize(env, s, c, cost).1.Ok?
  {
    hide CandidateDigest, State.Authorize;
    var a := Authority.Settings([], Policy.Rules(0, {}, {}, {}, {}, {}, {}, {}, None, 0), HMAC([], []), 0);
    TransitionExists(env, a, s, c, cost);
  }

  /** Configuring sets one source to version 0 and the amounts given, and touches nothing else. */
  lemma ConfigureOutcome(s: State.Protected, source: Text, quota: int, budget: int)
    ensures var s' := State.Configure(s, source, quota, budget);
      && s'.sources == s.sources[source := State.SourceState(0, quota, budget)]
      && s'.nonces == s.nonces && s'.transitions == s.transitions
      && s'.default_quota == s.default_quota && s'.default_budget == s.default_budget
  {
  }

  // ---- The stores ----

  /** Evidence is committed exactly if the store works, the authority's key signed it and its id is new. */
  lemma CommitOutcome(env: Env, auth: Authenticator, records: Records, fails: bool, e: ValidationEvidence)
    ensures var (records', result) := TryCommit(env, auth, records, fails, e);
      var verdict := auth.Verify(env, EvidenceUnsigned(e), e.signature, e.key_id);
      && (result.Ok? <==> !fails && verdict == Ok(true) && e.evidence_id !in records)
      && records' == (if result.Ok? then records[e.evidence_id := e] else records)
      && (result.Err? ==>
            result.error
            == if fails then EvidenceCommitFailure
               else if verdict.Err? then verdict.error
               else if verdict == Ok(false) then EvidenceSignatureInvalid
               else DuplicateEvidence)
  {
    hide EvidenceUnsigned, Canon;
  }

  /** A claim succeeds exactly if there was none; then there is this one. */
  lemma ClaimOutcome(claims: Claims, id: Text, row: Claim)
    ensures var (claims', result) := TryClaim(claims, id, row);
      && (result.Ok? <==> id !in claims) && (result.Err? ==> result.error == ReplayDetected)
      && claims' == (if id in claims then claims else claims[id := row])
  {
  }

  /** An effect is recorded at the end of the list, with the candidate's digest and payload, under the hash
      of its place; an injected failure is spent by failing. */
  lemma EffectOutcome(env: Env, s: Effects, c: CandidateAct)
    ensures var (s', result) := TryEffect(env, s, c);
      && s'.channel == s.channel && !s'.fail_next
      && (s.fail_next ==> result == Err(EffectDenied) && s'.records == s.records)
      && (result.Err? ==> s'.records == s.records)
      && (result.Ok? ==>
            var rec := result.value;
            && s'.records == s.records + [rec] && rec.channel == s.channel && rec.payload == c.payload
            && Some(rec.candidate_digest) == CandidateDigest(env, c)
            && Some(rec.effect_reference) == Digest(env, ReferenceCore(s.channel, rec.candidate_digest, |s.records|)))
  {
    hide CandidateDigest, Digest, ReferenceCore;
  }

  // ---- The issue of a capability ----

  /** What is issued lives until the earlier end of the candidate's freshness and its own lifetime. */
  ghost predicate LivesUntil(a: Authority.Settings, c: CandidateAct, now: int, end: int) {
    && end <= c.issued_at_ns + c.freshness_ns && end <= now + a.capability_ttl_ns
    && (end == c.issued_at_ns + c.freshness_ns || end == now + a.capability_ttl_ns)
  }

  ghost predicate IsEvidence(env: Env, a: Authority.Settings, c: CandidateAct, now: int, t: StateTransition,
                             e: ValidationEvidence) {
    && e == ValidationEvidence(e.evidence_id, a.authority_id, e.descriptor_digest, e.candidate_digest, t.transition_id,
                               c.policy_epoch, ALLOW, [], now, a.auth.key_id, e.signature)
    && CandidateDigest(env, c) == Some(e.candidate_digest)
    && DescriptorDigest(env, c, c.sink_id, c.boundary_id) == Some(e.descriptor_digest)
    && Digest(env, EvidenceCore(e)) == Some(e.evidence_id)
    && a.auth.Sign(env, EvidenceUnsigned(e)) == Some(e.signature)
  }

  ghost predicate IsCapability(env: Env, a: Authority.Settings, c: CandidateAct, now: int, e: ValidationEvidence,
                               cap: Capability) {
    && cap == Capability(cap.capability_id, a.authority_id, e.candidate_digest, e.descriptor_digest, c.sink_id,
                         c.boundary_id, c.nonce, c.scope, c.policy_epoch, e.evidence_id, e.transition_id, now,
                         cap.expires_at_ns, a.auth.key_id, cap.signature)
    && LivesUntil(a, c, now, cap.expires_at_ns)
    && Digest(env, CapabilityCore(cap)) == Some(cap.capability_id)
    && a.auth.Sign(env, CapabilityUnsigned(cap)) == Some(cap.signature)
  }

  lemma EvidenceOutcome(env: Env, a: Authority.Settings, c: CandidateAct, now: int, t: StateTransition,
                        e: ValidationEvidence)
    requires Authority.MakeEvidence(env, a, c, now, t) == Some(e)
    ensures IsEvidence(env, a, c, now, t, e)
  {
    hide CandidateDigest, DescriptorDigest, Canon, EvidenceValues, FieldsOf;
    EvidenceFieldsOnly(e.(evidence_id := [], signature := []), e);
    EvidenceFieldsOnly(e.(signature := []), e);
  }

  lemma CapabilityOutcome(env: Env, a: Authority.Settings, c: CandidateAct, now: int, e: ValidationEvidence,
                          cap: Capability)
    requires Authority.MakeCapability(env, a, c, now, e) == Some(cap)
    ensures IsCapability(env, a, c, now, e, cap)
  {
    hide Canon, CapabilityValues, FieldsOf;
    CapabilityFieldsOnly(cap.(capability_id := [], signature := []), cap);
    CapabilityFieldsOnly(cap.(signature := []), cap);
  }

  /** What a successful `authorize` has done: the candidate was admitted, a transition recorded, new evidence
      for it committed, and the capability is for this candidate, on that evidence, until the earlier end of
      freshness and lifetime. */
  lemma IssueOutcome(env: Env, a: Authority.Settings, s: State.Protected, records: Records, fails: bool,
                     c: CandidateAct, cost: int, now: int, s': State.Protected, records': Records, cap: Capability)
    returns (t: StateTransition, e: ValidationEvidence)
    requires Authority.Authorize(env, a, s, records, fails, c, cost, now) == (s', records', Ok(cap))
    ensures Policy.Admits(a.policy, c, now) && State.Authorize(env, s, c, cost) == (s', Ok(t))
    ensures IsEvidence(env, a, c, now, t, e) && IsCapability(env, a, c, now, e, cap)
    ensures !fails && e.evidence_id !in records && records' == records[e.evidence_id := e]
  {
    hide State.Authorize, Authority.MakeEvidence, Authority.MakeCapability, TryCommit, Policy.Reasons, Policy.Admits;
    hide IsEvidence, IsCapability, Digest, Authenticator.Verify;
    Policy.NoReasonIffAdmitted(a.policy, c, now);
    t := State.Authorize(env, s, c, cost).1.value;
    e := Authority.MakeEvidence(env, a, c, now, t).value;
    EvidenceOutcome(env, a, c, now, t, e);
    CapabilityOutcome(env, a, c, now, e, cap);
    CommitOutcome(env, a.auth, records, fails, e);
    assert TryCommit(env, a.auth, records, fails, e).1.Ok?;
    assert records' == TryCommit(env, a.auth, records, fails, e).0;
  }

  /** What a failed `authorize` leaves behind. Before the transition nothing changes and the error lists
      exactly the broken rules; after it the nonce, the quota and the budget stay spent; the records change
      only if the evidence was committed. */
  lemma RefusalOutcome(env: Env, a: Authority.Settings, s: State.Protected, records: Records, fails: bool,
                       c: CandidateAct, cost: int, now: int, s': State.Protected, records': Records, error: Error)
    requires Authority.Authorize(env, a, s, records, fails, c, cost, now) == (s', records', Err(error))
    ensures var (after, transition) := State.Authorize(env, s, c, cost);
      if CanonicalBytes(env.nfc, c.payload, false).None? then
        s' == s && records' == records && error == CanonicalizationError
      else if !Policy.Admits(a.policy, c, now) then
        && s' == s && records' == records && error.ValidationDenied?
        && forall reason :: reason in error.reasons <==> Policy.Breaks(a.policy, c, now, reason)
      else if transition.Err? then s' == after && records' == records && error == transition.error
      else
        && s' == after
        && match Authority.MakeEvidence(env, a, c, now, transition.value)
           case None => records' == records && error == CanonicalizationError
           case Some(e) =>
             if TryCommit(env, a.auth, records, fails, e).1.Ok? then
               records' == records[e.evidence_id := e] && error == CanonicalizationError
             else records' == records && error == TryCommit(env, a.auth, records, fails, e).1.error
  {
    hide State.Authorize, Authority.MakeEvidence, Authority.MakeCapability, Policy.Reasons, Policy.Admits;
    hide Policy.Breaks, CanonicalBytes, Authenticator.Verify;
    Policy.NoReasonIffAdmitted(a.policy, c, now);
    Policy.ReasonsExact(a.policy, c, now);
    var transition := State.Authorize(env, s, c, cost).1;
    if transition.Ok? {
      var made := Authority.MakeEvidence(env, a, c, now, transition.value);
      if made.Some? {
        CommitOutcome(env, a.auth, records, fails, made.value);
      }
    }
  }

  // ---- Effectuation ----

  /** The receipt of `rec`, the effect of the request. */
  ghost predicate IsReceipt(env: Env, k: Sink.Settings, r: Sink.Request, rec: EffectRecord, receipt: SinkReceipt) {
    && receipt == SinkReceipt(receipt.receipt_id, r.cap.capability_id, receipt.candidate_digest,
                              receipt.descriptor_digest, k.context.sink_id, k.context.boundary_id,
                              r.cap.transition_id, r.cap.scope, r.now, rec.effect_reference, k.receipt_auth.key_id,
                              receipt.signature)
    && CandidateDigest(env, r.candidate) == Some(receipt.candidate_digest)
    && DescriptorDigest(env, r.candidate, k.context.sink_id, k.context.boundary_id) == Some(receipt.descriptor_digest)
    && Digest(env, ReceiptCore(receipt)) == Some(receipt.receipt_id)
    && k.receipt_auth.Sign(env, ReceiptUnsigned(receipt)) == Some(receipt.signature)
  }

  lemma ReceiptOutcome(env: Env, k: Sink.Settings, r: Sink.Request, rec: EffectRecord, receipt: SinkReceipt)
    requires Sink.MakeReceipt(env, k, r, rec) == Some(receipt)
    ensures IsReceipt(env, k, r, rec, receipt)
  {
    hide CandidateDigest, DescriptorDigest, Canon, FieldsOf;
    assert ReceiptValues(receipt) == ReceiptValues(receipt.(receipt_id := [], signature := []));
    assert ReceiptValues(receipt) == ReceiptValues(receipt.(signature := []));
  }

  /** What `effectuate` does: nothing after an adverse verdict or a replay; otherwise the claim is made and
      stays, the effector is asked once, and a receipt tells of the record that it made. */
  lemma EffectuateOutcome(env: Env, k: Sink.Settings, r: Sink.Request, records: Records, s: State.Protected,
                          claims: Claims, effects: Effects, claims': Claims, effects': Effects,
                          result: Result<SinkReceipt, Error>)
    requires Sink.Effectuate(env, k, r, records, s, claims, effects) == (claims', effects', result)
    ensures var verdict := Sink.Verify(env, k, r, records, s);
      if verdict.Err? then claims' == claims && effects' == effects && result == Err(verdict.error)
      else if r.cap.capability_id in claims then
        claims' == claims && effects' == effects && result == Err(ReplayDetected)
      else
        var (after, done) := TryEffect(env, effects, r.candidate);
        && claims' == claims[r.cap.capability_id := Claim(k.context.sink_id, k.context.boundary_id, r.cap.nonce, r.now)]
        && effects' == after
        && (done.Err? ==> result == Err(EffectDenied))
        && (result.Ok? ==> done.Ok? && IsReceipt(env, k, r, done.value, result.value))
        && (result.Err? && done.Ok? ==> result == Err(CanonicalizationError))
  {
    hide Sink.Verify, Sink.MakeReceipt, TryEffect, IsReceipt;
    if result.Ok? {
      var done := TryEffect(env, effects, r.candidate).1;
      ReceiptOutcome(env, k, r, done.value, result.value);
    }
  }
}
