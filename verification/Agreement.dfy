/** What a capability that a sink accepts says about the authorization behind it. */
module Agreement {
  import opened Wrappers
  import opened Sorting
  import opened Unicode
  import opened Values
  import opened Canonical
  import opened Equivalence
  import opened Models
  import opened Binding
  import Authority
  import Sink
  import Policy
  import State

  /** One completed authorization. */
  datatype Grant = Grant(c: CandidateAct, cost: int, now: int, t: StateTransition, e: ValidationEvidence,
                         cap: Capability)

  /** The grant went through the policy, a transition of its own, evidence and issue. */
  ghost predicate IsGrant(env: Env, a: Authority.Settings, g: Grant) {
    && Authority.Admit(env, a, g.c, g.now) == Ok(())
    && g.t.nonce == g.c.nonce && g.t.source == g.c.source && g.t.policy_epoch == g.c.policy_epoch
    && IsPlain(g.t.transition_id)
    && Authority.MakeEvidence(env, a, g.c, g.now, g.t) == Some(g.e)
    && Authority.MakeCapability(env, a, g.c, g.now, g.e) == Some(g.cap)
    && MayHash(env, CandidateValue(g.c)) && MayHash(env, CapabilityCore(g.cap))
  }

  function Min(a: int, b: int): int { if a <= b then a else b }

  /** The same act in all fields, under the capability of the grant. */
  ghost predicate SameMandate(env: Env, r: Sink.Request, g: Grant) {
    && SameAct(env.nfc, r.candidate, g.c)
    && CandidateDigest(env, r.candidate) == CandidateDigest(env, g.c) == Some(g.e.candidate_digest)
    && DescriptorDigest(env, g.c, g.c.sink_id, g.c.boundary_id) == Some(g.e.descriptor_digest)
    && SameCapability(env.nfc, r.cap, g.cap)
    && r.cap.capability_id == g.cap.capability_id && r.cap.transition_id == g.t.transition_id
    && r.cap.candidate_digest == g.e.candidate_digest && r.cap.descriptor_digest == g.e.descriptor_digest
    && r.cap.evidence_id == g.e.evidence_id
  }

  /** The sink, boundary, epoch and effect class that the grant names. */
  ghost predicate SamePlace(env: Env, k: Sink.Settings, g: Grant) {
    && env.nfc(k.context.sink_id) == env.nfc(g.c.sink_id) && env.nfc(k.context.boundary_id) == env.nfc(g.c.boundary_id)
    && k.context.policy_epoch == g.c.policy_epoch && env.nfc(k.context.effect_class) == env.nfc(g.c.effect_class)
  }

  /** Inside the window that the grant opens. */
  ghost predicate InWindow(a: Authority.Settings, k: Sink.Settings, now: int, g: Grant) {
    && g.now - k.max_clock_skew_ns <= now <= Min(g.c.issued_at_ns + g.c.freshness_ns, g.now + a.capability_ttl_ns)
    && g.c.issued_at_ns - a.policy.max_future_skew_ns <= g.now
  }

  /** The request that the sink accepts is the one that was granted. */
  ghost predicate Agrees(env: Env, a: Authority.Settings, k: Sink.Settings, r: Sink.Request, g: Grant) {
    SameMandate(env, r, g) && SamePlace(env, k, g) && InWindow(a, k, r.now, g)
  }

  /** What `CheckLocal` establishes by comparing fields. */
  lemma LocalFacts(env: Env, k: Sink.Settings, r: Sink.Request)
    requires Sink.CheckLocal(env, k, r) == Ok(())
    ensures Sink.CheckBindings(k, r) == Ok(())
    ensures k.auth.Verify(env, CapabilityUnsigned(r.cap), r.cap.signature, r.cap.key_id) == Ok(true)
    ensures CandidateDigest(env, r.candidate) == Some(r.cap.candidate_digest)
    ensures DescriptorDigest(env, r.candidate, k.context.sink_id, k.context.boundary_id)
            == Some(r.cap.descriptor_digest)
    ensures Sink.CheckProof(env, k, r, CandidateDigest(env, r.candidate)) == Ok(())
  {
    hide Models.CandidateDigest, Models.DescriptorDigest, Models.Canon;
  }

  /** What issuing fixes. */
  lemma GrantFacts(env: Env, a: Authority.Settings, g: Grant)
    requires EnvLaws(env) && IsGrant(env, a, g)
    ensures CandidateDigest(env, g.c) == Some(g.e.candidate_digest) && IsPlain(g.e.candidate_digest)
    ensures DescriptorDigest(env, g.c, g.c.sink_id, g.c.boundary_id) == Some(g.e.descriptor_digest)
    ensures IsPlain(g.e.descriptor_digest) && IsPlain(g.e.evidence_id) && IsPlain(g.cap.capability_id)
    ensures g.e.transition_id == g.t.transition_id
    ensures g.cap.candidate_digest == g.e.candidate_digest && g.cap.descriptor_digest == g.e.descriptor_digest
    ensures g.cap.evidence_id == g.e.evidence_id && g.cap.transition_id == g.t.transition_id
    ensures g.cap.sink_id == g.c.sink_id && g.cap.boundary_id == g.c.boundary_id && g.cap.nonce == g.c.nonce
    ensures g.cap.scope == g.c.scope && g.cap.policy_epoch == g.c.policy_epoch
    ensures g.cap.issued_at_ns == g.now && Authority.IsEarlierEnd(a, g.c, g.now, g.cap.expires_at_ns)
    ensures Digest(env, CapabilityCore(g.cap)) == Some(g.cap.capability_id)
    ensures Canon(env, CapabilityUnsigned(g.cap)).Some?
    ensures Policy.Admits(a.policy, g.c, g.now)
  {
    Policy.NoReasonIffAdmitted(a.policy, g.c, g.now);
    MadeEvidence(env, a, g);
    MadeCapability(env, a, g);
  }

  lemma MadeEvidence(env: Env, a: Authority.Settings, g: Grant)
    requires EnvLaws(env) && Authority.MakeEvidence(env, a, g.c, g.now, g.t) == Some(g.e)
    ensures CandidateDigest(env, g.c) == Some(g.e.candidate_digest) && IsPlain(g.e.candidate_digest)
    ensures DescriptorDigest(env, g.c, g.c.sink_id, g.c.boundary_id) == Some(g.e.descriptor_digest)
    ensures IsPlain(g.e.descriptor_digest) && IsPlain(g.e.evidence_id)
    ensures g.e.transition_id == g.t.transition_id
  {
    hide Models.Canon, Models.CandidateValue, Models.EvidenceCore, Models.EvidenceUnsigned, Models.HCADValue;
  }

  lemma MadeCapability(env: Env, a: Authority.Settings, g: Grant)
    requires EnvLaws(env) && Authority.MakeCapability(env, a, g.c, g.now, g.e) == Some(g.cap)
    ensures g.cap == Capability(g.cap.capability_id, a.authority_id, g.e.candidate_digest, g.e.descriptor_digest,
                                g.c.sink_id, g.c.boundary_id, g.c.nonce, g.c.scope, g.c.policy_epoch, g.e.evidence_id,
                                g.e.transition_id, g.now, g.cap.expires_at_ns, a.auth.key_id, g.cap.signature)
    ensures Authority.IsEarlierEnd(a, g.c, g.now, g.cap.expires_at_ns)
    ensures IsPlain(g.cap.capability_id)
    ensures Digest(env, CapabilityCore(g.cap)) == Some(g.cap.capability_id)
    ensures Canon(env, CapabilityUnsigned(g.cap)).Some?
  {
    hide Models.Canon, Models.FieldsOf;
    var core := g.cap.(capability_id := [], signature := []);
    assert CapabilityCore(core) == CapabilityCore(g.cap);
    assert CapabilityUnsigned(g.cap.(signature := [])) == CapabilityUnsigned(g.cap);
  }

  /** A request whose capability carries the signature of a grant, and which passes the local checks,
      agrees with that grant. */
  lemma AcceptedAgrees(env: Env, a: Authority.Settings, k: Sink.Settings, r: Sink.Request, g: Grant)
    requires EnvLaws(env) && IsGrant(env, a, g)
    requires Sink.CheckLocal(env, k, r) == Ok(()) && MayHash(env, CandidateValue(r.candidate))
    requires Canon(env, CapabilityUnsigned(r.cap)) == Canon(env, CapabilityUnsigned(g.cap))
    ensures Agrees(env, a, k, r, g)
  {
    AcceptedMandate(env, a, k, r, g);
    AcceptedPlace(env, a, k, r, g);
  }

  lemma AcceptedMandate(env: Env, a: Authority.Settings, k: Sink.Settings, r: Sink.Request, g: Grant)
    requires EnvLaws(env) && IsGrant(env, a, g)
    requires Sink.CheckLocal(env, k, r) == Ok(()) && MayHash(env, CandidateValue(r.candidate))
    requires Canon(env, CapabilityUnsigned(r.cap)) == Canon(env, CapabilityUnsigned(g.cap))
    ensures SameMandate(env, r, g)
  {
    hide Models.CandidateDigest, Models.DescriptorDigest, Models.Canon, Sink.CheckLocal;
    hide Binding.SameAct, Binding.SameCapability, Models.CandidateValue, Models.CapabilityUnsigned;
    LocalFacts(env, k, r);
    GrantFacts(env, a, g);
    AcceptedCapability(env, r.cap, g.cap);
    AcceptedDigests(env, a, r, g);
    AcceptedAct(env, r.candidate, g.c);
  }

  lemma AcceptedCapability(env: Env, a: Capability, b: Capability)
    requires EnvLaws(env) && Canon(env, CapabilityUnsigned(b)).Some?
    requires Canon(env, CapabilityUnsigned(a)) == Canon(env, CapabilityUnsigned(b))
    ensures SameCapability(env.nfc, a, b)
  {
    hide Canonical.CanonicalBytes;
    CapabilityBytesBind(env.nfc, a, b);
  }

  lemma AcceptedDigests(env: Env, a: Authority.Settings, r: Sink.Request, g: Grant)
    requires EnvLaws(env) && IsGrant(env, a, g) && SameCapability(env.nfc, r.cap, g.cap)
    ensures r.cap.capability_id == g.cap.capability_id && r.cap.evidence_id == g.e.evidence_id
    ensures r.cap.candidate_digest == g.e.candidate_digest && r.cap.descriptor_digest == g.e.descriptor_digest
    ensures r.cap.transition_id == g.t.transition_id
  {
    hide Models.CandidateDigest, Models.DescriptorDigest, Models.Canon;
    GrantFacts(env, a, g);
    PlainEqual(env.nfc, r.cap.capability_id, g.cap.capability_id);
    PlainEqual(env.nfc, r.cap.evidence_id, g.e.evidence_id);
    PlainEqual(env.nfc, r.cap.candidate_digest, g.e.candidate_digest);
    PlainEqual(env.nfc, r.cap.descriptor_digest, g.e.descriptor_digest);
    PlainEqual(env.nfc, r.cap.transition_id, g.t.transition_id);
  }

  lemma AcceptedAct(env: Env, c: CandidateAct, d: CandidateAct)
    requires EnvLaws(env) && MayHash(env, CandidateValue(c)) && MayHash(env, CandidateValue(d))
    requires CandidateDigest(env, c).Some? && CandidateDigest(env, c) == CandidateDigest(env, d)
    ensures SameAct(env.nfc, c, d)
  {
    DigestBinds(env, CandidateValue(c), CandidateValue(d));
    CandidateBytesBind(env.nfc, c, d);
  }

  /** What the comparisons before the signature establish. */
  lemma BindingFacts(k: Sink.Settings, r: Sink.Request)
    requires Sink.CheckBindings(k, r) == Ok(())
    ensures r.candidate.status == NON_EFFECTIVE && r.candidate.effect_class == k.context.effect_class
    ensures r.candidate.sink_id == k.context.sink_id == r.cap.sink_id
    ensures r.candidate.boundary_id == k.context.boundary_id == r.cap.boundary_id
    ensures r.candidate.policy_epoch == k.context.policy_epoch == r.cap.policy_epoch
    ensures r.candidate.scope == r.cap.scope && r.candidate.nonce == r.cap.nonce
    ensures forall i :: 0 <= i < |r.cap.scope| ==> r.cap.scope[i] in k.context.supported_scopes
    ensures r.cap.issued_at_ns - k.max_clock_skew_ns <= r.now <= r.cap.expires_at_ns
    ensures r.cap.expires_at_ns <= r.candidate.issued_at_ns + r.candidate.freshness_ns
  {
  }

  lemma AcceptedPlace(env: Env, a: Authority.Settings, k: Sink.Settings, r: Sink.Request, g: Grant)
    requires EnvLaws(env) && IsGrant(env, a, g)
    requires Sink.CheckLocal(env, k, r) == Ok(()) && SameMandate(env, r, g)
    ensures SamePlace(env, k, g) && InWindow(a, k, r.now, g)
  {
    hide Models.CandidateDigest, Models.DescriptorDigest, Models.Canon, Sink.CheckLocal, Sink.CheckBindings;
    hide Models.CandidateValue, Models.CapabilityUnsigned, IsGrant, EnvLaws, SameTexts, Equivalent;
    LocalFacts(env, k, r);
    BindingFacts(k, r);
    GrantFacts(env, a, g);
  }

  /** Grants with equal capability ids grant the same thing. */
  lemma SameIdSameGrant(env: Env, a: Authority.Settings, g: Grant, h: Grant)
    requires EnvLaws(env) && IsGrant(env, a, g) && IsGrant(env, a, h) && g.cap.capability_id == h.cap.capability_id
    ensures SameGrant(env.nfc, g.cap, h.cap)
  {
    GrantFacts(env, a, g);
    GrantFacts(env, a, h);
    DigestBinds(env, CapabilityCore(g.cap), CapabilityCore(h.cap));
    CapabilityCoreBinds(env.nfc, g.cap, h.cap);
  }
}
