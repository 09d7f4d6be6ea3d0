/** What the portable verifiers leave to the sink, and the sink to them: a case that passes is accepted exactly
    if the sink's further conditions hold, and an accepted one passes exactly if theirs do. */
module PortableAcceptance {
  import opened Wrappers
  import opened Unicode
  import opened Values
  import opened Canonical
  import opened Laws
  import opened Models
  import opened Stores
  import opened ThreeWay
  import opened NodeAgreement
  import opened Bundles
  import opened BundleVerdicts
  import opened Objections
  import opened Agreement
  import opened Verdicts
  import Outcomes
  import Sink
  import State

  /** A sink that holds the key of the case, for the context of the case, and asks for no presenter. */
  predicate IsSinkOf(k: Sink.Settings, b: Bundle) {
    k.auth.key == b.key && !k.require_presentation_proof && IsContextOf(b.ctx, k)
  }

  /** What the stores hold under the ids that the capability names is what the case shows. */
  predicate StoresShow(b: Bundle, records: Records, s: State.Protected) {
    && (b.cap.evidence_id in records ==> records[b.cap.evidence_id] == b.e)
    && (b.cap.transition_id in s.transitions ==> s.transitions[b.cap.transition_id] == b.t)
  }

  /** What the sink looks at and the portable verifiers do not: the candidate's own sink, boundary and epoch,
      the time, the names of the keys, the epoch of the evidence, the stores, and whose transition it is. */
  predicate SinkAsks(k: Sink.Settings, b: Bundle, at: int, records: Records, s: State.Protected) {
    && b.c.sink_id == b.ctx.sink_id && b.c.boundary_id == b.ctx.boundary_id && b.c.policy_epoch == b.ctx.policy_epoch
    && b.cap.issued_at_ns - k.max_clock_skew_ns <= at <= b.cap.expires_at_ns
    && b.cap.key_id == k.auth.key_id && b.e.key_id == k.auth.key_id && b.e.policy_epoch == b.cap.policy_epoch
    && b.cap.evidence_id in records && b.cap.transition_id in s.transitions
    && b.t.nonce == b.c.nonce && b.t.source == b.c.source && b.t.policy_epoch == b.c.policy_epoch
    && b.c.nonce in s.nonces && s.nonces[b.c.nonce] == b.cap.transition_id
  }

  /** What the portable verifiers look at and the sink does not: that everything is in the range of the
      portable profile, the descriptor that the case shows, and the ids. */
  predicate VerifiersAsk(env: Env, b: Bundle) {
    && CandidateHash(env, b).Some? && DescriptorHash(env, b).Some?
    && PortableMac(env, b.key, EvidenceUnsigned(b.e)).Some? && PortableMac(env, b.key, CapabilityUnsigned(b.cap)).Some?
    && PortableHash(env, ToPython(b.payload)) == Some(b.h.payload_digest)
    && PortableHash(env, HCADValue(b.h)) == DescriptorHash(env, b)
    && TransitionHashOf(env, b) == Some(b.t.transition_id) && b.t.transition_id == b.cap.transition_id
    && PortableHash(env, EvidenceCore(b.e)) == Some(b.e.evidence_id)
    && PortableHash(env, CapabilityCore(b.cap)) == Some(b.cap.capability_id)
  }

  function RequestOf(b: Bundle, at: int): Sink.Request { Sink.Request(b.c, b.cap, at, None) }

  // ---- Hashes ----

  lemma PortableIsLocal(env: Env, v: Value)
    requires PortableHash(env, v).Some?
    ensures Digest(env, v) == PortableHash(env, v)
  {
    hide CanonicalBytes;
    PortableBytesAgree(env.nfc, v);
  }

  lemma CandidateIsLocal(env: Env, b: Bundle)
    requires Faithful(b) && CandidateHash(env, b).Some?
    ensures CandidateDigest(env, b.c) == CandidateHash(env, b)
  {
    hide CandidateValue, Digest, PortableHash;
    assert Act(b) == b.c;
    PortableIsLocal(env, CandidateValue(b.c));
  }

  lemma DescriptorIsLocal(env: Env, b: Bundle)
    requires Faithful(b) && DescriptorHash(env, b).Some?
    ensures DescriptorDigest(env, b.c, b.ctx.sink_id, b.ctx.boundary_id) == DescriptorHash(env, b)
  {
    hide HCADValue, Digest, PortableHash;
    assert Act(b) == b.c;
    PortableIsLocal(env, b.c.payload);
    var d := PortableHash(env, b.c.payload).value;
    PortableIsLocal(env, HCADValue(HCAD(b.c, b.ctx.sink_id, b.ctx.boundary_id, d)));
  }

  /** A portable MAC is accepted by an authority of the same key, under its name. */
  lemma MacIsLocal(env: Env, auth: Authenticator, v: Value, signature: Text, keyId: Text)
    requires EnvLaws(env) && PortableMac(env, auth.key, v).Some?
    ensures auth.Verify(env, v, signature, keyId) == Ok(true) <==>
              keyId == auth.key_id && PortableMac(env, auth.key, v) == Some(signature)
  {
    hide CanonicalBytes, EnvLaws, Authenticator.Verify;
    PortableBytesAgree(env.nfc, v);
    Outcomes.VerifyExact(env, auth, v, signature, keyId);
  }

  // ---- From the verifiers to the sink ----

  lemma ScopesOf(b: Bundle, k: Sink.Settings)
    requires IsContextOf(b.ctx, k)
    ensures (forall i :: 0 <= i < |b.cap.scope| ==> b.cap.scope[i] in b.ctx.supported_scopes)
            <==> !exists i :: 0 <= i < |b.cap.scope| && b.cap.scope[i] !in k.context.supported_scopes
  {
    forall t: Text ensures t in k.context.supported_scopes <==> t in b.ctx.supported_scopes {
    }
  }

  /** With the fields in order, the bindings need no more than this. */
  lemma BindingsOf(k: Sink.Settings, b: Bundle, at: int)
    requires IsContextOf(b.ctx, k) && TextsOk(b) && ScopeOk(b) && b.cap.policy_epoch == b.ctx.policy_epoch
    requires b.cap.expires_at_ns <= b.c.issued_at_ns + b.c.freshness_ns
    ensures Sink.CheckBindings(k, RequestOf(b, at)) == Ok(()) <==>
              && b.c.sink_id == b.ctx.sink_id && b.c.boundary_id == b.ctx.boundary_id
              && b.c.policy_epoch == b.ctx.policy_epoch
              && b.cap.issued_at_ns - k.max_clock_skew_ns <= at <= b.cap.expires_at_ns
  {
    ScopesOf(b, k);
  }

  /** With everything signed and hashed as it should be, the rest of the local part only needs the name of
      the key. */
  lemma LocalOf(env: Env, k: Sink.Settings, b: Bundle, at: int)
    requires EnvLaws(env) && IsSinkOf(k, b) && Faithful(b)
    requires CandidateHash(env, b) == Some(b.cap.candidate_digest)
    requires DescriptorHash(env, b) == Some(b.cap.descriptor_digest)
    requires PortableMac(env, b.key, CapabilityUnsigned(b.cap)) == Some(b.cap.signature)
    ensures Sink.CheckLocal(env, k, RequestOf(b, at)) == Ok(()) <==>
              Sink.CheckBindings(k, RequestOf(b, at)) == Ok(()) && b.cap.key_id == k.auth.key_id
  {
    hide EnvLaws, CandidateDigest, DescriptorDigest, CandidateHash, DescriptorHash, PortableMac, CapabilityUnsigned;
    hide Sink.CheckBindings, Authenticator.Verify, Faithful;
    CandidateIsLocal(env, b);
    DescriptorIsLocal(env, b);
    MacIsLocal(env, k.auth, CapabilityUnsigned(b.cap), b.cap.signature, b.cap.key_id);
    OnlyUnit(Sink.CheckBindings(k, RequestOf(b, at)));
  }

  lemma EvidenceOf(env: Env, k: Sink.Settings, b: Bundle, at: int, records: Records, s: State.Protected)
    requires EnvLaws(env) && k.auth.key == b.key && StoresShow(b, records, s) && TextsOk(b)
    requires b.e.candidate_digest == b.cap.candidate_digest && b.e.descriptor_digest == b.cap.descriptor_digest
    requires PortableMac(env, b.key, EvidenceUnsigned(b.e)) == Some(b.e.signature)
    ensures Sink.CheckEvidence(env, k, RequestOf(b, at), records) == Ok(()) <==>
              b.cap.evidence_id in records && b.e.key_id == k.auth.key_id && b.e.policy_epoch == b.cap.policy_epoch
  {
    hide EnvLaws, PortableMac, EvidenceUnsigned, Authenticator.Verify;
    MacIsLocal(env, k.auth, EvidenceUnsigned(b.e), b.e.signature, b.e.key_id);
  }

  lemma TransitionOf(b: Bundle, at: int, records: Records, s: State.Protected)
    requires StoresShow(b, records, s)
    requires b.t.after_version == b.t.before_version + 1 && b.t.quota_after == b.t.quota_before - 1
    requires b.t.budget_after < b.t.budget_before
    ensures Sink.CheckTransition(RequestOf(b, at), s) == Ok(()) <==>
              && b.cap.transition_id in s.transitions
              && b.t.nonce == b.c.nonce && b.t.source == b.c.source && b.t.policy_epoch == b.c.policy_epoch
              && b.c.nonce in s.nonces && s.nonces[b.c.nonce] == b.cap.transition_id
  {
  }

  /** What no objection means for the fields and the hashes. */
  lemma PassingFacts(env: Env, b: Bundle)
    requires EnvLaws(env) && ReadableBundle(b) && GoPasses(env, b)
    ensures TextsOk(b) && ScopeOk(b) && VerifiersAsk(env, b)
    ensures b.t.after_version == b.t.before_version + 1 && b.t.quota_after == b.t.quota_before - 1
    ensures b.t.budget_after < b.t.budget_before
    ensures b.cap.policy_epoch == b.ctx.policy_epoch && b.cap.expires_at_ns <= b.c.issued_at_ns + b.c.freshness_ns
    ensures CandidateHash(env, b) == Some(b.cap.candidate_digest) == Some(b.e.candidate_digest)
    ensures DescriptorHash(env, b) == Some(b.cap.descriptor_digest) == Some(b.e.descriptor_digest)
    ensures PortableMac(env, b.key, CapabilityUnsigned(b.cap)) == Some(b.cap.signature)
    ensures PortableMac(env, b.key, EvidenceUnsigned(b.e)) == Some(b.e.signature)
  {
    hide EnvLaws, ReadableBundle, IntegralBundle, CarriedBundle, GoDigests, Wrap64;
    hide CandidateHash, DescriptorHash, TransitionHashOf, PortableHash, PortableMac;
    if IntegralBundle(b) {
      GoRejectsIntegral(env, b);
    }
    ReadableIsCarried(b);
    DigestsPortable(env, b);
    DigestsMakeSafe(env, b);
    WrapSmall(b.c.issued_at_ns + b.c.freshness_ns);
    WrapSmall(b.t.before_version + 1);
    WrapSmall(b.t.quota_before - 1);
  }

  /** A case that the Go verifier passes is accepted by a sink of its key and context exactly if it meets the
      sink's further conditions. */
  lemma PassingAccepted(env: Env, b: Bundle, k: Sink.Settings, at: int, records: Records, s: State.Protected)
    requires EnvLaws(env) && ReadableBundle(b) && Faithful(b) && GoPasses(env, b)
    requires IsSinkOf(k, b) && StoresShow(b, records, s)
    ensures Sink.Verify(env, k, RequestOf(b, at), records, s) == Ok(()) <==> SinkAsks(k, b, at, records, s)
  {
    hide EnvLaws, ReadableBundle, Faithful, GoPasses, Sink.CheckBindings, Sink.CheckLocal, Sink.CheckEvidence;
    hide Sink.CheckTransition, Sink.Verify, TextsOk, ScopeOk, VerifiersAsk, CandidateHash, DescriptorHash, PortableMac;
    hide IsContextOf, CapabilityUnsigned, EvidenceUnsigned;
    PassingFacts(env, b);
    BindingsOf(k, b, at);
    LocalOf(env, k, b, at);
    EvidenceOf(env, k, b, at, records, s);
    TransitionOf(b, at, records, s);
    VerdictParts(env, k, RequestOf(b, at), records, s);
  }

  // ---- From the sink to the verifiers ----

  lemma AcceptedFields(env: Env, b: Bundle, k: Sink.Settings, at: int, records: Records, s: State.Protected,
                       o: Objection)
    requires IsContextOf(b.ctx, k) && StoresShow(b, records, s) && b.t.transition_id == b.cap.transition_id
    requires Sink.CheckBindings(k, RequestOf(b, at)) == Ok(())
    requires Sink.CheckEvidence(env, k, RequestOf(b, at), records) == Ok(())
    requires Sink.CheckTransition(RequestOf(b, at), s) == Ok(())
    ensures !FieldObjects(b, o)
  {
    hide Authenticator.Verify, EvidenceUnsigned;
    BindingFacts(k, RequestOf(b, at));
    hide Sink.CheckBindings;
    if o == ScopeUnsupported {
      ScopesOf(b, k);
      forall t | t in b.cap.scope ensures t in b.ctx.supported_scopes {
        var i :| 0 <= i < |b.cap.scope| && b.cap.scope[i] == t;
      }
    }
  }

  lemma AcceptedDigests(env: Env, b: Bundle, k: Sink.Settings, at: int, records: Records, s: State.Protected,
                        o: Objection)
    requires EnvLaws(env) && IsSinkOf(k, b) && Faithful(b) && StoresShow(b, records, s) && VerifiersAsk(env, b)
    requires Sink.CheckLocal(env, k, RequestOf(b, at)) == Ok(())
    requires Sink.CheckEvidence(env, k, RequestOf(b, at), records) == Ok(())
    ensures !DigestObjects(env, b, o)
  {
    hide EnvLaws, Authenticator.Verify, EvidenceUnsigned, CapabilityUnsigned, Sink.CheckLocal, Faithful;
    hide CandidateDigest, DescriptorDigest, CandidateHash, DescriptorHash, TransitionHashOf, PortableHash, PortableMac;
    LocalFacts(env, k, RequestOf(b, at));
    CandidateIsLocal(env, b);
    DescriptorIsLocal(env, b);
    MacIsLocal(env, k.auth, CapabilityUnsigned(b.cap), b.cap.signature, b.cap.key_id);
    MacIsLocal(env, k.auth, EvidenceUnsigned(b.e), b.e.signature, b.e.key_id);
    hide Sink.CheckBindings, Sink.CheckProof;
  }

  /** A case that the sink accepts passes the Go verifier exactly if it meets the verifiers' further
      conditions. */
  lemma AcceptedPasses(env: Env, b: Bundle, k: Sink.Settings, at: int, records: Records, s: State.Protected)
    requires EnvLaws(env) && ReadableBundle(b) && Faithful(b)
    requires IsSinkOf(k, b) && StoresShow(b, records, s)
    requires Sink.Verify(env, k, RequestOf(b, at), records, s) == Ok(())
    ensures GoPasses(env, b) <==> VerifiersAsk(env, b)
  {
    hide EnvLaws, ReadableBundle, Faithful, GoPasses, Sink.CheckBindings, Sink.CheckLocal, Sink.CheckEvidence;
    hide Sink.CheckTransition, Sink.Verify, TextsOk, ScopeOk, IsContextOf, DigestObjects, FieldObjects, StoresShow;
    hide CandidateHash, DescriptorHash, TransitionHashOf, PortableHash, PortableMac;
    VerdictParts(env, k, RequestOf(b, at), records, s);
    LocalFacts(env, k, RequestOf(b, at));
    if GoPasses(env, b) {
      PassingFacts(env, b);
    }
    if VerifiersAsk(env, b) {
      forall o ensures !Objects(env, b, o) {
        AcceptedFields(env, b, k, at, records, s, o);
        AcceptedDigests(env, b, k, at, records, s, o);
      }
      GoPassesExact(env, b);
    }
  }
}
