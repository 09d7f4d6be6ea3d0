/** What is admitted is issued, and what is issued verifies. */
module Completeness {
  import opened Wrappers
  import opened Sorting
  import opened Unicode
  import opened Values
  import opened Canonical
  import opened Laws
  import opened Models
  import opened Stores
  import opened Binding
  import opened Agreement
  import opened Machine
  import opened Stability
  import Authority
  import Policy
  import Sink
  import State

  ghost predicate Accepts(nfc: Nfc, vs: seq<Value>) {
    forall i :: 0 <= i < |vs| ==> Normalize(nfc, vs[i], false).Some?
  }

  lemma AcceptedRecord(env: Env, names: seq<string>, vs: seq<Value>)
    requires EnvLaws(env) && |names| == |vs| && FieldNames(names) && Accepts(env.nfc, vs)
    ensures Canon(env, Dict(FieldsOf(names, vs))).Some? && Canon(env, Record(FieldsOf(names, vs))).Some?
  {
    RecordAccepted(env.nfc, names, vs);
    RecordIsDict(env.nfc, FieldsOf(names, vs), false);
  }

  lemma DigestIsPlain(env: Env, v: Value)
    requires EnvLaws(env) && Canon(env, v).Some?
    ensures Digest(env, v).Some? && IsPlain(Digest(env, v).value)
  {
  }

  lemma CandidateDigestPlain(env: Env, c: CandidateAct)
    requires EnvLaws(env) && CandidateDigest(env, c).Some?
    ensures IsPlain(CandidateDigest(env, c).value)
  {
    hide CandidateValue, Canon;
  }

  lemma PlainIsScalars(t: Text)
    requires IsPlain(t)
    ensures Scalars(t)
  {
  }

  /** The fields of a candidate with a digest are accepted one by one. */
  lemma CandidateFieldsAccepted(env: Env, c: CandidateAct)
    requires CandidateDigest(env, c).Some?
    ensures Accepts(env.nfc, CandidateValues(c))
  {
    RecordIsDict(env.nfc, FieldsOf(CANDIDATE_FIELDS, CandidateValues(c)), false);
    forall i | 0 <= i < |CandidateValues(c)| ensures Normalize(env.nfc, CandidateValues(c)[i], false).Some? {
      FieldAccepted(env.nfc, CANDIDATE_FIELDS, CandidateValues(c), i);
    }
  }

  lemma AcceptedText(nfc: Nfc, vs: seq<Value>, i: nat, t: Text)
    requires Accepts(nfc, vs) && i < |vs| && vs[i] == Str(t)
    ensures Scalars(t)
  {
    assert Normalize(nfc, vs[i], false).Some?;
  }

  lemma AcceptedScope(nfc: Nfc, vs: seq<Value>, i: nat, ts: seq<Text>)
    requires Accepts(nfc, vs) && i < |vs| && vs[i] == Tuple(Texts(ts))
    ensures Normalize(nfc, List(Texts(ts)), false).Some?
  {
    assert Normalize(nfc, vs[i], false).Some?;
  }

  /** The texts that the signed records take over from the candidate. */
  lemma CandidateTexts(env: Env, c: CandidateAct)
    requires CandidateDigest(env, c).Some?
    ensures Scalars(c.nonce) && Scalars(c.source) && Scalars(c.sink_id) && Scalars(c.boundary_id)
    ensures Normalize(env.nfc, List(Texts(c.scope)), false).Some?
    ensures Canon(env, c.payload).Some?
  {
    hide CandidateDigest, Accepts, Normalize, Scalars, Texts, StatusText, Canon;
    CandidateFieldsAccepted(env, c);
    var vs := CandidateValues(c);
    AcceptedText(env.nfc, vs, 3, c.source);
    AcceptedText(env.nfc, vs, 8, c.nonce);
    AcceptedText(env.nfc, vs, 11, c.sink_id);
    AcceptedText(env.nfc, vs, 12, c.boundary_id);
    AcceptedScope(env.nfc, vs, 13, c.scope);
    AcceptedPayload(env, vs, 14, c.payload);
  }

  lemma AcceptedPayload(env: Env, vs: seq<Value>, i: nat, v: Value)
    requires Accepts(env.nfc, vs) && i < |vs| && vs[i] == v
    ensures Canon(env, v).Some?
  {
    assert Normalize(env.nfc, vs[i], false).Some?;
  }

  lemma DescriptorExists(env: Env, c: CandidateAct)
    requires EnvLaws(env) && CandidateDigest(env, c).Some?
    ensures DescriptorDigest(env, c, c.sink_id, c.boundary_id).Some?
    ensures IsPlain(DescriptorDigest(env, c, c.sink_id, c.boundary_id).value)
  {
    CandidateFieldsAccepted(env, c);
    CandidateTexts(env, c);
    DigestIsPlain(env, c.payload);
    var h := HCAD(c, c.sink_id, c.boundary_id, Digest(env, c.payload).value);
    HCADAccepted(env, h, c);
    DigestIsPlain(env, HCADValue(h));
  }

  /** A descriptor repeats fields of its candidate. */
  lemma HCADFields(h: HCAD, c: CandidateAct)
    requires h.act == c && h.sink_id == c.sink_id && h.boundary_id == c.boundary_id
    ensures HCADValues(h)
            == [Str(Lit("finality-hcad/v1"))] + CandidateValues(c)[..14]
                    + [Str(h.payload_digest), CandidateValues(c)[15]]
  {
    hide Texts, StatusText, Lit;
  }

  lemma HCADAccepted(env: Env, h: HCAD, c: CandidateAct)
    requires EnvLaws(env) && Accepts(env.nfc, CandidateValues(c)) && IsPlain(h.payload_digest)
    requires h.act == c && h.sink_id == c.sink_id && h.boundary_id == c.boundary_id
    ensures Canon(env, HCADValue(h)).Some?
  {
    hide CandidateValues, HCADValues;
    PlainIsScalars(h.payload_digest);
    var vs := HCADValues(h);
    HCADFields(h, c);
    forall i | 0 <= i < |vs| ensures Normalize(env.nfc, vs[i], false).Some? {
      assert 1 <= i < 15 ==> vs[i] == CandidateValues(c)[i - 1];
    }
    HCADNames();
    AcceptedRecord(env, HCAD_FIELDS, vs);
  }

  lemma TransitionAccepted(env: Env, t: StateTransition, d: Text)
    requires EnvLaws(env) && Scalars(t.nonce) && Scalars(t.source) && Scalars(d)
    ensures Canon(env, TransitionCore(t, d)).Some?
  {
    TransitionNames();
    AcceptedRecord(env, TRANSITION_FIELDS, TransitionValues(t, d));
  }

  predicate EvidenceTexts(e: ValidationEvidence) {
    && Scalars(e.authority_id) && Scalars(e.descriptor_digest) && Scalars(e.candidate_digest)
    && Scalars(e.transition_id) && Scalars(e.key_id) && e.decision == ALLOW && e.reasons == []
  }

  lemma EvidenceAccepted(env: Env, e: ValidationEvidence)
    requires EnvLaws(env) && EvidenceTexts(e)
    ensures Canon(env, EvidenceCore(e)).Some?
    ensures Scalars(e.evidence_id) ==> Canon(env, EvidenceUnsigned(e)).Some?
  {
    EvidenceNames();
    TextsAccepted(env.nfc, e.reasons);
    AcceptedRecord(env, EVIDENCE_FIELDS, EvidenceValues(e));
    if Scalars(e.evidence_id) {
      AcceptedRecord(env, ["evidence_id"] + EVIDENCE_FIELDS, [Str(e.evidence_id)] + EvidenceValues(e));
    }
  }

  ghost predicate CapabilityTexts(nfc: Nfc, cap: Capability) {
    && Scalars(cap.authority_id) && Scalars(cap.candidate_digest) && Scalars(cap.descriptor_digest)
    && Scalars(cap.sink_id) && Scalars(cap.boundary_id) && Scalars(cap.nonce)
    && Normalize(nfc, List(Texts(cap.scope)), false).Some?
    && Scalars(cap.evidence_id) && Scalars(cap.transition_id) && Scalars(cap.key_id)
  }

  lemma CapabilityAccepted(env: Env, cap: Capability)
    requires EnvLaws(env) && CapabilityTexts(env.nfc, cap)
    ensures Canon(env, CapabilityCore(cap)).Some?
    ensures Scalars(cap.capability_id) ==> Canon(env, CapabilityUnsigned(cap)).Some?
  {
    CapabilityNames();
    AcceptedRecord(env, CAPABILITY_FIELDS, CapabilityValues(cap));
    if Scalars(cap.capability_id) {
      AcceptedRecord(env, ["capability_id"] + CAPABILITY_FIELDS, [Str(cap.capability_id)] + CapabilityValues(cap));
    }
  }

  // ---- Issue ----

  /** The candidate has canonical bytes, and so have the names that the authority adds to them. */
  predicate Canonicalizable(env: Env, a: Authority.Settings, c: CandidateAct) {
    CandidateDigest(env, c).Some? && Scalars(a.authority_id) && Scalars(a.auth.key_id)
  }

  /** The source can afford the act, and its nonce is new. */
  predicate Affordable(s: State.Protected, c: CandidateAct, cost: int) {
    && cost > 0 && c.nonce !in s.nonces
    && State.SourceOf(s, c.source).quota >= 1 && State.SourceOf(s, c.source).budget >= cost
  }

  lemma TransitionExists(env: Env, a: Authority.Settings, s: State.Protected, c: CandidateAct, cost: int)
    requires EnvLaws(env) && Canonicalizable(env, a, c) && Affordable(s, c, cost)
    ensures State.Authorize(env, s, c, cost).1.Ok?
  {
    hide CandidateDigest;
    CandidateTexts(env, c);
    CandidateDigestPlain(env, c);
    PlainIsScalars(CandidateDigest(env, c).value);
    TransitionAccepted(env, State.TransitionFrom(State.SourceOf(s, c.source), c, cost), CandidateDigest(env, c).value);
  }

  lemma EvidenceExists(env: Env, a: Authority.Settings, c: CandidateAct, now: int, t: StateTransition)
    requires EnvLaws(env) && Canonicalizable(env, a, c) && IsPlain(t.transition_id)
    ensures Authority.MakeEvidence(env, a, c, now, t).Some?
    ensures var e := Authority.MakeEvidence(env, a, c, now, t).value;
      && EvidenceTexts(e) && IsPlain(e.evidence_id)
      && e == ValidationEvidence(e.evidence_id, a.authority_id, e.descriptor_digest, e.candidate_digest,
                                 t.transition_id,
                                 c.policy_epoch, ALLOW, [], now, a.auth.key_id, e.signature)
      && DescriptorDigest(env, c, c.sink_id, c.boundary_id) == Some(e.descriptor_digest)
      && CandidateDigest(env, c) == Some(e.candidate_digest)
      && a.auth.Verify(env, EvidenceUnsigned(e), e.signature, e.key_id) == Ok(true)
      && Digest(env, EvidenceCore(e)) == Some(e.evidence_id)
  {
    hide CandidateDigest, DescriptorDigest, Canon, EvidenceValues, FieldsOf;
    DescriptorExists(env, c);
    CandidateDigestPlain(env, c);
    var h, d := DescriptorDigest(env, c, c.sink_id, c.boundary_id).value, CandidateDigest(env, c).value;
    PlainIsScalars(h);
    PlainIsScalars(d);
    PlainIsScalars(t.transition_id);
    var core := ValidationEvidence([], a.authority_id, h, d, t.transition_id, c.policy_epoch, ALLOW, [], now,
                                   a.auth.key_id, []);
    EvidenceAccepted(env, core);
    DigestIsPlain(env, EvidenceCore(core));
    var e := core.(evidence_id := Digest(env, EvidenceCore(core)).value);
    PlainIsScalars(e.evidence_id);
    EvidenceAccepted(env, e);
    EvidenceFieldsOnly(e, core);
    EvidenceFieldsOnly(e, e.(signature := a.auth.Sign(env, EvidenceUnsigned(e)).value));
  }

  /** Neither id nor signature is part of what is hashed, nor the signature of what is signed. */
  lemma EvidenceFieldsOnly(e: ValidationEvidence, f: ValidationEvidence)
    requires f.(evidence_id := [], signature := []) == e.(evidence_id := [], signature := [])
    ensures EvidenceCore(e) == EvidenceCore(f)
    ensures e.evidence_id == f.evidence_id ==> EvidenceUnsigned(e) == EvidenceUnsigned(f)
  {
    assert EvidenceValues(e) == EvidenceValues(f);
  }

  /** Committed evidence is for recorded transitions, under the hash of itself. */
  ghost predicate EvidenceOk(env: Env, s: State.Protected, records: Records) {
    forall id :: id in records ==> RecordOk(env, s, id, records[id])
  }

  ghost predicate RecordOk(env: Env, s: State.Protected, id: Text, e: ValidationEvidence) {
    && e.transition_id in s.transitions && IsPlain(e.transition_id)
    && Digest(env, EvidenceCore(e)) == Some(id) && MayHash(env, EvidenceCore(e))
  }

  /** Evidence for a transition that was not recorded before has an id of its own. */
  lemma FreshEvidence(env: Env, s: State.Protected, records: Records, e: ValidationEvidence)
    requires EnvLaws(env) && EvidenceOk(env, s, records)
    requires e.transition_id !in s.transitions && IsPlain(e.transition_id)
    requires Digest(env, EvidenceCore(e)) == Some(e.evidence_id) && MayHash(env, EvidenceCore(e))
    ensures e.evidence_id !in records
  {
    hide EvidenceCore, CanonicalBytes;
    if e.evidence_id in records {
      var f := records[e.evidence_id];
      assert RecordOk(env, s, e.evidence_id, f);
      DigestBinds(env, EvidenceCore(e), EvidenceCore(f));
      EvidenceCoreBinds(env.nfc, e, f);
      PlainEqual(env.nfc, f.transition_id, e.transition_id);
    }
  }

  /** Neither id nor signature is part of what is hashed, nor the signature of what is signed. */
  lemma CapabilityFieldsOnly(a: Capability, b: Capability)
    requires a.(capability_id := [], signature := []) == b.(capability_id := [], signature := [])
    ensures CapabilityCore(a) == CapabilityCore(b)
    ensures a.capability_id == b.capability_id ==> CapabilityUnsigned(a) == CapabilityUnsigned(b)
  {
    assert CapabilityValues(a) == CapabilityValues(b);
  }

  /** The capability that the authority makes for `c` on the evidence `e`. */
  predicate IsCapabilityFor(env: Env, a: Authority.Settings, c: CandidateAct, now: int, e: ValidationEvidence,
                            cap: Capability) {
    && cap == Capability(cap.capability_id, a.authority_id, e.candidate_digest, e.descriptor_digest, c.sink_id,
                         c.boundary_id, c.nonce, c.scope, c.policy_epoch, e.evidence_id, e.transition_id, now,
                         cap.expires_at_ns, a.auth.key_id, cap.signature)
    && Authority.IsEarlierEnd(a, c, now, cap.expires_at_ns)
    && a.auth.Verify(env, CapabilityUnsigned(cap), cap.signature, cap.key_id) == Ok(true)
  }

  lemma CapabilityExists(env: Env, a: Authority.Settings, c: CandidateAct, now: int, e: ValidationEvidence)
    requires EnvLaws(env) && Canonicalizable(env, a, c) && EvidenceTexts(e) && IsPlain(e.evidence_id)
    ensures var made := Authority.MakeCapability(env, a, c, now, e);
      made.Some? && IsCapabilityFor(env, a, c, now, e, made.value)
  {
    hide CandidateDigest, Canon, CapabilityValues, FieldsOf;
    CandidateTexts(env, c);
    PlainIsScalars(e.evidence_id);
    var core := Capability([], a.authority_id, e.candidate_digest, e.descriptor_digest, c.sink_id, c.boundary_id,
                           c.nonce,
                           c.scope, c.policy_epoch, e.evidence_id, e.transition_id, now, Authority.Expiry(a, c, now),
                           a.auth.key_id, []);
    CapabilityAccepted(env, core);
    DigestIsPlain(env, CapabilityCore(core));
    var cap := core.(capability_id := Digest(env, CapabilityCore(core)).value);
    PlainIsScalars(cap.capability_id);
    CapabilityAccepted(env, cap);
    CapabilityFieldsOnly(cap, cap.(signature := a.auth.Sign(env, CapabilityUnsigned(cap)).value));
  }

  /** What the run may hash covers this authorization. */
  ghost predicate MayAuthorize(env: Env, a: Authority.Settings, s: State.Protected, c: CandidateAct, cost: int,
                               now: int) {
    && MayRecord(env, s, c, cost)
    && var recorded := State.Authorize(env, s, c, cost).1;
    recorded.Ok? ==> MayCommit(env, a, c, now, recorded.value)
  }

  /** The authorization that a policy-conforming, affordable, canonicalizable candidate gets. */
  ghost predicate IsIssued(env: Env, a: Authority.Settings, s: State.Protected, records: Records, c: CandidateAct,
                           cost: int, now: int, t: StateTransition, e: ValidationEvidence, cap: Capability)
  {
    && State.Authorize(env, s, c, cost).1 == Ok(t)
    && Authority.MakeEvidence(env, a, c, now, t) == Some(e)
    && Authority.Authorize(env, a, s, records, false, c, cost, now)
       == (State.Authorize(env, s, c, cost).0, records[e.evidence_id := e], Ok(cap))
    && IsCapabilityFor(env, a, c, now, e, cap)
  }

  lemma IssuedMakes(env: Env, a: Authority.Settings, s: State.Protected, records: Records, c: CandidateAct,
                    cost: int, now: int, t: StateTransition, e: ValidationEvidence, cap: Capability)
    requires IsIssued(env, a, s, records, c, cost, now, t, e, cap)
    ensures Authority.MakeCapability(env, a, c, now, e) == Some(cap)
  {
    hide Authority.Admit, State.Authorize, Authority.MakeEvidence, Authority.MakeCapability, TryCommit, IsCapabilityFor;
  }

  /** A working evidence store and a new evidence id: the commit succeeds. */
  lemma CommitSucceeds(env: Env, auth: Authenticator, records: Records, e: ValidationEvidence)
    requires auth.Verify(env, EvidenceUnsigned(e), e.signature, e.key_id) == Ok(true) && e.evidence_id !in records
    ensures TryCommit(env, auth, records, false, e) == (records[e.evidence_id := e], Ok(()))
  {
    hide EvidenceUnsigned;
  }

  /** Issue completeness: what the policy admits, the source can afford, and has canonical bytes, is issued. */
  lemma IssueCompleteness(env: Env, a: Authority.Settings, s: State.Protected, records: Records, c: CandidateAct,
                          cost: int, now: int)
    returns (t: StateTransition, e: ValidationEvidence, cap: Capability)
    requires EnvLaws(env) && StateOk(env, s) && EvidenceOk(env, s, records) && env.nfc(c.nonce) == c.nonce
    requires Policy.Admits(a.policy, c, now) && Canonicalizable(env, a, c) && Affordable(s, c, cost)
    requires MayAuthorize(env, a, s, c, cost, now)
    ensures IsIssued(env, a, s, records, c, cost, now, t, e, cap)
  {
    hide Affordable, StateOk, EvidenceOk, State.Authorize, MayRecord, MayHash, Authority.MakeEvidence;
    hide Authority.MakeCapability;
    hide EvidenceCore, EvidenceUnsigned, CapabilityUnsigned, CandidateDigest, DescriptorDigest, Canon, TryCommit;
    hide Digest;
    hide Policy.Admits, IsCapabilityFor;
    TransitionExists(env, a, s, c, cost);
    t := State.Authorize(env, s, c, cost).1.value;
    FreshId(env, s, c, cost);
    RecordedIsPlain(env, s, c, cost);
    EvidenceExists(env, a, c, now, t);
    e := Authority.MakeEvidence(env, a, c, now, t).value;
    FreshEvidence(env, s, records, e);
    CommitSucceeds(env, a.auth, records, e);
    CapabilityExists(env, a, c, now, e);
    cap := Authority.MakeCapability(env, a, c, now, e).value;
    AdmitSucceeds(env, a, c, now);
  }

  lemma RecordedIsPlain(env: Env, s: State.Protected, c: CandidateAct, cost: int)
    requires EnvLaws(env) && State.Authorize(env, s, c, cost).1.Ok?
    ensures IsPlain(State.Authorize(env, s, c, cost).1.value.transition_id)
  {
    hide CandidateDigest, TransitionCore, Canon;
  }

  lemma AdmitSucceeds(env: Env, a: Authority.Settings, c: CandidateAct, now: int)
    requires EnvLaws(env) && Policy.Admits(a.policy, c, now) && CandidateDigest(env, c).Some?
    ensures Authority.Admit(env, a, c, now) == Ok(())
  {
    CandidateTexts(env, c);
    Policy.NoReasonIffAdmitted(a.policy, c, now);
  }

  // ---- Verification ----

  /** A sink that the candidate names, of the same authority. */
  predicate Addresses(a: Authority.Settings, k: Sink.Settings, c: CandidateAct) {
    && k.auth == a.auth
    && k.context.sink_id == c.sink_id && k.context.boundary_id == c.boundary_id
    && k.context.policy_epoch == c.policy_epoch
    && k.context.effect_class == c.effect_class
    && forall i :: 0 <= i < |c.scope| ==> c.scope[i] in k.context.supported_scopes
  }

  /** Such a sink that asks for no presenter proof. */
  predicate Matches(a: Authority.Settings, k: Sink.Settings, c: CandidateAct) {
    Addresses(a, k, c) && !k.require_presentation_proof
  }

  /** From issue less the sink's skew to the earlier end of freshness and lifetime. */
  predicate WhileValid(a: Authority.Settings, k: Sink.Settings, c: CandidateAct, issued: int, at: int) {
    && issued - k.max_clock_skew_ns <= at
    && at <= c.issued_at_ns + c.freshness_ns && at <= issued + a.capability_ttl_ns
  }

  lemma LocalSucceeds(env: Env, a: Authority.Settings, k: Sink.Settings, c: CandidateAct, now: int,
                      e: ValidationEvidence, cap: Capability, r: Sink.Request)
    requires Policy.Admits(a.policy, c, now) && Addresses(a, k, c) && WhileValid(a, k, c, now, r.now)
    requires IsCapabilityFor(env, a, c, now, e, cap) && r.candidate == c && r.cap == cap
    requires Sink.CheckProof(env, k, r, CandidateDigest(env, c)) == Ok(())
    requires CandidateDigest(env, c) == Some(e.candidate_digest)
    requires DescriptorDigest(env, c, c.sink_id, c.boundary_id) == Some(e.descriptor_digest)
    ensures Sink.CheckLocal(env, k, r) == Ok(())
  {
    hide CandidateDigest, DescriptorDigest, CapabilityUnsigned, Canon, Sink.CheckProof;
    assert Sink.CheckBindings(k, r) == Ok(());
  }

  lemma EvidenceSucceeds(env: Env, a: Authority.Settings, k: Sink.Settings, r: Sink.Request, e: ValidationEvidence,
                         records: Records)
    requires k.auth == a.auth && e.evidence_id in records
    requires records[e.evidence_id] == e && r.cap.evidence_id == e.evidence_id
    requires a.auth.Verify(env, EvidenceUnsigned(e), e.signature, e.key_id) == Ok(true) && e.decision == ALLOW
    requires e.authority_id == r.cap.authority_id && e.candidate_digest == r.cap.candidate_digest
    requires e.descriptor_digest == r.cap.descriptor_digest && e.transition_id == r.cap.transition_id
    requires e.policy_epoch == r.cap.policy_epoch
    ensures Sink.CheckEvidence(env, k, r, records) == Ok(())
  {
    hide EvidenceUnsigned;
  }

  lemma TransitionSucceeds(env: Env, s: State.Protected, c: CandidateAct, cost: int)
    requires State.Authorize(env, s, c, cost).1.Ok?
    ensures var (s', result) := State.Authorize(env, s, c, cost);
      State.VerifyTransition(s', result.value.transition_id, c)
  {
    hide State.TransitionId;
  }

  /** The capability verifies at every sink that it is for and whose demand for a proof is met. */
  lemma IssuedVerifies(env: Env, a: Authority.Settings, s: State.Protected, records: Records, c: CandidateAct,
                       cost: int, now: int, t: StateTransition, e: ValidationEvidence, cap: Capability,
                       k: Sink.Settings, r: Sink.Request)
    requires EnvLaws(env) && Policy.Admits(a.policy, c, now) && Canonicalizable(env, a, c)
    requires IsIssued(env, a, s, records, c, cost, now, t, e, cap)
    requires r.candidate == c && r.cap == cap && Addresses(a, k, c) && WhileValid(a, k, c, now, r.now)
    requires Sink.CheckProof(env, k, r, CandidateDigest(env, c)) == Ok(())
    ensures var (s', records', _) := Authority.Authorize(env, a, s, records, false, c, cost, now);
      Sink.Verify(env, k, r, records', s') == Ok(())
  {
    hide Policy.Admits, Addresses, WhileValid, State.Authorize, Authority.Authorize, Authority.MakeEvidence;
    hide EvidenceUnsigned, Digest, Sink.CheckProof;
    hide CapabilityUnsigned, CandidateDigest, DescriptorDigest, Canon, Sink.CheckLocal, Sink.CheckEvidence;
    hide State.VerifyTransition;
    RecordedIsPlain(env, s, c, cost);
    EvidenceExists(env, a, c, now, t);
    LocalSucceeds(env, a, k, c, now, e, cap, r);
    assert k.auth == a.auth by {
      AddressesAuthority(a, k, c);
    }
    EvidenceSucceeds(env, a, k, r, e, records[e.evidence_id := e]);
    TransitionSucceeds(env, s, c, cost);
  }

  lemma AddressesAuthority(a: Authority.Settings, k: Sink.Settings, c: CandidateAct)
    requires Addresses(a, k, c)
    ensures k.auth == a.auth
  {
  }

  /** Verify completeness: the capability verifies at every matching sink, at every time from issue less
      skew to the earlier end of freshness and lifetime. */
  lemma VerifyCompleteness(env: Env, a: Authority.Settings, s: State.Protected, records: Records, c: CandidateAct,
                           cost: int, now: int, t: StateTransition, e: ValidationEvidence, cap: Capability,
                           k: Sink.Settings, at: int)
    requires EnvLaws(env) && Policy.Admits(a.policy, c, now) && Canonicalizable(env, a, c)
    requires IsIssued(env, a, s, records, c, cost, now, t, e, cap)
    requires Matches(a, k, c) && WhileValid(a, k, c, now, at)
    ensures var (s', records', _) := Authority.Authorize(env, a, s, records, false, c, cost, now);
      Sink.Verify(env, k, Sink.Request(c, cap, at, None), records', s') == Ok(())
  {
    hide EnvLaws, Policy.Admits, Canonicalizable, IsIssued, Addresses, WhileValid, Authority.Authorize, Sink.Verify;
    hide CandidateDigest;
    IssuedVerifies(env, a, s, records, c, cost, now, t, e, cap, k, Sink.Request(c, cap, at, None));
  }

  // ---- Strict sinks ----

  /** The act names the presenter, and the sink knows its key. */
  predicate IsPresenter(k: Sink.Settings, c: CandidateAct, presenter: Authenticator) {
    && Get(c.authority_context, Lit("presenter_key_id")) == Some(Str(presenter.key_id))
    && k.presenters.Some? && presenter.key_id in k.presenters.value
    && k.presenters.value[presenter.key_id] == presenter
  }

  lemma {:induction false} GetAccepted(nfc: Nfc, es: seq<Pair<Key, Value>>, name: Text)
    requires NormalizeEntries(nfc, es, false).Some? && Get(es, name).Some?
    ensures Normalize(nfc, Get(es, name).value, false).Some?
  {
    if es[0].key != StrKey(name) {
      GetAccepted(nfc, es[1..], name);
    }
  }

  lemma PresenterScalars(env: Env, k: Sink.Settings, c: CandidateAct, presenter: Authenticator)
    requires CandidateDigest(env, c).Some? && IsPresenter(k, c, presenter)
    ensures Scalars(presenter.key_id)
  {
    hide CandidateDigest, Lit, CandidateValues, Get;
    CandidateFieldsAccepted(env, c);
    ContextAt(c);
    assert Normalize(env.nfc, CandidateValues(c)[16], false).Some?;
    GetAccepted(env.nfc, c.authority_context, Lit("presenter_key_id"));
  }

  lemma ContextAt(c: CandidateAct)
    ensures CandidateValues(c)[16] == Dict(c.authority_context)
  {
    hide StatusText, Texts;
  }

  /** A signed capability has a printable id. */
  lemma IdScalars(env: Env, a: Authority.Settings, c: CandidateAct, now: int, e: ValidationEvidence, cap: Capability)
    requires IsCapabilityFor(env, a, c, now, e, cap)
    ensures Scalars(cap.capability_id)
  {
    hide CapabilityValues, FieldsOf;
    var names, vs := ["capability_id"] + CAPABILITY_FIELDS, [Str(cap.capability_id)] + CapabilityValues(cap);
    assert Canon(env, CapabilityUnsigned(cap)).Some?;
    FieldAccepted(env.nfc, names, vs, 0);
    assert vs[0] == Str(cap.capability_id);
  }

  lemma ProofExists(env: Env, presenter: Authenticator, id: Text, digest: Text, sink: Text, boundary: Text,
                    nonce: Text, now: int)
    requires EnvLaws(env) && Scalars(id) && Scalars(digest) && Scalars(sink) && Scalars(boundary) && Scalars(nonce)
    requires Scalars(presenter.key_id)
    ensures ProofBy(env, presenter, id, digest, sink, boundary, nonce, now).Some?
  {
    ProofNames();
    AcceptedRecord(env, PROOF_FIELDS, ProofValues(PresentationProof(
      id, digest, sink, boundary, nonce, now, presenter.key_id, [])));
  }

  lemma ProofAccepted(env: Env, k: Sink.Settings, r: Sink.Request, presenter: Authenticator, shown: int)
    requires EnvLaws(env) && IsPresenter(k, r.candidate, presenter) && r.proof.Some?
    requires CandidateDigest(env, r.candidate) == Some(r.cap.candidate_digest) && r.cap.nonce == r.candidate.nonce
    requires Sink.Abs(r.now - shown) <= k.presentation_freshness_ns
    requires r.proof == ProofBy(env, presenter, r.cap.capability_id, r.cap.candidate_digest, k.context.sink_id,
                              k.context.boundary_id, r.cap.nonce, shown)
    ensures Sink.CheckProof(env, k, r, CandidateDigest(env, r.candidate)) == Ok(())
  {
    hide CandidateDigest, Canon, Get, Lit, FieldsOf;
    var p := r.proof.value;
    assert ProofValues(p) == ProofValues(p.(signature := []));
    assert IsAscii(p.signature);
  }

  /** Verify completeness in strict mode: with a fresh proof by the presenter that the act names and the sink
      knows, which that presenter can always make, the capability verifies at sinks that demand one too. */
  lemma StrictCompleteness(env: Env, a: Authority.Settings, s: State.Protected, records: Records, c: CandidateAct,
                           cost: int, now: int, t: StateTransition, e: ValidationEvidence, cap: Capability,
                           k: Sink.Settings, presenter: Authenticator, shown: int, at: int)
    requires EnvLaws(env) && Policy.Admits(a.policy, c, now) && Canonicalizable(env, a, c)
    requires IsIssued(env, a, s, records, c, cost, now, t, e, cap)
    requires Addresses(a, k, c) && WhileValid(a, k, c, now, at)
    requires IsPresenter(k, c, presenter) && Sink.Abs(at - shown) <= k.presentation_freshness_ns
    ensures var (s', records', _) := Authority.Authorize(env, a, s, records, false, c, cost, now);
      var proof := ProofBy(env, presenter, cap.capability_id, cap.candidate_digest, c.sink_id, c.boundary_id, c.nonce,
                           shown);
      proof.Some? && Sink.Verify(env, k, Sink.Request(c, cap, at, proof), records', s') == Ok(())
  {
    hide EnvLaws, Policy.Admits, WhileValid, State.Authorize, Authority.Authorize, Authority.MakeEvidence, Sink.Verify;
    hide CandidateDigest, DescriptorDigest, CapabilityUnsigned, EvidenceUnsigned, Digest, ProofBy, IsPresenter;
    hide Sink.CheckProof, Canon;
    var proof := ProofBy(env, presenter, cap.capability_id, cap.candidate_digest, c.sink_id, c.boundary_id, c.nonce,
                         shown);
    RecordedIsPlain(env, s, c, cost);
    EvidenceExists(env, a, c, now, t);
    CandidateTexts(env, c);
    CandidateDigestPlain(env, c);
    PlainIsScalars(cap.candidate_digest);
    PresenterScalars(env, k, c, presenter);
    IdScalars(env, a, c, now, e, cap);
    ProofExists(env, presenter, cap.capability_id, cap.candidate_digest, c.sink_id, c.boundary_id, c.nonce, shown);
    var r := Sink.Request(c, cap, at, proof);
    ProofAccepted(env, k, r, presenter, shown);
    IssuedVerifies(env, a, s, records, c, cost, now, t, e, cap, k, r);
  }
}
