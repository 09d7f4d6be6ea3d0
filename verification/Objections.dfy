/** What the portable verifiers object to (the messages of go/cmd/finalityverify/main.go): they pass a case
    exactly when there is no objection to it. */
module Objections {
  import opened Wrappers
  import opened Unicode
  import opened Values
  import opened Canonical
  import opened Laws
  import opened Models
  import opened Binding
  import opened ThreeWay
  import opened NodeAgreement
  import opened Bundles
  import opened BundleVerdicts
  import Go = GoCanonical

  datatype Objection =
    | ActEffective | CandidateNotInCapability | CandidateNotInEvidence | PayloadDiffers
    | DescriptorNotInCapability | DescriptorNotInEvidence | DescriptorDiffers
    | TransitionIdDiffers | TransitionInvalid | TransitionNotInCapability | TransitionNotInEvidence
    | EvidenceForged | EvidenceIdDiffers | EvidenceDenies | CapabilityForged | CapabilityIdDiffers
    | SinkDiffers | BoundaryDiffers | EpochDiffers | NonceDiffers | AuthorityDiffers
    | ScopeDiffers | ScopeUnsupported | EffectClassDiffers | OutlivesCandidate

  /** The candidate with the payload and the context that the case has. */
  function Act(b: Bundle): CandidateAct {
    b.c.(payload := ToPython(b.payload), authority_context := ToPythonEntries(b.context))
  }

  /** The hash of the bytes that the authority's language makes in the portable profile. */
  function PortableHash(env: Env, v: Value): Option<Text> {
    var bytes :- CanonicalBytes(env.nfc, v, true);
    Some(env.hash(bytes))
  }

  function PortableMac(env: Env, key: Bytes, v: Value): Option<Text> {
    var bytes :- CanonicalBytes(env.nfc, v, true);
    Some(env.mac(key, bytes))
  }

  function CandidateHash(env: Env, b: Bundle): Option<Text> { PortableHash(env, CandidateValue(Act(b))) }

  /** The descriptor of the candidate at the sink of the case. */
  function DescriptorHash(env: Env, b: Bundle): Option<Text> {
    var d :- PortableHash(env, ToPython(b.payload));
    PortableHash(env, HCADValue(HCAD(Act(b), b.ctx.sink_id, b.ctx.boundary_id, d)))
  }

  function TransitionHashOf(env: Env, b: Bundle): Option<Text> {
    var d :- CandidateHash(env, b);
    PortableHash(env, TransitionCore(b.t, d))
  }

  predicate DigestObjects(env: Env, b: Bundle, o: Objection) {
    match o
    case CandidateNotInCapability => CandidateHash(env, b) != Some(b.cap.candidate_digest)
    case CandidateNotInEvidence => CandidateHash(env, b) != Some(b.e.candidate_digest)
    case PayloadDiffers => PortableHash(env, ToPython(b.payload)) != Some(b.h.payload_digest)
    case DescriptorNotInCapability => DescriptorHash(env, b) != Some(b.cap.descriptor_digest)
    case DescriptorNotInEvidence => DescriptorHash(env, b) != Some(b.e.descriptor_digest)
    case DescriptorDiffers =>
      DescriptorHash(env, b).None? || PortableHash(env, HCADValue(b.h)) != DescriptorHash(env, b)
    case TransitionIdDiffers => TransitionHashOf(env, b) != Some(b.t.transition_id)
    case EvidenceForged => PortableMac(env, b.key, EvidenceUnsigned(b.e)) != Some(b.e.signature)
    case EvidenceIdDiffers => PortableHash(env, EvidenceCore(b.e)) != Some(b.e.evidence_id)
    case CapabilityForged => PortableMac(env, b.key, CapabilityUnsigned(b.cap)) != Some(b.cap.signature)
    case CapabilityIdDiffers => PortableHash(env, CapabilityCore(b.cap)) != Some(b.cap.capability_id)
    case _ => false
  }

  /** What can be seen without hashing. */
  predicate FieldObjects(b: Bundle, o: Objection) {
    match o
    case ActEffective => b.c.status == EFFECTIVE
    case TransitionInvalid =>
      || b.t.after_version - b.t.before_version != 1 || b.t.quota_before - b.t.quota_after != 1
      || b.t.budget_before <= b.t.budget_after
    case TransitionNotInCapability => b.cap.transition_id != b.t.transition_id
    case TransitionNotInEvidence => b.e.transition_id != b.t.transition_id
    case EvidenceDenies => b.e.decision == DENY
    case SinkDiffers => b.ctx.sink_id != b.cap.sink_id
    case BoundaryDiffers => b.ctx.boundary_id != b.cap.boundary_id
    case EpochDiffers => b.ctx.policy_epoch != b.cap.policy_epoch
    case NonceDiffers => b.c.nonce != b.cap.nonce
    case AuthorityDiffers => b.e.authority_id != b.cap.authority_id
    case ScopeDiffers => b.c.scope != b.cap.scope
    case ScopeUnsupported => exists t :: t in b.cap.scope && t !in b.ctx.supported_scopes
    case EffectClassDiffers => b.ctx.effect_class != b.c.effect_class
    case OutlivesCandidate => b.c.issued_at_ns + b.c.freshness_ns < b.cap.expires_at_ns
    case _ => false
  }

  predicate Objects(env: Env, b: Bundle, o: Objection) { DigestObjects(env, b, o) || FieldObjects(b, o) }

  // ---- The fields ----

  lemma StatusObjections(b: Bundle)
    ensures FieldObjects(b, ActEffective) <==> b.c.status != NON_EFFECTIVE
    ensures FieldObjects(b, EvidenceDenies) <==> b.e.decision != ALLOW
    ensures FieldObjects(b, TransitionNotInCapability) <==> b.t.transition_id != b.cap.transition_id
    ensures FieldObjects(b, TransitionNotInEvidence) <==> b.t.transition_id != b.e.transition_id
  {
  }

  lemma BindingObjections(b: Bundle)
    ensures FieldObjects(b, SinkDiffers) <==> b.cap.sink_id != b.ctx.sink_id
    ensures FieldObjects(b, BoundaryDiffers) <==> b.cap.boundary_id != b.ctx.boundary_id
    ensures FieldObjects(b, NonceDiffers) <==> b.cap.nonce != b.c.nonce
    ensures FieldObjects(b, AuthorityDiffers) <==> b.cap.authority_id != b.e.authority_id
    ensures FieldObjects(b, EffectClassDiffers) <==> b.c.effect_class != b.ctx.effect_class
  {
  }

  lemma TextsExact(b: Bundle)
    ensures TextsOk(b) <==>
              && !FieldObjects(b, ActEffective) && !FieldObjects(b, EvidenceDenies)
              && !FieldObjects(b, TransitionNotInCapability) && !FieldObjects(b, TransitionNotInEvidence)
              && !FieldObjects(b, SinkDiffers) && !FieldObjects(b, BoundaryDiffers) && !FieldObjects(b, NonceDiffers)
              && !FieldObjects(b, AuthorityDiffers) && !FieldObjects(b, EffectClassDiffers)
  {
    hide FieldObjects;
    StatusObjections(b);
    BindingObjections(b);
  }

  lemma ScopeExact(b: Bundle)
    ensures ScopeOk(b) <==> !FieldObjects(b, ScopeDiffers) && !FieldObjects(b, ScopeUnsupported)
  {
    if ScopeOk(b) {
      forall t | t in b.cap.scope ensures t in b.ctx.supported_scopes {
        var i :| 0 <= i < |b.cap.scope| && b.cap.scope[i] == t;
      }
    }
    if !FieldObjects(b, ScopeUnsupported) {
      forall i | 0 <= i < |b.cap.scope| ensures b.cap.scope[i] in b.ctx.supported_scopes {
        assert b.cap.scope[i] in b.cap.scope;
      }
    }
  }

  /** Safe numbers fit 64 bits, and so do their sums. */
  lemma NumbersExact(b: Bundle)
    requires SafeNumbers(b)
    ensures GoNumbersOk(b) <==>
              && !FieldObjects(b, TransitionInvalid) && !FieldObjects(b, EpochDiffers)
              && !FieldObjects(b, OutlivesCandidate)
  {
    hide Wrap64;
    WrapSmall(b.c.issued_at_ns + b.c.freshness_ns);
    WrapSmall(b.t.before_version + 1);
    WrapSmall(b.t.quota_before - 1);
  }

  lemma FieldsExact(b: Bundle)
    requires SafeNumbers(b)
    ensures TextsOk(b) && ScopeOk(b) && GoNumbersOk(b) <==> forall o :: !FieldObjects(b, o)
  {
    hide TextsOk, ScopeOk, GoNumbersOk;
    TextsExact(b);
    ScopeExact(b);
    NumbersExact(b);
    if TextsOk(b) && ScopeOk(b) && GoNumbersOk(b) {
      forall o ensures !FieldObjects(b, o) {
        match o
        case _ =>
      }
    }
  }

  // ---- The digests ----

  lemma SamePortable(env: Env, p: Portable, v: Value)
    requires NfcLaws(env.nfc) && Transportable(p)
    requires CanonicalBytes(env.nfc, ToPython(p), true) == CanonicalBytes(env.nfc, v, true)
    ensures GoSha(env, p) == PortableHash(env, v)
    ensures forall key :: GoMac(env, key, p) == PortableMac(env, key, v)
  {
    hide CanonicalBytes, Go.Encode, ToGo, ToPython, Transportable;
    GoAgrees(env.nfc, p);
  }

  /** Act(b) only repeats what the case says of the payload and the context. */
  lemma CandidatePortable(env: Env, b: Bundle)
    requires NfcLaws(env.nfc) && Carried(CandidateDoc(b))
    ensures GoSha(env, CandidateDoc(b)) == CandidateHash(env, b)
  {
    hide CanonicalBytes, Carried, GoSha, CandidateValue, OfField, CandidateValues;
    var f := b.(c := Act(b));
    ActValues(b);
    assert CandidateDoc(f) == CandidateDoc(b);
    CandidateDocBytes(env, f, true);
    assert Transportable(CandidateDoc(b)) by { CarriedIsTransportable(CandidateDoc(b)); }
    SamePortable(env, CandidateDoc(b), CandidateValue(Act(b)));
  }

  lemma CarriedIsTransportable(p: Portable)
    requires Carried(p)
    ensures Transportable(p)
  {
  }

  lemma ActValues(b: Bundle)
    ensures OfFields(CandidateValues(Act(b)))[14 := b.payload][16 := PObject(b.context)]
            == OfFields(CandidateValues(b.c))[14 := b.payload][16 := PObject(b.context)]
  {
    hide OfField;
    var vs, ws := CandidateValues(Act(b)), CandidateValues(b.c);
    assert forall i :: 0 <= i < |vs| && i != 14 && i != 16 ==> vs[i] == ws[i];
  }

  lemma DescriptorPortable(env: Env, b: Bundle)
    requires EnvLaws(env) && CarriedBundle(b)
    ensures GoSha(env, b.payload) == PortableHash(env, ToPython(b.payload))
    ensures GoDigests(env, b).descriptor == DescriptorHash(env, b)
    ensures GoDigests(env, b).hcad == PortableHash(env, HCADValue(b.h))
  {
    hide CanonicalBytes, Carried, GoSha, HCADValues, Dropping, EnvLaws, CandidateValues;
    LawsOfNfc(env);
    CarriedIsTransportable(b.payload);
    CarriedIsTransportable(HCADDoc(b.h));
    SamePortable(env, b.payload, ToPython(b.payload));
    HCADIsFields(b.h);
    FieldDocBytes(env.nfc, HCAD_FIELDS, HCADValues(b.h), true);
    SamePortable(env, HCADDoc(b.h), HCADValue(b.h));
    GoShaIsPlain(env, b.payload);
    var pd := GoSha(env, b.payload);
    if pd.Some? {
      var h := HCAD(b.c, b.ctx.sink_id, b.ctx.boundary_id, pd.value);
      RebuiltCarried(b, pd.value);
      CarriedIsTransportable(RebuiltDoc(b, pd.value));
      HCADIsFields(h);
      FieldDocBytes(env.nfc, HCAD_FIELDS, HCADValues(h), true);
      SamePortable(env, HCADDoc(h), HCADValue(h));
      ActDescriptor(b, pd.value);
    }
  }

  lemma ActDescriptor(b: Bundle, pd: Text)
    ensures HCADValue(HCAD(Act(b), b.ctx.sink_id, b.ctx.boundary_id, pd))
            == HCADValue(HCAD(b.c, b.ctx.sink_id, b.ctx.boundary_id, pd))
  {
    hide FieldsOf, Lit, Texts;
  }

  lemma TransitionPortable(env: Env, b: Bundle)
    requires EnvLaws(env) && CarriedBundle(b)
    ensures GoDigests(env, b).transition == TransitionHashOf(env, b)
  {
    hide CanonicalBytes, Carried, GoSha, GoMac, Dropping, EnvLaws, TransitionValues, CandidateDoc, CandidateHash;
    hide CandidateValue;
    LawsOfNfc(env);
    CandidatePortable(env, b);
    GoShaIsPlain(env, CandidateDoc(b));
    var cd := GoSha(env, CandidateDoc(b));
    if cd.Some? {
      TransitionCarried(b.t, b.t.transition_id, cd.value);
      CarriedIsTransportable(TransitionDoc(b.t, cd.value));
      TransitionIsFields(b.t, cd.value);
      FieldDocBytes(env.nfc, TRANSITION_FIELDS, TransitionValues(b.t, cd.value), true);
      SamePortable(env, TransitionDoc(b.t, cd.value), TransitionCore(b.t, cd.value));
    }
  }

  lemma TransitionIsFields(t: StateTransition, d: Text)
    ensures forall i :: 0 <= i < |TransitionValues(t, d)| ==> IsField(TransitionValues(t, d)[i])
  {
  }

  lemma EvidencePortable(env: Env, b: Bundle)
    requires EnvLaws(env) && CarriedBundle(b)
    ensures GoDigests(env, b).evidence_mac == PortableMac(env, b.key, EvidenceUnsigned(b.e))
    ensures GoDigests(env, b).evidence_id == PortableHash(env, EvidenceCore(b.e))
  {
    hide CanonicalBytes, Carried, GoSha, GoMac, EnvLaws, Dropping, EvidenceEntries, EvidenceValues, OfField;
    hide RebuiltDoc, CandidateDoc, HCADDoc, TransitionDoc;
    LawsOfNfc(env);
    var eu := Dropping(EvidenceEntries(b.e), Lit("signature"));
    EvidenceUnsignedEntries(b.e);
    DroppingCarried(EvidenceEntries(b.e), Lit("signature"));
    DroppingCarried(eu, Lit("evidence_id"));
    CarriedIsTransportable(PObject(eu));
    CarriedIsTransportable(PObject(Dropping(eu, Lit("evidence_id"))));
    RecordFields(b);
    FieldDocBytes(env.nfc, EVIDENCE_FIELDS, EvidenceValues(b.e), true);
    FieldDocBytes(env.nfc, ["evidence_id"] + EVIDENCE_FIELDS, [Str(b.e.evidence_id)] + EvidenceValues(b.e), true);
    SamePortable(env, PObject(eu), EvidenceUnsigned(b.e));
    SamePortable(env, PObject(Dropping(eu, Lit("evidence_id"))), EvidenceCore(b.e));
  }

  lemma CapabilityPortable(env: Env, b: Bundle)
    requires EnvLaws(env) && CarriedBundle(b)
    ensures GoDigests(env, b).cap_mac == PortableMac(env, b.key, CapabilityUnsigned(b.cap))
    ensures GoDigests(env, b).cap_id == PortableHash(env, CapabilityCore(b.cap))
  {
    hide CanonicalBytes, Carried, GoSha, GoMac, EnvLaws, Dropping, CapabilityEntries, CapabilityValues, OfField;
    hide RebuiltDoc, CandidateDoc, HCADDoc, TransitionDoc;
    LawsOfNfc(env);
    var cu := Dropping(CapabilityEntries(b.cap), Lit("signature"));
    CapabilityUnsignedEntries(b.cap);
    DroppingCarried(CapabilityEntries(b.cap), Lit("signature"));
    DroppingCarried(cu, Lit("capability_id"));
    CarriedIsTransportable(PObject(cu));
    CarriedIsTransportable(PObject(Dropping(cu, Lit("capability_id"))));
    RecordFields(b);
    FieldDocBytes(env.nfc, CAPABILITY_FIELDS, CapabilityValues(b.cap), true);
    FieldDocBytes(env.nfc, ["capability_id"] + CAPABILITY_FIELDS, [Str(b.cap.capability_id)] + CapabilityValues(b.cap),
                  true);
    SamePortable(env, PObject(cu), CapabilityUnsigned(b.cap));
    SamePortable(env, PObject(Dropping(cu, Lit("capability_id"))), CapabilityCore(b.cap));
  }

  /** What is hashed, in the terms of the authority. */
  lemma DigestsPortable(env: Env, b: Bundle)
    requires EnvLaws(env) && CarriedBundle(b)
    ensures GoDigests(env, b) == Digests(
                                   CandidateHash(env, b), PortableHash(env, ToPython(b.payload)),
                                   DescriptorHash(env, b), PortableHash(env, HCADValue(b.h)), TransitionHashOf(env, b),
                                   PortableMac(env, b.key, EvidenceUnsigned(b.e)), PortableHash(env, EvidenceCore(b.e)),
                                   PortableMac(env, b.key, CapabilityUnsigned(b.cap)),
                                   PortableHash(env, CapabilityCore(b.cap)))
  {
    hide GoSha, GoMac, Carried, EnvLaws, CandidateHash, DescriptorHash, TransitionHashOf, PortableHash, PortableMac;
    hide Dropping, CandidateDoc, HCADDoc, RebuiltDoc, TransitionDoc, EvidenceEntries, CapabilityEntries;
    LawsOfNfc(env);
    CandidatePortable(env, b);
    DescriptorPortable(env, b);
    TransitionPortable(env, b);
    EvidencePortable(env, b);
    CapabilityPortable(env, b);
  }

  lemma CandidateObjections(env: Env, b: Bundle)
    ensures DigestObjects(env, b, CandidateNotInCapability) <==> CandidateHash(env, b) != Some(b.cap.candidate_digest)
    ensures DigestObjects(env, b, CandidateNotInEvidence) <==> CandidateHash(env, b) != Some(b.e.candidate_digest)
    ensures DigestObjects(env, b, PayloadDiffers) <==>
              PortableHash(env, ToPython(b.payload)) != Some(b.h.payload_digest)
    ensures DigestObjects(env, b, TransitionIdDiffers) <==> TransitionHashOf(env, b) != Some(b.t.transition_id)
  {
    hide CandidateHash, TransitionHashOf, PortableHash, PortableMac;
  }

  lemma DescriptorObjections(env: Env, b: Bundle)
    ensures DigestObjects(env, b, DescriptorNotInCapability) <==>
              DescriptorHash(env, b) != Some(b.cap.descriptor_digest)
    ensures DigestObjects(env, b, DescriptorNotInEvidence) <==> DescriptorHash(env, b) != Some(b.e.descriptor_digest)
    ensures DigestObjects(env, b, DescriptorDiffers) <==>
              DescriptorHash(env, b).None? || PortableHash(env, HCADValue(b.h)) != DescriptorHash(env, b)
  {
    hide DescriptorHash, PortableHash, PortableMac;
  }

  lemma RecordObjections(env: Env, b: Bundle)
    ensures DigestObjects(env, b, EvidenceForged) <==>
              PortableMac(env, b.key, EvidenceUnsigned(b.e)) != Some(b.e.signature)
    ensures DigestObjects(env, b, EvidenceIdDiffers) <==> PortableHash(env, EvidenceCore(b.e)) != Some(b.e.evidence_id)
    ensures DigestObjects(env, b, CapabilityForged) <==>
              PortableMac(env, b.key, CapabilityUnsigned(b.cap)) != Some(b.cap.signature)
    ensures DigestObjects(env, b, CapabilityIdDiffers) <==>
              PortableHash(env, CapabilityCore(b.cap)) != Some(b.cap.capability_id)
  {
    hide PortableHash, PortableMac;
  }

  lemma DigestsExact(env: Env, b: Bundle)
    requires EnvLaws(env) && CarriedBundle(b)
    ensures DigestsOk(b, GoDigests(env, b)) <==> forall o :: !DigestObjects(env, b, o)
  {
    hide GoDigests, EnvLaws, CarriedBundle, CandidateHash, DescriptorHash, TransitionHashOf, PortableHash, PortableMac;
    DigestsPortable(env, b);
    if DigestsOk(b, GoDigests(env, b)) {
      forall o ensures !DigestObjects(env, b, o) {
      }
    }
    if forall o :: !DigestObjects(env, b, o) {
      hide DigestObjects;
      CandidateObjections(env, b);
      DescriptorObjections(env, b);
      RecordObjections(env, b);
    }
  }

  // ---- The verdicts ----

  /** The Go verifier passes a readable case exactly if there is no objection to it. */
  lemma GoPassesExact(env: Env, b: Bundle)
    requires EnvLaws(env) && ReadableBundle(b)
    ensures GoPasses(env, b) <==> forall o :: !Objects(env, b, o)
  {
    hide EnvLaws, ReadableBundle, CarriedBundle, IntegralBundle, GoDigests, DigestsOk, TextsOk, ScopeOk, GoNumbersOk;
    hide DigestObjects, FieldObjects;
    if IntegralBundle(b) {
      GoRejectsIntegral(env, b);
      FloatObjection(env, b);
      assert Objects(env, b, CandidateNotInCapability);
    } else {
      ReadableIsCarried(b);
      DigestsExact(env, b);
      if DigestsOk(b, GoDigests(env, b)) {
        DigestsMakeSafe(env, b);
        FieldsExact(b);
        if forall o :: !Objects(env, b, o) {
          forall o ensures !FieldObjects(b, o) {
            assert !Objects(env, b, o);
          }
        }
      } else {
        var o :| DigestObjects(env, b, o);
        assert Objects(env, b, o);
      }
    }
  }

  lemma FloatObjection(env: Env, b: Bundle)
    requires EnvLaws(env) && ReadableBundle(b) && IntegralBundle(b)
    ensures DigestObjects(env, b, CandidateNotInCapability)
  {
    hide CanonicalBytes, CandidateValue, Transportable, HasIntegralFloat, HasFloat, CandidateDoc, IntegralBundle;
    hide EnvLaws;
    CandidateIntegral(b);
    IntegralFloatIsFloat(CandidateDoc(b));
    FloatsRejected(env.nfc, CandidateDoc(b));
    ActBytes(env, b);
    NoForm(env.nfc, ToPython(CandidateDoc(b)));
    assert CandidateHash(env, b).None?;
    hide PortableHash, PortableMac;
    CandidateObjections(env, b);
  }

  lemma NoForm(nfc: Nfc, v: Value)
    requires Normalize(nfc, v, true).None?
    ensures CanonicalBytes(nfc, v, true).None?
  {
  }

  lemma ActBytes(env: Env, b: Bundle)
    ensures CanonicalBytes(env.nfc, ToPython(CandidateDoc(b)), true)
            == CanonicalBytes(env.nfc, CandidateValue(Act(b)), true)
  {
    hide CanonicalBytes, CandidateValue, OfField, CandidateValues;
    ActValues(b);
    var f := b.(c := Act(b));
    assert CandidateDoc(f) == CandidateDoc(b);
    CandidateDocBytes(env, f, true);
  }

  /** The Node verifier passes it exactly if there is no objection once floats that are safe integers are
      written as such. */
  lemma NodePassesExact(env: Env, round: int -> int, b: Bundle)
    requires EnvLaws(env) && IsRounding(round) && ReadableBundle(b)
    ensures NodePasses(env, round, b) <==> forall o :: !Objects(env, IntegerizedBundle(b), o)
  {
    hide EnvLaws, IsRounding, ReadableBundle, IntegerizedBundle, GoPasses, NodePasses, Objects;
    PortableVerifiersAgree(env, round, b);
    IntegerizedIsReadable(b);
    GoPassesExact(env, IntegerizedBundle(b));
  }

  lemma IntegerizedIsReadable(b: Bundle)
    requires ReadableBundle(b)
    ensures ReadableBundle(IntegerizedBundle(b))
  {
    hide Transportable, HasIntegralFloat, CandidateDoc, HCADDoc, TransitionDoc, EvidenceEntries, CapabilityEntries;
    hide Integerized, Scalars;
    IntegerizedIsCarried(b);
  }
}
