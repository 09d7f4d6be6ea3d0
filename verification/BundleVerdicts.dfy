/** When Go and Node reach the same verdict: on every case in which no float is a safe integer, and exactly
    when otherwise. On honest cases theirs is the verdict of the sink. */
module BundleVerdicts {
  import opened Wrappers
  import opened Sorting
  import opened Unicode
  import opened Values
  import opened Canonical
  import opened Laws
  import opened Models
  import opened Binding
  import opened Stability
  import opened Agreement
  import opened Verdicts
  import opened Completeness
  import opened ThreeWay
  import opened NodeAgreement
  import opened Bundles
  import Go = GoCanonical
  import Authority
  import Policy
  import Sink
  import State
  import opened Stores

  // ---- Go and Node ----

  /** Every number that is compared, apart from the sink's epoch. */
  predicate SafeNumbers(b: Bundle) {
    && IsSafe(b.t.before_version) && IsSafe(b.t.after_version) && IsSafe(b.t.quota_before) && IsSafe(b.t.quota_after)
    && IsSafe(b.t.budget_before) && IsSafe(b.t.budget_after)
    && IsSafe(b.cap.policy_epoch) && IsSafe(b.cap.expires_at_ns) && IsSafe(b.c.issued_at_ns) && IsSafe(b.c.freshness_ns)
  }

  lemma CandidateSafe(env: Env, b: Bundle)
    requires NfcLaws(env.nfc) && Carried(CandidateDoc(b)) && GoSha(env, CandidateDoc(b)).Some?
    ensures IsSafe(b.c.issued_at_ns) && IsSafe(b.c.freshness_ns)
  {
    hide Carried, Go.Encode, ToGo;
    var vals := OfFields(CandidateValues(b.c))[14 := b.payload][16 := PObject(b.context)];
    assert CandidateValues(b.c)[9] == Int(b.c.issued_at_ns) && CandidateValues(b.c)[10] == Int(b.c.freshness_ns);
    SafeField(env, CANDIDATE_FIELDS, vals, 9, b.c.issued_at_ns);
    SafeField(env, CANDIDATE_FIELDS, vals, 10, b.c.freshness_ns);
  }

  lemma TransitionSafe(env: Env, t: StateTransition, cd: Text)
    requires NfcLaws(env.nfc) && Carried(TransitionDoc(t, cd)) && GoSha(env, TransitionDoc(t, cd)).Some?
    ensures IsSafe(t.before_version) && IsSafe(t.after_version) && IsSafe(t.quota_before) && IsSafe(t.quota_after)
    ensures IsSafe(t.budget_before) && IsSafe(t.budget_after)
  {
    hide Carried, Go.Encode, ToGo, GoSha, TransitionValues;
    var vals := OfFields(TransitionValues(t, cd));
    TransitionInts(t, cd);
    HasBytes(env, TransitionDoc(t, cd));
    SafeField(env, TRANSITION_FIELDS, vals, 2, t.before_version);
    SafeField(env, TRANSITION_FIELDS, vals, 3, t.after_version);
    SafeField(env, TRANSITION_FIELDS, vals, 4, t.quota_before);
    SafeField(env, TRANSITION_FIELDS, vals, 5, t.quota_after);
    SafeField(env, TRANSITION_FIELDS, vals, 6, t.budget_before);
    SafeField(env, TRANSITION_FIELDS, vals, 7, t.budget_after);
  }

  lemma TransitionInts(t: StateTransition, cd: Text)
    ensures var vals := OfFields(TransitionValues(t, cd));
      && vals[2] == PInt(t.before_version) && vals[3] == PInt(t.after_version) && vals[4] == PInt(t.quota_before)
      && vals[5] == PInt(t.quota_after) && vals[6] == PInt(t.budget_before) && vals[7] == PInt(t.budget_after)
  {
  }

  lemma HasBytes(env: Env, p: Portable)
    requires GoSha(env, p).Some?
    ensures Go.Encode(env.nfc, ToGo(p)).Some?
  {
    hide Go.Encode, ToGo;
  }

  /** What is left of a capability object without its signature, and then without its id. */
  lemma CapabilityUnsignedEntries(cap: Capability)
    ensures var cu := Dropping(CapabilityEntries(cap), Lit("signature"));
      && cu == DocEntries(["capability_id"] + CAPABILITY_FIELDS,
                          OfFields([Str(cap.capability_id)] + CapabilityValues(cap)))
      && Dropping(cu, Lit("capability_id")) == DocEntries(CAPABILITY_FIELDS, OfFields(CapabilityValues(cap)))
  {
    hide Dropping, CapabilityValues;
    CapabilityNames();
    UnsignedEntries("capability_id", CAPABILITY_FIELDS, cap.capability_id, CapabilityValues(cap), cap.signature);
  }

  lemma EvidenceUnsignedEntries(e: ValidationEvidence)
    ensures var eu := Dropping(EvidenceEntries(e), Lit("signature"));
      && eu == DocEntries(["evidence_id"] + EVIDENCE_FIELDS, OfFields([Str(e.evidence_id)] + EvidenceValues(e)))
      && Dropping(eu, Lit("evidence_id")) == DocEntries(EVIDENCE_FIELDS, OfFields(EvidenceValues(e)))
  {
    hide Dropping, EvidenceValues;
    EvidenceNames();
    UnsignedEntries("evidence_id", EVIDENCE_FIELDS, e.evidence_id, EvidenceValues(e), e.signature);
  }

  lemma CapabilitySafe(env: Env, key: Bytes, cap: Capability)
    requires NfcLaws(env.nfc) && Carried(PObject(CapabilityEntries(cap)))
    requires GoMac(env, key, PObject(Dropping(CapabilityEntries(cap), Lit("signature")))).Some?
    ensures IsSafe(cap.policy_epoch) && IsSafe(cap.expires_at_ns)
  {
    hide Carried, Go.Encode, ToGo, CapabilityEntries, Dropping;
    CapabilityUnsignedEntries(cap);
    DroppingCarried(CapabilityEntries(cap), Lit("signature"));
    var vs := [Str(cap.capability_id)] + CapabilityValues(cap);
    assert vs[8] == Int(cap.policy_epoch) && vs[12] == Int(cap.expires_at_ns);
    SafeField(env, ["capability_id"] + CAPABILITY_FIELDS, OfFields(vs), 8, cap.policy_epoch);
    SafeField(env, ["capability_id"] + CAPABILITY_FIELDS, OfFields(vs), 12, cap.expires_at_ns);
  }

  /** What passes the comparisons of digests holds safe numbers. */
  lemma DigestsMakeSafe(env: Env, b: Bundle)
    requires EnvLaws(env) && CarriedBundle(b) && DigestsOk(b, GoDigests(env, b))
    ensures SafeNumbers(b)
  {
    hide Carried, GoSha, GoMac, CandidateDoc, HCADDoc, TransitionDoc, EvidenceEntries, CapabilityEntries, Dropping;
    var cd := GoSha(env, CandidateDoc(b));
    CandidateSafe(env, b);
    GoShaIsPlain(env, CandidateDoc(b));
    TransitionCarried(b.t, b.t.transition_id, cd.value);
    TransitionSafe(env, b.t, cd.value);
    CapabilitySafe(env, b.key, b.cap);
  }

  /** On a case without integral floats, whatever else has been tampered with, Go and Node agree. */
  lemma CarriedVerdictsAgree(env: Env, round: int -> int, b: Bundle)
    requires EnvLaws(env) && IsRounding(round) && CarriedBundle(b)
    ensures GoPasses(env, b) == NodePasses(env, round, b)
  {
    hide GoDigests, NodeDigests, CarriedBundle, EnvLaws, IsRounding, GoNumbersOk, NodeNumbersOk;
    DigestsAgree(env, round, b);
    if DigestsOk(b, GoDigests(env, b)) {
      DigestsMakeSafe(env, b);
      NumbersAgree(round, b);
    }
  }

  // ---- Integral floats ----

  /** Texts, numbers and lists of texts have no integral floats. */
  lemma TypedField(v: Value)
    ensures !HasIntegralFloat(OfField(v)) && Integerized(OfField(v)) == OfField(v)
  {
    if v.List? || v.Tuple? {
      var ps := OfTexts(v.items);
      IntegerizedItemsAt(ps);
      assert IntegerizedItems(ps) == ps;
    }
  }

  lemma IntegralEntries(es: seq<Pair<Text, Portable>>)
    ensures HasIntegralFloat(PObject(es)) <==> exists i :: 0 <= i < |es| && HasIntegralFloat(es[i].val)
  {
    if i :| 0 <= i < |es| && HasIntegralFloat(es[i].val) {
      assert es[i] in es && es[i].val < es[i];
    }
  }

  lemma TypedDoc(names: seq<string>, vs: seq<Value>)
    requires |names| == |vs|
    ensures !HasIntegralFloat(DocOf(names, OfFields(vs)))
  {
    hide HasIntegralFloat, OfField;
    var es := DocEntries(names, OfFields(vs));
    IntegralEntries(es);
    forall i | 0 <= i < |es| ensures !HasIntegralFloat(es[i].val) {
      TypedField(vs[i]);
    }
  }

  /** In a candidate only `payload` and `context` can have them. */
  lemma CandidateIntegral(b: Bundle)
    ensures HasIntegralFloat(CandidateDoc(b)) <==> IntegralBundle(b)
  {
    hide HasIntegralFloat, OfField, CandidateValues;
    var vs := CandidateValues(b.c);
    var es := DocEntries(CANDIDATE_FIELDS, OfFields(vs)[14 := b.payload][16 := PObject(b.context)]);
    IntegralEntries(es);
    forall i | 0 <= i < |es| && i != 14 && i != 16 ensures !HasIntegralFloat(es[i].val) {
      TypedField(vs[i]);
    }
    assert es[14].val == b.payload && es[16].val == PObject(b.context);
  }

  lemma CandidateIntegerized(b: Bundle)
    ensures CandidateDoc(IntegerizedBundle(b)) == Integerized(CandidateDoc(b))
  {
    hide OfField, CandidateValues;
    var vs := CandidateValues(b.c);
    var es := DocEntries(CANDIDATE_FIELDS, OfFields(vs)[14 := b.payload][16 := PObject(b.context)]);
    var js := DocEntries(CANDIDATE_FIELDS,
                         OfFields(vs)[14 := Integerized(b.payload)][16 := PObject(IntegerizedEntries(b.context))]);
    IntegerizedEntriesAt(es);
    forall i | 0 <= i < |es| ensures js[i] == Pair(es[i].key, Integerized(es[i].val)) {
      TypedField(vs[i]);
    }
    assert js == IntegerizedEntries(es);
  }

  lemma ReadableIsCarried(b: Bundle)
    requires ReadableBundle(b) && !IntegralBundle(b)
    ensures CarriedBundle(b)
  {
    hide Transportable, HasIntegralFloat, OfFields, HCADValues, TransitionValues, EvidenceValues, CapabilityValues;
    hide CandidateDoc, DocEntries;
    CandidateIntegral(b);
    TypedDoc(HCAD_FIELDS, HCADValues(b.h));
    TypedDoc(TRANSITION_FIELDS, TransitionValues(b.t, b.t.transition_id));
    TypedDoc(["evidence_id"] + EVIDENCE_FIELDS + ["signature"],
             [Str(b.e.evidence_id)] + EvidenceValues(b.e) + [Str(b.e.signature)]);
    TypedDoc(["capability_id"] + CAPABILITY_FIELDS + ["signature"],
             [Str(b.cap.capability_id)] + CapabilityValues(b.cap) + [Str(b.cap.signature)]);
  }

  lemma IntegerizedIsCarried(b: Bundle)
    requires ReadableBundle(b)
    ensures CarriedBundle(IntegerizedBundle(b))
  {
    hide Transportable, HasIntegralFloat, Integerized, CandidateDoc, HCADDoc, TransitionDoc, EvidenceEntries;
    hide CapabilityEntries, CarriedBundle, Scalars;
    var ib := IntegerizedBundle(b);
    IntegerizedCarries(CandidateDoc(b));
    IntegerizedCarries(b.payload);
    CandidateIntegerized(b);
    CandidateIntegral(ib);
    ReadableIsCarried(ib);
  }

  /** Node reads integers in both cases. */
  lemma NodeReadsIntegers(env: Env, round: int -> int, b: Bundle)
    requires IsRounding(round)
    ensures NodePasses(env, round, IntegerizedBundle(b)) == NodePasses(env, round, b)
  {
    hide ToNode, Integerized, CandidateDoc, HCADDoc, RebuiltDoc, TransitionDoc, EvidenceEntries, CapabilityEntries;
    hide Dropping, Node.CanonicalBytes, IsRounding;
    CandidateIntegerized(b);
    IntegerizedToNode(round, CandidateDoc(b));
    IntegerizedToNode(round, b.payload);
    RebuiltAlike(b);
    hide NodeSha, NodeMac;
    assert NodeDigests(env, round, IntegerizedBundle(b)) == NodeDigests(env, round, b);
  }

  lemma RebuiltAlike(b: Bundle)
    ensures forall pd :: RebuiltDoc(IntegerizedBundle(b), pd) == RebuiltDoc(b, pd)
  {
  }

  lemma GoRejectsIntegral(env: Env, b: Bundle)
    requires EnvLaws(env) && ReadableBundle(b) && IntegralBundle(b)
    ensures !GoPasses(env, b)
  {
    CandidateIntegral(b);
    IntegralFloatIsFloat(CandidateDoc(b));
    FloatsRejected(env.nfc, CandidateDoc(b));
    LawsOfNfc(env);
    hide Go.Encode, ToGo, CandidateDoc, HasIntegralFloat, HasFloat, Transportable, ToPython, EnvLaws, NfcLaws;
    GoAgrees(env.nfc, CandidateDoc(b));
    assert GoSha(env, CandidateDoc(b)).None?;
    hide GoSha, GoMac, RebuiltDoc, HCADDoc, TransitionDoc, EvidenceEntries, CapabilityEntries, Dropping, IntegralBundle;
  }

  /** The portable verifiers, on every readable case, whatever has been tampered with: Node's verdict is
      Go's verdict on the integerized case. Where no float in `payload` or `context` is a safe integer the two
      agree without further ado; where one is, Go rejects, and they agree exactly if the case has another
      fault, for which Go rejects the integerized case too. */
  lemma PortableVerifiersAgree(env: Env, round: int -> int, b: Bundle)
    requires EnvLaws(env) && IsRounding(round) && ReadableBundle(b)
    ensures NodePasses(env, round, b) == GoPasses(env, IntegerizedBundle(b))
    ensures GoPasses(env, b) == NodePasses(env, round, b)
            <==> !IntegralBundle(b) || !GoPasses(env, IntegerizedBundle(b))
  {
    hide GoPasses, NodePasses, ReadableBundle, CarriedBundle, IntegralBundle, IntegerizedBundle, EnvLaws, IsRounding;
    IntegerizedIsCarried(b);
    CarriedVerdictsAgree(env, round, IntegerizedBundle(b));
    NodeReadsIntegers(env, round, b);
    if IntegralBundle(b) {
      GoRejectsIntegral(env, b);
    } else {
      ReadableIsCarried(b);
      CarriedVerdictsAgree(env, round, b);
    }
  }

  /** The payload `1` of a case that passes, rewritten as `1.0`: Node passes the case and Go rejects it. */
  lemma RewrittenPayload(env: Env, round: int -> int, b: Bundle)
    requires EnvLaws(env) && IsRounding(round) && ReadableBundle(b)
    requires b.payload == PInt(1) && GoPasses(env, b)
    ensures var rewritten := b.(payload := PReal(1.0, Lit("1.0")));
      !GoPasses(env, rewritten) && NodePasses(env, round, rewritten)
  {
    hide GoPasses, NodePasses, ReadableBundle, IntegralBundle, IntegerizedBundle, EnvLaws, IsRounding, Lit;
    var rewritten := b.(payload := PReal(1.0, Lit("1.0")));
    RewrittenReadable(b);
    RewrittenIntegral(b);
    PortableVerifiersAgree(env, round, b);
    if IntegralBundle(b) {
      GoRejectsIntegral(env, b);
    }
    PortableVerifiersAgree(env, round, rewritten);
    GoRejectsIntegral(env, rewritten);
  }

  lemma RewrittenIntegral(b: Bundle)
    requires b.payload == PInt(1)
    ensures var rewritten := b.(payload := PReal(1.0, Lit("1.0")));
      IntegralBundle(rewritten) && IntegerizedBundle(rewritten) == IntegerizedBundle(b)
  {
    hide Lit, HasIntegralFloat, Integerized, IntegerizedEntries;
    OneIsIntegral();
  }

  lemma OneIsIntegral()
    ensures var one := PReal(1.0, Lit("1.0"));
      Transportable(one) && HasIntegralFloat(one) && Integerized(one) == PInt(1) == Integerized(PInt(1))
  {
    assert (1.0 as real).Floor == 1;
    var literal := Lit("1.0");
    assert literal == [0x31, 0x2E, 0x30];
    assert !IsDigit(literal[1]) && !Go.AllDigits(literal);
    assert IsSafe(1);
  }

  lemma RewrittenReadable(b: Bundle)
    requires ReadableBundle(b)
    ensures ReadableBundle(b.(payload := PReal(1.0, Lit("1.0"))))
  {
    hide Lit, HCADDoc, TransitionDoc, EvidenceEntries, CapabilityEntries, OfField, CandidateValues;
    hide Transportable;
    var one := PReal(1.0, Lit("1.0"));
    OneIsIntegral();
    var vals := OfFields(CandidateValues(b.c))[14 := b.payload][16 := PObject(b.context)];
    TransportableEntries(DocEntries(CANDIDATE_FIELDS, vals));
    TransportableEntries(DocEntries(CANDIDATE_FIELDS, vals[14 := one]));
    var rewritten := vals[14 := one];
    assert rewritten == OfFields(CandidateValues(b.c))[14 := one][16 := PObject(b.context)];
    forall i | 0 <= i < |vals| ensures Transportable(rewritten[i]) {
      assert Transportable(DocEntries(CANDIDATE_FIELDS, vals)[i].val);
    }
  }

  lemma TransportableEntries(es: seq<Pair<Text, Portable>>)
    ensures Transportable(PObject(es)) <==> forall i :: 0 <= i < |es| ==> Scalars(es[i].key) && Transportable(es[i].val)
  {
    if Transportable(PObject(es)) {
      forall i | 0 <= i < |es| ensures Scalars(es[i].key) && Transportable(es[i].val) {
        assert es[i] in es;
      }
    }
    if forall i :: 0 <= i < |es| ==> Scalars(es[i].key) && Transportable(es[i].val) {
      forall e | e in es ensures Scalars(e.key) && Transportable(e.val) {
        var i :| 0 <= i < |es| && es[i] == e;
      }
    }
  }

  // ---- Go and the sink ----

  lemma {:induction false} PythonItemsAt(ps: seq<Portable>)
    ensures |ToPythonItems(ps)| == |ps| && forall i :: 0 <= i < |ps| ==> ToPythonItems(ps)[i] == ToPython(ps[i])
  {
    if ps != [] {
      PythonItemsAt(ps[1..]);
      assert forall i ::
        0 < i < |ps| ==> ToPythonItems(ps)[i] == ToPythonItems(ps[1..])[i - 1] && ps[i] == ps[1..][i - 1];
    }
  }

  lemma FieldNormalizes(nfc: Nfc, v: Value, portable: bool)
    requires IsField(v)
    ensures Normalize(nfc, ToPython(OfField(v)), portable) == Normalize(nfc, v, portable)
  {
    if v.List? || v.Tuple? {
      PythonItemsAt(OfTexts(v.items));
      assert ToPythonItems(OfTexts(v.items)) == v.items;
    }
  }

  /** A document has the canonical bytes of the record that it was made from. */
  lemma DocBytes(nfc: Nfc, names: seq<string>, vals: seq<Portable>, vs: seq<Value>, portable: bool)
    requires |names| == |vals| == |vs|
    requires forall i ::
      0 <= i < |vs| ==> Normalize(nfc, ToPython(vals[i]), portable) == Normalize(nfc, vs[i], portable)
    ensures CanonicalBytes(nfc, ToPython(DocOf(names, vals)), portable)
            == CanonicalBytes(nfc, Dict(FieldsOf(names, vs)), portable)
    ensures CanonicalBytes(nfc, ToPython(DocOf(names, vals)), portable)
            == CanonicalBytes(nfc, Record(FieldsOf(names, vs)), portable)
  {
    hide Normalize, CanonicalBytes;
    var ws := seq(|vals|, i requires 0 <= i < |vals| => ToPython(vals[i]));
    PythonEntriesAt(DocEntries(names, vals));
    assert ToPythonEntries(DocEntries(names, vals)) == FieldsOf(names, ws);
    FieldsCongruent(nfc, names, ws, vs, portable);
    RecordIsDict(nfc, FieldsOf(names, vs), portable);
  }

  lemma FieldDocBytes(nfc: Nfc, names: seq<string>, vs: seq<Value>, portable: bool)
    requires |names| == |vs| && forall i :: 0 <= i < |vs| ==> IsField(vs[i])
    ensures CanonicalBytes(nfc, ToPython(DocOf(names, OfFields(vs))), portable)
            == CanonicalBytes(nfc, Dict(FieldsOf(names, vs)), portable)
    ensures CanonicalBytes(nfc, ToPython(DocOf(names, OfFields(vs))), portable)
            == CanonicalBytes(nfc, Record(FieldsOf(names, vs)), portable)
  {
    hide Normalize, CanonicalBytes, IsField, OfField;
    forall i | 0 <= i < |vs|
      ensures Normalize(nfc, ToPython(OfFields(vs)[i]), portable) == Normalize(nfc, vs[i], portable)
    {
      FieldNormalizes(nfc, vs[i], portable);
    }
    DocBytes(nfc, names, OfFields(vs), vs, portable);
  }

  /** The portable profile accepts the document: it holds safe integers and no bytes. */
  predicate InRange(env: Env, p: Portable) { CanonicalBytes(env.nfc, ToPython(p), true).Some? }

  /** In range, Go hashes and signs what the authority does. */
  lemma GoIsLocal(env: Env, p: Portable, v: Value, auth: Authenticator)
    requires NfcLaws(env.nfc) && Carried(p) && InRange(env, p)
    requires CanonicalBytes(env.nfc, ToPython(p), false) == CanonicalBytes(env.nfc, v, false)
    ensures GoSha(env, p) == Digest(env, v) && GoMac(env, auth.key, p) == auth.Sign(env, v)
  {
    hide CanonicalBytes, Go.Encode, ToGo, ToPython, HasIntegralFloat, Transportable;
    GoAgrees(env.nfc, p);
    PortableBytesAgree(env.nfc, ToPython(p));
  }

  /** `payload` and `context` are the candidate's. */
  predicate Faithful(b: Bundle) {
    ToPython(b.payload) == b.c.payload && ToPythonEntries(b.context) == b.c.authority_context
  }

  lemma CandidateDocBytes(env: Env, b: Bundle, portable: bool)
    requires Faithful(b)
    ensures CanonicalBytes(env.nfc, ToPython(CandidateDoc(b)), portable)
            == CanonicalBytes(env.nfc, CandidateValue(b.c), portable)
  {
    hide Normalize, CanonicalBytes, OfField;
    hide CandidateValues;
    var vs := CandidateValues(b.c);
    var vals := OfFields(vs)[14 := b.payload][16 := PObject(b.context)];
    CandidateIsFields(b.c);
    forall i | 0 <= i < |vs|
      ensures Normalize(env.nfc, ToPython(vals[i]), portable) == Normalize(env.nfc, vs[i], portable)
    {
      if i != 14 && i != 16 {
        FieldNormalizes(env.nfc, vs[i], portable);
      }
    }
    DocBytes(env.nfc, CANDIDATE_FIELDS, vals, vs, portable);
  }

  lemma CandidateIsFields(c: CandidateAct)
    ensures forall i :: 0 <= i < |CandidateValues(c)| && i != 14 && i != 16 ==> IsField(CandidateValues(c)[i])
    ensures CandidateValues(c)[14] == c.payload && CandidateValues(c)[16] == Dict(c.authority_context)
  {
    hide StatusText;
  }

  lemma HCADIsFields(h: HCAD)
    ensures forall i :: 0 <= i < |HCADValues(h)| ==> IsField(HCADValues(h)[i])
  {
    hide Lit;
  }

  /** Everything that an honest case is made of is in range. */
  predicate BundleInRange(env: Env, b: Bundle) {
    && InRange(env, CandidateDoc(b)) && InRange(env, b.payload) && InRange(env, HCADDoc(b.h))
    && InRange(env, TransitionDoc(b.t, b.e.candidate_digest))
    && InRange(env, DocOf(["evidence_id"] + EVIDENCE_FIELDS, OfFields([Str(b.e.evidence_id)] + EvidenceValues(b.e))))
    && InRange(env, DocOf(EVIDENCE_FIELDS, OfFields(EvidenceValues(b.e))))
    && InRange(env, DocOf(["capability_id"] + CAPABILITY_FIELDS,
                          OfFields([Str(b.cap.capability_id)] + CapabilityValues(b.cap))))
    && InRange(env, DocOf(CAPABILITY_FIELDS, OfFields(CapabilityValues(b.cap))))
  }

  /** The case is what the authority's call produced, written out. */
  ghost predicate Honest(env: Env, a: Authority.Settings, s: State.Protected, records: Records, cost: int, now: int,
                         b: Bundle) {
    && IsIssued(env, a, s, records, b.c, cost, now, b.t, b.e, b.cap)
    && b.key == a.auth.key && Faithful(b)
    && BuildHCAD(env, b.c, b.c.sink_id, b.c.boundary_id) == Some(b.h)
  }

  lemma TransitionHash(env: Env, s: State.Protected, c: CandidateAct, cost: int, t: StateTransition)
    requires State.Authorize(env, s, c, cost).1 == Ok(t)
    ensures CandidateDigest(env, c).Some?
    ensures Digest(env, TransitionCore(t, CandidateDigest(env, c).value)) == Some(t.transition_id)
    ensures t.after_version == t.before_version + 1
    ensures t.quota_after == t.quota_before - 1 && t.budget_after < t.budget_before
  {
    hide CandidateDigest, Canon;
  }

  lemma CapabilityHash(env: Env, a: Authority.Settings, c: CandidateAct, now: int, e: ValidationEvidence,
                       cap: Capability)
    requires Authority.MakeCapability(env, a, c, now, e) == Some(cap)
    ensures Digest(env, CapabilityCore(cap)) == Some(cap.capability_id)
    ensures a.auth.Sign(env, CapabilityUnsigned(cap)) == Some(cap.signature)
  {
    hide Canon, CapabilityValues, FieldsOf;
    var core := cap.(capability_id := [], signature := []);
    CapabilityFieldsOnly(core, cap);
    CapabilityFieldsOnly(cap.(signature := []), cap);
  }

  lemma VerifiedIsSigned(env: Env, auth: Authenticator, v: Value, signature: Text)
    requires auth.Verify(env, v, signature, auth.key_id) == Ok(true)
    ensures auth.Sign(env, v) == Some(signature)
  {
    hide Canon;
  }

  /** The digests of the candidate, its payload and its descriptor. */
  lemma HonestCandidate(env: Env, a: Authority.Settings, s: State.Protected, records: Records, cost: int, now: int,
                        b: Bundle)
    requires EnvLaws(env) && Honest(env, a, s, records, cost, now, b) && CarriedBundle(b) && BundleInRange(env, b)
    ensures GoSha(env, CandidateDoc(b)) == CandidateDigest(env, b.c)
    ensures GoSha(env, b.payload) == Some(b.h.payload_digest)
    ensures GoSha(env, HCADDoc(b.h)) == DescriptorDigest(env, b.c, b.c.sink_id, b.c.boundary_id)
  {
    hide IsIssued, GoSha, CanonicalBytes, Carried, CandidateDoc, HCADValues, CandidateValues, EnvLaws;
    assert NfcLaws(env.nfc) by {
      LawsOfNfc(env);
    }
    CandidateDocBytes(env, b, false);
    GoIsLocal(env, CandidateDoc(b), CandidateValue(b.c), a.auth);
    GoIsLocal(env, b.payload, b.c.payload, a.auth);
    HCADIsFields(b.h);
    FieldDocBytes(env.nfc, HCAD_FIELDS, HCADValues(b.h), false);
    GoIsLocal(env, HCADDoc(b.h), HCADValue(b.h), a.auth);
  }

  lemma LawsOfNfc(env: Env)
    requires EnvLaws(env)
    ensures NfcLaws(env.nfc)
  {
  }

  /** The transition id and the evidence. */
  lemma HonestEvidence(env: Env, a: Authority.Settings, s: State.Protected, records: Records, cost: int, now: int,
                       b: Bundle)
    requires EnvLaws(env) && Honest(env, a, s, records, cost, now, b) && CarriedBundle(b) && BundleInRange(env, b)
    requires Canonicalizable(env, a, b.c)
    ensures CandidateDigest(env, b.c) == Some(b.e.candidate_digest)
    ensures DescriptorDigest(env, b.c, b.c.sink_id, b.c.boundary_id) == Some(b.e.descriptor_digest)
    ensures GoSha(env, TransitionDoc(b.t, b.e.candidate_digest)) == Some(b.t.transition_id)
    ensures var eu := Dropping(EvidenceEntries(b.e), Lit("signature"));
      GoMac(env, b.key, PObject(eu)) == Some(b.e.signature)
      && GoSha(env, PObject(Dropping(eu, Lit("evidence_id")))) == Some(b.e.evidence_id)
    ensures b.e.decision == ALLOW && b.e.transition_id == b.t.transition_id && b.e.authority_id == a.authority_id
  {
    hide GoSha, GoMac, CanonicalBytes, Carried, CandidateDigest, DescriptorDigest, EnvLaws, Dropping, EvidenceEntries;
    hide Authority.Authorize, Authority.MakeEvidence, State.Authorize, IsCapabilityFor, EvidenceValues;
    hide TransitionValues, IsPlain;
    LawsOfNfc(env);
    TransitionHash(env, s, b.c, cost, b.t);
    RecordedIsPlain(env, s, b.c, cost);
    EvidenceExists(env, a, b.c, now, b.t);
    EvidenceUnsignedEntries(b.e);
    DroppingCarried(EvidenceEntries(b.e), Lit("signature"));
    DroppingCarried(Dropping(EvidenceEntries(b.e), Lit("signature")), Lit("evidence_id"));
    CandidateDigestPlain(env, b.c);
    HonestTransition(env, a, b);
    RecordFields(b);
    VerifiedIsSigned(env, a.auth, EvidenceUnsigned(b.e), b.e.signature);
    FieldDocBytes(env.nfc, EVIDENCE_FIELDS, EvidenceValues(b.e), false);
    FieldDocBytes(env.nfc, ["evidence_id"] + EVIDENCE_FIELDS, [Str(b.e.evidence_id)] + EvidenceValues(b.e), false);
    GoIsLocal(env, DocOf(["evidence_id"] + EVIDENCE_FIELDS, OfFields([Str(b.e.evidence_id)] + EvidenceValues(b.e))),
              EvidenceUnsigned(b.e), a.auth);
    GoIsLocal(env, DocOf(EVIDENCE_FIELDS, OfFields(EvidenceValues(b.e))), EvidenceCore(b.e), a.auth);
  }

  lemma RecordFields(b: Bundle)
    ensures forall i :: 0 <= i < |EvidenceValues(b.e)| ==> IsField(EvidenceValues(b.e)[i])
    ensures forall i :: 0 <= i < |CapabilityValues(b.cap)| ==> IsField(CapabilityValues(b.cap)[i])
  {
    hide DecisionText;
  }

  lemma HonestTransition(env: Env, a: Authority.Settings, b: Bundle)
    requires EnvLaws(env) && CarriedBundle(b) && IsPlain(b.e.candidate_digest)
    requires InRange(env, TransitionDoc(b.t, b.e.candidate_digest))
    ensures GoSha(env, TransitionDoc(b.t, b.e.candidate_digest))
            == Digest(env, TransitionCore(b.t, b.e.candidate_digest))
  {
    hide CanonicalBytes, Carried, GoSha, GoMac;
    TransitionCarried(b.t, b.t.transition_id, b.e.candidate_digest);
    FieldDocBytes(env.nfc, TRANSITION_FIELDS, TransitionValues(b.t, b.e.candidate_digest), false);
    GoIsLocal(env, TransitionDoc(b.t, b.e.candidate_digest), TransitionCore(b.t, b.e.candidate_digest), a.auth);
  }

  /** The capability. */
  lemma HonestCapability(env: Env, a: Authority.Settings, s: State.Protected, records: Records, cost: int, now: int,
                         b: Bundle)
    requires EnvLaws(env) && Honest(env, a, s, records, cost, now, b) && CarriedBundle(b) && BundleInRange(env, b)
    ensures var cu := Dropping(CapabilityEntries(b.cap), Lit("signature"));
      GoMac(env, b.key, PObject(cu)) == Some(b.cap.signature)
      && GoSha(env, PObject(Dropping(cu, Lit("capability_id")))) == Some(b.cap.capability_id)
  {
    hide GoSha, GoMac, CanonicalBytes, Carried, EnvLaws, Dropping, CapabilityEntries, Authority.MakeCapability;
    hide CapabilityValues, IsIssued;
    LawsOfNfc(env);
    IssuedMakes(env, a, s, records, b.c, cost, now, b.t, b.e, b.cap);
    CapabilityHash(env, a, b.c, now, b.e, b.cap);
    CapabilityUnsignedEntries(b.cap);
    DroppingCarried(CapabilityEntries(b.cap), Lit("signature"));
    DroppingCarried(Dropping(CapabilityEntries(b.cap), Lit("signature")), Lit("capability_id"));
    RecordFields(b);
    FieldDocBytes(env.nfc, CAPABILITY_FIELDS, CapabilityValues(b.cap), false);
    FieldDocBytes(env.nfc, ["capability_id"] + CAPABILITY_FIELDS, [Str(b.cap.capability_id)] + CapabilityValues(b.cap),
                  false);
    GoIsLocal(env, DocOf(["capability_id"] + CAPABILITY_FIELDS,
                         OfFields([Str(b.cap.capability_id)] + CapabilityValues(b.cap))),
              CapabilityUnsigned(b.cap), a.auth);
    GoIsLocal(env, DocOf(CAPABILITY_FIELDS, OfFields(CapabilityValues(b.cap))), CapabilityCore(b.cap), a.auth);
  }

  /** The context of a sink as a case has it. */
  predicate IsContextOf(ctx: Context, k: Sink.Settings) {
    k.context == SinkContext(ctx.sink_id, ctx.boundary_id, ctx.policy_epoch,
                             set i | 0 <= i < |ctx.supported_scopes| :: ctx.supported_scopes[i],
                             ctx.effect_class)
  }

  /** On an honest case for a sink that the candidate names, all digests agree. */
  lemma HonestDigests(env: Env, a: Authority.Settings, s: State.Protected, records: Records, cost: int, now: int,
                      b: Bundle)
    requires EnvLaws(env) && Honest(env, a, s, records, cost, now, b) && CarriedBundle(b) && BundleInRange(env, b)
    requires Canonicalizable(env, a, b.c) && b.ctx.sink_id == b.c.sink_id && b.ctx.boundary_id == b.c.boundary_id
    ensures DigestsOk(b, GoDigests(env, b))
  {
    hide GoSha, GoMac, CandidateDigest, DescriptorDigest, Dropping, EvidenceEntries, CapabilityEntries;
    hide CandidateDoc, HCADDoc, TransitionDoc;
    hide EnvLaws, IsIssued, CarriedBundle, BundleInRange, Canonicalizable;
    HonestCandidate(env, a, s, records, cost, now, b);
    HonestEvidence(env, a, s, records, cost, now, b);
    HonestCapability(env, a, s, records, cost, now, b);
    IssuedFields(env, a, s, records, cost, now, b);
    assert RebuiltDoc(b, b.h.payload_digest) == HCADDoc(b.h);
  }

  lemma IssuedFields(env: Env, a: Authority.Settings, s: State.Protected, records: Records, cost: int, now: int,
                     b: Bundle)
    requires Honest(env, a, s, records, cost, now, b)
    ensures b.cap.candidate_digest == b.e.candidate_digest && b.cap.descriptor_digest == b.e.descriptor_digest
    ensures b.cap.sink_id == b.c.sink_id && b.cap.boundary_id == b.c.boundary_id && b.cap.nonce == b.c.nonce
    ensures b.cap.scope == b.c.scope && b.cap.policy_epoch == b.c.policy_epoch
    ensures b.cap.transition_id == b.e.transition_id
    ensures b.cap.authority_id == a.authority_id && b.cap.expires_at_ns <= b.c.issued_at_ns + b.c.freshness_ns
    ensures b.h == HCAD(b.c, b.c.sink_id, b.c.boundary_id, b.h.payload_digest)
  {
    hide Authority.Authorize, Authority.MakeEvidence, State.Authorize, CapabilityUnsigned, Digest;
  }

  /** The Go verifier passes an honest case exactly if the sink is one that the candidate names. */
  lemma HonestPasses(env: Env, a: Authority.Settings, s: State.Protected, records: Records, cost: int, now: int,
                     b: Bundle, k: Sink.Settings)
    requires EnvLaws(env) && Honest(env, a, s, records, cost, now, b) && CarriedBundle(b) && BundleInRange(env, b)
    requires Canonicalizable(env, a, b.c) && Policy.Admits(a.policy, b.c, now)
    requires k.auth == a.auth && !k.require_presentation_proof && IsContextOf(b.ctx, k)
    ensures GoPasses(env, b) <==> Matches(a, k, b.c)
  {
    hide EnvLaws, CarriedBundle, BundleInRange, Canonicalizable, GoDigests, DigestsOk, Policy.Admits, IsIssued;
    IssuedFields(env, a, s, records, cost, now, b);
    if Matches(a, k, b.c) {
      HonestDigests(env, a, s, records, cost, now, b);
      HonestEvidence(env, a, s, records, cost, now, b);
      HonestNumbers(env, a, s, records, cost, now, b);
      AdmittedStatus(a, b.c, now);
      hide GoNumbersOk, Honest;
    }
  }

  lemma AdmittedStatus(a: Authority.Settings, c: CandidateAct, now: int)
    requires Policy.Admits(a.policy, c, now)
    ensures c.status == NON_EFFECTIVE
  {
  }

  lemma HonestNumbers(env: Env, a: Authority.Settings, s: State.Protected, records: Records, cost: int, now: int,
                      b: Bundle)
    requires EnvLaws(env) && Honest(env, a, s, records, cost, now, b)
    requires CarriedBundle(b) && DigestsOk(b, GoDigests(env, b))
    requires b.ctx.policy_epoch == b.c.policy_epoch
    ensures GoNumbersOk(b)
  {
    hide EnvLaws, Honest, CarriedBundle, DigestsOk, GoDigests, State.Authorize, Wrap64, CandidateDigest, Digest;
    hide TransitionCore;
    DigestsMakeSafe(env, b);
    IssuedFields(env, a, s, records, cost, now, b);
    IssuedRecords(env, a, s, records, cost, now, b);
    TransitionHash(env, s, b.c, cost, b.t);
    WrapSmall(b.c.issued_at_ns + b.c.freshness_ns);
    WrapSmall(b.t.before_version + 1);
    WrapSmall(b.t.quota_before - 1);
  }

  lemma IssuedRecords(env: Env, a: Authority.Settings, s: State.Protected, records: Records, cost: int, now: int,
                      b: Bundle)
    requires Honest(env, a, s, records, cost, now, b)
    ensures State.Authorize(env, s, b.c, cost).1 == Ok(b.t)
  {
    hide State.Authorize, Authority.Authorize, Authority.MakeEvidence, IsCapabilityFor;
  }

  /** A candidate in range holds no floats at all. */
  lemma InRangeIsCarried(env: Env, b: Bundle)
    requires ReadableBundle(b) && BundleInRange(env, b)
    ensures CarriedBundle(b)
  {
    hide ReadableBundle, IntegralBundle, CarriedBundle, CandidateDoc;
    CandidateIntegral(b);
    if IntegralBundle(b) {
      IntegralFloatIsFloat(CandidateDoc(b));
      FloatsRejected(env.nfc, CandidateDoc(b));
    }
    ReadableIsCarried(b);
  }

  /** On honest cases, and with time, stores and presenter proof satisfied, the portable verifiers and the
      sink give the same verdict. */
  lemma PortableVerifiersMatchSink(env: Env, round: int -> int, a: Authority.Settings, s: State.Protected,
                                   records: Records,
                                   cost: int, now: int, b: Bundle, k: Sink.Settings, at: int)
    requires EnvLaws(env) && IsRounding(round) && ReadableBundle(b) && BundleInRange(env, b)
    requires Honest(env, a, s, records, cost, now, b)
    requires Canonicalizable(env, a, b.c) && Policy.Admits(a.policy, b.c, now)
    requires k.auth == a.auth && !k.require_presentation_proof
    requires IsContextOf(b.ctx, k) && WhileValid(a, k, b.c, now, at)
    ensures var (s', records', _) := Authority.Authorize(env, a, s, records, false, b.c, cost, now);
      var accepted := Sink.Verify(env, k, Sink.Request(b.c, b.cap, at, None), records', s') == Ok(());
      (GoPasses(env, b) <==> accepted) && (NodePasses(env, round, b) <==> accepted)
  {
    hide EnvLaws, IsRounding, CarriedBundle, BundleInRange, Canonicalizable, Policy.Admits, WhileValid, IsContextOf;
    hide GoPasses, NodePasses, ReadableBundle, InRange, Honest, IsIssued, Sink.Verify, Authority.Authorize, Matches;
    InRangeIsCarried(env, b);
    CarriedVerdictsAgree(env, round, b);
    HonestPasses(env, a, s, records, cost, now, b, k);
    HonestIssued(env, a, s, records, cost, now, b);
    var (s', records', _) := Authority.Authorize(env, a, s, records, false, b.c, cost, now);
    if Matches(a, k, b.c) {
      VerifyCompleteness(env, a, s, records, b.c, cost, now, b.t, b.e, b.cap, k, at);
    }
    AcceptedMatches(env, a, k, Sink.Request(b.c, b.cap, at, None), records', s');
  }

  lemma HonestIssued(env: Env, a: Authority.Settings, s: State.Protected, records: Records, cost: int, now: int,
                     b: Bundle)
    requires Honest(env, a, s, records, cost, now, b)
    ensures IsIssued(env, a, s, records, b.c, cost, now, b.t, b.e, b.cap)
  {
    hide IsIssued;
  }

  lemma AcceptedMatches(env: Env, a: Authority.Settings, k: Sink.Settings, r: Sink.Request, records: Records,
                        s: State.Protected)
    requires k.auth == a.auth && !k.require_presentation_proof
    ensures Sink.Verify(env, k, r, records, s) == Ok(()) ==> Matches(a, k, r.candidate)
  {
    hide Sink.CheckLocal, Sink.CheckEvidence, Sink.CheckTransition, Sink.CheckBindings, CandidateDigest;
    hide DescriptorDigest, CapabilityUnsigned;
    if Sink.Verify(env, k, r, records, s) == Ok(()) {
      VerdictParts(env, k, r, records, s);
      LocalFacts(env, k, r);
      BindingFacts(k, r);
    }
  }
}
