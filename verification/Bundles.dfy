/** The portable verifiers of a whole case (go/cmd/finalityverify/main.go, node/finality_verify.mjs): the
    same verdict in Go and Node on every case in which no float is a safe integer, and that of the sink on
    honest ones. */
module Bundles {
  import opened Wrappers
  import opened Sorting
  import opened Unicode
  import opened Values
  import opened Canonical
  import opened Laws
  import opened Models
  import opened Binding
  import opened Stability
  import opened ThreeWay
  import opened NodeAgreement
  import Go = GoCanonical
  import Node = NodeCanonical

  // ---- Documents ----

  function DocEntries(names: seq<string>, vals: seq<Portable>): (r: seq<Pair<Text, Portable>>)
    requires |names| == |vals|
    ensures |r| == |names| && forall i :: 0 <= i < |r| ==> r[i] == Pair(Lit(names[i]), vals[i])
  {
    seq(|names|, i requires 0 <= i < |names| => Pair(Lit(names[i]), vals[i]))
  }

  function DocOf(names: seq<string>, vals: seq<Portable>): Portable
    requires |names| == |vals|
  {
    PObject(DocEntries(names, vals))
  }

  function OfTexts(vs: seq<Value>): (r: seq<Portable>)
    ensures |r| == |vs|
  {
    seq(|vs|, i requires 0 <= i < |vs| => if vs[i].Str? then PText(vs[i].text) else PNull)
  }

  /** A text, a number or a list of texts, as JSON has it. */
  function OfField(v: Value): Portable {
    match v
    case Str(t) => PText(t)
    case Int(i) => PInt(i)
    case List(vs) => PArray(OfTexts(vs))
    case Tuple(vs) => PArray(OfTexts(vs))
    case _ => PNull
  }

  function OfFields(vs: seq<Value>): (r: seq<Portable>)
    ensures |r| == |vs| && forall i :: 0 <= i < |r| ==> r[i] == OfField(vs[i])
  {
    seq(|vs|, i requires 0 <= i < |vs| => OfField(vs[i]))
  }

  predicate IsTexts(vs: seq<Value>) { forall i :: 0 <= i < |vs| ==> vs[i].Str? }

  predicate IsField(v: Value) {
    v.Str? || v.Int? || (v.List? && IsTexts(v.items)) || (v.Tuple? && IsTexts(v.items))
  }

  /** The sink that the case is verified for. */
  datatype Context = Context(sink_id: Text, boundary_id: Text, policy_epoch: int, supported_scopes: seq<Text>,
                             effect_class: Text)

  /** A case, typed: everything that a verifier is given. `payload` and `context` are the candidate's as
      JSON has them. */
  datatype Bundle = Bundle(
    key: Bytes, c: CandidateAct, payload: Portable, context: seq<Pair<Text, Portable>>, h: HCAD, t: StateTransition,
    e: ValidationEvidence, cap: Capability, ctx: Context)

  function CandidateDoc(b: Bundle): Portable {
    DocOf(CANDIDATE_FIELDS, OfFields(CandidateValues(b.c))[14 := b.payload][16 := PObject(b.context)])
  }

  function HCADDoc(h: HCAD): Portable { DocOf(HCAD_FIELDS, OfFields(HCADValues(h))) }

  /** The descriptor rebuilt from the candidate, for the sink at hand. */
  function RebuiltDoc(b: Bundle, payloadDigest: Text): Portable {
    HCADDoc(HCAD(b.c, b.ctx.sink_id, b.ctx.boundary_id, payloadDigest))
  }

  function TransitionDoc(t: StateTransition, candidateDigest: Text): Portable {
    DocOf(TRANSITION_FIELDS, OfFields(TransitionValues(t, candidateDigest)))
  }

  function SignedEntries(id: string, names: seq<string>, identity: Text, vs: seq<Value>,
                         signature: Text): seq<Pair<Text, Portable>>
    requires |names| == |vs|
  {
    DocEntries([id] + names + ["signature"], OfFields([Str(identity)] + vs + [Str(signature)]))
  }

  function EvidenceEntries(e: ValidationEvidence): seq<Pair<Text, Portable>> {
    SignedEntries("evidence_id", EVIDENCE_FIELDS, e.evidence_id, EvidenceValues(e), e.signature)
  }

  function CapabilityEntries(cap: Capability): seq<Pair<Text, Portable>> {
    SignedEntries("capability_id", CAPABILITY_FIELDS, cap.capability_id, CapabilityValues(cap), cap.signature)
  }

  /** An object without one of its fields. */
  function Dropping(es: seq<Pair<Text, Portable>>, name: Text): seq<Pair<Text, Portable>> {
    if es == [] then []
    else if es[0].key == name then Dropping(es[1..], name)
    else [es[0]] + Dropping(es[1..], name)
  }

  /** `unsigned` and `without`: the map built anew from all entries but one. */
  method Without(m: seq<Pair<Text, Portable>>, name: Text) returns (r: seq<Pair<Text, Portable>>)
    ensures r == Dropping(m, name)
  {
    r := [];
    for i := 0 to |m|
      invariant r + Dropping(m[i..], name) == Dropping(m, name)
    {
      assert m[i..][0] == m[i] && m[i..][1..] == m[i + 1..];
      if m[i].key != name {
        assert r + ([m[i]] + Dropping(m[i + 1..], name)) == r + [m[i]] + Dropping(m[i + 1..], name);
        r := r + [m[i]];
      }
    }
    assert m[|m|..] == [];
  }

  // ---- The checks ----

  /** What a verifier hashes and signs, where its canonicalizer does not fail. */
  datatype Digests = Digests(
    candidate: Option<Text>, payload: Option<Text>, descriptor: Option<Text>, hcad: Option<Text>,
        transition: Option<Text>,
    evidence_mac: Option<Text>, evidence_id: Option<Text>, cap_mac: Option<Text>, cap_id: Option<Text>)

  /** The comparisons of digests and signatures, the same in both languages. */
  predicate DigestsOk(b: Bundle, d: Digests) {
    && d.candidate == Some(b.cap.candidate_digest) && d.candidate == Some(b.e.candidate_digest)
    && d.payload == Some(b.h.payload_digest)
    && d.descriptor == Some(b.cap.descriptor_digest) && d.descriptor == Some(b.e.descriptor_digest)
    && d.hcad == d.descriptor
    && d.transition == Some(b.t.transition_id)
    && d.evidence_mac == Some(b.e.signature) && d.evidence_id == Some(b.e.evidence_id)
    && d.cap_mac == Some(b.cap.signature) && d.cap_id == Some(b.cap.capability_id)
  }

  /** The comparisons of texts. */
  predicate TextsOk(b: Bundle) {
    && b.c.status == NON_EFFECTIVE && b.e.decision == ALLOW
    && b.t.transition_id == b.cap.transition_id && b.t.transition_id == b.e.transition_id
    && b.cap.sink_id == b.ctx.sink_id && b.cap.boundary_id == b.ctx.boundary_id
    && b.cap.nonce == b.c.nonce && b.cap.authority_id == b.e.authority_id && b.c.effect_class == b.ctx.effect_class
  }

  predicate ScopeOk(b: Bundle) {
    b.cap.scope == b.c.scope && forall i :: 0 <= i < |b.cap.scope| ==> b.cap.scope[i] in b.ctx.supported_scopes
  }

  // ---- Go ----

  function GoSha(env: Env, p: Portable): Option<Text> {
    var b :- Go.Encode(env.nfc, ToGo(p));
    Some(env.hash(b))
  }

  function GoMac(env: Env, key: Bytes, p: Portable): Option<Text> {
    var b :- Go.Encode(env.nfc, ToGo(p));
    Some(env.mac(key, b))
  }

  function GoDigests(env: Env, b: Bundle): Digests {
    var cd, pd := GoSha(env, CandidateDoc(b)), GoSha(env, b.payload);
    var eu, cu := Dropping(EvidenceEntries(b.e), Lit("signature")),
        Dropping(CapabilityEntries(b.cap), Lit("signature"));
    Digests(
      cd, pd,
      if pd.Some? then GoSha(env, RebuiltDoc(b, pd.value)) else None,
      GoSha(env, HCADDoc(b.h)),
      if cd.Some? then GoSha(env, TransitionDoc(b.t, cd.value)) else None,
      GoMac(env, b.key, PObject(eu)), GoSha(env, PObject(Dropping(eu, Lit("evidence_id")))),
      GoMac(env, b.key, PObject(cu)), GoSha(env, PObject(Dropping(cu, Lit("capability_id")))))
  }

  const TWO_63 := 0x8000_0000_0000_0000

  /** `strconv.ParseInt(_, 10, 64)`. */
  function Num(i: int): Option<int> { if -TWO_63 <= i < TWO_63 then Some(i) else None }

  /** What 64-bit addition leaves of a sum. */
  function Wrap64(i: int): int { (i + TWO_63) % (2 * TWO_63) - TWO_63 }

  predicate GoNumbersOk(b: Bundle) {
    && Num(b.t.after_version).Some? && Num(b.t.before_version).Some?
    && b.t.after_version == Wrap64(b.t.before_version + 1)
    && Num(b.t.quota_after).Some? && Num(b.t.quota_before).Some? && b.t.quota_after == Wrap64(b.t.quota_before - 1)
    && Num(b.t.budget_after).Some? && Num(b.t.budget_before).Some? && b.t.budget_after < b.t.budget_before
    && Num(b.cap.policy_epoch).Some? && Num(b.ctx.policy_epoch).Some? && b.cap.policy_epoch == b.ctx.policy_epoch
    && Num(b.cap.expires_at_ns).Some? && Num(b.c.issued_at_ns).Some? && Num(b.c.freshness_ns).Some?
    && b.cap.expires_at_ns <= Wrap64(b.c.issued_at_ns + b.c.freshness_ns)
  }

  /** The Go verifier prints PASS. */
  predicate GoPasses(env: Env, b: Bundle) {
    DigestsOk(b, GoDigests(env, b)) && TextsOk(b) && ScopeOk(b) && GoNumbersOk(b)
  }

  /** The nested scope loop with its `ok` flag. */
  method CheckScopes(b: Bundle) returns (pass: bool)
    ensures pass == ScopeOk(b)
  {
    var cs, xs := b.cap.scope, b.ctx.supported_scopes;
    if |cs| != |b.c.scope| {
      return false;
    }
    for i := 0 to |cs|
      invariant forall j :: 0 <= j < i ==> cs[j] == b.c.scope[j] && cs[j] in xs
    {
      if cs[i] != b.c.scope[i] {
        return false;
      }
      var ok := false;
      for l := 0 to |xs|
        invariant ok <==> cs[i] in xs[..l]
      {
        if cs[i] == xs[l] {
          ok := true;
        }
      }
      assert xs[..|xs|] == xs;
      if !ok {
        return false;
      }
    }
    pass := true;
  }

  /** The comparison of the numbers of a transition. */
  method CheckCounts(t: StateTransition) returns (pass: bool)
    ensures pass <==>
              && Num(t.after_version).Some? && Num(t.before_version).Some? && Num(t.quota_after).Some?
              && Num(t.quota_before).Some? && Num(t.budget_after).Some? && Num(t.budget_before).Some?
              && t.after_version == Wrap64(t.before_version + 1) && t.quota_after == Wrap64(t.quota_before - 1)
              && t.budget_after < t.budget_before
  {
    hide Wrap64;
    var v, w := Num(t.after_version), Num(t.before_version);
    if v.None? || w.None? || v.value != Wrap64(w.value + 1) {
      return false;
    }
    v, w := Num(t.quota_after), Num(t.quota_before);
    if v.None? || w.None? || v.value != Wrap64(w.value - 1) {
      return false;
    }
    v, w := Num(t.budget_after), Num(t.budget_before);
    pass := v.Some? && w.Some? && !(v.value >= w.value);
  }

  /** The last comparison. */
  method CheckExpiry(cap: Capability, c: CandidateAct) returns (pass: bool)
    ensures pass <==>
              && Num(cap.expires_at_ns).Some? && Num(c.issued_at_ns).Some? && Num(c.freshness_ns).Some?
              && cap.expires_at_ns <= Wrap64(c.issued_at_ns + c.freshness_ns)
  {
    var end, issued, freshness := Num(cap.expires_at_ns), Num(c.issued_at_ns), Num(c.freshness_ns);
    if end.None? || issued.None? || freshness.None? {
      return false;
    }
    pass := !(end.value > Wrap64(issued.value + freshness.value));
  }

  /** `main`, which panics where it does not pass. */
  method GoMain(env: Env, b: Bundle) returns (pass: bool)
    ensures pass == GoPasses(env, b)
  {
    hide Go.Encode, ToGo, CandidateDoc, HCADDoc, TransitionDoc, EvidenceEntries, CapabilityEntries, Dropping;
    hide RebuiltDoc, GoSha, GoMac, ScopeOk, Wrap64;
    if b.c.status != NON_EFFECTIVE {
      return false;
    }
    var cd := GoSha(env, CandidateDoc(b));
    if cd.None? || cd.value != b.cap.candidate_digest || cd.value != b.e.candidate_digest {
      return false;
    }
    var pd := GoSha(env, b.payload);
    if pd.None? || pd.value != b.h.payload_digest {
      return false;
    }
    var dd := GoSha(env, RebuiltDoc(b, pd.value));
    if dd.None? || dd.value != b.cap.descriptor_digest || dd.value != b.e.descriptor_digest {
      return false;
    }
    var hd := GoSha(env, HCADDoc(b.h));
    if hd.None? || hd.value != dd.value {
      return false;
    }
    var td := GoSha(env, TransitionDoc(b.t, cd.value));
    if td.None? || td.value != b.t.transition_id {
      return false;
    }
    var counts := CheckCounts(b.t);
    if !counts || b.t.transition_id != b.cap.transition_id || b.t.transition_id != b.e.transition_id {
      return false;
    }
    var eu := Without(EvidenceEntries(b.e), Lit("signature"));
    var em := GoMac(env, b.key, PObject(eu));
    if em.None? || em.value != b.e.signature {
      return false;
    }
    var ec := Without(eu, Lit("evidence_id"));
    var ed := GoSha(env, PObject(ec));
    if ed.None? || ed.value != b.e.evidence_id || b.e.decision != ALLOW {
      return false;
    }
    var cu := Without(CapabilityEntries(b.cap), Lit("signature"));
    var cm := GoMac(env, b.key, PObject(cu));
    if cm.None? || cm.value != b.cap.signature {
      return false;
    }
    var cc := Without(cu, Lit("capability_id"));
    var id := GoSha(env, PObject(cc));
    if id.None? || id.value != b.cap.capability_id {
      return false;
    }
    if b.cap.sink_id != b.ctx.sink_id || b.cap.boundary_id != b.ctx.boundary_id {
      return false;
    }
    var epoch, local := Num(b.cap.policy_epoch), Num(b.ctx.policy_epoch);
    if epoch.None? || local.None? || epoch.value != local.value {
      return false;
    }
    if b.cap.nonce != b.c.nonce || b.cap.authority_id != b.e.authority_id {
      return false;
    }
    var scopes := CheckScopes(b);
    if !scopes || b.c.effect_class != b.ctx.effect_class {
      return false;
    }
    pass := CheckExpiry(b.cap, b.c);
  }

  // ---- Node ----

  function NodeSha(env: Env, round: int -> int, p: Portable): Option<Text> {
    var b :- Node.CanonicalBytes(env.nfc, ToNode(round, p));
    Some(env.hash(b))
  }

  function NodeMac(env: Env, round: int -> int, key: Bytes, p: Portable): Option<Text> {
    var b :- Node.CanonicalBytes(env.nfc, ToNode(round, p));
    Some(env.mac(key, b))
  }

  function NodeDigests(env: Env, round: int -> int, b: Bundle): Digests {
    var cd, pd := NodeSha(env, round, CandidateDoc(b)), NodeSha(env, round, b.payload);
    var eu, cu := Dropping(EvidenceEntries(b.e), Lit("signature")),
        Dropping(CapabilityEntries(b.cap), Lit("signature"));
    Digests(
      cd, pd,
      if pd.Some? then NodeSha(env, round, RebuiltDoc(b, pd.value)) else None,
      NodeSha(env, round, HCADDoc(b.h)),
      if cd.Some? then NodeSha(env, round, TransitionDoc(b.t, cd.value)) else None,
      NodeMac(env, round, b.key, PObject(eu)), NodeSha(env, round, PObject(Dropping(eu, Lit("evidence_id")))),
      NodeMac(env, round, b.key, PObject(cu)), NodeSha(env, round, PObject(Dropping(cu, Lit("capability_id")))))
  }

  /** Numbers are rounded when they are read, and sums when they are formed. */
  predicate NodeNumbersOk(round: int -> int, b: Bundle) {
    && round(b.t.after_version) == round(round(b.t.before_version) + 1)
    && round(b.t.quota_after) == round(round(b.t.quota_before) - 1)
    && round(b.t.budget_after) < round(b.t.budget_before)
    && round(b.cap.policy_epoch) == round(b.ctx.policy_epoch)
    && !(round(b.cap.expires_at_ns) > round(round(b.c.issued_at_ns) + round(b.c.freshness_ns)))
  }

  /** The Node verifier prints PASS. */
  predicate NodePasses(env: Env, round: int -> int, b: Bundle) {
    DigestsOk(b, NodeDigests(env, round, b)) && TextsOk(b) && ScopeOk(b) && NodeNumbersOk(round, b)
  }

  // ---- Agreement of the two ----

  ghost predicate Carried(p: Portable) { Transportable(p) && !HasIntegralFloat(p) }

  /** All texts are Unicode, so that both verifiers read the same JSON. */
  ghost predicate ReadableBundle(b: Bundle) {
    && Transportable(CandidateDoc(b)) && Transportable(b.payload) && Transportable(HCADDoc(b.h))
    && Transportable(TransitionDoc(b.t, b.t.transition_id))
    && Transportable(PObject(EvidenceEntries(b.e))) && Transportable(PObject(CapabilityEntries(b.cap)))
    && Scalars(b.ctx.sink_id) && Scalars(b.ctx.boundary_id)
  }

  /** `payload` or `context` holds a float that JavaScript takes for an integer. */
  ghost predicate IntegralBundle(b: Bundle) {
    HasIntegralFloat(b.payload) || HasIntegralFloat(PObject(b.context))
  }

  /** The case with such floats written as integers. */
  function IntegerizedBundle(b: Bundle): Bundle {
    b.(payload := Integerized(b.payload), context := IntegerizedEntries(b.context))
  }

  /** A readable case without such floats, stated document by document. */
  ghost predicate CarriedBundle(b: Bundle) {
    && Carried(CandidateDoc(b)) && Carried(b.payload) && Carried(HCADDoc(b.h))
    && Carried(TransitionDoc(b.t, b.t.transition_id))
    && Carried(PObject(EvidenceEntries(b.e))) && Carried(PObject(CapabilityEntries(b.cap)))
    && Scalars(b.ctx.sink_id) && Scalars(b.ctx.boundary_id)
  }

  lemma EntriesCarried(es: seq<Pair<Text, Portable>>)
    ensures Carried(PObject(es)) <==> forall i :: 0 <= i < |es| ==> Scalars(es[i].key) && Carried(es[i].val)
  {
    if Carried(PObject(es)) {
      forall i | 0 <= i < |es| ensures Scalars(es[i].key) && Carried(es[i].val) {
        assert es[i] in es;
      }
    }
    if forall i :: 0 <= i < |es| ==> Scalars(es[i].key) && Carried(es[i].val) {
      forall e | e in es ensures Scalars(e.key) && Carried(e.val) {
        var i :| 0 <= i < |es| && es[i] == e;
      }
    }
  }

  lemma {:induction false} DroppingCarried(es: seq<Pair<Text, Portable>>, name: Text)
    requires Carried(PObject(es))
    ensures Carried(PObject(Dropping(es, name)))
  {
    hide Carried;
    if es == [] {
    } else {
      EntriesCarried(es);
      EntriesCarried(es[1..]);
      DroppingCarried(es[1..], name);
      EntriesCarried(Dropping(es[1..], name));
      EntriesCarried([es[0]] + Dropping(es[1..], name));
    }
  }

  /** Both languages hash what the portable profile makes of a carried document. */
  lemma SameSha(env: Env, round: int -> int, p: Portable)
    requires NfcLaws(env.nfc) && IsRounding(round) && Carried(p)
    ensures GoSha(env, p) == NodeSha(env, round, p)
    ensures forall key :: GoMac(env, key, p) == NodeMac(env, round, key, p)
  {
    hide Transportable, HasIntegralFloat, ToGo, ToNode, ToPython, Go.Encode, Node.CanonicalBytes, CanonicalBytes;
    hide NfcLaws, IsRounding;
    ThreeWayAgreement(env.nfc, round, p);
  }

  lemma PlainScalars(t: Text)
    requires IsPlain(t)
    ensures Scalars(t)
  {
  }

  lemma GoShaIsPlain(env: Env, p: Portable)
    requires EnvLaws(env)
    ensures GoSha(env, p).Some? ==> IsPlain(GoSha(env, p).value)
  {
    hide Go.Encode, ToGo;
  }

  /** A descriptor repeats fields of its candidate, apart from the sink's identity. */
  lemma RebuiltFields(h: HCAD)
    ensures HCADValues(h) == [Str(Lit("finality-hcad/v1"))] + CandidateValues(h.act)[..11]
      + [Str(h.sink_id), Str(h.boundary_id), CandidateValues(h.act)[13], Str(h.payload_digest),
         CandidateValues(h.act)[15]]
  {
    hide Texts, StatusText, Lit;
  }

  lemma RebuiltCarried(b: Bundle, pd: Text)
    requires CarriedBundle(b) && IsPlain(pd)
    ensures Carried(RebuiltDoc(b, pd))
  {
    hide CandidateValues, HCADValues;
    PlainScalars(pd);
    var h := HCAD(b.c, b.ctx.sink_id, b.ctx.boundary_id, pd);
    var vs, cs := HCADValues(h), CandidateValues(b.c);
    RebuiltFields(h);
    CandidateFieldsCarried(b);
    forall i | 0 <= i < |vs| ensures Carried(OfField(vs[i])) {
      assert 1 <= i < 12 ==> vs[i] == cs[i - 1];
      assert i == 14 ==> vs[i] == cs[13];
      assert i == 16 ==> vs[i] == cs[15];
    }
    hide Carried, OfField;
    EntriesCarried(DocEntries(HCAD_FIELDS, OfFields(vs)));
  }

  lemma CandidateFieldsCarried(b: Bundle)
    requires Carried(CandidateDoc(b))
    ensures forall i :: 0 <= i < |CANDIDATE_FIELDS| && i != 14 && i != 16 ==> Carried(OfField(CandidateValues(b.c)[i]))
  {
    hide Carried, CandidateValues, OfField;
    var vals := OfFields(CandidateValues(b.c))[14 := b.payload][16 := PObject(b.context)];
    var es := DocEntries(CANDIDATE_FIELDS, vals);
    EntriesCarried(es);
    forall i | 0 <= i < |CANDIDATE_FIELDS| && i != 14 && i != 16 ensures Carried(OfField(CandidateValues(b.c)[i])) {
      assert es[i].val == OfField(CandidateValues(b.c)[i]);
    }
  }

  lemma TransitionCarried(t: StateTransition, d: Text, cd: Text)
    requires Carried(TransitionDoc(t, d)) && IsPlain(cd)
    ensures Carried(TransitionDoc(t, cd))
  {
    PlainScalars(cd);
    var vs, ws := TransitionValues(t, d), TransitionValues(t, cd);
    EntriesCarried(DocEntries(TRANSITION_FIELDS, OfFields(vs)));
    forall i | 0 <= i < |ws| ensures Carried(OfField(ws[i])) {
      assert i < 9 ==> ws[i] == vs[i];
      assert OfFields(vs)[i] == DocEntries(TRANSITION_FIELDS, OfFields(vs))[i].val;
    }
    EntriesCarried(DocEntries(TRANSITION_FIELDS, OfFields(ws)));
  }

  lemma DigestsAgree(env: Env, round: int -> int, b: Bundle)
    requires EnvLaws(env) && IsRounding(round) && CarriedBundle(b)
    ensures GoDigests(env, b) == NodeDigests(env, round, b)
  {
    hide Carried, GoSha, GoMac, NodeSha, NodeMac, CandidateDoc, HCADDoc, RebuiltDoc, TransitionDoc, EvidenceEntries;
    hide CapabilityEntries;
    hide Dropping, IsRounding;
    var eu, cu := Dropping(EvidenceEntries(b.e), Lit("signature")),
        Dropping(CapabilityEntries(b.cap), Lit("signature"));
    DroppingCarried(EvidenceEntries(b.e), Lit("signature"));
    DroppingCarried(CapabilityEntries(b.cap), Lit("signature"));
    DroppingCarried(eu, Lit("evidence_id"));
    DroppingCarried(cu, Lit("capability_id"));
    SameSha(env, round, CandidateDoc(b));
    SameSha(env, round, b.payload);
    SameSha(env, round, HCADDoc(b.h));
    SameSha(env, round, PObject(eu));
    SameSha(env, round, PObject(cu));
    SameSha(env, round, PObject(Dropping(eu, Lit("evidence_id"))));
    SameSha(env, round, PObject(Dropping(cu, Lit("capability_id"))));
    GoShaIsPlain(env, b.payload);
    GoShaIsPlain(env, CandidateDoc(b));
    hide EnvLaws, IsPlain;
    var cd, pd := GoSha(env, CandidateDoc(b)), GoSha(env, b.payload);
    if pd.Some? {
      RebuiltCarried(b, pd.value);
      SameSha(env, round, RebuiltDoc(b, pd.value));
    }
    if cd.Some? {
      TransitionCarried(b.t, b.t.transition_id, cd.value);
      SameSha(env, round, TransitionDoc(b.t, cd.value));
    }
  }

  // ---- Numbers ----

  /** Node's roundings never change a comparison of safe integers with each other, with their sums, or
      with any other integer. */
  lemma NumbersAgree(round: int -> int, b: Bundle)
    requires IsRounding(round)
    requires IsSafe(b.t.before_version) && IsSafe(b.t.after_version)
    requires IsSafe(b.t.quota_before) && IsSafe(b.t.quota_after)
    requires IsSafe(b.t.budget_before) && IsSafe(b.t.budget_after)
    requires IsSafe(b.cap.policy_epoch) && IsSafe(b.cap.expires_at_ns)
    requires IsSafe(b.c.issued_at_ns) && IsSafe(b.c.freshness_ns)
    ensures GoNumbersOk(b) == NodeNumbersOk(round, b)
  {
    hide Wrap64, IsRounding;
    EqualityAgrees(round, b.cap.policy_epoch, b.ctx.policy_epoch);
    TransitionNumbersAgree(round, b.t);
    WrapSmall(b.c.issued_at_ns + b.c.freshness_ns);
    WrapSmall(b.t.before_version + 1);
    WrapSmall(b.t.quota_before - 1);
    SumAgrees(round, b.cap.expires_at_ns, b.c.issued_at_ns, b.c.freshness_ns);
  }

  lemma WrapSmall(i: int)
    requires -TWO_63 <= i < TWO_63
    ensures Wrap64(i) == i
  {
  }

  lemma TransitionNumbersAgree(round: int -> int, t: StateTransition)
    requires IsRounding(round)
    requires IsSafe(t.before_version) && IsSafe(t.after_version) && IsSafe(t.quota_before) && IsSafe(t.quota_after)
    requires IsSafe(t.budget_before) && IsSafe(t.budget_after)
    ensures round(t.after_version) == round(round(t.before_version) + 1) <==> t.after_version == t.before_version + 1
    ensures round(t.quota_after) == round(round(t.quota_before) - 1) <==> t.quota_after == t.quota_before - 1
    ensures round(t.budget_after) < round(t.budget_before) <==> t.budget_after < t.budget_before
  {
  }

  lemma EqualityAgrees(round: int -> int, safe: int, i: int)
    requires IsRounding(round) && IsSafe(safe)
    ensures round(safe) == round(i) <==> safe == i
  {
    var bound := 9007199254740992;
    if i > bound {
      assert round(bound) <= round(i);
    } else if i < -bound {
      assert round(i) <= round(-bound);
    }
  }

  lemma SumAgrees(round: int -> int, limit: int, m: int, n: int)
    requires IsRounding(round) && IsSafe(limit) && IsSafe(m) && IsSafe(n)
    ensures limit <= m + n <==> !(round(limit) > round(round(m) + round(n)))
  {
    var bound := 9007199254740992;
    if m + n > bound {
      assert round(bound) <= round(m + n);
    } else if m + n < -bound {
      assert round(m + n) <= round(-bound);
    }
  }

  // ---- What is hashed is safe ----

  lemma {:induction false} PythonEntriesAt(es: seq<Pair<Text, Portable>>)
    ensures |ToPythonEntries(es)| == |es|
    ensures forall i :: 0 <= i < |es| ==> ToPythonEntries(es)[i] == Pair(StrKey(es[i].key), ToPython(es[i].val))
  {
    if es != [] {
      PythonEntriesAt(es[1..]);
      assert forall i ::
        0 < i < |es| ==> ToPythonEntries(es)[i] == ToPythonEntries(es[1..])[i - 1] && es[i] == es[1..][i - 1];
    }
  }

  /** A document that Go can hash holds safe integers only. */
  lemma SafeEntry(env: Env, es: seq<Pair<Text, Portable>>, i: nat, n: int)
    requires NfcLaws(env.nfc) && Carried(PObject(es)) && i < |es| && es[i].val == PInt(n)
    requires Go.Encode(env.nfc, ToGo(PObject(es))).Some?
    ensures IsSafe(n)
  {
    hide Go.Encode, ToGo, ToPythonEntries, Transportable, NormalizeEntries;
    GoAgrees(env.nfc, PObject(es));
    PythonEntriesAt(es);
    assert NormalizeEntries(env.nfc, ToPythonEntries(es), true).Some?;
    EntryAt(env.nfc, ToPythonEntries(es), true, i);
    assert ToPythonEntries(es)[i].val == Int(n);
  }

  /** The same, by field. */
  lemma SafeField(env: Env, names: seq<string>, vals: seq<Portable>, i: nat, n: int)
    requires NfcLaws(env.nfc) && |names| == |vals| && Carried(DocOf(names, vals)) && i < |vals| && vals[i] == PInt(n)
    requires Go.Encode(env.nfc, ToGo(DocOf(names, vals))).Some?
    ensures IsSafe(n)
  {
    hide Carried, Go.Encode, ToGo;
    SafeEntry(env, DocEntries(names, vals), i, n);
  }

  // ---- Unsigned objects ----

  lemma {:induction false} DropNothing(es: seq<Pair<Text, Portable>>, name: Text)
    requires forall i :: 0 <= i < |es| ==> es[i].key != name
    ensures Dropping(es, name) == es
  {
    if es != [] {
      DropNothing(es[1..], name);
      assert es == [es[0]] + es[1..];
    }
  }

  lemma {:induction false} DropSnoc(es: seq<Pair<Text, Portable>>, e: Pair<Text, Portable>)
    requires forall i :: 0 <= i < |es| ==> es[i].key != e.key
    ensures Dropping(es + [e], e.key) == es
  {
    if es == [] {
      assert Dropping([e], e.key) == Dropping([e][1..], e.key);
    } else {
      DropSnoc(es[1..], e);
      assert (es + [e])[1..] == es[1..] + [e] && (es + [e])[0] == es[0];
      assert es == [es[0]] + es[1..];
    }
  }

  /** What is left without the signature is what was signed, and without the id what was hashed. */
  lemma UnsignedEntries(id: string, names: seq<string>, identity: Text, vs: seq<Value>, signature: Text)
    requires |names| == |vs| && FieldNames([id] + names) && AsciiName("signature") && "signature" !in [id] + names
    ensures var unsigned := DocEntries([id] + names, OfFields([Str(identity)] + vs));
      && Dropping(SignedEntries(id, names, identity, vs, signature), Lit("signature")) == unsigned
      && Dropping(unsigned, Lit(id)) == DocEntries(names, OfFields(vs))
  {
    hide Dropping;
    var all, inner := [id] + names, DocEntries([id] + names, OfFields([Str(identity)] + vs));
    forall i | 0 <= i < |inner| ensures inner[i].key != Lit("signature") && (i > 0 ==> inner[i].key != Lit(id)) {
      assert AsciiName(all[i]) && all[i] in all && AsciiName(all[0]);
      if Lit(all[i]) == Lit("signature") {
        LitInjective(all[i], "signature");
      }
      if i > 0 && Lit(all[i]) == Lit(id) {
        LitInjective(all[i], all[0]);
      }
    }
    var last := Pair(Lit("signature"), PText(signature));
    assert SignedEntries(id, names, identity, vs, signature) == inner + [last];
    DropSnoc(inner, last);
    assert inner[1..] == DocEntries(names, OfFields(vs));
    DropFirst(inner, Lit(id));
  }

  lemma DropFirst(es: seq<Pair<Text, Portable>>, name: Text)
    requires es != [] && es[0].key == name && forall i :: 0 < i < |es| ==> es[i].key != name
    ensures Dropping(es, name) == es[1..]
  {
    DropNothing(es[1..], name);
  }
}
