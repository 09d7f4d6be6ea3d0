/** What equal signatures and equal digests say about the records behind them. */
module Binding {
  import opened Wrappers
  import opened Sorting
  import opened Unicode
  import opened Values
  import opened Canonical
  import opened Parsing
  import opened Laws
  import opened Equivalence
  import opened Models

  // ---- Field names ----

  predicate AsciiName(s: string) { forall k :: 0 <= k < |s| ==> s[k] < '\U{80}' }

  predicate AsciiNames(names: seq<string>) { forall i :: 0 <= i < |names| ==> AsciiName(names[i]) }

  predicate DistinctNames(names: seq<string>) {
    forall i, j :: 0 <= i < j < |names| ==> names[i] != names[j]
  }

  predicate FieldNames(names: seq<string>) { AsciiNames(names) && DistinctNames(names) }

  lemma LitInjective(s: string, t: string)
    requires AsciiName(s) && AsciiName(t) && Lit(s) == Lit(t)
    ensures s == t
  {
    forall k | 0 <= k < |s| ensures s[k] == t[k] {
      assert Lit(s)[k] == Lit(t)[k];
      assert s[k] as int == Lit(s)[k] && t[k] as int == Lit(t)[k];
    }
  }

  lemma NamesWithId(name: string, names: seq<string>)
    requires FieldNames(names) && AsciiName(name) && name !in names
    ensures FieldNames([name] + names)
  {
  }

  lemma CapabilityNamesFront()
    ensures forall i :: 0 <= i < 7 ==> AsciiName(CAPABILITY_FIELDS[i])
  {
  }

  lemma CapabilityNamesBack()
    ensures forall i :: 7 <= i < |CAPABILITY_FIELDS| ==> AsciiName(CAPABILITY_FIELDS[i])
  {
  }

  lemma CapabilityNamesDistinct()
    ensures DistinctNames(CAPABILITY_FIELDS)
  {
  }

  lemma CapabilityNames()
    ensures FieldNames(CAPABILITY_FIELDS) && FieldNames(["capability_id"] + CAPABILITY_FIELDS)
  {
    CapabilityNamesFront();
    CapabilityNamesBack();
    CapabilityNamesDistinct();
    NamesWithId("capability_id", CAPABILITY_FIELDS);
  }

  lemma EvidenceNamesFront()
    ensures forall i :: 0 <= i < 5 ==> AsciiName(EVIDENCE_FIELDS[i])
  {
  }

  lemma EvidenceNamesBack()
    ensures forall i :: 5 <= i < |EVIDENCE_FIELDS| ==> AsciiName(EVIDENCE_FIELDS[i])
  {
  }

  lemma EvidenceNamesDistinct()
    ensures DistinctNames(EVIDENCE_FIELDS)
  {
  }

  lemma EvidenceNames()
    ensures FieldNames(EVIDENCE_FIELDS) && FieldNames(["evidence_id"] + EVIDENCE_FIELDS)
  {
    EvidenceNamesFront();
    EvidenceNamesBack();
    EvidenceNamesDistinct();
    NamesWithId("evidence_id", EVIDENCE_FIELDS);
  }

  lemma ReceiptNamesFront()
    ensures forall i :: 0 <= i < 6 ==> AsciiName(RECEIPT_FIELDS[i])
  {
  }

  lemma ReceiptNamesBack()
    ensures forall i :: 6 <= i < |RECEIPT_FIELDS| ==> AsciiName(RECEIPT_FIELDS[i])
  {
  }

  lemma ReceiptNamesDistinct()
    ensures DistinctNames(RECEIPT_FIELDS)
  {
  }

  lemma ReceiptNames()
    ensures FieldNames(RECEIPT_FIELDS) && FieldNames(["receipt_id"] + RECEIPT_FIELDS)
  {
    ReceiptNamesFront();
    ReceiptNamesBack();
    ReceiptNamesDistinct();
    NamesWithId("receipt_id", RECEIPT_FIELDS);
  }

  lemma TransitionNamesFront()
    ensures forall i :: 0 <= i < 5 ==> AsciiName(TRANSITION_FIELDS[i])
  {
  }

  lemma TransitionNamesBack()
    ensures forall i :: 5 <= i < |TRANSITION_FIELDS| ==> AsciiName(TRANSITION_FIELDS[i])
  {
  }

  lemma TransitionNamesDistinct()
    ensures DistinctNames(TRANSITION_FIELDS)
  {
  }

  lemma TransitionNames()
    ensures FieldNames(TRANSITION_FIELDS)
  {
    TransitionNamesFront();
    TransitionNamesBack();
    TransitionNamesDistinct();
  }

  lemma HCADNamesFront()
    ensures forall i :: 0 <= i < 9 ==> AsciiName(HCAD_FIELDS[i])
  {
  }

  lemma HCADNamesBack()
    ensures forall i :: 9 <= i < |HCAD_FIELDS| ==> AsciiName(HCAD_FIELDS[i])
  {
  }

  lemma HCADNamesDistinctFront()
    ensures forall i, j :: 0 <= i < 9 && i < j < |HCAD_FIELDS| ==> HCAD_FIELDS[i] != HCAD_FIELDS[j]
  {
  }

  lemma HCADNamesDistinctBack()
    ensures forall i, j :: 9 <= i < j < |HCAD_FIELDS| ==> HCAD_FIELDS[i] != HCAD_FIELDS[j]
  {
  }

  lemma HCADNames()
    ensures FieldNames(HCAD_FIELDS)
  {
    HCADNamesFront();
    HCADNamesBack();
    HCADNamesDistinctFront();
    HCADNamesDistinctBack();
  }

  lemma ProofNamesFront()
    ensures forall i :: 0 <= i < 4 ==> AsciiName(PROOF_FIELDS[i])
  {
  }

  lemma ProofNamesBack()
    ensures forall i :: 4 <= i < |PROOF_FIELDS| ==> AsciiName(PROOF_FIELDS[i])
  {
  }

  lemma ProofNamesDistinct()
    ensures DistinctNames(PROOF_FIELDS)
  {
  }

  lemma ProofNames()
    ensures FieldNames(PROOF_FIELDS)
  {
    ProofNamesFront();
    ProofNamesBack();
    ProofNamesDistinct();
  }

  // ---- Records bind their fields ----

  /** Records with these fields are accepted and have the same canonical bytes. */
  ghost predicate SameBytes(nfc: Nfc, names: seq<string>, vs: seq<Value>, ws: seq<Value>) {
    && |names| == |vs| == |ws|
    && CanonicalBytes(nfc, Dict(FieldsOf(names, vs)), false).Some?
    && CanonicalBytes(nfc, Dict(FieldsOf(names, vs)), false) == CanonicalBytes(nfc, Dict(FieldsOf(names, ws)), false)
  }

  /** Equal canonical bytes of two records with the same fields: the fields are equivalent one by one. */
  lemma FieldsBind(nfc: Nfc, names: seq<string>, vs: seq<Value>, ws: seq<Value>, i: nat)
    requires NfcLaws(nfc) && SameBytes(nfc, names, vs, ws) && i < |names|
    ensures Equivalent(nfc, vs[i], ws[i])
  {
    var es, ds := FieldsOf(names, vs), FieldsOf(names, ws);
    BytesDetermineValue(nfc, Dict(es), Dict(ds), false);
    assert Covers(nfc, es, ds);
    assert HasCounterpart(nfc, es[i], ds);
    var j :| 0 <= j < |ds| && EquivalentEntry(nfc, es[i], ds[j]);
    KeysDistinguish(nfc, es, i, j);
  }

  ghost predicate Pointwise(nfc: Nfc, vs: seq<Value>, ws: seq<Value>) {
    |vs| == |ws| && (vs == [] || (Equivalent(nfc, vs[0], ws[0]) && Pointwise(nfc, vs[1..], ws[1..])))
  }

  lemma {:induction false} PointwiseAt(nfc: Nfc, vs: seq<Value>, ws: seq<Value>, i: nat)
    requires Pointwise(nfc, vs, ws) && i < |vs|
    ensures Equivalent(nfc, vs[i], ws[i])
  {
    if i > 0 {
      PointwiseAt(nfc, vs[1..], ws[1..], i - 1);
    }
  }

  lemma {:induction false} PointwiseFrom(nfc: Nfc, vs: seq<Value>, ws: seq<Value>)
    requires |vs| == |ws| && forall i :: 0 <= i < |vs| ==> Equivalent(nfc, vs[i], ws[i])
    ensures Pointwise(nfc, vs, ws)
  {
    if vs != [] {
      assert forall i :: 0 <= i < |vs| - 1 ==> vs[1..][i] == vs[i + 1] && ws[1..][i] == ws[i + 1];
      PointwiseFrom(nfc, vs[1..], ws[1..]);
    }
  }

  lemma AllFieldsBind(nfc: Nfc, names: seq<string>, vs: seq<Value>, ws: seq<Value>)
    requires NfcLaws(nfc) && SameBytes(nfc, names, vs, ws)
    ensures Pointwise(nfc, vs, ws)
  {
    forall i | 0 <= i < |vs| ensures Equivalent(nfc, vs[i], ws[i]) {
      FieldsBind(nfc, names, vs, ws, i);
    }
    PointwiseFrom(nfc, vs, ws);
  }

  lemma TextBinds(nfc: Nfc, vs: seq<Value>, ws: seq<Value>, i: nat, t: Text, u: Text)
    requires Pointwise(nfc, vs, ws) && i < |vs| && vs[i] == Str(t) && ws[i] == Str(u)
    ensures nfc(t) == nfc(u)
  {
    PointwiseAt(nfc, vs, ws, i);
  }

  lemma IntBinds(nfc: Nfc, vs: seq<Value>, ws: seq<Value>, i: nat, m: int, n: int)
    requires Pointwise(nfc, vs, ws) && i < |vs| && vs[i] == Int(m) && ws[i] == Int(n)
    ensures m == n
  {
    PointwiseAt(nfc, vs, ws, i);
  }

  lemma ScopeBinds(nfc: Nfc, vs: seq<Value>, ws: seq<Value>, i: nat, ts: seq<Text>, us: seq<Text>)
    requires Pointwise(nfc, vs, ws) && i < |vs|
    requires vs[i] == List(Texts(ts)) || vs[i] == Tuple(Texts(ts))
    requires ws[i] == List(Texts(us)) || ws[i] == Tuple(Texts(us))
    ensures SameTexts(nfc, ts, us)
  {
    PointwiseAt(nfc, vs, ws, i);
    TextsBind(nfc, ts, us);
  }

  /** In an accepted dictionary only one entry has a given normalized key. */
  lemma KeysDistinguish(nfc: Nfc, es: seq<Pair<Key, Value>>, i: nat, j: nat)
    requires Normalize(nfc, Dict(es), false).Some? && i < |es| && j < |es|
    requires es[i].key.StrKey? && es[j].key.StrKey? && nfc(es[i].key.text) == nfc(es[j].key.text)
    ensures i == j
  {
    EntryAt(nfc, es, false, i);
    EntryAt(nfc, es, false, j);
  }

  /** Records with different field names never have equal bytes. */
  lemma NamesSeparate(nfc: Nfc, names: seq<string>, vs: seq<Value>, others: seq<string>, ws: seq<Value>, i: nat)
    requires NfcLaws(nfc) && |names| == |vs| && |others| == |ws|
    requires i < |names| && FieldNames(names) && FieldNames(others) && names[i] !in others
    requires Normalize(nfc, Dict(FieldsOf(names, vs)), false).Some?
    requires Normalize(nfc, Dict(FieldsOf(others, ws)), false).Some?
    ensures CanonicalBytes(nfc, Dict(FieldsOf(names, vs)), false)
            != CanonicalBytes(nfc, Dict(FieldsOf(others, ws)), false)
  {
    var es, ds := FieldsOf(names, vs), FieldsOf(others, ws);
    BytesDetermineValue(nfc, Dict(es), Dict(ds), false);
    if Equivalent(nfc, Dict(es), Dict(ds)) {
      assert HasCounterpart(nfc, es[i], ds);
      var j :| 0 <= j < |ds| && EquivalentEntry(nfc, es[i], ds[j]);
      assert nfc(Lit(names[i])) == Lit(names[i]) && nfc(Lit(others[j])) == Lit(others[j]);
      LitInjective(names[i], others[j]);
    }
  }

  /** A dataclass and a dictionary with the same entries have the same bytes. */
  lemma RecordIsDict(nfc: Nfc, es: seq<Pair<Key, Value>>, portable: bool)
    ensures Normalize(nfc, Record(es), portable) == Normalize(nfc, Dict(es), portable)
    ensures CanonicalBytes(nfc, Record(es), portable) == CanonicalBytes(nfc, Dict(es), portable)
  {
  }

  /** A record of accepted fields under distinct names is accepted. */
  lemma RecordAccepted(nfc: Nfc, names: seq<string>, vs: seq<Value>)
    requires NfcLaws(nfc) && |names| == |vs| && FieldNames(names)
    requires forall i :: 0 <= i < |vs| ==> Normalize(nfc, vs[i], false).Some?
    ensures Normalize(nfc, Dict(FieldsOf(names, vs)), false).Some?
  {
    var es := FieldsOf(names, vs);
    forall e | e in es ensures NormalizeEntry(nfc, e, false).Some? {
      var i :| 0 <= i < |es| && es[i] == e;
    }
    AllEntries(nfc, es, false);
    var fs := NormalizeEntries(nfc, es, false).value;
    forall i, j | 0 <= i < j < |fs| ensures fs[i].key != fs[j].key {
      EntryAt(nfc, es, false, i);
      EntryAt(nfc, es, false, j);
      assert nfc(Lit(names[i])) == Lit(names[i]) && nfc(Lit(names[j])) == Lit(names[j]);
      if Lit(names[i]) == Lit(names[j]) {
        LitInjective(names[i], names[j]);
      }
    }
  }

  /** Every field of an accepted record is accepted. */
  lemma FieldAccepted(nfc: Nfc, names: seq<string>, vs: seq<Value>, i: nat)
    requires |names| == |vs| && i < |names|
    requires Normalize(nfc, Dict(FieldsOf(names, vs)), false).Some?
    ensures Normalize(nfc, vs[i], false).Some?
  {
    EntryAt(nfc, FieldsOf(names, vs), false, i);
  }

  // ---- Texts ----

  /** The same texts, up to NFC. */
  ghost predicate SameTexts(nfc: Nfc, ts: seq<Text>, us: seq<Text>) {
    |ts| == |us| && forall i :: 0 <= i < |ts| ==> nfc(ts[i]) == nfc(us[i])
  }

  lemma TextsBind(nfc: Nfc, ts: seq<Text>, us: seq<Text>)
    requires EquivalentItems(nfc, Texts(ts), Texts(us))
    ensures SameTexts(nfc, ts, us)
  {
    forall i | 0 <= i < |ts| ensures nfc(ts[i]) == nfc(us[i]) {
      assert Equivalent(nfc, Texts(ts)[i], Texts(us)[i]);
    }
  }

  lemma TextsAccepted(nfc: Nfc, ts: seq<Text>)
    requires forall t :: t in ts ==> Scalars(t)
    ensures Normalize(nfc, List(Texts(ts)), false).Some? && Normalize(nfc, Tuple(Texts(ts)), false).Some?
  {
    forall v | v in Texts(ts) ensures Normalize(nfc, v, false).Some? {
      var i :| 0 <= i < |ts| && Texts(ts)[i] == v;
    }
    AllItems(nfc, Texts(ts), false);
  }

  // ---- Acts ----

  /** The two candidates are the same act: all 18 fields agree up to canonical equivalence. */
  ghost predicate SameAct(nfc: Nfc, c: CandidateAct, d: CandidateAct) {
    && nfc(c.act_id) == nfc(d.act_id) && nfc(c.act_class) == nfc(d.act_class)
    && nfc(c.effect_class) == nfc(d.effect_class) && nfc(c.source) == nfc(d.source)
    && nfc(c.destination) == nfc(d.destination) && nfc(c.purpose) == nfc(d.purpose)
    && nfc(c.jurisdiction) == nfc(d.jurisdiction) && c.policy_epoch == d.policy_epoch
    && nfc(c.nonce) == nfc(d.nonce) && c.issued_at_ns == d.issued_at_ns && c.freshness_ns == d.freshness_ns
    && nfc(c.sink_id) == nfc(d.sink_id) && nfc(c.boundary_id) == nfc(d.boundary_id)
    && SameTexts(nfc, c.scope, d.scope) && Equivalent(nfc, c.payload, d.payload)
    && nfc(c.runtime_evidence_digest) == nfc(d.runtime_evidence_digest)
    && Equivalent(nfc, Dict(c.authority_context), Dict(d.authority_context))
    && c.status == d.status
  }

  lemma CandidateTextsAt(c: CandidateAct)
    ensures var vs := CandidateValues(c);
      && vs[0] == Str(c.act_id) && vs[1] == Str(c.act_class) && vs[2] == Str(c.effect_class) && vs[3] == Str(c.source)
      && vs[4] == Str(c.destination) && vs[5] == Str(c.purpose) && vs[6] == Str(c.jurisdiction)
      && vs[7] == Int(c.policy_epoch)
  {
    hide Texts, StatusText;
  }

  lemma KindFieldsBind(nfc: Nfc, c: CandidateAct, d: CandidateAct)
    requires Pointwise(nfc, CandidateValues(c), CandidateValues(d))
    ensures nfc(c.act_id) == nfc(d.act_id) && nfc(c.act_class) == nfc(d.act_class)
    ensures nfc(c.effect_class) == nfc(d.effect_class) && nfc(c.source) == nfc(d.source)
  {
    hide Pointwise, CandidateValues;
    CandidateTextsAt(c);
    CandidateTextsAt(d);
    var vs, ws := CandidateValues(c), CandidateValues(d);
    TextBinds(nfc, vs, ws, 0, c.act_id, d.act_id);
    TextBinds(nfc, vs, ws, 1, c.act_class, d.act_class);
    TextBinds(nfc, vs, ws, 2, c.effect_class, d.effect_class);
    TextBinds(nfc, vs, ws, 3, c.source, d.source);
  }

  lemma PurposeFieldsBind(nfc: Nfc, c: CandidateAct, d: CandidateAct)
    requires Pointwise(nfc, CandidateValues(c), CandidateValues(d))
    ensures nfc(c.destination) == nfc(d.destination) && nfc(c.purpose) == nfc(d.purpose)
    ensures nfc(c.jurisdiction) == nfc(d.jurisdiction) && c.policy_epoch == d.policy_epoch
  {
    hide Pointwise, CandidateValues;
    CandidateTextsAt(c);
    CandidateTextsAt(d);
    var vs, ws := CandidateValues(c), CandidateValues(d);
    TextBinds(nfc, vs, ws, 4, c.destination, d.destination);
    TextBinds(nfc, vs, ws, 5, c.purpose, d.purpose);
    TextBinds(nfc, vs, ws, 6, c.jurisdiction, d.jurisdiction);
    IntBinds(nfc, vs, ws, 7, c.policy_epoch, d.policy_epoch);
  }

  lemma BoundaryFieldsBind(nfc: Nfc, c: CandidateAct, d: CandidateAct)
    requires Pointwise(nfc, CandidateValues(c), CandidateValues(d))
    ensures nfc(c.nonce) == nfc(d.nonce)
    ensures c.issued_at_ns == d.issued_at_ns && c.freshness_ns == d.freshness_ns
    ensures nfc(c.sink_id) == nfc(d.sink_id) && nfc(c.boundary_id) == nfc(d.boundary_id)
  {
    hide Pointwise, Equivalent, Texts, StatusText;
    var vs, ws := CandidateValues(c), CandidateValues(d);
    TextBinds(nfc, vs, ws, 8, c.nonce, d.nonce);
    IntBinds(nfc, vs, ws, 9, c.issued_at_ns, d.issued_at_ns);
    IntBinds(nfc, vs, ws, 10, c.freshness_ns, d.freshness_ns);
    TextBinds(nfc, vs, ws, 11, c.sink_id, d.sink_id);
    TextBinds(nfc, vs, ws, 12, c.boundary_id, d.boundary_id);
  }

  lemma ContentFieldsBind(nfc: Nfc, c: CandidateAct, d: CandidateAct)
    requires Pointwise(nfc, CandidateValues(c), CandidateValues(d))
    ensures SameTexts(nfc, c.scope, d.scope) && Equivalent(nfc, c.payload, d.payload)
    ensures nfc(c.runtime_evidence_digest) == nfc(d.runtime_evidence_digest)
  {
    hide Pointwise, Equivalent;
    var vs, ws := CandidateValues(c), CandidateValues(d);
    ScopeBinds(nfc, vs, ws, 13, c.scope, d.scope);
    PointwiseAt(nfc, vs, ws, 14);
    TextBinds(nfc, vs, ws, 15, c.runtime_evidence_digest, d.runtime_evidence_digest);
  }

  lemma ContextFieldsBind(nfc: Nfc, c: CandidateAct, d: CandidateAct)
    requires NfcLaws(nfc) && Pointwise(nfc, CandidateValues(c), CandidateValues(d))
    ensures Equivalent(nfc, Dict(c.authority_context), Dict(d.authority_context))
    ensures c.status == d.status
  {
    hide Pointwise, Equivalent;
    var vs, ws := CandidateValues(c), CandidateValues(d);
    PointwiseAt(nfc, vs, ws, 16);
    TextBinds(nfc, vs, ws, 17, StatusText(c.status), StatusText(d.status));
    assert |StatusText(NON_EFFECTIVE)| != |StatusText(EFFECTIVE)|;
  }

  /** Candidates with equal canonical bytes are the same act. */
  lemma CandidateBytesBind(nfc: Nfc, c: CandidateAct, d: CandidateAct)
    requires NfcLaws(nfc)
    requires CanonicalBytes(nfc, CandidateValue(c), false).Some?
    requires CanonicalBytes(nfc, CandidateValue(c), false) == CanonicalBytes(nfc, CandidateValue(d), false)
    ensures SameAct(nfc, c, d)
  {
    RecordIsDict(nfc, FieldsOf(CANDIDATE_FIELDS, CandidateValues(c)), false);
    RecordIsDict(nfc, FieldsOf(CANDIDATE_FIELDS, CandidateValues(d)), false);
    AllFieldsBind(nfc, CANDIDATE_FIELDS, CandidateValues(c), CandidateValues(d));
    KindFieldsBind(nfc, c, d);
    PurposeFieldsBind(nfc, c, d);
    BoundaryFieldsBind(nfc, c, d);
    ContentFieldsBind(nfc, c, d);
    ContextFieldsBind(nfc, c, d);
  }

  // ---- Key order ----

  lemma FieldsReordered(names: seq<string>, vs: seq<Value>, ws: seq<Value>)
    requires |names| == |vs| == |ws| && forall i :: 0 <= i < |vs| ==> Reordered(vs[i], ws[i])
    ensures Reordered(Record(FieldsOf(names, vs)), Record(FieldsOf(names, ws)))
  {
  }

  /** A text, a number or a list of texts. */
  predicate IsPlainField(v: Value) {
    v.Str? || v.Int? || (v.Tuple? && forall i :: 0 <= i < |v.items| ==> v.items[i].Str?)
  }

  lemma PlainReordered(v: Value)
    requires IsPlainField(v)
    ensures Reordered(v, v)
  {
  }

  lemma CandidatePlainFields(c: CandidateAct)
    ensures forall i :: 0 <= i < |CandidateValues(c)| && i != 14 && i != 16 ==> IsPlainField(CandidateValues(c)[i])
    ensures CandidateValues(c)[14] == c.payload && CandidateValues(c)[16] == Dict(c.authority_context)
  {
    hide StatusText;
  }

  /** Fields other than the payload and the context are listed alike. */
  lemma CandidateValuesReordered(c: CandidateAct, d: CandidateAct)
    requires d == c.(payload := d.payload, authority_context := d.authority_context)
    requires Reordered(c.payload, d.payload) && Reordered(Dict(c.authority_context), Dict(d.authority_context))
    ensures forall i :: 0 <= i < |CandidateValues(c)| ==> Reordered(CandidateValues(c)[i], CandidateValues(d)[i])
  {
    hide Reordered, IsPlainField, StatusText, Texts;
    assert CandidateValues(d) == CandidateValues(c)[14 := d.payload][16 := Dict(d.authority_context)];
    CandidatePlainFields(c);
    hide CandidateValues;
    forall i | 0 <= i < |CandidateValues(c)| ensures Reordered(CandidateValues(c)[i], CandidateValues(d)[i]) {
      if i != 14 && i != 16 {
        PlainReordered(CandidateValues(c)[i]);
      }
    }
  }

  /** Neither the digest of a candidate nor that of its descriptor, nor whether there is one, depends on the
      order in which its payload and its context list their keys, at any depth. */
  lemma DigestsIgnoreKeyOrder(env: Env, c: CandidateAct, d: CandidateAct, sink: Text, boundary: Text)
    requires d == c.(payload := d.payload, authority_context := d.authority_context)
    requires Reordered(c.payload, d.payload) && Reordered(Dict(c.authority_context), Dict(d.authority_context))
    ensures CandidateDigest(env, c) == CandidateDigest(env, d)
    ensures DescriptorDigest(env, c, sink, boundary) == DescriptorDigest(env, d, sink, boundary)
  {
    hide Reordered, CandidateValues, FieldsOf, Normalize;
    CandidateValuesReordered(c, d);
    FieldsReordered(CANDIDATE_FIELDS, CandidateValues(c), CandidateValues(d));
    KeyOrderIrrelevant(env.nfc, CandidateValue(c), CandidateValue(d), false);
    KeyOrderIrrelevant(env.nfc, c.payload, d.payload, false);
  }

  // ---- Signed and hashed messages ----

  /** The two capabilities agree in every signed field up to NFC. */
  ghost predicate SameCapability(nfc: Nfc, a: Capability, b: Capability) {
    nfc(a.capability_id) == nfc(b.capability_id) && SameGrant(nfc, a, b)
  }

  /** The two capabilities agree in every hashed field up to NFC. */
  ghost predicate SameGrant(nfc: Nfc, a: Capability, b: Capability) {
    && nfc(a.authority_id) == nfc(b.authority_id) && nfc(a.candidate_digest) == nfc(b.candidate_digest)
    && nfc(a.descriptor_digest) == nfc(b.descriptor_digest) && nfc(a.sink_id) == nfc(b.sink_id)
    && nfc(a.boundary_id) == nfc(b.boundary_id) && nfc(a.nonce) == nfc(b.nonce)
    && SameTexts(nfc, a.scope, b.scope) && a.policy_epoch == b.policy_epoch
    && nfc(a.evidence_id) == nfc(b.evidence_id) && nfc(a.transition_id) == nfc(b.transition_id)
    && a.issued_at_ns == b.issued_at_ns && a.expires_at_ns == b.expires_at_ns
    && nfc(a.key_id) == nfc(b.key_id)
  }

  lemma GrantTextsBind(nfc: Nfc, a: Capability, b: Capability)
    requires Pointwise(nfc, CapabilityValues(a), CapabilityValues(b))
    ensures nfc(a.authority_id) == nfc(b.authority_id) && nfc(a.candidate_digest) == nfc(b.candidate_digest)
    ensures nfc(a.descriptor_digest) == nfc(b.descriptor_digest) && nfc(a.sink_id) == nfc(b.sink_id)
    ensures nfc(a.boundary_id) == nfc(b.boundary_id)
  {
    hide Pointwise, Equivalent;
    var vs, ws := CapabilityValues(a), CapabilityValues(b);
    TextBinds(nfc, vs, ws, 0, a.authority_id, b.authority_id);
    TextBinds(nfc, vs, ws, 1, a.candidate_digest, b.candidate_digest);
    TextBinds(nfc, vs, ws, 2, a.descriptor_digest, b.descriptor_digest);
    TextBinds(nfc, vs, ws, 3, a.sink_id, b.sink_id);
    TextBinds(nfc, vs, ws, 4, a.boundary_id, b.boundary_id);
  }

  lemma GrantScopeBinds(nfc: Nfc, a: Capability, b: Capability)
    requires Pointwise(nfc, CapabilityValues(a), CapabilityValues(b))
    ensures nfc(a.nonce) == nfc(b.nonce) && SameTexts(nfc, a.scope, b.scope) && a.policy_epoch == b.policy_epoch
    ensures nfc(a.evidence_id) == nfc(b.evidence_id)
  {
    hide Pointwise, Equivalent;
    var vs, ws := CapabilityValues(a), CapabilityValues(b);
    TextBinds(nfc, vs, ws, 5, a.nonce, b.nonce);
    ScopeBinds(nfc, vs, ws, 6, a.scope, b.scope);
    IntBinds(nfc, vs, ws, 7, a.policy_epoch, b.policy_epoch);
    TextBinds(nfc, vs, ws, 8, a.evidence_id, b.evidence_id);
  }

  lemma GrantTimesBind(nfc: Nfc, a: Capability, b: Capability)
    requires Pointwise(nfc, CapabilityValues(a), CapabilityValues(b))
    ensures nfc(a.transition_id) == nfc(b.transition_id)
    ensures a.issued_at_ns == b.issued_at_ns && a.expires_at_ns == b.expires_at_ns
    ensures nfc(a.key_id) == nfc(b.key_id)
  {
    hide Pointwise, Equivalent;
    var vs, ws := CapabilityValues(a), CapabilityValues(b);
    TextBinds(nfc, vs, ws, 9, a.transition_id, b.transition_id);
    IntBinds(nfc, vs, ws, 10, a.issued_at_ns, b.issued_at_ns);
    IntBinds(nfc, vs, ws, 11, a.expires_at_ns, b.expires_at_ns);
    TextBinds(nfc, vs, ws, 12, a.key_id, b.key_id);
  }

  lemma GrantBinds(nfc: Nfc, a: Capability, b: Capability)
    requires Pointwise(nfc, CapabilityValues(a), CapabilityValues(b))
    ensures SameGrant(nfc, a, b)
  {
    GrantTextsBind(nfc, a, b);
    GrantScopeBinds(nfc, a, b);
    GrantTimesBind(nfc, a, b);
  }

  /** A signature on one capability is a signature on another only if they are the same capability. */
  lemma CapabilityBytesBind(nfc: Nfc, a: Capability, b: Capability)
    requires NfcLaws(nfc) && CanonicalBytes(nfc, CapabilityUnsigned(a), false).Some?
    requires CanonicalBytes(nfc, CapabilityUnsigned(a), false) == CanonicalBytes(nfc, CapabilityUnsigned(b), false)
    ensures SameCapability(nfc, a, b)
  {
    var vs, ws := [Str(a.capability_id)] + CapabilityValues(a), [Str(b.capability_id)] + CapabilityValues(b);
    AllFieldsBind(nfc, ["capability_id"] + CAPABILITY_FIELDS, vs, ws);
    assert vs[1..] == CapabilityValues(a) && ws[1..] == CapabilityValues(b);
    TextBinds(nfc, vs, ws, 0, a.capability_id, b.capability_id);
    GrantBinds(nfc, a, b);
  }

  /** Capabilities with equal hashed cores grant the same thing. */
  lemma CapabilityCoreBinds(nfc: Nfc, a: Capability, b: Capability)
    requires NfcLaws(nfc) && CanonicalBytes(nfc, CapabilityCore(a), false).Some?
    requires CanonicalBytes(nfc, CapabilityCore(a), false) == CanonicalBytes(nfc, CapabilityCore(b), false)
    ensures SameGrant(nfc, a, b)
  {
    AllFieldsBind(nfc, CAPABILITY_FIELDS, CapabilityValues(a), CapabilityValues(b));
    GrantBinds(nfc, a, b);
  }

  /** No signature on evidence is a signature on a capability. */
  lemma EvidenceIsNoCapability(nfc: Nfc, a: Capability, e: ValidationEvidence)
    requires NfcLaws(nfc) && CanonicalBytes(nfc, CapabilityUnsigned(a), false).Some?
    ensures CanonicalBytes(nfc, CapabilityUnsigned(a), false) != CanonicalBytes(nfc, EvidenceUnsigned(e), false)
  {
    if CanonicalBytes(nfc, EvidenceUnsigned(e), false).Some? {
      CapabilityNames();
      EvidenceNames();
      NamesSeparate(nfc, ["capability_id"] + CAPABILITY_FIELDS, [Str(a.capability_id)] + CapabilityValues(a),
                    ["evidence_id"] + EVIDENCE_FIELDS, [Str(e.evidence_id)] + EvidenceValues(e), 0);
    }
  }

  lemma NonceNotInReceipt()
    ensures (["capability_id"] + CAPABILITY_FIELDS)[6] !in ["receipt_id"] + RECEIPT_FIELDS
  {
    assert (["capability_id"] + CAPABILITY_FIELDS)[6] == "nonce";
  }

  /** No signature on a receipt is a signature on a capability. */
  lemma ReceiptIsNoCapability(nfc: Nfc, a: Capability, r: SinkReceipt)
    requires NfcLaws(nfc) && CanonicalBytes(nfc, CapabilityUnsigned(a), false).Some?
    ensures CanonicalBytes(nfc, CapabilityUnsigned(a), false) != CanonicalBytes(nfc, ReceiptUnsigned(r), false)
  {
    if CanonicalBytes(nfc, ReceiptUnsigned(r), false).Some? {
      CapabilityNames();
      ReceiptNames();
      NonceNotInReceipt();
      var names := ["capability_id"] + CAPABILITY_FIELDS;
      NamesSeparate(nfc, names, [Str(a.capability_id)] + CapabilityValues(a),
                    ["receipt_id"] + RECEIPT_FIELDS, [Str(r.receipt_id)] + ReceiptValues(r), 6);
    }
  }

  /** No signature on a presentation proof is a signature on a capability. */
  lemma ProofIsNoCapability(nfc: Nfc, a: Capability, p: PresentationProof)
    requires NfcLaws(nfc) && CanonicalBytes(nfc, CapabilityUnsigned(a), false).Some?
    ensures CanonicalBytes(nfc, CapabilityUnsigned(a), false) != CanonicalBytes(nfc, ProofUnsigned(p), false)
  {
    if CanonicalBytes(nfc, ProofUnsigned(p), false).Some? {
      CapabilityNames();
      ProofNames();
      NamesSeparate(nfc, ["capability_id"] + CAPABILITY_FIELDS, [Str(a.capability_id)] + CapabilityValues(a),
                    PROOF_FIELDS, ProofValues(p), 1);
    }
  }

  /** No signature on evidence is a signature on a presentation proof. */
  lemma EvidenceIsNoProof(nfc: Nfc, p: PresentationProof, e: ValidationEvidence)
    requires NfcLaws(nfc) && CanonicalBytes(nfc, ProofUnsigned(p), false).Some?
    ensures CanonicalBytes(nfc, ProofUnsigned(p), false) != CanonicalBytes(nfc, EvidenceUnsigned(e), false)
  {
    if CanonicalBytes(nfc, EvidenceUnsigned(e), false).Some? {
      ProofNames();
      EvidenceNames();
      NamesSeparate(nfc, PROOF_FIELDS, ProofValues(p),
                    ["evidence_id"] + EVIDENCE_FIELDS, [Str(e.evidence_id)] + EvidenceValues(e), 2);
    }
  }

  /** No signature on a receipt is a signature on a presentation proof. */
  lemma ReceiptIsNoProof(nfc: Nfc, p: PresentationProof, r: SinkReceipt)
    requires NfcLaws(nfc) && CanonicalBytes(nfc, ProofUnsigned(p), false).Some?
    ensures CanonicalBytes(nfc, ProofUnsigned(p), false) != CanonicalBytes(nfc, ReceiptUnsigned(r), false)
  {
    if CanonicalBytes(nfc, ReceiptUnsigned(r), false).Some? {
      ProofNames();
      ReceiptNames();
      NamesSeparate(nfc, PROOF_FIELDS, ProofValues(p),
                    ["receipt_id"] + RECEIPT_FIELDS, [Str(r.receipt_id)] + ReceiptValues(r), 4);
    }
  }

  /** The two proofs agree in every signed field up to NFC. */
  ghost predicate SameProof(nfc: Nfc, p: PresentationProof, q: PresentationProof) {
    && nfc(p.capability_id) == nfc(q.capability_id) && nfc(p.candidate_digest) == nfc(q.candidate_digest)
    && nfc(p.sink_id) == nfc(q.sink_id) && nfc(p.boundary_id) == nfc(q.boundary_id) && nfc(p.nonce) == nfc(q.nonce)
    && p.presented_at_ns == q.presented_at_ns && nfc(p.presenter_key_id) == nfc(q.presenter_key_id)
  }

  lemma ProofPlaceBinds(nfc: Nfc, p: PresentationProof, q: PresentationProof)
    requires Pointwise(nfc, ProofValues(p), ProofValues(q))
    ensures nfc(p.capability_id) == nfc(q.capability_id) && nfc(p.candidate_digest) == nfc(q.candidate_digest)
    ensures nfc(p.sink_id) == nfc(q.sink_id) && nfc(p.boundary_id) == nfc(q.boundary_id)
  {
    hide Pointwise, Equivalent;
    var vs, ws := ProofValues(p), ProofValues(q);
    TextBinds(nfc, vs, ws, 0, p.capability_id, q.capability_id);
    TextBinds(nfc, vs, ws, 1, p.candidate_digest, q.candidate_digest);
    TextBinds(nfc, vs, ws, 2, p.sink_id, q.sink_id);
    TextBinds(nfc, vs, ws, 3, p.boundary_id, q.boundary_id);
  }

  lemma ProofTimeBinds(nfc: Nfc, p: PresentationProof, q: PresentationProof)
    requires Pointwise(nfc, ProofValues(p), ProofValues(q))
    ensures nfc(p.nonce) == nfc(q.nonce) && p.presented_at_ns == q.presented_at_ns
    ensures nfc(p.presenter_key_id) == nfc(q.presenter_key_id)
  {
    hide Pointwise, Equivalent;
    var vs, ws := ProofValues(p), ProofValues(q);
    TextBinds(nfc, vs, ws, 4, p.nonce, q.nonce);
    IntBinds(nfc, vs, ws, 5, p.presented_at_ns, q.presented_at_ns);
    TextBinds(nfc, vs, ws, 6, p.presenter_key_id, q.presenter_key_id);
  }

  /** A signature on one presentation proof is a signature on another only if they are the same. */
  lemma ProofBytesBind(nfc: Nfc, p: PresentationProof, q: PresentationProof)
    requires NfcLaws(nfc) && CanonicalBytes(nfc, ProofUnsigned(p), false).Some?
    requires CanonicalBytes(nfc, ProofUnsigned(p), false) == CanonicalBytes(nfc, ProofUnsigned(q), false)
    ensures SameProof(nfc, p, q)
  {
    hide Pointwise, ProofValues, CanonicalBytes, NfcLaws;
    AllFieldsBind(nfc, PROOF_FIELDS, ProofValues(p), ProofValues(q));
    ProofPlaceBinds(nfc, p, q);
    ProofTimeBinds(nfc, p, q);
  }

  /** The two transitions, with the digests of their candidates, agree in every hashed field up to NFC. */
  ghost predicate SameTransition(nfc: Nfc, t: StateTransition, d: Text, u: StateTransition, e: Text) {
    && nfc(t.nonce) == nfc(u.nonce) && nfc(t.source) == nfc(u.source)
    && t.before_version == u.before_version && t.after_version == u.after_version
    && t.quota_before == u.quota_before && t.quota_after == u.quota_after
    && t.budget_before == u.budget_before && t.budget_after == u.budget_after
    && t.policy_epoch == u.policy_epoch && nfc(d) == nfc(e)
  }

  lemma VersionsBind(nfc: Nfc, t: StateTransition, d: Text, u: StateTransition, e: Text)
    requires Pointwise(nfc, TransitionValues(t, d), TransitionValues(u, e))
    ensures nfc(t.nonce) == nfc(u.nonce) && nfc(t.source) == nfc(u.source)
    ensures t.before_version == u.before_version && t.after_version == u.after_version && nfc(d) == nfc(e)
  {
    hide Pointwise, Equivalent;
    var vs, ws := TransitionValues(t, d), TransitionValues(u, e);
    TextBinds(nfc, vs, ws, 0, t.nonce, u.nonce);
    TextBinds(nfc, vs, ws, 1, t.source, u.source);
    IntBinds(nfc, vs, ws, 2, t.before_version, u.before_version);
    IntBinds(nfc, vs, ws, 3, t.after_version, u.after_version);
    TextBinds(nfc, vs, ws, 9, d, e);
  }

  lemma AmountsBind(nfc: Nfc, t: StateTransition, d: Text, u: StateTransition, e: Text)
    requires Pointwise(nfc, TransitionValues(t, d), TransitionValues(u, e))
    ensures t.quota_before == u.quota_before && t.quota_after == u.quota_after
    ensures t.budget_before == u.budget_before && t.budget_after == u.budget_after
    ensures t.policy_epoch == u.policy_epoch
  {
    hide Pointwise, Equivalent;
    var vs, ws := TransitionValues(t, d), TransitionValues(u, e);
    IntBinds(nfc, vs, ws, 4, t.quota_before, u.quota_before);
    IntBinds(nfc, vs, ws, 5, t.quota_after, u.quota_after);
    IntBinds(nfc, vs, ws, 6, t.budget_before, u.budget_before);
    IntBinds(nfc, vs, ws, 7, t.budget_after, u.budget_after);
    IntBinds(nfc, vs, ws, 8, t.policy_epoch, u.policy_epoch);
  }

  /** Transitions with equal hashed cores are the same, for the same candidate. */
  lemma TransitionCoreBinds(nfc: Nfc, t: StateTransition, d: Text, u: StateTransition, e: Text)
    requires NfcLaws(nfc) && CanonicalBytes(nfc, TransitionCore(t, d), false).Some?
    requires CanonicalBytes(nfc, TransitionCore(t, d), false) == CanonicalBytes(nfc, TransitionCore(u, e), false)
    ensures SameTransition(nfc, t, d, u, e)
  {
    hide Pointwise, CanonicalBytes, TransitionValues, NfcLaws;
    AllFieldsBind(nfc, TRANSITION_FIELDS, TransitionValues(t, d), TransitionValues(u, e));
    VersionsBind(nfc, t, d, u, e);
    AmountsBind(nfc, t, d, u, e);
  }

  /** The two pieces of evidence agree in every hashed field up to NFC. */
  ghost predicate SameEvidence(nfc: Nfc, e: ValidationEvidence, f: ValidationEvidence) {
    && nfc(e.authority_id) == nfc(f.authority_id) && nfc(e.descriptor_digest) == nfc(f.descriptor_digest)
    && nfc(e.candidate_digest) == nfc(f.candidate_digest) && nfc(e.transition_id) == nfc(f.transition_id)
    && e.policy_epoch == f.policy_epoch && e.decision == f.decision && SameTexts(nfc, e.reasons, f.reasons)
    && e.committed_at_ns == f.committed_at_ns && nfc(e.key_id) == nfc(f.key_id)
  }

  lemma DecisionBinds(nfc: Nfc, vs: seq<Value>, ws: seq<Value>, i: nat, a: Decision, b: Decision)
    requires NfcLaws(nfc) && Pointwise(nfc, vs, ws) && i < |vs|
    requires vs[i] == Str(DecisionText(a)) && ws[i] == Str(DecisionText(b))
    ensures a == b
  {
    TextBinds(nfc, vs, ws, i, DecisionText(a), DecisionText(b));
    assert |DecisionText(ALLOW)| != |DecisionText(DENY)|;
  }

  lemma SubjectBinds(nfc: Nfc, e: ValidationEvidence, f: ValidationEvidence)
    requires Pointwise(nfc, EvidenceValues(e), EvidenceValues(f))
    ensures nfc(e.authority_id) == nfc(f.authority_id) && nfc(e.descriptor_digest) == nfc(f.descriptor_digest)
    ensures nfc(e.candidate_digest) == nfc(f.candidate_digest) && nfc(e.transition_id) == nfc(f.transition_id)
  {
    hide Pointwise, Equivalent, Texts, DecisionText;
    var vs, ws := EvidenceValues(e), EvidenceValues(f);
    TextBinds(nfc, vs, ws, 0, e.authority_id, f.authority_id);
    TextBinds(nfc, vs, ws, 1, e.descriptor_digest, f.descriptor_digest);
    TextBinds(nfc, vs, ws, 2, e.candidate_digest, f.candidate_digest);
    TextBinds(nfc, vs, ws, 3, e.transition_id, f.transition_id);
  }

  lemma JudgementBinds(nfc: Nfc, e: ValidationEvidence, f: ValidationEvidence)
    requires NfcLaws(nfc) && Pointwise(nfc, EvidenceValues(e), EvidenceValues(f))
    ensures e.policy_epoch == f.policy_epoch && e.decision == f.decision && SameTexts(nfc, e.reasons, f.reasons)
    ensures e.committed_at_ns == f.committed_at_ns && nfc(e.key_id) == nfc(f.key_id)
  {
    hide Pointwise, Equivalent, Texts, DecisionText, NfcLaws;
    var vs, ws := EvidenceValues(e), EvidenceValues(f);
    IntBinds(nfc, vs, ws, 4, e.policy_epoch, f.policy_epoch);
    DecisionBinds(nfc, vs, ws, 5, e.decision, f.decision);
    ScopeBinds(nfc, vs, ws, 6, e.reasons, f.reasons);
    IntBinds(nfc, vs, ws, 7, e.committed_at_ns, f.committed_at_ns);
    TextBinds(nfc, vs, ws, 8, e.key_id, f.key_id);
  }

  /** Evidence with equal hashed cores is the same, for the same transition. */
  lemma EvidenceCoreBinds(nfc: Nfc, e: ValidationEvidence, f: ValidationEvidence)
    requires NfcLaws(nfc) && CanonicalBytes(nfc, EvidenceCore(e), false).Some?
    requires CanonicalBytes(nfc, EvidenceCore(e), false) == CanonicalBytes(nfc, EvidenceCore(f), false)
    ensures SameEvidence(nfc, e, f)
  {
    hide Pointwise, CanonicalBytes, EvidenceValues, NfcLaws, SameTexts;
    AllFieldsBind(nfc, EVIDENCE_FIELDS, EvidenceValues(e), EvidenceValues(f));
    SubjectBinds(nfc, e, f);
    JudgementBinds(nfc, e, f);
  }

  /** Nothing but a plain text itself normalizes like it. */
  lemma PlainEqual(nfc: Nfc, t: Text, plain: Text)
    requires NfcLaws(nfc) && IsPlain(plain) && nfc(t) == nfc(plain)
    ensures t == plain
  {
    assert IsAscii(plain);
  }

  /** Equal digests within the run: equal bytes. */
  lemma DigestBinds(env: Env, v: Value, w: Value)
    requires EnvLaws(env) && MayHash(env, v) && MayHash(env, w)
    requires Digest(env, v).Some? && Digest(env, v) == Digest(env, w)
    ensures Canon(env, v) == Canon(env, w)
  {
  }

  /** The hypotheses about hashing and NFC can be met together, by every byte string at once. */
  lemma LawsAreConsistent()
    ensures EnvLaws(Env(t => t, Hex, (key: Bytes, b: Bytes) => Hex(b), b => true))
  {
    var env := Env(t => t, Hex, (key: Bytes, b: Bytes) => Hex(b), b => true);
    forall a: Bytes, b: Bytes | env.hash(a) == env.hash(b) ensures a == b {
      HexInjective(a, b);
    }
  }
}
