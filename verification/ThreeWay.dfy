/** The Python, Go and Node canonicalizers agree on the portable domain
    (docs/CANONICALIZATION_PROFILE.md). */
module ThreeWay {
  import opened Wrappers
  import opened Sorting
  import opened Unicode
  import opened Values
  import opened Canonical
  import opened Parsing
  import opened Laws
  import Go = GoCanonical
  import Node = NodeCanonical

  /** A typed value that all three languages can hold. A float has a value and the literal, which
      is not that of an integer, under which Go holds it. */
  datatype Portable =
    | PNull
    | PBool(b: bool)
    | PInt(i: int)
    | PReal(x: real, literal: Text)
    | PText(text: Text)
    | PArray(items: seq<Portable>)
    | PObject(entries: seq<Pair<Text, Portable>>)

  ghost predicate Transportable(p: Portable) {
    match p
    case PReal(_, literal) => Go.BigInt(literal).None?
    case PText(t) => Scalars(t)
    case PArray(ps) => forall q :: q in ps ==> Transportable(q)
    case PObject(es) => forall e :: e in es ==> assert e.val < e; Scalars(e.key) && Transportable(e.val)
    case _ => true
  }

  /** Conversion of integers to doubles: exact up to 2^53 and monotone (IEEE 754). */
  ghost predicate IsRounding(round: int -> int) {
    && (forall i :: -9007199254740992 <= i <= 9007199254740992 ==> round(i) == i)
    && (forall i, j :: i <= j ==> round(i) <= round(j))
  }

  // ---- The three representations ----

  function ToPython(p: Portable): Value {
    match p
    case PNull => Null
    case PBool(b) => Bool(b)
    case PInt(i) => Int(i)
    case PReal(_, _) => Float
    case PText(t) => Str(t)
    case PArray(ps) => List(ToPythonItems(ps))
    case PObject(es) => Dict(ToPythonEntries(es))
  }

  function ToPythonItems(ps: seq<Portable>): seq<Value> {
    if ps == [] then [] else [ToPython(ps[0])] + ToPythonItems(ps[1..])
  }

  function ToPythonEntries(es: seq<Pair<Text, Portable>>): seq<Pair<Key, Value>> {
    if es == [] then []
    else
      assert es[0].val < es[0];
      [Pair(StrKey(es[0].key), ToPython(es[0].val))] + ToPythonEntries(es[1..])
  }

  function ToGo(p: Portable): Go.GoValue {
    match p
    case PNull => Go.GNil
    case PBool(b) => Go.GBool(b)
    case PInt(i) => Go.GNumber(Decimal(i))
    case PReal(_, literal) => Go.GNumber(literal)
    case PText(t) => Go.GString(Utf8(t))
    case PArray(ps) => Go.GSlice(ToGoItems(ps))
    case PObject(es) => Go.GMap(ToGoEntries(es))
  }

  function ToGoItems(ps: seq<Portable>): seq<Go.GoValue> {
    if ps == [] then [] else [ToGo(ps[0])] + ToGoItems(ps[1..])
  }

  function ToGoEntries(es: seq<Pair<Text, Portable>>): seq<Pair<Bytes, Go.GoValue>> {
    if es == [] then []
    else
      assert es[0].val < es[0];
      [Pair(Utf8(es[0].key), ToGo(es[0].val))] + ToGoEntries(es[1..])
  }

  lemma {:induction false} ToGoEntriesAt(es: seq<Pair<Text, Portable>>)
    ensures |ToGoEntries(es)| == |es|
    ensures forall i :: 0 <= i < |es| ==> ToGoEntries(es)[i] == Pair(Utf8(es[i].key), ToGo(es[i].val))
  {
    if es != [] {
      ToGoEntriesAt(es[1..]);
      assert forall i :: 0 < i < |es| ==> ToGoEntries(es)[i] == ToGoEntries(es[1..])[i - 1] && es[i] == es[1..][i - 1];
    }
  }

  function ToNode(round: int -> int, p: Portable): Node.JsValue {
    match p
    case PNull => Node.JNull
    case PBool(b) => Node.JBool(b)
    case PInt(i) => Node.JNumber(Node.Integral(round(i)))
    case PReal(x, _) =>
      Node.JNumber(if x.Floor as real == x then Node.Integral(x.Floor) else Node.NonIntegral)
    case PText(t) => Node.JString(Utf16(t))
    case PArray(ps) => Node.JArray(ToNodeItems(round, ps))
    case PObject(es) => Node.JObject(ToNodeProps(round, es))
  }

  function ToNodeItems(round: int -> int, ps: seq<Portable>): seq<Node.JsValue> {
    if ps == [] then [] else [ToNode(round, ps[0])] + ToNodeItems(round, ps[1..])
  }

  function ToNodeProps(round: int -> int, es: seq<Pair<Text, Portable>>): seq<Pair<Units, Node.JsValue>> {
    if es == [] then []
    else
      assert es[0].val < es[0];
      [Pair(Utf16(es[0].key), ToNode(round, es[0].val))] + ToNodeProps(round, es[1..])
  }

  // ---- Go ----

  ghost predicate GoAgreesOn(nfc: Nfc, p: Portable) {
    Go.Encode(nfc, ToGo(p)) == CanonicalBytes(nfc, ToPython(p), true)
  }

  lemma DecimalIsBigInt(i: int)
    ensures Go.BigInt(Decimal(i)) == Some(i)
  {
    hide Digits, DigitsValue;
    var m: nat := if i < 0 then -i else i;
    SignAndDigits(i);
    DigitsRoundTrip(m);
    assert i >= 0 ==> IsDigit(Decimal(i)[0]);
  }

  lemma {:induction false} Utf8OfAscii(t: Text)
    requires IsAscii(t)
    ensures Utf8(t) == t
  {
    if t != [] {
      Utf8OfAscii(t[1..]);
      assert [t[0]] + t[1..] == t;
    }
  }

  lemma {:induction false} GoItemsAgree(nfc: Nfc, first: bool, ps: seq<Portable>)
    requires forall p :: p in ps ==> GoAgreesOn(nfc, p)
    ensures Go.EncodeItems(nfc, first, ToGoItems(ps)) ==
            var ns :- NormalizeAll(nfc, ToPythonItems(ps), true);
            Some(Utf8(Join(first, DumpAll(ns))))
  {
    if ps != [] {
      assert ps[0] in ps;
      GoItemsAgree(nfc, false, ps[1..]);
      assert ToGoItems(ps)[1..] == ToGoItems(ps[1..]);
      assert ToPythonItems(ps)[1..] == ToPythonItems(ps[1..]);
      var n, ns := Normalize(nfc, ToPython(ps[0]), true), NormalizeAll(nfc, ToPythonItems(ps[1..]), true);
      if n.Some? && ns.Some? {
        JoinUtf8(first, n.value, ns.value);
      }
    }
  }

  lemma JoinUtf8(first: bool, n: Norm, ns: seq<Norm>)
    ensures Utf8(Join(first, DumpAll([n] + ns)))
            == (Go.Comma(first) + Utf8(Dump(n))) + Utf8(Join(false, DumpAll(ns)))
  {
    var sep: Text := if first then [] else [0x2C];
    assert ([n] + ns)[1..] == ns;
    assert DumpAll([n] + ns)[1..] == DumpAll(ns);
    Utf8Append(sep + Dump(n), Join(false, DumpAll(ns)));
    Utf8Append(sep, Dump(n));
    Utf8OfAscii(sep);
  }

  /** The entries of an object under their normalized keys. */
  function Normalized(nfc: Nfc, es: seq<Pair<Text, Portable>>): (r: seq<Pair<Text, Portable>>)
    ensures |r| == |es| && forall i :: 0 <= i < |es| ==> r[i] == Pair(nfc(es[i].key), es[i].val)
  {
    if es == [] then [] else [Pair(nfc(es[0].key), es[0].val)] + Normalized(nfc, es[1..])
  }

  function NormOf(nfc: Nfc, p: Portable): Norm {
    match Normalize(nfc, ToPython(p), true)
    case Some(n) => n
    case None => NNull
  }

  ghost predicate AllAccepted(nfc: Nfc, ps: seq<Pair<Text, Portable>>) {
    forall i :: 0 <= i < |ps| ==> Normalize(nfc, ToPython(ps[i].val), true).Some?
  }

  function Fields(nfc: Nfc, ps: seq<Pair<Text, Portable>>): (r: seq<Pair<Text, Norm>>)
    ensures |r| == |ps| && forall i :: 0 <= i < |ps| ==> r[i] == Pair(ps[i].key, NormOf(nfc, ps[i].val))
  {
    if ps == [] then [] else [Pair(ps[0].key, NormOf(nfc, ps[0].val))] + Fields(nfc, ps[1..])
  }

  lemma AcceptedTail(nfc: Nfc, ps: seq<Pair<Text, Portable>>)
    requires ps != []
    ensures AllAccepted(nfc, ps) <==>
            Normalize(nfc, ToPython(ps[0].val), true).Some? && AllAccepted(nfc, ps[1..])
  {
    assert forall i :: 0 < i < |ps| ==> ps[i] == ps[1..][i - 1];
  }

  lemma PythonEntry(nfc: Nfc, e: Pair<Text, Portable>)
    ensures var n := Normalize(nfc, ToPython(e.val), true); n.Some? ==> n.value == NormOf(nfc, e.val)
  {
  }

  /** What Python makes of the entries of a portable object. */
  lemma {:induction false} PythonFields(nfc: Nfc, es: seq<Pair<Text, Portable>>)
    requires forall e :: e in es ==> Scalars(e.key)
    ensures NormalizeEntries(nfc, ToPythonEntries(es), true)
            == if AllAccepted(nfc, es) then Some(Fields(nfc, Normalized(nfc, es))) else None
  {
    hide Normalize, NormOf;
    if es == [] {
    } else {
      assert es[0] in es;
      PythonFields(nfc, es[1..]);
      PythonEntry(nfc, es[0]);
      assert ToPythonEntries(es)[1..] == ToPythonEntries(es[1..]);
      assert Normalized(nfc, es)[1..] == Normalized(nfc, es[1..]);
      AcceptedTail(nfc, es);
    }
  }

  lemma GoMemberAgrees(nfc: Nfc, first: bool, p: Pair<Text, Portable>, whole: Go.GoValue)
    requires GoAgreesOn(nfc, p.val) && Scalars(p.key) && nfc(p.key) == p.key && ToGo(p.val) < whole
    ensures Go.EncodeMember(nfc, first, Pair(Utf8(p.key), ToGo(p.val)), whole)
            == if Normalize(nfc, ToPython(p.val), true).Some?
               then Some(Go.Comma(first) + Utf8(Quote(p.key)) + [0x3A] + Utf8(Dump(NormOf(nfc, p.val))))
               else None
  {
    hide Go.Encode, ToGo, Normalize, ToPython, Dump, Quote, Utf8;
    DecodeEncodeUtf8(p.key);
  }

  lemma {:induction false} GoMembersAgree(nfc: Nfc, first: bool, ps: seq<Pair<Text, Portable>>, whole: Go.GoValue)
    requires forall q :: q in ps ==> GoAgreesOn(nfc, q.val) && Scalars(q.key) && nfc(q.key) == q.key
    requires forall q :: q in MapPairs(Utf8, ToGo, ps) ==> q.val < whole
    ensures Go.EncodeMembers(nfc, first, MapPairs(Utf8, ToGo, ps), whole)
            == if AllAccepted(nfc, ps) then Some(Utf8(JoinFields(first, DumpFields(Fields(nfc, ps))))) else None
  {
    hide Go.EncodeMember, GoAgreesOn, Normalize, NormOf, ToPython, Dump, Quote, Scalars;
    if ps == [] {
      assert Utf8(JoinFields(first, DumpFields(Fields(nfc, ps)))) == [];
    } else {
      assert ps[0] in ps;
      var gs := MapPairs(Utf8, ToGo, ps);
      assert gs[1..] == MapPairs(Utf8, ToGo, ps[1..]);
      assert gs[0] in gs && gs[0] == Pair(Utf8(ps[0].key), ToGo(ps[0].val));
      hide Utf8, ToGo, JoinFields, DumpFields, AllAccepted, MapPairs;
      GoMembersAgree(nfc, false, ps[1..], whole);
      AcceptedTail(nfc, ps);
      GoMemberAgrees(nfc, first, ps[0], whole);
      JoinFieldsUtf8(first, ps[0].key, NormOf(nfc, ps[0].val), Fields(nfc, ps[1..]));
      assert Fields(nfc, ps) == [Pair(ps[0].key, NormOf(nfc, ps[0].val))] + Fields(nfc, ps[1..]);
    }
  }

  lemma MemberUtf8(k: Text, d: Text)
    ensures Utf8(Quote(k) + [0x3A] + d) == Utf8(Quote(k)) + [0x3A] + Utf8(d)
  {
    Utf8Append(Quote(k) + [0x3A], d);
    Utf8Append(Quote(k), [0x3A]);
    Utf8OfAscii([0x3A]);
  }

  lemma Utf8Append3(a: Text, b: Text, c: Text)
    ensures Utf8(a + b + c) == Utf8(a) + Utf8(b) + Utf8(c)
  {
    Utf8Append(a + b, c);
    Utf8Append(a, b);
  }

  lemma JoinFieldsUtf8(first: bool, k: Text, n: Norm, fs: seq<Pair<Text, Norm>>)
    ensures Utf8(JoinFields(first, DumpFields([Pair(k, n)] + fs)))
            == (Go.Comma(first) + Utf8(Quote(k)) + [0x3A] + Utf8(Dump(n))) + Utf8(JoinFields(false, DumpFields(fs)))
  {
    var sep: Text := if first then [] else [0x2C];
    assert ([Pair(k, n)] + fs)[1..] == fs;
    var all := DumpFields([Pair(k, n)] + fs);
    assert all[1..] == DumpFields(fs) && all[0] == Pair(k, Dump(n));
    var head := Quote(k) + [0x3A] + Dump(n);
    Utf8Append3(sep, head, JoinFields(false, DumpFields(fs)));
    MemberUtf8(k, Dump(n));
    Utf8OfAscii(sep);
    Go.Regroup(Go.Comma(first), Utf8(Quote(k)), [0x3A], Utf8(Dump(n)));
  }

  lemma Utf8Injective(a: Text, b: Text)
    requires Scalars(a) && Scalars(b) && Utf8(a) == Utf8(b)
    ensures a == b
  {
    DecodeEncodeUtf8(a);
    DecodeEncodeUtf8(b);
  }

  ghost predicate ScalarKeys<V>(ps: seq<Pair<Text, V>>) {
    forall i :: 0 <= i < |ps| ==> Scalars(ps[i].key)
  }

  lemma Utf8CarriesOrder(ks: set<Text>)
    ensures CarriesOrder(TextLess, Go.BytesLess, Utf8, ks)
  {
    forall a, b | a in ks && b in ks ensures Go.BytesLess(Utf8(a), Utf8(b)) == TextLess(a, b) {
      CodePointOrderIsUtf8Order(a, b);
    }
  }

  /** Go's sorted entries are the encodings of the entries in code-point order. */
  lemma GoSorts(nfc: Nfc, es: seq<Pair<Text, Portable>>)
    requires NfcLaws(nfc) && ScalarKeys(es)
    ensures Go.KeysValid(ToGoEntries(es))
    ensures Go.NormalKeys(nfc, ToGoEntries(es)) == MapPairs(Utf8, ToGo, Normalized(nfc, es))
    ensures Sort(Go.BytesLess, Go.NormalKeys(nfc, ToGoEntries(es)))
            == MapPairs(Utf8, ToGo, Sort(TextLess, Normalized(nfc, es)))
  {
    ToGoEntriesAt(es);
    forall i | 0 <= i < |es| ensures DecodeUtf8(Utf8(es[i].key)) == Some(es[i].key) {
      DecodeEncodeUtf8(es[i].key);
    }
    Utf8CarriesOrder(KeySet(Normalized(nfc, es)));
    SortCommutes(TextLess, Go.BytesLess, Utf8, ToGo, Normalized(nfc, es));
  }

  lemma DistinctEncoded(ps: seq<Pair<Text, Portable>>)
    requires ScalarKeys(ps)
    ensures DistinctKeys(MapPairs(Utf8, ToGo, ps)) <==> DistinctKeys(ps)
  {
    var gs := MapPairs(Utf8, ToGo, ps);
    forall i, j | 0 <= i < j < |ps| ensures gs[i].key == gs[j].key <==> ps[i].key == ps[j].key {
      if gs[i].key == gs[j].key {
        Utf8Injective(ps[i].key, ps[j].key);
      }
    }
  }

  lemma FieldsDistinct(nfc: Nfc, ps: seq<Pair<Text, Portable>>)
    ensures DistinctKeys(Fields(nfc, ps)) <==> DistinctKeys(ps)
  {
    var fs := Fields(nfc, ps);
    assert forall i :: 0 <= i < |ps| ==> fs[i].key == ps[i].key;
  }

  lemma SortedFields(nfc: Nfc, ps: seq<Pair<Text, Portable>>)
    ensures Sort(TextLess, Fields(nfc, ps)) == Fields(nfc, Sort(TextLess, ps))
  {
    var f, g := (k: Text) => k, (p: Portable) => NormOf(nfc, p);
    SortCommutes(TextLess, TextLess, f, g, ps);
    assert MapPairs(f, g, ps) == Fields(nfc, ps);
    assert MapPairs(f, g, Sort(TextLess, ps)) == Fields(nfc, Sort(TextLess, ps));
  }

  /** Sorting fields and sorting entries come to the same. */
  lemma FieldsSort(nfc: Nfc, ps: seq<Pair<Text, Portable>>)
    ensures Sort(TextLess, Fields(nfc, ps)) == Fields(nfc, Sort(TextLess, ps))
    ensures AllAccepted(nfc, ps) <==> AllAccepted(nfc, Sort(TextLess, ps))
  {
    SortedFields(nfc, ps);
    SortedAlike(nfc, ps);
  }

  lemma SortedAlike(nfc: Nfc, ps: seq<Pair<Text, Portable>>)
    ensures AllAccepted(nfc, ps) <==> AllAccepted(nfc, Sort(TextLess, ps))
  {
    hide Normalize, ToPython, Sort;
    var sorted := Sort(TextLess, ps);
    SortMultiset(TextLess, ps);
    if AllAccepted(nfc, ps) {
      forall i | 0 <= i < |sorted| ensures Normalize(nfc, ToPython(sorted[i].val), true).Some? {
        SortMember(TextLess, ps, sorted[i]);
        var j :| 0 <= j < |ps| && ps[j] == sorted[i];
      }
    }
    if AllAccepted(nfc, sorted) {
      forall i | 0 <= i < |ps| ensures Normalize(nfc, ToPython(ps[i].val), true).Some? {
        SortMember(TextLess, ps, ps[i]);
        var j :| 0 <= j < |sorted| && sorted[j] == ps[i];
      }
    }
  }

  /** The text of the object that Python collects from the entries `ps`. */
  lemma CollectedText(nfc: Nfc, ps: seq<Pair<Text, Portable>>)
    requires DistinctKeys(ps)
    ensures Collect(Fields(nfc, ps)).Some?
    ensures Dump(Collect(Fields(nfc, ps)).value)
            == [0x7B] + JoinFields(true, DumpFields(Fields(nfc, Sort(TextLess, ps)))) + [0x7D]
  {
    hide NormOf, Fields, JoinFields, Sort, DumpFields;
    FieldsDistinct(nfc, ps);
    SortedFields(nfc, ps);
    var fs := Fields(nfc, ps);
    TextLessOrders(KeySet(fs));
    SortSorted(TextLess, fs);
    SortDumped(Sort(TextLess, fs));
  }

  /** The bytes of a portable object. */
  lemma PythonObject(nfc: Nfc, es: seq<Pair<Text, Portable>>)
    requires ScalarKeys(es)
    ensures var ps := Normalized(nfc, es);
            CanonicalBytes(nfc, Dict(ToPythonEntries(es)), true)
            == if AllAccepted(nfc, es) && DistinctKeys(ps)
               then Some(Utf8([0x7B] + JoinFields(true, DumpFields(Fields(nfc, Sort(TextLess, ps)))) + [0x7D]))
               else None
  {
    hide NormOf, Fields, JoinFields, Normalized, NormalizeEntries, DumpFields, Sort, Utf8;
    var ps := Normalized(nfc, es);
    PythonFields(nfc, es);
    FieldsDistinct(nfc, ps);
    if DistinctKeys(ps) {
      CollectedText(nfc, ps);
    }
  }

  lemma SortedEntries(nfc: Nfc, es: seq<Pair<Text, Portable>>)
    requires NfcLaws(nfc) && ScalarKeys(es)
    requires forall i :: 0 <= i < |es| ==> GoAgreesOn(nfc, es[i].val)
    ensures forall q :: q in Sort(TextLess, Normalized(nfc, es)) ==>
      GoAgreesOn(nfc, q.val) && Scalars(q.key) && nfc(q.key) == q.key
  {
    var ps := Normalized(nfc, es);
    forall q | q in Sort(TextLess, ps) ensures GoAgreesOn(nfc, q.val) && Scalars(q.key) && nfc(q.key) == q.key {
      SortMember(TextLess, ps, q);
      var i :| 0 <= i < |ps| && ps[i] == q;
      assert q == Pair(nfc(es[i].key), es[i].val);
    }
  }

  lemma SortedAccepted(nfc: Nfc, es: seq<Pair<Text, Portable>>)
    ensures AllAccepted(nfc, es) <==> AllAccepted(nfc, Sort(TextLess, Normalized(nfc, es)))
  {
    FieldsSort(nfc, Normalized(nfc, es));
    assert AllAccepted(nfc, es) <==> AllAccepted(nfc, Normalized(nfc, es));
  }

  lemma GoSortedMembers(nfc: Nfc, es: seq<Pair<Text, Portable>>, inside: Text)
    requires NfcLaws(nfc) && ScalarKeys(es)
    requires forall i :: 0 <= i < |es| ==> GoAgreesOn(nfc, es[i].val)
    requires inside == JoinFields(true, DumpFields(Fields(nfc, Sort(TextLess, Normalized(nfc, es)))))
    ensures var gs := ToGoEntries(es); var sorted := Sort(Go.BytesLess, Go.NormalKeys(nfc, gs));
            && (forall q :: q in sorted ==> q.val < Go.GMap(gs))
            && Go.EncodeMembers(nfc, true, sorted, Go.GMap(gs))
               == if AllAccepted(nfc, es) then Some(Utf8(inside)) else None
  {
    GoSorts(nfc, es);
    SortedEntries(nfc, es);
    SortedAccepted(nfc, es);
    Go.SortedBelow(nfc, ToGoEntries(es), Go.GMap(ToGoEntries(es)));
    GoMembersAgree(nfc, true, Sort(TextLess, Normalized(nfc, es)), Go.GMap(ToGoEntries(es)));
  }

  lemma GoObjectBytes(nfc: Nfc, es: seq<Pair<Text, Portable>>, inside: Text)
    requires NfcLaws(nfc) && ScalarKeys(es)
    requires forall i :: 0 <= i < |es| ==> GoAgreesOn(nfc, es[i].val)
    requires inside == JoinFields(true, DumpFields(Fields(nfc, Sort(TextLess, Normalized(nfc, es)))))
    ensures Go.Encode(nfc, Go.GMap(ToGoEntries(es)))
            == if AllAccepted(nfc, es)
                    && DistinctKeys(Normalized(nfc, es)) then Some(Utf8([0x7B] + inside + [0x7D])) else None
  {
    hide Go.Encode, Utf8, Fields, JoinFields, Sort, ToGoEntries, Normalized, MapPairs, DumpFields;
    var gs := ToGoEntries(es);
    var ps := Go.NormalKeys(nfc, gs);
    GoSortedMembers(nfc, es, inside);
    GoSorts(nfc, es);
    DistinctEncoded(Normalized(nfc, es));
    GoMapBytes(nfc, gs, ps, Sort(Go.BytesLess, ps), if AllAccepted(nfc, es) then Some(Utf8(inside)) else None);
    BracesUtf8(inside);
  }

  lemma GoObjectAgrees(nfc: Nfc, es: seq<Pair<Text, Portable>>)
    requires NfcLaws(nfc) && ScalarKeys(es)
    requires forall i :: 0 <= i < |es| ==> GoAgreesOn(nfc, es[i].val)
    ensures GoAgreesOn(nfc, PObject(es))
  {
    PythonObject(nfc, es);
    GoObjectBytes(nfc, es, JoinFields(true, DumpFields(Fields(nfc, Sort(TextLess, Normalized(nfc, es))))));
  }

  /** How Go encodes a map whose sorted members encode to `inside`. */
  lemma GoMapBytes(nfc: Nfc, gs: seq<Pair<Bytes, Go.GoValue>>, ps: seq<Pair<Bytes, Go.GoValue>>,
                   sorted: seq<Pair<Bytes, Go.GoValue>>, inside: Option<Bytes>)
    requires Go.KeysValid(gs) && Go.NormalKeys(nfc, gs) == ps && Sort(Go.BytesLess, ps) == sorted
    requires forall q :: q in sorted ==> q.val < Go.GMap(gs)
    requires Go.EncodeMembers(nfc, true, sorted, Go.GMap(gs)) == inside
    ensures Go.Encode(nfc, Go.GMap(gs))
            == if DistinctKeys(ps) && inside.Some? then Some([0x7B] + inside.value + [0x7D]) else None
  {
  }

  lemma BracesUtf8(t: Text)
    ensures Utf8([0x7B] + t + [0x7D]) == [0x7B] + Utf8(t) + [0x7D]
    ensures Utf8([0x5B] + t + [0x5D]) == [0x5B] + Utf8(t) + [0x5D]
  {
    Utf8Append([0x7B] + t, [0x7D]);
    Utf8Append([0x7B], t);
    Utf8Append([0x5B] + t, [0x5D]);
    Utf8Append([0x5B], t);
    Utf8OfAscii([0x7B]);
    Utf8OfAscii([0x7D]);
    Utf8OfAscii([0x5B]);
    Utf8OfAscii([0x5D]);
  }

  /** The bytes of a portable array. */
  lemma PythonArray(nfc: Nfc, ps: seq<Portable>)
    ensures CanonicalBytes(nfc, List(ToPythonItems(ps)), true) ==
            var ns :- NormalizeAll(nfc, ToPythonItems(ps), true);
            Some(Utf8([0x5B] + Join(true, DumpAll(ns)) + [0x5D]))
  {
    hide NormalizeAll, Utf8, Join, DumpAll;
  }

  lemma GoArrayAgrees(nfc: Nfc, ps: seq<Portable>)
    requires forall p :: p in ps ==> GoAgreesOn(nfc, p)
    ensures GoAgreesOn(nfc, PArray(ps))
  {
    hide Join, DumpAll, Utf8, NormalizeAll, CanonicalBytes, Go.EncodeItems;
    GoItemsAgree(nfc, true, ps);
    var ns := NormalizeAll(nfc, ToPythonItems(ps), true);
    PythonArray(nfc, ps);
    if ns.Some? {
      BracesUtf8(Join(true, DumpAll(ns.value)));
    }
  }

  lemma GoIntegerAgrees(nfc: Nfc, i: int)
    ensures GoAgreesOn(nfc, PInt(i))
  {
    DecimalIsBigInt(i);
  }

  lemma GoLeafAgrees(nfc: Nfc, p: Portable)
    requires Transportable(p) && (p.PNull? || p.PBool? || p.PReal? || p.PText?)
    ensures GoAgreesOn(nfc, p)
  {
    hide Quote, DecodeUtf8;
    if p.PText? {
      DecodeEncodeUtf8(p.text);
    } else if p.PReal? {
      hide Utf8, Dump;
    } else {
      hide Go.BigInt;
    }
  }

  /** The Go encoder writes the bytes of the portable profile, and fails exactly where it raises. */
  lemma {:induction false} GoAgrees(nfc: Nfc, p: Portable)
    requires NfcLaws(nfc) && Transportable(p)
    ensures GoAgreesOn(nfc, p)
    decreases p
  {
    hide GoAgreesOn;
    match p {
      case PNull => GoLeafAgrees(nfc, p);
      case PBool(_) => GoLeafAgrees(nfc, p);
      case PReal(_, _) => GoLeafAgrees(nfc, p);
      case PInt(i) => GoIntegerAgrees(nfc, i);
      case PText(t) => GoLeafAgrees(nfc, p);
      case PArray(ps) =>
        forall q | q in ps ensures GoAgreesOn(nfc, q) {
          GoAgrees(nfc, q);
        }
        GoArrayAgrees(nfc, ps);
      case PObject(es) =>
        forall i | 0 <= i < |es| ensures Scalars(es[i].key) && GoAgreesOn(nfc, es[i].val) {
          assert es[i] in es;
          assert es[i].val < es[i];
          GoAgrees(nfc, es[i].val);
        }
        GoObjectAgrees(nfc, es);
    }
  }

  /** Go writes number literals verbatim, so a literal that is not the canonical decimal one is
      encoded differently by the other two. */
  lemma GoEchoesNegativeZero(nfc: Nfc)
    ensures Go.Encode(nfc, Go.GNumber(Lit("-0"))) == Some([0x2D, 0x30])
    ensures CanonicalBytes(nfc, Int(0), true) == Some([0x30])
  {
    assert Lit("-0") == [0x2D, 0x30];
    var d := Lit("-0")[1..];
    assert d == [0x30] && IsDigit(d[0]);
    assert DigitsValue(d) == 0 by {
      assert d[..0] == [];
    }
    Utf8OfAscii([0x2D, 0x30]);
    Utf8OfAscii([0x30]);
  }

  // ---- Integer literals ----

  /** Digits without a leading zero. */
  predicate IsJsonDigits(d: Text) { d != [] && Go.AllDigits(d) && (d[0] == 0x30 ==> |d| == 1) }

  /** An integer as JSON has it (section 6 of RFC 8259). */
  predicate IsJsonInteger(literal: Text) {
    IsJsonDigits(literal) || (literal != [] && literal[0] == 0x2D && IsJsonDigits(literal[1..]))
  }

  lemma {:induction false} DigitsOfValue(d: Text)
    requires IsJsonDigits(d)
    ensures DigitsValue(d) >= 0 && Digits(DigitsValue(d)) == d
    ensures d[0] != 0x30 ==> DigitsValue(d) >= 1
  {
    var front, last := d[..|d| - 1], d[|d| - 1];
    assert d == front + [last] && IsDigit(last);
    if front == [] {
      assert DigitsValue(front) == 0;
    } else {
      assert front[0] == d[0] && Go.AllDigits(front);
      DigitsOfValue(front);
    }
  }

  lemma LiteralIsDecimal(literal: Text)
    requires IsJsonInteger(literal)
    ensures Go.BigInt(literal).Some?
    ensures literal == Decimal(Go.BigInt(literal).value) <==> literal != Lit("-0")
  {
    hide Digits, DigitsValue;
    var zero := Lit("-0");
    assert zero == [0x2D, 0x30] && zero[1..] == [0x30];
    if literal[0] == 0x2D {
      var d := literal[1..];
      DigitsOfValue(d);
      assert literal == [0x2D] + d;
      if d[0] == 0x30 {
        assert d == [0x30];
        ZeroDigit();
      }
    } else {
      assert IsDigit(literal[0]);
      DigitsOfValue(literal);
    }
  }

  lemma ZeroDigit()
    ensures DigitsValue([0x30]) == 0 && Decimal(0) == [0x30]
  {
    var d := [0x30];
    assert d[..0] == [];
  }

  /** Go writes every integer literal as it stands, the other two as the decimal of its value: the bytes
      are the same for every literal that JSON has, except for `-0`. */
  lemma GoEchoesLiterals(nfc: Nfc, literal: Text)
    requires IsJsonInteger(literal)
    ensures Go.BigInt(literal).Some?
    ensures Go.Encode(nfc, Go.GNumber(literal)) == CanonicalBytes(nfc, Int(Go.BigInt(literal).value), true)
            <==> literal != Lit("-0")
  {
    LiteralIsDecimal(literal);
    if literal == Lit("-0") {
      GoEchoesNegativeZero(nfc);
      MinusZero();
    } else {
      hide Decimal, Go.BigInt, Utf8, Lit;
    }
  }

  lemma MinusZero()
    ensures Go.BigInt(Lit("-0")) == Some(0)
  {
    assert Lit("-0") == [0x2D, 0x30];
    var d := Lit("-0")[1..];
    assert d == [0x30] && IsDigit(d[0]);
    ZeroDigit();
  }
}
