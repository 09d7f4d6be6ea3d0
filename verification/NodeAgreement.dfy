/** The Node canonicalizer against the Python one, and the agreement of all three. */
module NodeAgreement {
  import opened Wrappers
  import opened Sorting
  import opened Unicode
  import opened Values
  import opened Canonical
  import opened Parsing
  import opened Laws
  import opened ThreeWay
  import Go = GoCanonical
  import Node = NodeCanonical

  // ---- Normal forms in JavaScript ----

  /** The object tree that `normalizeCanonical` builds for a normal form. */
  function ToJs(n: Norm): Node.JsValue {
    match n
    case NNull => Node.JNull
    case NBool(b) => Node.JBool(b)
    case NInt(i) => Node.JNumber(Node.Integral(i))
    case NStr(t) => Node.JString(Utf16(t))
    case NList(ns) => Node.JArray(ToJsItems(ns))
    case NObj(fs) => Node.JObject(Node.OwnOrder(ToJsFields(fs)))
  }

  function ToJsItems(ns: seq<Norm>): seq<Node.JsValue> {
    if ns == [] then [] else [ToJs(ns[0])] + ToJsItems(ns[1..])
  }

  function ToJsFields(fs: seq<Pair<Text, Norm>>): seq<Pair<Units, Node.JsValue>> {
    if fs == [] then []
    else
      assert fs[0].val < fs[0];
      [Pair(Utf16(fs[0].key), ToJs(fs[0].val))] + ToJsFields(fs[1..])
  }

  lemma {:induction false} ToJsFieldsAreMapped(fs: seq<Pair<Text, Norm>>)
    ensures ToJsFields(fs) == MapPairs(Utf16, ToJs, fs)
  {
    if fs != [] {
      ToJsFieldsAreMapped(fs[1..]);
      assert MapPairs(Utf16, ToJs, fs)[1..] == MapPairs(Utf16, ToJs, fs[1..]);
    }
  }

  lemma Utf16Injective(a: Text, b: Text)
    requires Scalars(a) && Scalars(b) && Utf16(a) == Utf16(b)
    ensures a == b
  {
    DecodeEncodeUtf16(a);
    DecodeEncodeUtf16(b);
  }

  lemma UnitsCarryOrder<V>(ps: seq<Pair<Text, V>>)
    requires ScalarKeys(ps)
    ensures CarriesOrder(TextLess, Node.UnitsLess, Utf16, KeySet(ps))
  {
    forall a, b | a in KeySet(ps) && b in KeySet(ps)
      ensures Node.UnitsLess(Utf16(a), Utf16(b)) == TextLess(a, b)
    {
      Node.UnitsOrder(a, b);
    }
  }

  lemma DistinctUnits<V, W>(ps: seq<Pair<Text, V>>, g: V -> W)
    requires ScalarKeys(ps)
    ensures DistinctKeys(MapPairs(Utf16, g, ps)) <==> DistinctKeys(ps)
  {
    var us := MapPairs(Utf16, g, ps);
    forall i, j | 0 <= i < j < |ps| ensures us[i].key == us[j].key <==> ps[i].key == ps[j].key {
      if us[i].key == us[j].key {
        Utf16Injective(ps[i].key, ps[j].key);
      }
    }
  }

  /** `compareUtf8` is a strict total order on the UTF-16 forms of scalar texts. */
  lemma UnitsOrderKeys<V, W>(ps: seq<Pair<Text, V>>, g: V -> W)
    requires ScalarKeys(ps)
    ensures OrdersKeys(Node.UnitsLess, KeySet(MapPairs(Utf16, g, ps)))
  {
    var ks := KeySet(MapPairs(Utf16, g, ps));
    forall a, b | a in ks && b in ks
      ensures !Node.UnitsLess(a, a) && (a != b ==> Node.UnitsLess(a, b) || Node.UnitsLess(b, a))
    {
      UnitsTotal(ps, g, a, b);
    }
    forall a, b, c | a in ks && b in ks && c in ks && Node.UnitsLess(a, b) && Node.UnitsLess(b, c)
      ensures Node.UnitsLess(a, c)
    {
      LexTransitive(Node.BufferFrom(a), Node.BufferFrom(b), Node.BufferFrom(c));
    }
  }

  lemma UnitsTotal<V, W>(ps: seq<Pair<Text, V>>, g: V -> W, a: Units, b: Units)
    requires ScalarKeys(ps) && a in KeySet(MapPairs(Utf16, g, ps)) && b in KeySet(MapPairs(Utf16, g, ps))
    ensures !Node.UnitsLess(a, a) && (a != b ==> Node.UnitsLess(a, b) || Node.UnitsLess(b, a))
  {
    var i :| 0 <= i < |ps| && Utf16(ps[i].key) == a;
    var j :| 0 <= j < |ps| && Utf16(ps[j].key) == b;
    Node.UnitsOrder(ps[i].key, ps[i].key);
    Node.UnitsOrder(ps[i].key, ps[j].key);
    Node.UnitsOrder(ps[j].key, ps[i].key);
    LexTotal(ps[i].key, ps[j].key);
  }

  // ---- Normalizing ----

  /** A float that JavaScript cannot tell from a safe integer. */
  ghost predicate HasIntegralFloat(p: Portable) {
    match p
    case PReal(x, _) => x.Floor as real == x && IsSafe(x.Floor)
    case PArray(ps) => exists q :: q in ps && HasIntegralFloat(q)
    case PObject(es) => exists e :: e in es && assert e.val < e; HasIntegralFloat(e.val)
    case _ => false
  }

  ghost predicate NodeNormalizesOn(nfc: Nfc, round: int -> int, p: Portable) {
    Node.Normalize(nfc, ToNode(round, p)) ==
    var n :- Normalize(nfc, ToPython(p), true);
    Some(ToJs(n))
  }

  lemma {:induction false} NodeItemsNormalize(nfc: Nfc, round: int -> int, ps: seq<Portable>)
    requires forall p :: p in ps ==> NodeNormalizesOn(nfc, round, p)
    ensures Node.NormalizeItems(nfc, ToNodeItems(round, ps)) ==
            var ns :- NormalizeAll(nfc, ToPythonItems(ps), true);
            Some(ToJsItems(ns))
  {
    if ps != [] {
      assert ps[0] in ps;
      NodeItemsNormalize(nfc, round, ps[1..]);
      assert ToNodeItems(round, ps)[1..] == ToNodeItems(round, ps[1..]);
      assert ToPythonItems(ps)[1..] == ToPythonItems(ps[1..]);
      var n, ns := Normalize(nfc, ToPython(ps[0]), true), NormalizeAll(nfc, ToPythonItems(ps[1..]), true);
      if n.Some? && ns.Some? {
        assert ([n.value] + ns.value)[1..] == ns.value;
      }
    }
  }

  lemma {:induction false} NodePropsNormalize(nfc: Nfc, round: int -> int, es: seq<Pair<Text, Portable>>)
    requires forall e :: e in es ==> Scalars(e.key) && NodeNormalizesOn(nfc, round, e.val)
    ensures Node.NormalizeProps(nfc, ToNodeProps(round, es)) ==
            var fs :- NormalizeEntries(nfc, ToPythonEntries(es), true);
            Some(ToJsFields(fs))
  {
    if es != [] {
      assert es[0] in es;
      DecodeEncodeUtf16(es[0].key);
      NodePropsNormalize(nfc, round, es[1..]);
      assert ToNodeProps(round, es)[1..] == ToNodeProps(round, es[1..]);
      assert ToPythonEntries(es)[1..] == ToPythonEntries(es[1..]);
      var n, fs := Normalize(nfc, ToPython(es[0].val), true), NormalizeEntries(nfc, ToPythonEntries(es[1..]), true);
      if n.Some? && fs.Some? {
        assert ([Pair(nfc(es[0].key), n.value)] + fs.value)[1..] == fs.value;
      }
    }
  }

  /** What Node collects from distinct fields is the JavaScript form of what Python collects. */
  lemma NodeCollects(fs: seq<Pair<Text, Norm>>)
    requires ScalarKeys(fs)
    ensures DistinctKeys(ToJsFields(fs)) <==> DistinctKeys(fs)
    ensures Sort(Node.UnitsLess, ToJsFields(fs)) == ToJsFields(Sort(TextLess, fs))
  {
    ToJsFieldsAreMapped(fs);
    ToJsFieldsAreMapped(Sort(TextLess, fs));
    DistinctUnits(fs, ToJs);
    UnitsCarryOrder(fs);
    SortCommutes(TextLess, Node.UnitsLess, Utf16, ToJs, fs);
  }

  lemma FieldKeysScalar(nfc: Nfc, es: seq<Pair<Text, Portable>>)
    requires NfcLaws(nfc) && ScalarKeys(es) && NormalizeEntries(nfc, ToPythonEntries(es), true).Some?
    ensures ScalarKeys(NormalizeEntries(nfc, ToPythonEntries(es), true).value)
  {
    forall e | e in es ensures Scalars(e.key) {
      var i :| 0 <= i < |es| && es[i] == e;
    }
    PythonFields(nfc, es);
  }

  lemma NodeCollected(nfc: Nfc, props: seq<Pair<Units, Node.JsValue>>, entries: seq<Pair<Units, Node.JsValue>>)
    requires Node.NormalizeProps(nfc, props) == Some(entries)
    ensures Node.Normalize(nfc, Node.JObject(props))
            == if DistinctKeys(entries) then Some(Node.JObject(Node.OwnOrder(Sort(Node.UnitsLess, entries)))) else None
  {
  }

  lemma NodeObjectFrom(nfc: Nfc, props: seq<Pair<Units, Node.JsValue>>, fs: seq<Pair<Text, Norm>>)
    requires Node.NormalizeProps(nfc, props) == Some(ToJsFields(fs)) && ScalarKeys(fs)
    ensures Node.Normalize(nfc, Node.JObject(props)) == var n :- Collect(fs); Some(ToJs(n))
  {
    NodeCollected(nfc, props, ToJsFields(fs));
    NodeCollects(fs);
  }

  lemma DictCollected(nfc: Nfc, es: seq<Pair<Key, Value>>)
    ensures Normalize(nfc, Dict(es), true) == var fs :- NormalizeEntries(nfc, es, true); Collect(fs)
  {
  }

  lemma NodeObjectRejected(nfc: Nfc, props: seq<Pair<Units, Node.JsValue>>)
    requires Node.NormalizeProps(nfc, props).None?
    ensures Node.Normalize(nfc, Node.JObject(props)) == None
  {
  }

  lemma NodeObjectMatches(nfc: Nfc, props: seq<Pair<Units, Node.JsValue>>, es: seq<Pair<Key, Value>>)
    requires Node.NormalizeProps(nfc, props) == var fs :- NormalizeEntries(nfc, es, true); Some(ToJsFields(fs))
    requires NormalizeEntries(nfc, es, true).Some? ==> ScalarKeys(NormalizeEntries(nfc, es, true).value)
    ensures Node.Normalize(nfc, Node.JObject(props)) == var n :- Normalize(nfc, Dict(es), true); Some(ToJs(n))
  {
    DictCollected(nfc, es);
    var fs := NormalizeEntries(nfc, es, true);
    if fs.Some? {
      NodeObjectFrom(nfc, props, fs.value);
    } else {
      NodeObjectRejected(nfc, props);
    }
  }

  lemma NodeObjectNormalizes(nfc: Nfc, round: int -> int, es: seq<Pair<Text, Portable>>)
    requires NfcLaws(nfc)
    requires forall e :: e in es ==> Scalars(e.key) && NodeNormalizesOn(nfc, round, e.val)
    ensures NodeNormalizesOn(nfc, round, PObject(es))
  {
    NodePropsNormalize(nfc, round, es);
    forall i | 0 <= i < |es| ensures Scalars(es[i].key) {
      assert es[i] in es;
    }
    if NormalizeEntries(nfc, ToPythonEntries(es), true).Some? {
      FieldKeysScalar(nfc, es);
    }
    NodeObjectMatches(nfc, ToNodeProps(round, es), ToPythonEntries(es));
  }

  lemma NodeIntegerNormalizes(nfc: Nfc, round: int -> int, i: int)
    requires IsRounding(round)
    ensures NodeNormalizesOn(nfc, round, PInt(i))
  {
    if i > MAX_SAFE_INTEGER {
      assert round(9007199254740992) <= round(i);
    } else if i < -MAX_SAFE_INTEGER {
      assert round(i) <= round(-9007199254740992);
    }
  }

  lemma {:induction false} NodeNormalizes(nfc: Nfc, round: int -> int, p: Portable)
    requires NfcLaws(nfc) && IsRounding(round) && Transportable(p) && !HasIntegralFloat(p)
    ensures NodeNormalizesOn(nfc, round, p)
    decreases p
  {
    match p {
      case PInt(i) => NodeIntegerNormalizes(nfc, round, i);
      case PText(t) => DecodeEncodeUtf16(t);
      case PArray(ps) =>
        forall q | q in ps ensures NodeNormalizesOn(nfc, round, q) {
          NodeNormalizes(nfc, round, q);
        }
        NodeItemsNormalize(nfc, round, ps);
      case PObject(es) =>
        forall e | e in es ensures Scalars(e.key) && NodeNormalizesOn(nfc, round, e.val) {
          assert e.val < e;
          NodeNormalizes(nfc, round, e.val);
        }
        NodeObjectNormalizes(nfc, round, es);
      case _ =>
    }
  }

  // ---- Encoding ----

  lemma {:induction false} Utf16OfAscii(t: Text)
    requires IsAscii(t)
    ensures Utf16(t) == t
  {
    if t != [] {
      Utf16OfAscii(t[1..]);
      assert [t[0]] + t[1..] == t;
    }
  }

  lemma EscapeUnitsCons(u: CodeUnit, rest: Units)
    ensures Node.EscapeUnits([u] + rest) == Node.EscapeUnit(u) + Node.EscapeUnits(rest)
  {
    assert ([u] + rest)[1..] == rest;
  }

  lemma RegroupUnits(a: Units, b: Units, c: Units)
    ensures a + (b + c) == a + b + c
  {
  }

  lemma {:induction false} EscapeUnitsAppend(a: Units, b: Units)
    ensures Node.EscapeUnits(a + b) == Node.EscapeUnits(a) + Node.EscapeUnits(b)
  {
    if a == [] {
      assert a + b == b;
    } else {
      var u, rest := a[0], a[1..];
      assert a == [u] + rest && a + b == [u] + (rest + b);
      EscapeUnitsAppend(rest, b);
      EscapeUnitsCons(u, rest);
      EscapeUnitsCons(u, rest + b);
      RegroupUnits(Node.EscapeUnit(u), Node.EscapeUnits(rest), Node.EscapeUnits(b));
    }
  }

  lemma OneUtf16(u: CodeUnit)
    ensures Utf16([u]) == [u]
  {
    assert [u][1..] == [];
  }

  /** `JSON.stringify` and `json.dumps` escape alike. */
  lemma EscapeUnitExact(u: CodeUnit)
    ensures Node.EscapeUnit(u) == Utf16(Escape(u))
  {
    hide FourDigits, Utf16;
    if |Escape(u)| == 2 {
      Utf16OfAscii(Escape(u));
    } else if u < 0x20 {
      LongForm(u);
      Utf16OfAscii(FourDigits(u));
      Utf16OfAscii(Escape(u));
    } else {
      OneUtf16(u);
    }
  }

  lemma OneUnit(u: CodeUnit)
    ensures Node.EscapeUnits([u]) == Utf16(Escape(u))
    ensures Utf16([u]) == [u]
  {
    EscapeUnitExact(u);
    hide Node.EscapeUnit;
    assert [u][1..] == [];
    assert Node.EscapeUnits([u][1..]) == [];
    assert Node.EscapeUnits([u]) == Node.EscapeUnit(u) + [];
  }

  lemma EscapeOneScalar(c: CodePoint)
    ensures Node.EscapeUnits(EncodeUnits(c)) == Utf16(Escape(c))
  {
    if c < 0x1_0000 {
      OneUnit(c);
    } else {
      var high, low := EncodeUnits(c)[0], EncodeUnits(c)[1];
      EscapeUnitsAppend([high], [low]);
      OneUnit(high);
      OneUnit(low);
      assert EncodeUnits(c) == [high] + [low];
      assert [c][1..] == [];
    }
  }

  lemma {:induction false} EscapesUtf16(t: Text)
    ensures Node.EscapeUnits(Utf16(t)) == Utf16(Escapes(t))
  {
    if t != [] {
      EscapesUtf16(t[1..]);
      EscapeOneScalar(t[0]);
      EscapeUnitsAppend(EncodeUnits(t[0]), Utf16(t[1..]));
      Utf16Append(Escape(t[0]), Escapes(t[1..]));
    }
  }

  lemma StringifyUtf16(t: Text)
    ensures Node.Stringify(Utf16(t)) == Utf16(Quote(t))
  {
    EscapesUtf16(t);
    Utf16Append([0x22] + Escapes(t), [0x22]);
    Utf16Append([0x22], Escapes(t));
    Utf16OfAscii([0x22]);
  }

  lemma Utf16Append3(a: Text, b: Text, c: Text)
    ensures Utf16(a + b + c) == Utf16(a) + Utf16(b) + Utf16(c)
  {
    Utf16Append(a + b, c);
    Utf16Append(a, b);
  }

  ghost predicate NodeEncodesOn(n: Norm) { Node.Encode(ToJs(n)) == Utf16(Dump(n)) }

  lemma {:induction false} NodeItemsEncode(first: bool, ns: seq<Norm>)
    requires forall n :: n in ns ==> NodeEncodesOn(n)
    ensures Node.JoinUnits(first, Node.EncodeItems(ToJsItems(ns))) == Utf16(Join(first, DumpAll(ns)))
  {
    if ns != [] {
      assert ns[0] in ns;
      NodeItemsEncode(false, ns[1..]);
      var sep: Text := if first then [] else [0x2C];
      assert ToJsItems(ns)[1..] == ToJsItems(ns[1..]);
      assert Node.EncodeItems(ToJsItems(ns))[1..] == Node.EncodeItems(ToJsItems(ns[1..]));
      assert DumpAll(ns)[1..] == DumpAll(ns[1..]);
      Utf16Append3(sep, Dump(ns[0]), Join(false, DumpAll(ns[1..])));
      Utf16OfAscii(sep);
    }
  }

  lemma {:induction false} NodePropsJoin(first: bool, ds: seq<Pair<Text, Text>>)
    ensures Node.JoinProps(first, MapPairs(Utf16, Utf16, ds)) == Utf16(JoinFields(first, ds))
  {
    if ds != [] {
      NodePropsJoin(false, ds[1..]);
      var us := MapPairs(Utf16, Utf16, ds);
      assert us[1..] == MapPairs(Utf16, Utf16, ds[1..]);
      var sep: Text := if first then [] else [0x2C];
      Utf16Append3(sep, Quote(ds[0].key) + [0x3A] + ds[0].val, JoinFields(false, ds[1..]));
      Utf16Append3(Quote(ds[0].key), [0x3A], ds[0].val);
      StringifyUtf16(ds[0].key);
      Utf16OfAscii(sep);
      Utf16OfAscii([0x3A]);
    }
  }

  lemma {:induction false} EncodePropsMapped(props: seq<Pair<Units, Node.JsValue>>)
    ensures Node.EncodeProps(props) == MapPairs((k: Units) => k, Node.Encode, props)
  {
    if props != [] {
      EncodePropsMapped(props[1..]);
    }
  }

  lemma {:induction false} FieldsEncode(fs: seq<Pair<Text, Norm>>)
    requires forall f :: f in fs ==> NodeEncodesOn(f.val)
    ensures Node.EncodeProps(ToJsFields(fs)) == MapPairs(Utf16, Utf16, DumpFields(fs))
  {
    if fs != [] {
      assert fs[0] in fs;
      FieldsEncode(fs[1..]);
      assert ToJsFields(fs)[1..] == ToJsFields(fs[1..]);
      assert DumpFields(fs)[1..] == DumpFields(fs[1..]);
    }
  }

  /** The order in which the engine enumerates properties is undone by the second sort. */
  lemma ResortUndoesEnumeration(fs: seq<Pair<Text, Norm>>)
    requires ScalarKeys(fs) && StrictlySorted(TextLess, fs)
    requires forall f :: f in fs ==> NodeEncodesOn(f.val)
    ensures Sort(Node.UnitsLess, Node.EncodeProps(Node.OwnOrder(ToJsFields(fs))))
            == MapPairs(Utf16, Utf16, DumpFields(fs))
  {
    var props, ds := ToJsFields(fs), DumpFields(fs);
    var listed := Node.OwnOrder(props);
    var a, b := Node.EncodeProps(listed), MapPairs(Utf16, Utf16, ds);
    DumpedKeys(fs);
    FieldsEncode(fs);
    TextLessOrders(KeySet(fs));
    SortedDistinct(TextLess, fs);
    assert DistinctKeys(ds) && ScalarKeys(ds);
    DistinctUnits(ds, Utf16);
    UnitsOrderKeys(ds, Utf16);
    EnumerationPermutes(props);
    DistinctAnyOrder(a, b);
    forall p ensures p in a <==> p in b {
      assert p in a <==> p in multiset(a);
    }
    SortAnyOrder(Node.UnitsLess, a, b);
    SortedUnits(ds);
  }

  lemma EnumerationPermutes(props: seq<Pair<Units, Node.JsValue>>)
    ensures multiset(Node.EncodeProps(Node.OwnOrder(props))) == multiset(Node.EncodeProps(props))
  {
    Node.OwnOrderPermutes(props);
    EncodePropsMapped(props);
    EncodePropsMapped(Node.OwnOrder(props));
    MapPermutes((k: Units) => k, Node.Encode, Node.OwnOrder(props), props);
  }

  lemma SortedUnits(ds: seq<Pair<Text, Text>>)
    requires ScalarKeys(ds) && StrictlySorted(TextLess, ds)
    ensures Sort(Node.UnitsLess, MapPairs(Utf16, Utf16, ds)) == MapPairs(Utf16, Utf16, ds)
  {
    UnitsCarryOrder(ds);
    SortCommutes(TextLess, Node.UnitsLess, Utf16, Utf16, ds);
    SortOfSorted(TextLess, ds);
  }

  lemma Brackets(open: CodePoint, inside: Text, close: CodePoint)
    requires open < 0x80 && close < 0x80
    ensures Utf16([open] + inside + [close]) == [open] + Utf16(inside) + [close]
  {
    Utf16Append3([open], inside, [close]);
    Utf16OfAscii([open]);
    Utf16OfAscii([close]);
  }

  lemma ObjectText(n: Norm, inside: Text)
    requires n.NObj? && JoinFields(true, Sort(TextLess, DumpFields(n.fields))) == inside
    ensures Dump(n) == [0x7B] + inside + [0x7D]
  {
  }

  lemma ObjectUnits(props: seq<Pair<Units, Node.JsValue>>, inside: Units)
    requires Node.JoinProps(true, Sort(Node.UnitsLess, Node.EncodeProps(props))) == inside
    ensures Node.Encode(Node.JObject(props)) == [0x7B] + inside + [0x7D]
  {
    hide Sort, Node.EncodeProps, Node.JoinProps, Node.UnitsLess;
  }

  lemma NodeObjectEncodes(fs: seq<Pair<Text, Norm>>)
    requires ScalarKeys(fs) && StrictlySorted(TextLess, fs)
    requires forall f :: f in fs ==> NodeEncodesOn(f.val)
    ensures NodeEncodesOn(NObj(fs))
  {
    var inside := JoinFields(true, DumpFields(fs));
    ResortUndoesEnumeration(fs);
    NodePropsJoin(true, DumpFields(fs));
    ObjectUnits(Node.OwnOrder(ToJsFields(fs)), Utf16(inside));
    SortDumped(fs);
    Brackets(0x7B, inside, 0x7D);
    SameText(fs, inside);
  }

  lemma SameText(fs: seq<Pair<Text, Norm>>, inside: Text)
    requires Sort(TextLess, DumpFields(fs)) == DumpFields(fs) && inside == JoinFields(true, DumpFields(fs))
    requires Node.Encode(Node.JObject(Node.OwnOrder(ToJsFields(fs)))) == Utf16([0x7B] + inside + [0x7D])
    ensures NodeEncodesOn(NObj(fs))
  {
    ObjectText(NObj(fs), inside);
  }

  lemma ArrayUnits(xs: seq<Node.JsValue>, inside: Units)
    requires Node.JoinUnits(true, Node.EncodeItems(xs)) == inside
    ensures Node.Encode(Node.JArray(xs)) == [0x5B] + inside + [0x5D]
  {
  }

  lemma NodeArrayEncodes(ns: seq<Norm>)
    requires forall n :: n in ns ==> NodeEncodesOn(n)
    ensures NodeEncodesOn(NList(ns))
  {
    NodeItemsEncode(true, ns);
    ArrayUnits(ToJsItems(ns), Utf16(Join(true, DumpAll(ns))));
    Brackets(0x5B, Join(true, DumpAll(ns)), 0x5D);
  }

  /** Re-encoding sorts again, so the text is that of the normal form whatever the enumeration order. */
  lemma {:induction false} NodeEncodes(n: Norm)
    requires Printable(n)
    ensures NodeEncodesOn(n)
    decreases n
  {
    match n {
      case NStr(t) => StringifyUtf16(t);
      case NList(ns) =>
        forall m | m in ns ensures NodeEncodesOn(m) {
          NodeEncodes(m);
        }
        NodeArrayEncodes(ns);
      case NObj(fs) =>
        assert PrintableFields(fs);
        forall f | f in fs ensures NodeEncodesOn(f.val) && Scalars(f.key) {
          assert f.val < f;
          NodeEncodes(f.val);
        }
        NodeObjectEncodes(fs);
      case _ =>
    }
  }

  // ---- Agreement ----

  /** Node's bytes are those of the portable profile, and it throws exactly where Python raises,
      provided no float is a safe integer. */
  lemma NodeAgrees(nfc: Nfc, round: int -> int, p: Portable)
    requires NfcLaws(nfc) && IsRounding(round) && Transportable(p) && !HasIntegralFloat(p)
    ensures Node.CanonicalBytes(nfc, ToNode(round, p)) == CanonicalBytes(nfc, ToPython(p), true)
  {
    NodeNormalizes(nfc, round, p);
    var n := Normalize(nfc, ToPython(p), true);
    if n.Some? {
      NormalizeIsNormal(nfc, ToPython(p), true);
      NodeEncodes(n.value);
      ScalarsDumped(n.value);
      Node.BufferFromUtf16(Dump(n.value));
    }
  }

  ghost predicate HasFloat(p: Portable) {
    match p
    case PReal(_, _) => true
    case PArray(ps) => exists q :: q in ps && HasFloat(q)
    case PObject(es) => exists e :: e in es && assert e.val < e; HasFloat(e.val)
    case _ => false
  }

  lemma {:induction false} ItemRejected(nfc: Nfc, ps: seq<Portable>, i: nat)
    requires i < |ps| && Normalize(nfc, ToPython(ps[i]), true).None?
    ensures NormalizeAll(nfc, ToPythonItems(ps), true).None?
  {
    assert ToPythonItems(ps)[1..] == ToPythonItems(ps[1..]);
    if i > 0 {
      ItemRejected(nfc, ps[1..], i - 1);
    }
  }

  lemma {:induction false} EntryRejected(nfc: Nfc, es: seq<Pair<Text, Portable>>, i: nat)
    requires i < |es| && Normalize(nfc, ToPython(es[i].val), true).None?
    ensures NormalizeEntries(nfc, ToPythonEntries(es), true).None?
  {
    assert ToPythonEntries(es)[1..] == ToPythonEntries(es[1..]);
    if i > 0 {
      EntryRejected(nfc, es[1..], i - 1);
    }
  }

  /** Python rejects every value with a float in it. */
  lemma {:induction false} FloatsRejected(nfc: Nfc, p: Portable)
    requires HasFloat(p)
    ensures Normalize(nfc, ToPython(p), true).None?
    decreases p
  {
    match p {
      case PArray(ps) =>
        var i :| 0 <= i < |ps| && HasFloat(ps[i]);
        FloatsRejected(nfc, ps[i]);
        ItemRejected(nfc, ps, i);
      case PObject(es) =>
        var i :| 0 <= i < |es| && HasFloat(es[i].val);
        assert es[i].val < es[i];
        FloatsRejected(nfc, es[i].val);
        EntryRejected(nfc, es, i);
      case _ =>
    }
  }

  lemma {:induction false} IntegralFloatIsFloat(p: Portable)
    requires HasIntegralFloat(p)
    ensures HasFloat(p)
    decreases p
  {
    match p {
      case PArray(ps) =>
        var q :| q in ps && HasIntegralFloat(q);
        IntegralFloatIsFloat(q);
      case PObject(es) =>
        var e :| e in es && HasIntegralFloat(e.val);
        assert e.val < e;
        IntegralFloatIsFloat(e.val);
      case _ =>
    }
  }

  // ---- Integral floats ----

  /** What JavaScript reads: every float that is a safe integer has become that integer. */
  function Integerized(p: Portable): Portable {
    match p
    case PReal(x, _) => if x.Floor as real == x && IsSafe(x.Floor) then PInt(x.Floor) else p
    case PArray(ps) => PArray(IntegerizedItems(ps))
    case PObject(es) => PObject(IntegerizedEntries(es))
    case _ => p
  }

  function IntegerizedItems(ps: seq<Portable>): seq<Portable> {
    if ps == [] then [] else [Integerized(ps[0])] + IntegerizedItems(ps[1..])
  }

  function IntegerizedEntries(es: seq<Pair<Text, Portable>>): seq<Pair<Text, Portable>> {
    if es == [] then []
    else
      assert es[0].val < es[0];
      [Pair(es[0].key, Integerized(es[0].val))] + IntegerizedEntries(es[1..])
  }

  lemma {:induction false} IntegerizedItemsAt(ps: seq<Portable>)
    ensures |IntegerizedItems(ps)| == |ps|
    ensures forall i :: 0 <= i < |ps| ==> IntegerizedItems(ps)[i] == Integerized(ps[i])
  {
    if ps != [] {
      IntegerizedItemsAt(ps[1..]);
      assert forall i :: 0 < i < |ps| ==>
        IntegerizedItems(ps)[i] == IntegerizedItems(ps[1..])[i - 1] && ps[i] == ps[1..][i - 1];
    }
  }

  lemma {:induction false} IntegerizedEntriesAt(es: seq<Pair<Text, Portable>>)
    ensures |IntegerizedEntries(es)| == |es|
    ensures forall i :: 0 <= i < |es| ==> IntegerizedEntries(es)[i] == Pair(es[i].key, Integerized(es[i].val))
  {
    if es != [] {
      IntegerizedEntriesAt(es[1..]);
      assert forall i :: 0 < i < |es| ==>
        IntegerizedEntries(es)[i] == IntegerizedEntries(es[1..])[i - 1] && es[i] == es[1..][i - 1];
    }
  }

  /** The integerized value can be carried like the original, and has no integral float. */
  lemma {:induction false} IntegerizedCarries(p: Portable)
    requires Transportable(p)
    ensures Transportable(Integerized(p)) && !HasIntegralFloat(Integerized(p))
    decreases p
  {
    match p {
      case PArray(ps) =>
        IntegerizedItemsAt(ps);
        forall q | q in IntegerizedItems(ps) ensures Transportable(q) && !HasIntegralFloat(q) {
          var i :| 0 <= i < |ps| && q == Integerized(ps[i]);
          IntegerizedCarries(ps[i]);
        }
      case PObject(es) =>
        IntegerizedEntriesAt(es);
        forall e | e in IntegerizedEntries(es)
          ensures Scalars(e.key) && Transportable(e.val) && !HasIntegralFloat(e.val)
        {
          var i :| 0 <= i < |es| && e == Pair(es[i].key, Integerized(es[i].val));
          assert es[i].val < es[i] && es[i] in es;
          IntegerizedCarries(es[i].val);
        }
      case _ =>
    }
  }

  /** JavaScript holds the same value for both. */
  lemma {:induction false} IntegerizedToNode(round: int -> int, p: Portable)
    requires IsRounding(round)
    ensures ToNode(round, Integerized(p)) == ToNode(round, p)
    decreases p
  {
    match p {
      case PArray(ps) => ItemsToNode(round, ps);
      case PObject(es) => EntriesToNode(round, es);
      case _ =>
    }
  }

  lemma {:induction false} ItemsToNode(round: int -> int, ps: seq<Portable>)
    requires IsRounding(round)
    ensures ToNodeItems(round, IntegerizedItems(ps)) == ToNodeItems(round, ps)
    decreases ps
  {
    if ps != [] {
      IntegerizedToNode(round, ps[0]);
      ItemsToNode(round, ps[1..]);
    }
  }

  lemma {:induction false} EntriesToNode(round: int -> int, es: seq<Pair<Text, Portable>>)
    requires IsRounding(round)
    ensures ToNodeProps(round, IntegerizedEntries(es)) == ToNodeProps(round, es)
    decreases es
  {
    if es != [] {
      assert es[0].val < es[0];
      IntegerizedToNode(round, es[0].val);
      EntriesToNode(round, es[1..]);
    }
  }

  /** What Node writes, for every value: Python's bytes for the integerized value, and it throws exactly
      where Python raises on that. */
  lemma NodeIntegerizes(nfc: Nfc, round: int -> int, p: Portable)
    requires NfcLaws(nfc) && IsRounding(round) && Transportable(p)
    ensures Node.CanonicalBytes(nfc, ToNode(round, p)) == CanonicalBytes(nfc, ToPython(Integerized(p)), true)
  {
    hide Integerized, ToNode, ToPython, Transportable, HasIntegralFloat, Node.CanonicalBytes, CanonicalBytes, NfcLaws;
    IntegerizedToNode(round, p);
    IntegerizedCarries(p);
    NodeAgrees(nfc, round, Integerized(p));
  }

  // ---- What is rejected ----

  /** Two of the keys have one normal form. */
  predicate KeysCollide(nfc: Nfc, es: seq<Pair<Text, Portable>>) {
    exists i, j :: 0 <= i < j < |es| && nfc(es[i].key) == nfc(es[j].key)
  }

  /** Somewhere in the value there is a float, an integer out of range, or an object in which two keys
      have one normal form. */
  ghost predicate Defective(nfc: Nfc, p: Portable) {
    match p
    case PReal(_, _) => true
    case PInt(i) => !IsSafe(i)
    case PArray(ps) => exists q :: q in ps && Defective(nfc, q)
    case PObject(es) => KeysCollide(nfc, es) || exists e :: e in es && assert e.val < e; Defective(nfc, e.val)
    case _ => false
  }

  lemma {:induction false} ItemsAccepted(nfc: Nfc, ps: seq<Portable>)
    requires forall q :: q in ps ==> Normalize(nfc, ToPython(q), true).Some?
    ensures NormalizeAll(nfc, ToPythonItems(ps), true).Some?
  {
    if ps != [] {
      assert ps[0] in ps;
      assert ToPythonItems(ps)[1..] == ToPythonItems(ps[1..]);
      ItemsAccepted(nfc, ps[1..]);
    }
  }

  lemma CollidingKeys(nfc: Nfc, es: seq<Pair<Text, Portable>>)
    ensures DistinctKeys(Fields(nfc, Normalized(nfc, es))) <==> !KeysCollide(nfc, es)
  {
    hide Normalized, Fields;
    var ps := Normalized(nfc, es);
    FieldsDistinct(nfc, ps);
    if KeysCollide(nfc, es) {
      var i, j :| 0 <= i < j < |es| && nfc(es[i].key) == nfc(es[j].key);
      assert ps[i].key == ps[j].key;
    }
    if !DistinctKeys(ps) {
      var i, j :| 0 <= i < j < |ps| && ps[i].key == ps[j].key;
      assert nfc(es[i].key) == nfc(es[j].key);
    }
  }

  /** An object is accepted exactly if all its values are and no two keys have one normal form. */
  lemma ObjectAccepted(nfc: Nfc, es: seq<Pair<Text, Portable>>)
    requires forall e :: e in es ==> Scalars(e.key)
    ensures Normalize(nfc, ToPython(PObject(es)), true).Some? <==> AllAccepted(nfc, es) && !KeysCollide(nfc, es)
  {
    hide Normalize, NormalizeEntries, Fields, Normalized, AllAccepted, ToPythonEntries, KeysCollide, DistinctKeys;
    hide Sort;
    PythonFields(nfc, es);
    DictCollected(nfc, ToPythonEntries(es));
    CollidingKeys(nfc, es);
    assert ToPython(PObject(es)) == Dict(ToPythonEntries(es));
  }

  /** The portable profile rejects exactly the defective values. */
  lemma {:induction false} RejectedIffDefective(nfc: Nfc, p: Portable)
    requires Transportable(p)
    ensures Normalize(nfc, ToPython(p), true).None? <==> Defective(nfc, p)
    decreases p
  {
    match p {
      case PArray(ps) =>
        forall q | q in ps ensures Normalize(nfc, ToPython(q), true).None? <==> Defective(nfc, q) {
          RejectedIffDefective(nfc, q);
        }
        if Defective(nfc, p) {
          var i :| 0 <= i < |ps| && Defective(nfc, ps[i]);
          ItemRejected(nfc, ps, i);
        } else {
          ItemsAccepted(nfc, ps);
        }
      case PObject(es) =>
        forall e | e in es ensures Normalize(nfc, ToPython(e.val), true).None? <==> Defective(nfc, e.val) {
          assert e.val < e;
          RejectedIffDefective(nfc, e.val);
        }
        ObjectAccepted(nfc, es);
        ObjectDefective(nfc, es);
      case _ =>
    }
  }

  lemma ObjectDefective(nfc: Nfc, es: seq<Pair<Text, Portable>>)
    requires forall e :: e in es ==> (Normalize(nfc, ToPython(e.val), true).None? <==> Defective(nfc, e.val))
    ensures Defective(nfc, PObject(es)) <==> KeysCollide(nfc, es) || !AllAccepted(nfc, es)
  {
    hide Normalize, ToPython;
    if !AllAccepted(nfc, es) {
      var i :| 0 <= i < |es| && Normalize(nfc, ToPython(es[i].val), true).None?;
      assert es[i] in es && es[i].val < es[i];
    }
    if AllAccepted(nfc, es) {
      forall e | e in es ensures !Defective(nfc, e.val) {
        var i :| 0 <= i < |es| && es[i] == e;
      }
    }
  }

  /** Go always agrees with Python. Node agrees exactly if no float is a safe integer, or the value would
      be rejected even with such floats read as integers: for another float, an integer out of range, or
      keys with one normal form. */
  lemma ThreeWayAgreement(nfc: Nfc, round: int -> int, p: Portable)
    requires NfcLaws(nfc) && IsRounding(round) && Transportable(p)
    ensures Go.Encode(nfc, ToGo(p)) == CanonicalBytes(nfc, ToPython(p), true)
    ensures Node.CanonicalBytes(nfc, ToNode(round, p)) == CanonicalBytes(nfc, ToPython(p), true)
            <==> !HasIntegralFloat(p) || Defective(nfc, Integerized(p))
  {
    hide Node.CanonicalBytes, Go.Encode, ToNode, ToGo, ToPython, Integerized, Defective, HasIntegralFloat;
    hide Transportable;
    GoAgrees(nfc, p);
    if HasIntegralFloat(p) {
      IntegralFloatIsFloat(p);
      FloatsRejected(nfc, p);
      NodeIntegerizes(nfc, round, p);
      IntegerizedCarries(p);
      RejectedIffDefective(nfc, Integerized(p));
    } else {
      NodeAgrees(nfc, round, p);
    }
  }

  /** The smallest disagreement: `1.0` is a float in Python and the integer 1 in JavaScript. */
  lemma IntegralFloatDisagrees(nfc: Nfc, round: int -> int)
    ensures CanonicalBytes(nfc, ToPython(PReal(1.0, Lit("1.0"))), true) == None
    ensures Node.CanonicalBytes(nfc, ToNode(round, PReal(1.0, Lit("1.0")))) == Some([0x31])
  {
    assert (1.0 as real).Floor == 1;
    assert Decimal(1) == [0x31];
    Utf16OfAscii([0x31]);
    assert [0x31][1..] == [];
  }

  /** One sort would not do: JavaScript enumerates `"9"` before `"10"`, against their byte order. */
  lemma EnumerationDefeatsFirstSort(v: Node.JsValue)
    ensures var sorted := [Pair([0x31, 0x30], v), Pair([0x39], v)];
            Sort(Node.UnitsLess, sorted) == sorted && Node.OwnOrder(sorted) == [sorted[1], sorted[0]]
  {
    var ten: Units, nine: Units := [0x31, 0x30], [0x39];
    assert ten[1..] == [0x30] && [0x30][1..] == [] && nine[1..] == [];
    assert ten[..1] == [0x31] && [0x31][..0] == [] && nine[..0] == [];
    assert DigitsValue([0x31]) == 1 && DigitsValue(ten) == 10 && DigitsValue(nine) == 9;
    assert Node.BufferFrom([0x30]) == [0x30] && Node.BufferFrom(ten) == [0x31, 0x30] && Node.BufferFrom(nine) == [0x39];
    assert Node.IsArrayIndex(ten) && Node.IsArrayIndex(nine);
    assert Node.UnitsLess(ten, nine) && Node.IndexLess(nine, ten) && !Node.IndexLess(ten, nine);
    SortTwo(Pair(ten, v), Pair(nine, v));
  }

  lemma SortTwo(a: Pair<Units, Node.JsValue>, b: Pair<Units, Node.JsValue>)
    requires Node.UnitsLess(a.key, b.key) && !Node.IndexLess(a.key, b.key)
    requires Node.IsArrayIndex(a.key) && Node.IsArrayIndex(b.key)
    ensures Sort(Node.UnitsLess, [a, b]) == [a, b] && Node.OwnOrder([a, b]) == [b, a]
  {
    var s, last := [a, b], [b];
    assert s[1..] == last;
    var none: seq<Pair<Units, Node.JsValue>> := last[1..];
    assert none == [];
    SortOne(Node.UnitsLess, b);
    SortOne(Node.IndexLess, b);
    assert Node.Indexes(none, true) == [] && Node.Indexes(none, false) == [];
    assert Node.Indexes(last, true) == [b] && Node.Indexes(last, false) == [];
    assert Node.Indexes(s, true) == [a, b] && Node.Indexes(s, false) == [];
    assert Insert(Node.IndexLess, a, [b]) == [b, a];
  }
}
