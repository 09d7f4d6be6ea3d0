/** The normalize, sort and re-sort encoder of node/canonical.mjs. */
module NodeCanonical {
  import opened Wrappers
  import opened Sorting
  import opened Unicode
  import opened Values

  /** A JavaScript number: a double that is an integer, or any other double. */
  datatype Number = Integral(i: int) | NonIntegral

  /** A JavaScript value; an object lists its own properties in enumeration order. */
  datatype JsValue =
    | JNull
    | JBool(b: bool)
    | JNumber(n: Number)
    | JString(u: Units)
    | JArray(items: seq<JsValue>)
    | JObject(props: seq<Pair<Units, JsValue>>)
    | JOther

  // ---- Surrogates ----

  /** `assertUnicodeScalarString`: accepts exactly the UTF-16 encodings of scalar sequences. */
  method IsUnicodeScalarString(s: Units) returns (ok: bool)
    ensures ok <==> exists t: Text :: Scalars(t) && Utf16(t) == s
  {
    ghost var verdict := DecodeUtf16(s).Some?;
    VerdictIsExistence(s);
    assert s[0..] == s;
    var i := 0;
    while i < |s|
      invariant 0 <= i <= |s|
      invariant verdict == DecodeUtf16(s[i..]).Some?
    {
      var cu := s[i];
      assert s[i..][0] == cu && s[i..][1..] == s[i + 1..];
      if 0xD800 <= cu <= 0xDBFF {
        if i + 1 >= |s| {
          return false;
        }
        var lo := s[i + 1];
        assert s[i..][1] == lo && s[i..][2..] == s[i + 2..];
        if lo < 0xDC00 || lo > 0xDFFF {
          return false;
        }
        i := i + 1;
      } else if 0xDC00 <= cu <= 0xDFFF {
        return false;
      }
      i := i + 1;
    }
    assert s[|s|..] == [];
    ok := true;
  }

  lemma VerdictIsExistence(s: Units)
    ensures DecodeUtf16(s).Some? <==> exists t: Text :: Scalars(t) && Utf16(t) == s
  {
    if DecodeUtf16(s).Some? {
      DecodeUtf16Exact(s, DecodeUtf16(s).value);
    }
    forall t: Text | Scalars(t) && Utf16(t) == s ensures DecodeUtf16(s).Some? {
      DecodeUtf16Exact(s, t);
    }
  }

  // ---- Order ----

  /** `Buffer.from(u, 'utf8')`, which writes U+FFFD for an unpaired surrogate. */
  function BufferFrom(u: Units): Bytes
    decreases |u|
  {
    if u == [] then []
    else if IsHigh(u[0]) && |u| >= 2 && IsLow(u[1]) then
      EncodeScalar(FromPair(u[0], u[1])) + BufferFrom(u[2..])
    else EncodeScalar(if IsSurrogate(u[0]) then 0xFFFD else u[0]) + BufferFrom(u[1..])
  }

  lemma {:induction false} BufferFromDecoded(u: Units)
    requires DecodeUtf16(u).Some?
    ensures BufferFrom(u) == Utf8(DecodeUtf16(u).value)
    decreases |u|
  {
    if u != [] {
      var n := if IsHigh(u[0]) then 2 else 1;
      BufferFromDecoded(u[n..]);
      var t := DecodeUtf16(u).value;
      assert t[1..] == DecodeUtf16(u[n..]).value;
    }
  }

  lemma BufferFromUtf16(t: Text)
    requires Scalars(t)
    ensures BufferFrom(Utf16(t)) == Utf8(t)
  {
    DecodeEncodeUtf16(t);
    BufferFromDecoded(Utf16(t));
  }

  /** `compareUtf8(a, b) < 0`. */
  predicate UnitsLess(a: Units, b: Units) { LexLess(BufferFrom(a), BufferFrom(b)) }

  /** On encodings of scalar texts, `compareUtf8` is the code-point order of the texts. */
  lemma UnitsOrder(a: Text, b: Text)
    requires Scalars(a) && Scalars(b)
    ensures UnitsLess(Utf16(a), Utf16(b)) == TextLess(a, b)
  {
    BufferFromUtf16(a);
    BufferFromUtf16(b);
    CodePointOrderIsUtf8Order(a, b);
  }

  // ---- Property order ----

  /** A property name that is an array index; such properties are enumerated first. */
  predicate IsArrayIndex(k: Units) {
    && k != [] && (forall i :: 0 <= i < |k| ==> IsDigit(k[i])) && (|k| == 1 || k[0] != 0x30)
    && DigitsValue(k) < 0xFFFF_FFFF
  }

  predicate IndexLess(a: Units, b: Units) { DigitsValue(a) < DigitsValue(b) }

  function Indexes(props: seq<Pair<Units, JsValue>>, wanted: bool): seq<Pair<Units, JsValue>> {
    if props == [] then []
    else (if IsArrayIndex(props[0].key) == wanted then [props[0]] else []) + Indexes(props[1..], wanted)
  }

  /** The order in which an object to which `props` were added one after the other lists them:
      array indexes in ascending order, then the other names in the order of insertion. */
  function OwnOrder(props: seq<Pair<Units, JsValue>>): seq<Pair<Units, JsValue>> {
    Sort(IndexLess, Indexes(props, true)) + Indexes(props, false)
  }

  lemma {:induction false} IndexesSplit(props: seq<Pair<Units, JsValue>>)
    ensures multiset(Indexes(props, true)) + multiset(Indexes(props, false)) == multiset(props)
  {
    if props != [] {
      IndexesSplit(props[1..]);
      assert props == [props[0]] + props[1..];
    }
  }

  lemma OwnOrderPermutes(props: seq<Pair<Units, JsValue>>)
    ensures multiset(OwnOrder(props)) == multiset(props)
  {
    SortMultiset(IndexLess, Indexes(props, true));
    IndexesSplit(props);
  }

  // ---- What the functions compute ----

  function Normalize(nfc: Nfc, v: JsValue): Option<JsValue> {
    match v
    case JNull => Some(v)
    case JBool(_) => Some(v)
    case JNumber(n) => if n.Integral? && IsSafe(n.i) then Some(v) else None
    case JString(u) =>
      var t :- DecodeUtf16(u);
      Some(JString(Utf16(nfc(t))))
    case JArray(vs) =>
      var xs :- NormalizeItems(nfc, vs);
      Some(JArray(xs))
    case JObject(props) =>
      var entries :- NormalizeProps(nfc, props);
      if DistinctKeys(entries) then Some(JObject(OwnOrder(Sort(UnitsLess, entries)))) else None
    case JOther => None
  }

  function NormalizeItems(nfc: Nfc, vs: seq<JsValue>): (r: Option<seq<JsValue>>)
    ensures r.Some? ==> |r.value| == |vs|
  {
    if vs == [] then Some([])
    else
      var x :- Normalize(nfc, vs[0]);
      var rest :- NormalizeItems(nfc, vs[1..]);
      Some([x] + rest)
  }

  function NormalizeProps(nfc: Nfc, props: seq<Pair<Units, JsValue>>): (r: Option<seq<Pair<Units, JsValue>>>)
    ensures r.Some? ==> |r.value| == |props|
  {
    if props == [] then Some([])
    else
      assert props[0].val < props[0];
      var t :- DecodeUtf16(props[0].key);
      var x :- Normalize(nfc, props[0].val);
      var rest :- NormalizeProps(nfc, props[1..]);
      Some([Pair(Utf16(nfc(t)), x)] + rest)
  }

  /** How `JSON.stringify` writes one code unit of a well-formed string (`QuoteJSONString` of ECMA-262). */
  function EscapeUnit(u: CodeUnit): Units {
    match u
    case 0x08 => [0x5C, 0x62]
    case 0x09 => [0x5C, 0x74]
    case 0x0A => [0x5C, 0x6E]
    case 0x0C => [0x5C, 0x66]
    case 0x0D => [0x5C, 0x72]
    case 0x22 => [0x5C, 0x22]
    case 0x5C => [0x5C, 0x5C]
    case _ => if u < 0x20 then [0x5C, 0x75] + Utf16(FourDigits(u)) else [u]
  }

  function EscapeUnits(u: Units): Units {
    if u == [] then [] else EscapeUnit(u[0]) + EscapeUnits(u[1..])
  }

  function Stringify(u: Units): Units { [0x22] + EscapeUnits(u) + [0x22] }

  function Encode(x: JsValue): Units {
    match x
    case JNull => Utf16(Lit("null"))
    case JBool(b) => Utf16(Lit(if b then "true" else "false"))
    case JNumber(n) => if n.Integral? then Utf16(Decimal(n.i)) else Utf16(Lit("null"))
    case JString(u) => Stringify(u)
    case JArray(xs) => [0x5B] + JoinUnits(true, EncodeItems(xs)) + [0x5D]
    case JObject(props) => [0x7B] + JoinProps(true, Sort(UnitsLess, EncodeProps(props))) + [0x7D]
    case JOther => Utf16(Lit("undefined"))
  }

  function EncodeItems(xs: seq<JsValue>): seq<Units> {
    if xs == [] then [] else [Encode(xs[0])] + EncodeItems(xs[1..])
  }

  function EncodeProps(props: seq<Pair<Units, JsValue>>): (r: seq<Pair<Units, Units>>)
    ensures |r| == |props| && forall i :: 0 <= i < |props| ==> r[i].key == props[i].key
  {
    if props == [] then []
    else
      assert props[0].val < props[0];
      [Pair(props[0].key, Encode(props[0].val))] + EncodeProps(props[1..])
  }

  /** `join(',')`, with a leading comma unless `first`. */
  function JoinUnits(first: bool, parts: seq<Units>): Units {
    if parts == [] then []
    else (if first then [] else [0x2C]) + parts[0] + JoinUnits(false, parts[1..])
  }

  function JoinProps(first: bool, props: seq<Pair<Units, Units>>): Units {
    if props == [] then []
    else
      (if first then [] else [0x2C]) + (Stringify(props[0].key) + [0x3A] + props[0].val)
      + JoinProps(false, props[1..])
  }

  /** `Buffer.from(canonical(v), 'utf8')`, or `None` where `canonical` throws. */
  function CanonicalBytes(nfc: Nfc, v: JsValue): Option<Bytes> {
    var x :- Normalize(nfc, v);
    Some(BufferFrom(Encode(x)))
  }

  // ---- The loops of `normalizeCanonical` ----

  method NormalizeCanonical(nfc: Nfc, v: JsValue) returns (r: Option<JsValue>)
    ensures r == Normalize(nfc, v)
    decreases v, 1
  {
    match v {
      case JNull => r := Some(v);
      case JBool(_) => r := Some(v);
      case JNumber(n) => r := if n.Integral? && IsSafe(n.i) then Some(v) else None;
      case JString(u) =>
        var ok := IsUnicodeScalarString(u);
        VerdictIsExistence(u);
        if !ok {
          return None;
        }
        r := Some(JString(Utf16(nfc(DecodeUtf16(u).value))));
      case JArray(vs) => r := NormalizeArray(nfc, vs);
      case JObject(props) => r := NormalizeObject(nfc, props);
      case JOther => r := None;
    }
  }

  method NormalizeArray(nfc: Nfc, vs: seq<JsValue>) returns (r: Option<JsValue>)
    ensures r == var xs :- NormalizeItems(nfc, vs); Some(JArray(xs))
    decreases vs, 0
  {
    var out := [];
    assert vs[0..] == vs;
    AfterNothing(NormalizeItems(nfc, vs));
    for i := 0 to |vs|
      invariant NormalizeItems(nfc, vs) == After(out, NormalizeItems(nfc, vs[i..]))
    {
      assert vs[i..][1..] == vs[i + 1..];
      var x := NormalizeCanonical(nfc, vs[i]);
      if x.None? {
        return None;
      }
      AfterPiece(out, [x.value], NormalizeItems(nfc, vs[i + 1..]));
      out := out + [x.value];
    }
    assert vs[|vs|..] == [] && out + [] == out;
    r := Some(JArray(out));
  }

  method NormalizeObject(nfc: Nfc, props: seq<Pair<Units, JsValue>>) returns (r: Option<JsValue>)
    ensures r == var entries :- NormalizeProps(nfc, props);
                 if DistinctKeys(entries) then Some(JObject(OwnOrder(Sort(UnitsLess, entries)))) else None
    decreases props, 0
  {
    var entries: seq<Pair<Units, JsValue>> := [];
    var seen: set<Units> := {};
    assert props[0..] == props;
    AfterNothing(NormalizeProps(nfc, props));
    for i := 0 to |props|
      invariant DistinctKeys(entries) && seen == KeySet(entries)
      invariant NormalizeProps(nfc, props) == After(entries, NormalizeProps(nfc, props[i..]))
    {
      assert props[i..][1..] == props[i + 1..];
      assert props[i].val < props[i];
      var ok := IsUnicodeScalarString(props[i].key);
      VerdictIsExistence(props[i].key);
      if !ok {
        return None;
      }
      var key := Utf16(nfc(DecodeUtf16(props[i].key).value));
      if key in seen {
        Collides(nfc, props, entries, key, i);
        return None;
      }
      var x := NormalizeCanonical(nfc, props[i].val);
      if x.None? {
        return None;
      }
      AfterPiece(entries, [Pair(key, x.value)], NormalizeProps(nfc, props[i + 1..]));
      KeysSnoc(entries, Pair(key, x.value));
      seen := seen + {key};
      entries := entries + [Pair(key, x.value)];
    }
    assert props[|props|..] == [] && entries + [] == entries;
    r := Some(JObject(OwnOrder(Sort(UnitsLess, entries))));
  }

  lemma KeysSnoc(entries: seq<Pair<Units, JsValue>>, p: Pair<Units, JsValue>)
    ensures KeySet(entries + [p]) == KeySet(entries) + {p.key}
    ensures DistinctKeys(entries) && p.key !in KeySet(entries) ==> DistinctKeys(entries + [p])
  {
    var more := entries + [p];
    assert forall j :: 0 <= j < |entries| ==> more[j] == entries[j];
    assert more[|entries|] == p;
    forall k | k in KeySet(entries) ensures k in KeySet(more) {
      var j :| 0 <= j < |entries| && entries[j].key == k;
      assert more[j].key == k;
    }
  }

  lemma Collides(nfc: Nfc, props: seq<Pair<Units, JsValue>>, entries: seq<Pair<Units, JsValue>>, key: Units, i: nat)
    requires i < |props| && key in KeySet(entries)
    requires DecodeUtf16(props[i].key).Some? && key == Utf16(nfc(DecodeUtf16(props[i].key).value))
    requires NormalizeProps(nfc, props) == After(entries, NormalizeProps(nfc, props[i..]))
    ensures NormalizeProps(nfc, props).Some? ==> !DistinctKeys(NormalizeProps(nfc, props).value)
  {
    var all, rest := NormalizeProps(nfc, props), NormalizeProps(nfc, props[i..]);
    if all.Some? {
      var j :| 0 <= j < |entries| && entries[j].key == key;
      assert all.value[j] == entries[j] && all.value[|entries|] == rest.value[0];
      assert rest.value[0].key == key;
    }
  }
}
