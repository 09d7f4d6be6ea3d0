/** The single-pass encoder of go/internal/canonical/canonical.go. */
module GoCanonical {
  import opened Wrappers
  import opened Sorting
  import opened Unicode
  import opened Values

  /** A decoded value. Numbers keep their literal; a map lists its entries in the order in which
      one `range` visits them, which Go leaves open. */
  datatype GoValue =
    | GNil
    | GBool(b: bool)
    | GNumber(literal: Text)
    | GString(s: Bytes)
    | GSlice(items: seq<GoValue>)
    | GMap(entries: seq<Pair<Bytes, GoValue>>)
    | GOther

  predicate BytesLess(a: Bytes, b: Bytes) { LexLess(a, b) }

  predicate AllDigits(d: Text) { forall i :: 0 <= i < |d| ==> IsDigit(d[i]) }

  /** `big.Int.SetString(s, 10)`. */
  function BigInt(s: Text): Option<int> {
    var signed := s != [] && (s[0] == 0x2B || s[0] == 0x2D);
    var d := if signed then s[1..] else s;
    if d == [] || !AllDigits(d) then None
    else Some(if s[0] == 0x2D then -DigitsValue(d) else DigitsValue(d))
  }

  predicate ValidInteger(literal: Text) {
    var z := BigInt(literal);
    z.Some? && IsSafe(z.value)
  }

  /** A string as Go writes it, or `None` for invalid UTF-8. */
  function QuoteBytes(nfc: Nfc, s: Bytes): Option<Bytes> {
    var t :- DecodeUtf8(s);
    Some(Utf8(Quote(nfc(t))))
  }

  // ---- What the encoder writes ----

  function Encode(nfc: Nfc, v: GoValue): Option<Bytes>
    decreases v, 1, 0
  {
    match v
    case GNil => Some(Utf8(Lit("null")))
    case GBool(b) => Some(Utf8(Lit(if b then "true" else "false")))
    case GNumber(literal) => if ValidInteger(literal) then Some(Utf8(literal)) else None
    case GString(s) => QuoteBytes(nfc, s)
    case GSlice(vs) =>
      var inside :- EncodeItems(nfc, true, vs);
      Some([0x5B] + inside + [0x5D])
    case GMap(es) =>
      var ps := NormalKeys(nfc, es);
      if !KeysValid(es) || !DistinctKeys(ps) then None
      else
        SortedBelow(nfc, es, v);
        var inside :- EncodeMembers(nfc, true, Sort(BytesLess, ps), v);
        Some([0x7B] + inside + [0x7D])
    case GOther => None
  }

  function EncodeItems(nfc: Nfc, first: bool, vs: seq<GoValue>): Option<Bytes>
    decreases vs, 0, 0
  {
    if vs == [] then Some([])
    else
      var x :- Encode(nfc, vs[0]);
      var rest :- EncodeItems(nfc, false, vs[1..]);
      Some((Comma(first) + x) + rest)
  }

  function Comma(first: bool): Bytes { if first then [] else [0x2C] }

  predicate KeysValid(es: seq<Pair<Bytes, GoValue>>) {
    forall i :: 0 <= i < |es| ==> DecodeUtf8(es[i].key).Some?
  }

  function NormalKey(nfc: Nfc, key: Bytes): Bytes {
    match DecodeUtf8(key)
    case Some(t) => Utf8(nfc(t))
    case None => []
  }

  /** The entries under their normalized keys. */
  function NormalKeys(nfc: Nfc, es: seq<Pair<Bytes, GoValue>>): (r: seq<Pair<Bytes, GoValue>>)
    ensures |r| == |es|
    ensures forall i :: 0 <= i < |es| ==> r[i] == Pair(NormalKey(nfc, es[i].key), es[i].val)
  {
    if es == [] then [] else [Pair(NormalKey(nfc, es[0].key), es[0].val)] + NormalKeys(nfc, es[1..])
  }

  lemma NormalKeysPermute(nfc: Nfc, es: seq<Pair<Bytes, GoValue>>, ds: seq<Pair<Bytes, GoValue>>)
    requires multiset(es) == multiset(ds)
    ensures multiset(NormalKeys(nfc, es)) == multiset(NormalKeys(nfc, ds))
  {
    var f, g := (k: Bytes) => NormalKey(nfc, k), (v: GoValue) => v;
    MapPermutes(f, g, es, ds);
    assert MapPairs(f, g, es) == NormalKeys(nfc, es);
    assert MapPairs(f, g, ds) == NormalKeys(nfc, ds);
  }

  lemma SortedBelow(nfc: Nfc, es: seq<Pair<Bytes, GoValue>>, v: GoValue)
    requires v == GMap(es)
    ensures forall p :: p in Sort(BytesLess, NormalKeys(nfc, es)) ==> p.val < v
  {
    var ps := NormalKeys(nfc, es);
    forall p | p in Sort(BytesLess, ps) ensures p.val < v {
      SortMember(BytesLess, ps, p);
      var i :| 0 <= i < |ps| && ps[i] == p;
      assert es[i].val < es[i];
    }
  }

  function EncodeMember(nfc: Nfc, first: bool, p: Pair<Bytes, GoValue>, ghost whole: GoValue): Option<Bytes>
    requires p.val < whole
    decreases whole, 0, 0
  {
    var k :- QuoteBytes(nfc, p.key);
    var x :- Encode(nfc, p.val);
    Some(Comma(first) + k + [0x3A] + x)
  }

  function EncodeMembers(nfc: Nfc, first: bool, ps: seq<Pair<Bytes, GoValue>>, ghost whole: GoValue): Option<Bytes>
    requires forall p :: p in ps ==> p.val < whole
    decreases whole, 0, |ps|
  {
    if ps == [] then Some([])
    else
      assert ps[0] in ps;
      var m :- EncodeMember(nfc, first, ps[0], whole);
      var rest :- EncodeMembers(nfc, false, ps[1..], whole);
      Some(m + rest)
  }

  /** The order in which a map is visited does not show in the result. */
  lemma VisitOrderIrrelevant(nfc: Nfc, es: seq<Pair<Bytes, GoValue>>, ds: seq<Pair<Bytes, GoValue>>)
    requires multiset(es) == multiset(ds)
    ensures Encode(nfc, GMap(es)) == Encode(nfc, GMap(ds))
  {
    hide NormalKeys, KeysValid, EncodeMembers;
    var ps, qs := NormalKeys(nfc, es), NormalKeys(nfc, ds);
    NormalKeysPermute(nfc, es, ds);
    ValidAnyOrder(es, ds);
    ValidAnyOrder(ds, es);
    DistinctAnyOrder(ps, qs);
    SortedBelow(nfc, es, GMap(es));
    SortedBelow(nfc, ds, GMap(ds));
    if DistinctKeys(ps) {
      SameSorted(ps, qs);
      WholeIrrelevant(nfc, true, Sort(BytesLess, ps), GMap(es), GMap(ds));
    }
  }

  lemma SameSorted(ps: seq<Pair<Bytes, GoValue>>, qs: seq<Pair<Bytes, GoValue>>)
    requires multiset(ps) == multiset(qs) && DistinctKeys(ps)
    ensures Sort(BytesLess, ps) == Sort(BytesLess, qs)
  {
    DistinctAnyOrder(ps, qs);
    forall p ensures p in ps <==> p in qs {
      assert p in ps <==> p in multiset(ps);
    }
    BytesLessOrders(KeySet(ps));
    SortAnyOrder(BytesLess, ps, qs);
  }

  lemma ValidAnyOrder(es: seq<Pair<Bytes, GoValue>>, ds: seq<Pair<Bytes, GoValue>>)
    requires multiset(es) == multiset(ds)
    ensures KeysValid(es) ==> KeysValid(ds)
  {
    forall i | 0 <= i < |ds| && KeysValid(es) ensures DecodeUtf8(ds[i].key).Some? {
      assert ds[i] in multiset(ds);
      assert ds[i] in es;
    }
  }

  lemma {:induction false} WholeIrrelevant(nfc: Nfc, first: bool, ps: seq<Pair<Bytes, GoValue>>, v: GoValue, w: GoValue)
    requires forall p :: p in ps ==> p.val < v && p.val < w
    ensures EncodeMembers(nfc, first, ps, v) == EncodeMembers(nfc, first, ps, w)
  {
    if ps != [] {
      WholeIrrelevant(nfc, false, ps[1..], v, w);
    }
  }

  lemma BytesLessOrders(ks: set<Bytes>)
    ensures OrdersKeys(BytesLess, ks)
  {
    forall a, b | a in ks && b in ks
      ensures !BytesLess(a, a) && (a != b ==> BytesLess(a, b) || BytesLess(b, a))
    {
      LexTotal(a, b);
    }
    forall a, b, c | a in ks && b in ks && c in ks && BytesLess(a, b) && BytesLess(b, c)
      ensures BytesLess(a, c)
    {
      LexTransitive(a, b, c);
    }
  }

  // ---- The code ----

  class Buffer {
    var data: Bytes

    constructor ()
      ensures data == []
    {
      data := [];
    }

    method Write(b: Bytes)
      modifies this
      ensures data == old(data) + b
    {
      data := data + b;
    }
  }

  lemma {:induction false} EscapesAppend(a: Text, b: Text)
    ensures Escapes(a + b) == Escapes(a) + Escapes(b)
  {
    if a == [] {
      assert a + b == b;
    } else {
      hide Escape;
      EscapesAppend(a[1..], b);
      assert (a + b)[1..] == a[1..] + b && (a + b)[0] == a[0];
      Associates(Escape(a[0]), Escapes(a[1..]), Escapes(b));
    }
  }

  lemma EscapesSnoc(t: Text, i: nat)
    requires i < |t|
    ensures Utf8(Escapes(t[..i + 1])) == Utf8(Escapes(t[..i])) + Utf8(Escape(t[i]))
  {
    assert t[..i + 1] == t[..i] + [t[i]];
    EscapesAppend(t[..i], [t[i]]);
    assert Escapes([t[i]]) == Escape(t[i]) by {
      assert [t[i]][1..] == [];
    }
    Utf8Append(Escapes(t[..i]), Escape(t[i]));
  }

  lemma Utf8Ascii(c: CodePoint)
    requires c < 0x80
    ensures Utf8([c]) == [c]
  {
    assert [c][1..] == [];
  }

  lemma QuoteUtf8(t: Text)
    ensures Utf8(Quote(t)) == [0x22] + Utf8(Escapes(t)) + [0x22]
  {
    Utf8Append([0x22] + Escapes(t), [0x22]);
    Utf8Append([0x22], Escapes(t));
    Utf8Ascii(0x22);
  }

  lemma Regroup(start: Bytes, a: Bytes, b: Bytes, c: Bytes)
    ensures start + a + b + c == start + (a + b + c)
    ensures start + a + b == start + (a + b)
  {
  }

  lemma ShortEscape(c: CodePoint, letter: CodePoint)
    requires letter < 0x80 && Escape(c) == [0x5C, letter]
    ensures Utf8(Escape(c)) == [0x5C, letter]
  {
    Utf8Append([0x5C], [letter]);
    Utf8Ascii(0x5C);
    Utf8Ascii(letter);
  }

  lemma LongEscape(c: CodePoint)
    requires c < 0x20 && |Escape(c)| != 2
    ensures Utf8(Escape(c)) == [0x5C, 0x75] + Utf8(FourDigits(c))
  {
    LongForm(c);
    hide Escape, FourDigits;
    Utf8Append([0x5C, 0x75], FourDigits(c));
    Utf8Append([0x5C], [0x75]);
    Utf8Ascii(0x5C);
    Utf8Ascii(0x75);
  }

  /** The switch on one rune. */
  method AppendRune(b: Buffer, r: CodePoint)
    modifies b
    ensures b.data == old(b.data) + Utf8(Escape(r))
  {
    hide Utf8, FourDigits;
    match r {
      case 0x22 =>
        b.Write([0x5C, 0x22]);
        ShortEscape(r, 0x22);
      case 0x5C =>
        b.Write([0x5C, 0x5C]);
        ShortEscape(r, 0x5C);
      case 0x08 =>
        b.Write([0x5C, 0x62]);
        ShortEscape(r, 0x62);
      case 0x0C =>
        b.Write([0x5C, 0x66]);
        ShortEscape(r, 0x66);
      case 0x0A =>
        b.Write([0x5C, 0x6E]);
        ShortEscape(r, 0x6E);
      case 0x0D =>
        b.Write([0x5C, 0x72]);
        ShortEscape(r, 0x72);
      case 0x09 =>
        b.Write([0x5C, 0x74]);
        ShortEscape(r, 0x74);
      case _ =>
        if r < 0x20 {
          b.Write([0x5C, 0x75] + Utf8(FourDigits(r)));
          LongEscape(r);
        } else {
          b.Write(Utf8([r]));
        }
    }
  }

  method AppendRunes(b: Buffer, t: Text)
    modifies b
    ensures b.data == old(b.data) + Utf8(Escapes(t))
  {
    ghost var start := b.data;
    for i := 0 to |t|
      invariant b.data == start + Utf8(Escapes(t[..i]))
    {
      EscapesSnoc(t, i);
      AppendRune(b, t[i]);
      Regroup(start, Utf8(Escapes(t[..i])), Utf8(Escape(t[i])), []);
    }
    assert t[..|t|] == t;
  }

  method AppendJSONString(nfc: Nfc, b: Buffer, s: Bytes) returns (ok: bool)
    modifies b
    ensures ok <==> QuoteBytes(nfc, s).Some?
    ensures ok ==> b.data == old(b.data) + QuoteBytes(nfc, s).value
  {
    var decoded := DecodeUtf8(s);
    if decoded.None? {
      return false;
    }
    var t := nfc(decoded.value);
    ghost var start := b.data;
    b.Write([0x22]);
    AppendRunes(b, t);
    b.Write([0x22]);
    Regroup(start, [0x22], Utf8(Escapes(t)), [0x22]);
    QuoteUtf8(t);
    ok := true;
  }

  method AppendCanonical(nfc: Nfc, b: Buffer, v: GoValue) returns (ok: bool)
    modifies b
    ensures ok <==> Encode(nfc, v).Some?
    ensures ok ==> b.data == old(b.data) + Encode(nfc, v).value
    decreases v, 2
  {
    match v {
      case GNil => b.Write(Utf8(Lit("null"))); ok := true;
      case GBool(x) => b.Write(Utf8(Lit(if x then "true" else "false"))); ok := true;
      case GNumber(literal) =>
        ok := ValidInteger(literal);
        if ok {
          b.Write(Utf8(literal));
        }
      case GString(s) => ok := AppendJSONString(nfc, b, s);
      case GSlice(vs) => ok := AppendSlice(nfc, b, vs, v);
      case GMap(es) => ok := AppendMap(nfc, b, es, v);
      case GOther => ok := false;
    }
  }

  method AppendItem(nfc: Nfc, b: Buffer, first: bool, x: GoValue) returns (ok: bool)
    modifies b
    ensures ok <==> Encode(nfc, x).Some?
    ensures ok ==> b.data == old(b.data) + (Comma(first) + Encode(nfc, x).value)
    decreases x, 3
  {
    ghost var start := b.data;
    b.Write(Comma(first));
    ok := AppendCanonical(nfc, b, x);
    if ok {
      Regroup(start, Comma(first), Encode(nfc, x).value, []);
    }
  }

  method AppendItems(nfc: Nfc, b: Buffer, vs: seq<GoValue>) returns (ok: bool)
    modifies b
    ensures ok <==> EncodeItems(nfc, true, vs).Some?
    ensures ok ==> b.data == old(b.data) + EncodeItems(nfc, true, vs).value
    decreases vs, 0
  {
    ghost var start := b.data;
    ghost var written: Bytes := [];
    ghost var total := EncodeItems(nfc, true, vs);
    assert vs[0..] == vs;
    AfterNothing(total);
    for i := 0 to |vs|
      invariant b.data == start + written
      invariant total == After(written, EncodeItems(nfc, i == 0, vs[i..]))
    {
      ItemsStep(nfc, i == 0, vs, i);
      var good := AppendItem(nfc, b, i == 0, vs[i]);
      if !good {
        return false;
      }
      ghost var piece := Comma(i == 0) + Encode(nfc, vs[i]).value;
      AfterPiece(written, piece, EncodeItems(nfc, false, vs[i + 1..]));
      Regroup(start, written, piece, []);
      written := written + piece;
    }
    assert vs[|vs|..] == [];
    AfterAll(written);
    ok := true;
  }

  method AppendSlice(nfc: Nfc, b: Buffer, vs: seq<GoValue>, ghost v: GoValue) returns (ok: bool)
    requires v == GSlice(vs)
    modifies b
    ensures ok <==> Encode(nfc, v).Some?
    ensures ok ==> b.data == old(b.data) + Encode(nfc, v).value
    decreases v, 0
  {
    ghost var start := b.data;
    b.Write([0x5B]);
    ok := AppendItems(nfc, b, vs);
    if ok {
      b.Write([0x5D]);
      Regroup(start, [0x5B], EncodeItems(nfc, true, vs).value, [0x5D]);
    }
  }

  lemma ItemsStep(nfc: Nfc, first: bool, vs: seq<GoValue>, i: nat)
    requires i < |vs|
    ensures EncodeItems(nfc, first, vs[i..]) ==
            var x :- Encode(nfc, vs[i]);
            var rest :- EncodeItems(nfc, false, vs[i + 1..]);
            Some((Comma(first) + x) + rest)
  {
    assert vs[i..][1..] == vs[i + 1..] && vs[i..][0] == vs[i];
  }

  /** `sort.Strings`. */
  function SortStrings(keys: seq<Bytes>): (r: seq<Bytes>)
    ensures |r| == |keys|
  {
    var tagged := seq(|keys|, i requires 0 <= i < |keys| => Pair(keys[i], ()));
    SortMultiset(BytesLess, tagged);
    var sorted := Sort(BytesLess, tagged);
    seq(|keys|, i requires 0 <= i < |keys| => sorted[i].key)
  }

  /** Sorting the keys alone puts them in the order of the sorted entries. */
  lemma SortStringsSortsEntries(keys: seq<Bytes>, ps: seq<Pair<Bytes, GoValue>>)
    requires |keys| == |ps| && forall i :: 0 <= i < |ps| ==> keys[i] == ps[i].key
    ensures |Sort(BytesLess, ps)| == |ps|
    ensures forall i :: 0 <= i < |ps| ==> SortStrings(keys)[i] == Sort(BytesLess, ps)[i].key
  {
    var f, g := (k: Bytes) => k, (x: GoValue) => ();
    SortCommutes(BytesLess, BytesLess, f, g, ps);
    SortMultiset(BytesLess, ps);
    var tagged := seq(|keys|, i requires 0 <= i < |keys| => Pair(keys[i], ()));
    assert MapPairs(f, g, ps) == tagged;
  }

  method AppendMember(nfc: Nfc, b: Buffer, first: bool, k: Bytes, x: GoValue, ghost v: GoValue) returns (ok: bool)
    requires x < v
    modifies b
    ensures ok <==> EncodeMember(nfc, first, Pair(k, x), v).Some?
    ensures ok ==> b.data == old(b.data) + EncodeMember(nfc, first, Pair(k, x), v).value
    decreases x, 3
  {
    ghost var start := b.data;
    b.Write(Comma(first));
    ok := AppendJSONString(nfc, b, k);
    if ok {
      b.Write([0x3A]);
      ghost var head := Comma(first) + QuoteBytes(nfc, k).value + [0x3A];
      Regroup(start, Comma(first), QuoteBytes(nfc, k).value, [0x3A]);
      ok := AppendCanonical(nfc, b, x);
      if ok {
        Regroup(start, head, Encode(nfc, x).value, []);
      }
    }
  }

  /** The second loop over a map: writes the members in the order of `keys`. */
  method AppendMembers(nfc: Nfc, b: Buffer, keys: seq<Bytes>, normalized: map<Bytes, GoValue>,
                       ghost sorted: seq<Pair<Bytes, GoValue>>, ghost v: GoValue) returns (ok: bool)
    requires |keys| == |sorted| && forall p :: p in sorted ==> p.val < v
    requires forall i :: 0 <= i < |keys| ==> keys[i] in normalized && sorted[i] == Pair(keys[i], normalized[keys[i]])
    modifies b
    ensures ok <==> EncodeMembers(nfc, true, sorted, v).Some?
    ensures ok ==> b.data == old(b.data) + EncodeMembers(nfc, true, sorted, v).value
    decreases v, 0
  {
    hide EncodeMember, EncodeMembers;
    ghost var start := b.data;
    ghost var total := EncodeMembers(nfc, true, sorted, v);
    ghost var written: Bytes := [];
    assert sorted[0..] == sorted;
    AfterNothing(total);
    for i := 0 to |keys|
      invariant b.data == start + written
      invariant total == After(written, EncodeMembers(nfc, i == 0, sorted[i..], v))
    {
      MembersStep(nfc, i == 0, sorted, i, v);
      var good := AppendMember(nfc, b, i == 0, keys[i], normalized[keys[i]], v);
      if !good {
        return false;
      }
      ghost var piece := EncodeMember(nfc, i == 0, sorted[i], v).value;
      AfterPiece(written, piece, EncodeMembers(nfc, false, sorted[i + 1..], v));
      Regroup(start, written, piece, []);
      written := written + piece;
    }
    assert sorted[|keys|..] == [];
    NoMembers(nfc, |keys| == 0, sorted[|keys|..], v);
    AfterAll(written);
    ok := true;
  }

  method AppendMap(nfc: Nfc, b: Buffer, es: seq<Pair<Bytes, GoValue>>, v: GoValue) returns (ok: bool)
    requires v == GMap(es)
    modifies b
    ensures ok <==> Encode(nfc, v).Some?
    ensures ok ==> b.data == old(b.data) + Encode(nfc, v).value
    decreases v, 1
  {
    var collected, normalized, keys := CollectKeys(nfc, es);
    if !collected {
      return false;
    }
    ghost var start := b.data;
    ghost var sorted := Sort(BytesLess, NormalKeys(nfc, es));
    keys := SortKeys(nfc, es, v, normalized, keys);
    b.Write([0x7B]);
    ok := AppendMembers(nfc, b, keys, normalized, sorted, v);
    if ok {
      b.Write([0x7D]);
      Regroup(start, [0x7B], EncodeMembers(nfc, true, sorted, v).value, [0x7D]);
    }
  }

  lemma NoMembers(nfc: Nfc, first: bool, sorted: seq<Pair<Bytes, GoValue>>, v: GoValue)
    requires sorted == []
    ensures EncodeMembers(nfc, first, sorted, v) == Some([])
  {
  }

  lemma MembersStep(nfc: Nfc, first: bool, sorted: seq<Pair<Bytes, GoValue>>, i: nat, v: GoValue)
    requires i < |sorted| && forall p :: p in sorted ==> p.val < v
    ensures sorted[i] in sorted
    ensures EncodeMembers(nfc, first, sorted[i..], v) ==
            var m :- EncodeMember(nfc, first, sorted[i], v);
            var rest :- EncodeMembers(nfc, false, sorted[i + 1..], v);
            Some(m + rest)
  {
    assert sorted[i..][1..] == sorted[i + 1..] && sorted[i..][0] == sorted[i];
  }

  /** The keys in the order in which they are written. */
  method SortKeys(nfc: Nfc, es: seq<Pair<Bytes, GoValue>>, ghost v: GoValue, normalized: map<Bytes, GoValue>,
                  keys: seq<Bytes>)
    returns (r: seq<Bytes>)
    requires v == GMap(es) && |keys| == |es|
    requires forall i :: 0 <= i < |es| ==>
      keys[i] == NormalKey(nfc, es[i].key) && keys[i] in normalized && normalized[keys[i]] == es[i].val
    ensures var sorted := Sort(BytesLess, NormalKeys(nfc, es));
      && |r| == |sorted| && (forall p :: p in sorted ==> p.val < v)
      && forall i :: 0 <= i < |r| ==> r[i] == sorted[i].key && r[i] in normalized && normalized[r[i]] == sorted[i].val
  {
    ghost var ps := NormalKeys(nfc, es);
    ghost var sorted := Sort(BytesLess, ps);
    SortStringsSortsEntries(keys, ps);
    SortedBelow(nfc, es, v);
    r := SortStrings(keys);
    forall i | 0 <= i < |r| ensures r[i] in normalized && normalized[r[i]] == sorted[i].val {
      SortMember(BytesLess, ps, sorted[i]);
      var j :| 0 <= j < |ps| && ps[j] == sorted[i];
      assert keys[j] == r[i];
    }
  }

  /** What the first loop over a map has collected after `i` entries. */
  ghost predicate Collected(nfc: Nfc, es: seq<Pair<Bytes, GoValue>>, i: nat, normalized: map<Bytes, GoValue>,
                            keys: seq<Bytes>)
    requires i <= |es|
  {
    && |keys| == i
    && (forall j :: 0 <= j < i ==>
          keys[j] == NormalKey(nfc, es[j].key) && keys[j] in normalized && normalized[keys[j]] == es[j].val)
    && (forall k :: k in normalized ==> k in keys)
    && (forall j, l :: 0 <= j < l < i ==> keys[j] != keys[l])
  }

  lemma CollectedCollision(nfc: Nfc, es: seq<Pair<Bytes, GoValue>>, i: nat, normalized: map<Bytes, GoValue>,
                           keys: seq<Bytes>)
    requires i < |es| && Collected(nfc, es, i, normalized, keys)
    requires NormalKey(nfc, es[i].key) in normalized
    ensures !DistinctKeys(NormalKeys(nfc, es))
  {
    hide NormalKey, NormalKeys;
    assert NormalKey(nfc, es[i].key) in keys;
    var j :| 0 <= j < |keys| && keys[j] == NormalKey(nfc, es[i].key);
    var ps := NormalKeys(nfc, es);
    assert ps[j].key == ps[i].key;
  }

  lemma CollectedStep(nfc: Nfc, es: seq<Pair<Bytes, GoValue>>, i: nat, normalized: map<Bytes, GoValue>,
                      keys: seq<Bytes>)
    requires i < |es| && Collected(nfc, es, i, normalized, keys)
    requires NormalKey(nfc, es[i].key) !in normalized
    ensures var k := NormalKey(nfc, es[i].key);
            Collected(nfc, es, i + 1, normalized[k := es[i].val], keys + [k])
  {
    hide NormalKey;
    var k := NormalKey(nfc, es[i].key);
    var more, longer := normalized[k := es[i].val], keys + [k];
    forall j | 0 <= j < i + 1
      ensures longer[j] == NormalKey(nfc, es[j].key) && longer[j] in more && more[longer[j]] == es[j].val
    {
      assert j < i ==> longer[j] == keys[j];
    }
    forall q | q in more ensures q in longer {
      assert q == k || q in keys;
    }
  }

  lemma CollectedAll(nfc: Nfc, es: seq<Pair<Bytes, GoValue>>, normalized: map<Bytes, GoValue>, keys: seq<Bytes>)
    requires Collected(nfc, es, |es|, normalized, keys)
    ensures DistinctKeys(NormalKeys(nfc, es))
  {
    hide NormalKey;
    var ps := NormalKeys(nfc, es);
    assert forall j :: 0 <= j < |ps| ==> ps[j].key == keys[j];
  }

  /** The first loop over a map, which fails on an invalid key and on a collision. */
  method CollectKeys(nfc: Nfc, es: seq<Pair<Bytes, GoValue>>)
    returns (ok: bool, normalized: map<Bytes, GoValue>, keys: seq<Bytes>)
    ensures ok <==> KeysValid(es) && DistinctKeys(NormalKeys(nfc, es))
    ensures ok ==> |keys| == |es| && forall i :: 0 <= i < |es| ==>
      keys[i] == NormalKey(nfc, es[i].key) && keys[i] in normalized && normalized[keys[i]] == es[i].val
  {
    normalized, keys := map[], [];
    for i := 0 to |es|
      invariant forall j :: 0 <= j < i ==> DecodeUtf8(es[j].key).Some?
      invariant Collected(nfc, es, i, normalized, keys)
    {
      if DecodeUtf8(es[i].key).None? {
        return false, normalized, keys;
      }
      var k := NormalKey(nfc, es[i].key);
      if k in normalized {
        CollectedCollision(nfc, es, i, normalized, keys);
        return false, normalized, keys;
      }
      CollectedStep(nfc, es, i, normalized, keys);
      normalized := normalized[k := es[i].val];
      keys := keys + [k];
    }
    CollectedAll(nfc, es, normalized, keys);
    ok := true;
  }

  /** `Canonical`: the buffer's bytes, or `None` where it returns an error. */
  method Canonical(nfc: Nfc, v: GoValue) returns (r: Option<Bytes>)
    ensures r == Encode(nfc, v)
  {
    var b := new Buffer();
    var ok := AppendCanonical(nfc, b, v);
    assert ok ==> [] + Encode(nfc, v).value == Encode(nfc, v).value;
    r := if ok then Some(b.data) else None;
  }
}
