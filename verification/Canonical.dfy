/** Canonical bytes as the Python reference computes them (src/finality_ref/canonical.py). */
module Canonical {
  import opened Wrappers
  import opened Sorting
  import opened Unicode
  import opened Values

  /** The normal form of `v`, or `None` where `_normalize` raises. */
  function Normalize(nfc: Nfc, v: Value, portable: bool): Option<Norm> {
    match v
    case Null => Some(NNull)
    case Bool(b) => Some(NBool(b))
    case Int(i) => if portable && !IsSafe(i) then None else Some(NInt(i))
    case Float => None
    case Str(t) => if Scalars(t) then Some(NStr(nfc(t))) else None
    case Bin(b) => if portable then None else Some(NObj([Pair(Lit("$bytes_hex"), NStr(Hex(b)))]))
    case List(vs) =>
      var ns :- NormalizeAll(nfc, vs, portable);
      Some(NList(ns))
    case Tuple(vs) =>
      var ns :- NormalizeAll(nfc, vs, portable);
      Some(NList(ns))
    case Dict(es) =>
      var fs :- NormalizeEntries(nfc, es, portable);
      Collect(fs)
    case Record(es) =>
      var fs :- NormalizeEntries(nfc, es, portable);
      Collect(fs)
    case Unsupported => None
  }

  function NormalizeAll(nfc: Nfc, vs: seq<Value>, portable: bool): (r: Option<seq<Norm>>)
    ensures r.Some? ==> |r.value| == |vs|
  {
    if vs == [] then Some([])
    else
      var n :- Normalize(nfc, vs[0], portable);
      var rest :- NormalizeAll(nfc, vs[1..], portable);
      Some([n] + rest)
  }

  function NormalizeEntries(nfc: Nfc, es: seq<Pair<Key, Value>>, portable: bool): (r: Option<seq<Pair<Text, Norm>>>)
    ensures r.Some? ==> |r.value| == |es|
  {
    if es == [] then Some([])
    else
      assert es[0].val < es[0];
      var k :- NormalizeKey(nfc, es[0].key);
      var n :- Normalize(nfc, es[0].val, portable);
      var rest :- NormalizeEntries(nfc, es[1..], portable);
      Some([Pair(k, n)] + rest)
  }

  function NormalizeKey(nfc: Nfc, key: Key): Option<Text> {
    if key.StrKey? && Scalars(key.text) then Some(nfc(key.text)) else None
  }

  /** The object with these fields, unless two normalized keys collide. */
  function Collect(fs: seq<Pair<Text, Norm>>): Option<Norm> {
    if DistinctKeys(fs) then Some(NObj(Sort(TextLess, fs))) else None
  }

  /** `json.dumps(..., sort_keys=True)`; the objects need not be sorted already. */
  function Dump(n: Norm): Text {
    match n
    case NNull => Lit("null")
    case NBool(b) => if b then Lit("true") else Lit("false")
    case NInt(i) => Decimal(i)
    case NStr(t) => Quote(t)
    case NList(ns) => [0x5B] + Join(true, DumpAll(ns)) + [0x5D]
    case NObj(fs) => [0x7B] + JoinFields(true, Sort(TextLess, DumpFields(fs))) + [0x7D]
  }

  function DumpAll(ns: seq<Norm>): (r: seq<Text>)
    ensures |r| == |ns|
  {
    if ns == [] then [] else [Dump(ns[0])] + DumpAll(ns[1..])
  }

  function DumpFields(fs: seq<Pair<Text, Norm>>): (r: seq<Pair<Text, Text>>)
    ensures |r| == |fs|
  {
    if fs == [] then []
    else
      assert fs[0].val < fs[0];
      [Pair(fs[0].key, Dump(fs[0].val))] + DumpFields(fs[1..])
  }

  /** `canonical_bytes` when `portable` is false and `portable_canonical_bytes` when it is true. */
  function CanonicalBytes(nfc: Nfc, v: Value, portable: bool): Option<Bytes> {
    var n :- Normalize(nfc, v, portable);
    Some(Utf8(Dump(n)))
  }

  // ---- The loops of `_normalize` ----

  method NormalizeValue(nfc: Nfc, v: Value, portable: bool) returns (r: Option<Norm>)
    ensures r == Normalize(nfc, v, portable)
    decreases v, 1
  {
    match v {
      case Null => r := Some(NNull);
      case Bool(b) => r := Some(NBool(b));
      case Int(i) => r := if portable && !IsSafe(i) then None else Some(NInt(i));
      case Float => r := None;
      case Str(t) => r := if Scalars(t) then Some(NStr(nfc(t))) else None;
      case Bin(b) => r := if portable then None else Some(NObj([Pair(Lit("$bytes_hex"), NStr(Hex(b)))]));
      case List(vs) => r := NormalizeItems(nfc, vs, portable);
      case Tuple(vs) => r := NormalizeItems(nfc, vs, portable);
      case Dict(es) => r := NormalizeDict(nfc, es, portable);
      case Record(es) => r := NormalizeDict(nfc, es, portable);
      case Unsupported => r := None;
    }
  }

  method NormalizeItems(nfc: Nfc, vs: seq<Value>, portable: bool) returns (r: Option<Norm>)
    ensures r == var ns :- NormalizeAll(nfc, vs, portable); Some(NList(ns))
    decreases vs, 0
  {
    var out := [];
    assert vs[0..] == vs;
    AfterNothing(NormalizeAll(nfc, vs, portable));
    for i := 0 to |vs|
      invariant NormalizeAll(nfc, vs, portable) == After(out, NormalizeAll(nfc, vs[i..], portable))
    {
      var n := NormalizeValue(nfc, vs[i], portable);
      assert vs[i..][1..] == vs[i + 1..];
      if n.None? {
        return None;
      }
      AfterPiece(out, [n.value], NormalizeAll(nfc, vs[i + 1..], portable));
      out := out + [n.value];
    }
    assert vs[|vs|..] == [] && out + [] == out;
    r := Some(NList(out));
  }

  method NormalizeDict(nfc: Nfc, es: seq<Pair<Key, Value>>, portable: bool) returns (r: Option<Norm>)
    ensures r == var fs :- NormalizeEntries(nfc, es, portable); Collect(fs)
    decreases es, 0
  {
    var out: seq<Pair<Text, Norm>> := [];
    assert es[0..] == es;
    AfterNothing(NormalizeEntries(nfc, es, portable));
    for i := 0 to |es|
      invariant DistinctKeys(out)
      invariant NormalizeEntries(nfc, es, portable) == After(out, NormalizeEntries(nfc, es[i..], portable))
    {
      assert es[i..][1..] == es[i + 1..];
      assert es[i].val < es[i];
      var key := es[i].key;
      if key.OtherKey? || !Scalars(key.text) {
        return None;
      }
      var nkey := nfc(key.text);
      var n := NormalizeValue(nfc, es[i].val, portable);
      if exists j :: 0 <= j < |out| && out[j].key == nkey {
        ghost var all := NormalizeEntries(nfc, es, portable);
        assert all.Some? ==> all.value[|out|].key == nkey;
        assert all.Some? ==> forall j :: 0 <= j < |out| ==> all.value[j] == out[j];
        return None;
      }
      if n.None? {
        return None;
      }
      AfterPiece(out, [Pair(nkey, n.value)], NormalizeEntries(nfc, es[i + 1..], portable));
      out := out + [Pair(nkey, n.value)];
    }
    assert es[|es|..] == [] && out + [] == out;
    r := Some(NObj(Sort(TextLess, out)));
  }
}
