/** The values that are canonicalized, their normal form, and what is assumed of Unicode NFC. */
module Values {
  import opened Sorting
  import opened Unicode

  const MAX_SAFE_INTEGER: int := 9007199254740991

  predicate IsSafe(i: int) { -MAX_SAFE_INTEGER <= i <= MAX_SAFE_INTEGER }

  /** The integers that a double holds exactly together with both neighbours. */
  lemma SafeExact(i: int)
    ensures IsSafe(i) <==> -0x20_0000_0000_0000 < i < 0x20_0000_0000_0000
  {
  }

  datatype Key = StrKey(text: Text) | OtherKey

  /** A Python value, as far as canonicalization tells values apart. Dictionaries and dataclasses
      list their entries in iteration order. */
  datatype Value =
    | Null
    | Bool(b: bool)
    | Int(i: int)
    | Float
    | Str(text: Text)
    | Bin(bytes: Bytes)
    | List(items: seq<Value>)
    | Tuple(items: seq<Value>)
    | Dict(entries: seq<Pair<Key, Value>>)
    | Record(entries: seq<Pair<Key, Value>>)
    | Unsupported

  /** The tree that `_normalize` returns. */
  datatype Norm =
    | NNull
    | NBool(b: bool)
    | NInt(i: int)
    | NStr(text: Text)
    | NList(items: seq<Norm>)
    | NObj(fields: seq<Pair<Text, Norm>>)

  type Nfc = Text -> Text

  /** Facts about Normalization Form C (section 3.11 of the Unicode Standard, UAX #15): it keeps
      scalar strings scalar, it is idempotent, it fixes ASCII, and no other string normalizes to
      one made of lower-case letters, digits and underscores. */
  ghost predicate NfcLaws(nfc: Nfc) {
    && (forall t: Text :: Scalars(t) ==> Scalars(nfc(t)) && nfc(nfc(t)) == nfc(t))
    && (forall t: Text :: IsAscii(t) ==> nfc(t) == t)
    && (forall t: Text :: IsPlain(nfc(t)) ==> nfc(t) == t)
  }

  predicate TextLess(a: Text, b: Text) { LexLess(a, b) }

  lemma TextLessOrders(ks: set<Text>)
    ensures OrdersKeys(TextLess, ks)
  {
    forall a, b | a in ks && b in ks
      ensures !TextLess(a, a) && (a != b ==> TextLess(a, b) || TextLess(b, a))
    {
      LexTotal(a, b);
    }
    forall a, b, c | a in ks && b in ks && c in ks && TextLess(a, b) && TextLess(b, c)
      ensures TextLess(a, c)
    {
      LexTransitive(a, b, c);
    }
  }

  // ---- JSON text ----

  function Digits(n: nat): (t: Text)
    ensures t != [] && IsAscii(t) && forall i :: 0 <= i < |t| ==> IsDigit(t[i])
  {
    if n < 10 then [0x30 + n] else Digits(n / 10) + [0x30 + n % 10]
  }

  function DigitsValue(t: seq<int>): int {
    if t == [] then 0 else 10 * DigitsValue(t[..|t| - 1]) + (t[|t| - 1] - 0x30)
  }

  function Decimal(i: int): (t: Text)
    ensures t != [] && IsAscii(t)
  {
    if i < 0 then [0x2D] + Digits(-i) else Digits(i)
  }

  function HexDigit(d: nat): CodePoint
    requires d < 16
  {
    if d < 10 then 0x30 + d else 0x57 + d
  }

  /** `%04x`. */
  function FourDigits(u: CodeUnit): Text {
    [HexDigit(u / 0x1000), HexDigit(u / 0x100 % 0x10), HexDigit(u / 0x10 % 0x10), HexDigit(u % 0x10)]
  }

  function Hex(b: Bytes): (t: Text)
    ensures IsPlain(t) && IsAscii(t)
  {
    if b == [] then [] else [HexDigit(b[0] / 16), HexDigit(b[0] % 16)] + Hex(b[1..])
  }

  /** How `json.dumps(..., ensure_ascii=False)`, the Go encoder and `JSON.stringify` write one
      character of a string. */
  function Escape(c: CodePoint): (t: Text)
    ensures t != []
  {
    if c == 0x22 then [0x5C, 0x22]
    else if c == 0x5C then [0x5C, 0x5C]
    else if c == 0x08 then [0x5C, 0x62]
    else if c == 0x0C then [0x5C, 0x66]
    else if c == 0x0A then [0x5C, 0x6E]
    else if c == 0x0D then [0x5C, 0x72]
    else if c == 0x09 then [0x5C, 0x74]
    else if c < 0x20 then [0x5C, 0x75, 0x30, 0x30, HexDigit(c / 16), HexDigit(c % 16)]
    else [c]
  }

  /** A control character without a short form is written with its four digits. */
  lemma LongForm(c: CodePoint)
    requires c < 0x20 && |Escape(c)| != 2
    ensures Escape(c) == [0x5C, 0x75] + FourDigits(c) && IsAscii(FourDigits(c))
  {
    assert c / 0x1000 == 0 && c / 0x100 == 0 && c / 0x10 % 0x10 == c / 0x10;
    var (h, l) := (HexDigit(c / 0x10), HexDigit(c % 0x10));
    assert FourDigits(c) == [0x30, 0x30, h, l];
    assert Escape(c) == [0x5C, 0x75, 0x30, 0x30, h, l];
  }

  function Escapes(t: Text): Text {
    if t == [] then [] else Escape(t[0]) + Escapes(t[1..])
  }

  function Quote(t: Text): Text { [0x22] + Escapes(t) + [0x22] }

  /** The parts with commas between them, and before the first one too unless `first`. */
  function Join(first: bool, parts: seq<Text>): Text {
    if parts == [] then []
    else (if first then [] else [0x2C]) + parts[0] + Join(false, parts[1..])
  }

  function JoinFields(first: bool, fields: seq<Pair<Text, Text>>): Text {
    if fields == [] then []
    else
      (if first then [] else [0x2C]) + (Quote(fields[0].key) + [0x3A] + fields[0].val)
      + JoinFields(false, fields[1..])
  }
}
