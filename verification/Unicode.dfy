/** Code points, UTF-8 (RFC 3629), UTF-16 (RFC 2781) and lexical order.

    A Python `str` is a sequence of code points, a Go string a sequence of bytes and
    a JavaScript string a sequence of 16-bit code units. */
module Unicode {
  import opened Wrappers

  type Byte = b: int | 0 <= b < 0x100
  type Bytes = seq<Byte>
  type CodePoint = c: int | 0 <= c < 0x11_0000
  type Text = seq<CodePoint>
  type CodeUnit = u: int | 0 <= u < 0x1_0000
  type Units = seq<CodeUnit>

  predicate IsSurrogate(c: CodePoint) { 0xD800 <= c <= 0xDFFF }

  /** Whether every code point is a Unicode scalar value. */
  predicate Scalars(t: Text) { forall i :: 0 <= i < |t| ==> !IsSurrogate(t[i]) }

  predicate IsAscii(t: Text) { forall i :: 0 <= i < |t| ==> t[i] < 0x80 }

  predicate IsDigit(c: int) { 0x30 <= c <= 0x39 }

  /** Lower-case ASCII letters, digits and the underscore. */
  predicate IsPlain(t: Text) {
    forall i :: 0 <= i < |t| ==> 0x61 <= t[i] <= 0x7A || IsDigit(t[i]) || t[i] == 0x5F
  }

  /** The code points of an ASCII literal; no literal of the model uses any other character. */
  function Lit(s: string): (t: Text)
    ensures |t| == |s| && IsAscii(t) && Scalars(t)
  {
    seq(|s|, i requires 0 <= i < |s| => if s[i] < '\U{80}' then s[i] as int else 0x3F)
  }

  /** Every character of a literal stands for its own code. */
  lemma LitExact(s: string, i: nat)
    requires i < |s| && s[i] < '\U{80}'
    ensures Lit(s)[i] == s[i] as int
  {
  }

  /** Lexical order, the order of Python strings, of Go strings and of `Buffer.compare`. */
  predicate LexLess(a: seq<int>, b: seq<int>) {
    |b| > 0 && (|a| == 0 || a[0] < b[0] || (a[0] == b[0] && LexLess(a[1..], b[1..])))
  }

  // ---- UTF-8 ----

  function EncodeScalar(c: CodePoint): (b: Bytes)
    ensures 1 <= |b| <= 4
  {
    var (d, e, f) := (c / 0x40, c / 0x40 / 0x40, c / 0x40 / 0x40 / 0x40);
    if c < 0x80 then [c]
    else if c < 0x800 then [0xC0 + d, 0x80 + c % 0x40]
    else if c < 0x1_0000 then [0xE0 + e, 0x80 + d % 0x40, 0x80 + c % 0x40]
    else [0xF0 + f, 0x80 + e % 0x40, 0x80 + d % 0x40, 0x80 + c % 0x40]
  }

  function Utf8(t: Text): Bytes {
    if t == [] then [] else EncodeScalar(t[0]) + Utf8(t[1..])
  }

  /** The number of bytes announced by a lead byte; 0 when no scalar starts with it. */
  function LeadLength(b: Byte): nat {
    if b < 0x80 then 1 else if b < 0xC0 then 0 else if b < 0xE0 then 2 else if b < 0xF0 then 3
    else if b < 0xF8 then 4 else 0
  }

  /** The bits that the first character of `b` carries, whether or not the form is legal. */
  function LeadValue(b: seq<int>, n: nat): int
    requires n <= |b|
  {
    match n
    case 1 => b[0]
    case 2 => (b[0] - 0xC0) * 0x40 + (b[1] - 0x80)
    case 3 => ((b[0] - 0xE0) * 0x40 + (b[1] - 0x80)) * 0x40 + (b[2] - 0x80)
    case 4 => (((b[0] - 0xF0) * 0x40 + (b[1] - 0x80)) * 0x40 + (b[2] - 0x80)) * 0x40 + (b[3] - 0x80)
    case _ => -1
  }

  /** The first scalar of `b` and its width, provided `b` starts with the one legal encoding of it. */
  function DecodeFirst(b: Bytes): (r: Option<(CodePoint, nat)>)
    requires b != []
    ensures r.Some? ==> 1 <= r.value.1 <= |b| && !IsSurrogate(r.value.0) && EncodeScalar(r.value.0) == b[..r.value.1]
  {
    var n := LeadLength(b[0]);
    if n == 0 || n > |b| then None
    else
      var c := LeadValue(b, n);
      if 0 <= c < 0x11_0000 && !IsSurrogate(c) && EncodeScalar(c) == b[..n] then Some((c, n)) else None
  }

  function DecodeUtf8(b: Bytes): (r: Option<Text>)
    decreases |b|
  {
    if b == [] then Some([])
    else
      var (c, n) :- DecodeFirst(b);
      var rest :- DecodeUtf8(b[n..]);
      Some([c] + rest)
  }

  lemma Associates<T>(a: seq<T>, b: seq<T>, c: seq<T>)
    ensures a + (b + c) == a + b + c
  {
  }

  lemma {:induction false} Utf8Append(a: Text, b: Text)
    ensures Utf8(a + b) == Utf8(a) + Utf8(b)
  {
    hide EncodeScalar;
    if a == [] {
      assert a + b == b;
    } else {
      Utf8Append(a[1..], b);
      assert (a + b)[0] == a[0] && (a + b)[1..] == a[1..] + b;
      Associates(EncodeScalar(a[0]), Utf8(a[1..]), Utf8(b));
    }
  }

  lemma EncodedFirst(c: CodePoint, rest: Bytes)
    requires !IsSurrogate(c)
    ensures DecodeFirst(EncodeScalar(c) + rest) == Some((c, |EncodeScalar(c)|))
  {
    var b := EncodeScalar(c) + rest;
    assert LeadLength(b[0]) == |EncodeScalar(c)|;
    assert b[..|EncodeScalar(c)|] == EncodeScalar(c);
    LeadOfEncoded(c, rest);
  }

  lemma LeadOfEncoded(c: CodePoint, rest: Bytes)
    ensures LeadLength((EncodeScalar(c) + rest)[0]) == |EncodeScalar(c)|
    ensures LeadValue(EncodeScalar(c) + rest, |EncodeScalar(c)|) == c
  {
  }

  lemma {:induction false} DecodeEncodeUtf8(t: Text)
    requires Scalars(t)
    ensures DecodeUtf8(Utf8(t)) == Some(t)
  {
    if t != [] {
      EncodedFirst(t[0], Utf8(t[1..]));
      DecodeEncodeUtf8(t[1..]);
      assert Utf8(t)[|EncodeScalar(t[0])|..] == Utf8(t[1..]);
      assert [t[0]] + t[1..] == t;
    }
  }

  lemma {:induction false} EncodeDecodeUtf8(b: Bytes)
    requires DecodeUtf8(b).Some?
    ensures Scalars(DecodeUtf8(b).value) && Utf8(DecodeUtf8(b).value) == b
    decreases |b|
  {
    hide DecodeFirst, EncodeScalar;
    if b != [] {
      var (c, n) := DecodeFirst(b).value;
      var rest := DecodeUtf8(b[n..]).value;
      EncodeDecodeUtf8(b[n..]);
      assert ([c] + rest)[1..] == rest;
      assert Utf8([c] + rest) == EncodeScalar(c) + Utf8(rest);
      assert b == b[..n] + b[n..];
    }
  }

  /** The decoder accepts exactly the UTF-8 forms of scalar sequences, and inverts the encoder. */
  lemma DecodeUtf8Exact(b: Bytes, t: Text)
    ensures DecodeUtf8(b) == Some(t) <==> Scalars(t) && Utf8(t) == b
  {
    if DecodeUtf8(b) == Some(t) {
      EncodeDecodeUtf8(b);
    }
    if Scalars(t) {
      DecodeEncodeUtf8(t);
    }
  }

  // ---- Order ----

  lemma {:induction false} LexPrefix(p: seq<int>, a: seq<int>, b: seq<int>)
    ensures LexLess(p + a, p + b) == LexLess(a, b)
  {
    if p == [] {
      assert p + a == a && p + b == b;
    } else {
      LexPrefix(p[1..], a, b);
      assert (p + a)[1..] == p[1..] + a && (p + b)[1..] == p[1..] + b;
    }
  }

  /** Where two sequences first differ decides their order. */
  lemma LexAtDifference(a: seq<int>, b: seq<int>, k: nat)
    requires k < |a| && k < |b| && a[..k] == b[..k] && a[k] < b[k]
    ensures LexLess(a, b) && !LexLess(b, a)
  {
    LexPrefix(a[..k], a[k..], b[k..]);
    LexPrefix(a[..k], b[k..], a[k..]);
    assert a == a[..k] + a[k..] && b == a[..k] + b[k..];
  }

  /** `a` comes before `b` in a dictionary: at the first difference it has the smaller element, or it ends. */
  ghost predicate IsBefore(a: seq<int>, b: seq<int>) {
    exists k :: DiffersAt(a, b, k)
  }

  predicate DiffersAt(a: seq<int>, b: seq<int>, k: nat) {
    && k <= |a| && k < |b| && a[..k] == b[..k]
    && (k == |a| || a[k] < b[k])
  }

  lemma BeforeDifference(a: seq<int>, b: seq<int>, k: nat)
    requires DiffersAt(a, b, k)
    ensures k == 0 || (a != [] && b != [] && a[0] == b[0])
  {
    if k > 0 {
      assert a[..k][0] == b[..k][0];
    }
  }

  /** Lexical order is the order of the first difference, and the proper prefix comes first. */
  lemma {:induction false} LexLessExact(a: seq<int>, b: seq<int>)
    ensures LexLess(a, b) <==> IsBefore(a, b)
  {
    if a == [] || b == [] || a[0] != b[0] {
      assert DiffersAt(a, b, 0) <==> LexLess(a, b);
      if IsBefore(a, b) {
        var k: nat :| DiffersAt(a, b, k);
        BeforeDifference(a, b, k);
      }
    } else {
      LexLessExact(a[1..], b[1..]);
      if LexLess(a, b) {
        var k: nat :| DiffersAt(a[1..], b[1..], k);
        assert a[..k + 1] == [a[0]] + a[1..][..k] && b[..k + 1] == [b[0]] + b[1..][..k];
        assert DiffersAt(a, b, k + 1);
      }
      if IsBefore(a, b) {
        var k: nat :| DiffersAt(a, b, k);
        assert k > 0;
        assert a[1..][..k - 1] == a[..k][1..] && b[1..][..k - 1] == b[..k][1..];
        assert DiffersAt(a[1..], b[1..], k - 1);
      }
    }
  }

  lemma {:induction false} LexTotal(a: seq<int>, b: seq<int>)
    ensures a != b ==> LexLess(a, b) || LexLess(b, a)
    ensures !(LexLess(a, b) && LexLess(b, a))
    ensures !LexLess(a, a)
  {
    if a != [] {
      LexTotal(a[1..], a[1..]);
      if b != [] && a[0] == b[0] {
        LexTotal(a[1..], b[1..]);
        assert a == [a[0]] + a[1..] && b == [b[0]] + b[1..];
      }
    }
  }

  lemma {:induction false} LexTransitive(a: seq<int>, b: seq<int>, c: seq<int>)
    requires LexLess(a, b) && LexLess(b, c)
    ensures LexLess(a, c)
  {
    if a != [] && a[0] == b[0] && b[0] == c[0] {
      LexTransitive(a[1..], b[1..], c[1..]);
    }
  }

  /** The index of the first byte in which the encodings of two scalars differ. */
  function Difference(x: CodePoint, y: CodePoint): nat {
    if x < 0x1_0000 && y < 0x1_0000 then
      if x < 0x800 && y < 0x800 then
        if x < 0x80 || x / 0x40 != y / 0x40 then 0 else 1
      else if x < 0x800 || x / 0x40 / 0x40 != y / 0x40 / 0x40 then 0
      else if x / 0x40 != y / 0x40 then 1 else 2
    else if x < 0x1_0000 || x / 0x40 / 0x40 / 0x40 != y / 0x40 / 0x40 / 0x40 then 0
    else if x / 0x40 / 0x40 != y / 0x40 / 0x40 then 1
    else if x / 0x40 != y / 0x40 then 2 else 3
  }

  lemma EncodingsDiffer(x: CodePoint, y: CodePoint)
    requires x < y
    ensures var k := Difference(x, y); var a, b := EncodeScalar(x), EncodeScalar(y);
            k < |a| && k < |b| && a[..k] == b[..k] && a[k] < b[k]
  {
  }

  lemma DifferenceDecides(x: CodePoint, y: CodePoint, s: Bytes, t: Bytes)
    requires x < y
    ensures LexLess(EncodeScalar(x) + s, EncodeScalar(y) + t)
    ensures !LexLess(EncodeScalar(y) + t, EncodeScalar(x) + s)
  {
    EncodingsDiffer(x, y);
    var k, a, b := Difference(x, y), EncodeScalar(x) + s, EncodeScalar(y) + t;
    assert a[..k] == EncodeScalar(x)[..k] && b[..k] == EncodeScalar(y)[..k];
    LexAtDifference(a, b, k);
  }

    lemma {:induction false} EncodingKeepsOrder(a: Text, b: Text)
    ensures LexLess(a, b) == LexLess(Utf8(a), Utf8(b))
  {
    if a != [] && b != [] {
      if a[0] == b[0] {
        EncodingKeepsOrder(a[1..], b[1..]);
        LexPrefix(EncodeScalar(a[0]), Utf8(a[1..]), Utf8(b[1..]));
      } else if a[0] < b[0] {
        DifferenceDecides(a[0], b[0], Utf8(a[1..]), Utf8(b[1..]));
      } else {
        DifferenceDecides(b[0], a[0], Utf8(b[1..]), Utf8(a[1..]));
      }
    }
  }

  /** Code-point order (Python's `sorted`) is the order of the UTF-8 bytes (Go's `sort.Strings`,
      Node's `Buffer.compare`). */
  lemma CodePointOrderIsUtf8Order(a: Text, b: Text)
    ensures LexLess(a, b) == LexLess(Utf8(a), Utf8(b))
    ensures LexLess(a, b) <==> IsBefore(a, b)
    ensures IsBefore(a, b) <==> IsBefore(Utf8(a), Utf8(b))
  {
    hide LexLess, IsBefore, Utf8;
    EncodingKeepsOrder(a, b);
    LexLessExact(a, b);
    LexLessExact(Utf8(a), Utf8(b));
  }

  // ---- UTF-16 ----

  function EncodeUnits(c: CodePoint): (u: Units)
    ensures 1 <= |u| <= 2
  {
    if c < 0x1_0000 then [c] else [0xD800 + (c - 0x1_0000) / 0x400, 0xDC00 + (c - 0x1_0000) % 0x400]
  }

  function Utf16(t: Text): Units {
    if t == [] then [] else EncodeUnits(t[0]) + Utf16(t[1..])
  }

  predicate IsHigh(u: CodeUnit) { 0xD800 <= u <= 0xDBFF }
  predicate IsLow(u: CodeUnit) { 0xDC00 <= u <= 0xDFFF }

  /** The scalar that a surrogate pair stands for. */
  function FromPair(high: int, low: int): CodePoint
    requires 0xD800 <= high <= 0xDBFF && 0xDC00 <= low <= 0xDFFF
  {
    0x1_0000 + (high - 0xD800) * 0x400 + (low - 0xDC00)
  }

  /** Decoding as in section 2.2 of RFC 2781; `None` for an unpaired surrogate. */
  function DecodeUtf16(u: Units): (r: Option<Text>)
    decreases |u|
  {
    if u == [] then Some([])
    else if IsHigh(u[0]) then
      if |u| < 2 || !IsLow(u[1]) then None
      else
        var rest :- DecodeUtf16(u[2..]);
        Some([FromPair(u[0], u[1])] + rest)
    else if IsLow(u[0]) then None
    else
      var rest :- DecodeUtf16(u[1..]);
      Some([u[0]] + rest)
  }

  lemma {:induction false} Utf16Append(a: Text, b: Text)
    ensures Utf16(a + b) == Utf16(a) + Utf16(b)
  {
    hide EncodeUnits;
    if a == [] {
      assert a + b == b;
    } else {
      Utf16Append(a[1..], b);
      assert (a + b)[0] == a[0] && (a + b)[1..] == a[1..] + b;
      Associates(EncodeUnits(a[0]), Utf16(a[1..]), Utf16(b));
    }
  }

  lemma {:induction false} DecodeEncodeUtf16(t: Text)
    requires Scalars(t)
    ensures DecodeUtf16(Utf16(t)) == Some(t)
  {
    if t != [] {
      DecodeEncodeUtf16(t[1..]);
      var n := |EncodeUnits(t[0])|;
      assert Utf16(t)[n..] == Utf16(t[1..]);
      assert Utf16(t)[0] == EncodeUnits(t[0])[0];
      assert n == 2 ==> Utf16(t)[1] == EncodeUnits(t[0])[1];
      assert [t[0]] + t[1..] == t;
    }
  }

  /** The first character of `u` is the encoding of what the decoder makes of it. */
  lemma FirstUnits(u: Units) returns (n: nat)
    requires u != [] && DecodeUtf16(u).Some?
    ensures 1 <= n <= |u| && DecodeUtf16(u[n..]).Some?
    ensures DecodeUtf16(u).value != [] && DecodeUtf16(u).value[1..] == DecodeUtf16(u[n..]).value
    ensures !IsSurrogate(DecodeUtf16(u).value[0]) && EncodeUnits(DecodeUtf16(u).value[0]) == u[..n]
  {
    n := if IsHigh(u[0]) then 2 else 1;
    var t := DecodeUtf16(u).value;
    assert t == [t[0]] + DecodeUtf16(u[n..]).value;
    assert EncodeUnits(t[0]) == u[..n];
  }

  lemma {:induction false} EncodeDecodeUtf16(u: Units)
    requires DecodeUtf16(u).Some?
    ensures Scalars(DecodeUtf16(u).value) && Utf16(DecodeUtf16(u).value) == u
    decreases |u|
  {
    hide EncodeUnits;
    if u != [] {
      var n := FirstUnits(u);
      EncodeDecodeUtf16(u[n..]);
      var t := DecodeUtf16(u).value;
      assert t[1..] == DecodeUtf16(u[n..]).value;
      assert u == u[..n] + u[n..];
    }
  }

  /** The UTF-16 decoder accepts exactly the encodings of scalar sequences, and inverts the encoder. */
  lemma DecodeUtf16Exact(u: Units, t: Text)
    ensures DecodeUtf16(u) == Some(t) <==> Scalars(t) && Utf16(t) == u
  {
    if DecodeUtf16(u) == Some(t) {
      EncodeDecodeUtf16(u);
    }
    if Scalars(t) {
      DecodeEncodeUtf16(t);
    }
  }
}
