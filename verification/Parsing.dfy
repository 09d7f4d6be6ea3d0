/** A parser for canonical JSON (RFC 8259, sections 4 to 7). It exists to show that canonical
    bytes determine the normal form they were printed from. */
module Parsing {
  import opened Wrappers
  import opened Sorting
  import opened Unicode
  import opened Values
  import opened Canonical

  // ---- The parser ----

  function ParseValue(t: Text): (r: Option<(Norm, Text)>)
    ensures r.Some? ==> |r.value.1| < |t|
    decreases |t|, 1
  {
    if t == [] then None
    else if t[0] == 0x5B then
      var (ns, rest) :- ParseItems(true, t[1..]);
      Some((NList(ns), rest))
    else if t[0] == 0x7B then
      var (fs, rest) :- ParseFields(true, t[1..]);
      Some((NObj(fs), rest))
    else if t[0] == 0x22 then
      var (s, rest) :- ParseChars(t[1..]);
      Some((NStr(s), rest))
    else if Lit("null") <= t then Some((NNull, t[4..]))
    else if Lit("true") <= t then Some((NBool(true), t[4..]))
    else if Lit("false") <= t then Some((NBool(false), t[5..]))
    else ParseInteger(t)
  }

  function ParseItems(first: bool, t: Text): (r: Option<(seq<Norm>, Text)>)
    ensures r.Some? ==> |r.value.1| < |t|
    decreases |t|, if first then 2 else 0
  {
    if t == [] then None
    else if t[0] == 0x5D then Some(([], t[1..]))
    else if !first && t[0] != 0x2C then None
    else
      var (n, more) :- ParseValue(if first then t else t[1..]);
      var (ns, rest) :- ParseItems(false, more);
      Some(([n] + ns, rest))
  }

  function ParseFields(first: bool, t: Text): (r: Option<(seq<Pair<Text, Norm>>, Text)>)
    ensures r.Some? ==> |r.value.1| < |t|
    decreases |t|, if first then 3 else 0
  {
    if t == [] then None
    else if t[0] == 0x7D then Some(([], t[1..]))
    else if !first && t[0] != 0x2C then None
    else
      var (f, more) :- ParseMember(if first then t else t[1..]);
      var (fs, rest) :- ParseFields(false, more);
      Some(([f] + fs, rest))
  }

  function ParseMember(t: Text): (r: Option<(Pair<Text, Norm>, Text)>)
    ensures r.Some? ==> |r.value.1| < |t|
    decreases |t|, 2
  {
    if t == [] || t[0] != 0x22 then None
    else
      var (k, colon) :- ParseChars(t[1..]);
      if colon == [] || colon[0] != 0x3A then None
      else
        var (n, more) :- ParseValue(colon[1..]);
        Some((Pair(k, n), more))
  }

  /** The characters up to the closing quotation mark; control characters must be escaped (RFC 8259,
      section 7). */
  function ParseChars(t: Text): (r: Option<(Text, Text)>)
    ensures r.Some? ==> |r.value.1| < |t|
    decreases |t|
  {
    if t == [] then None
    else if t[0] == 0x22 then Some(([], t[1..]))
    else if t[0] < 0x20 then None
    else
      var (c, more) :- if t[0] == 0x5C then Unescape(t[1..]) else Some((t[0], t[1..]));
      var (s, rest) :- ParseChars(more);
      Some(([c] + s, rest))
  }

  /** The character after a reverse solidus (RFC 8259, section 7). */
  function Unescape(t: Text): (r: Option<(CodePoint, Text)>)
    ensures r.Some? ==> |r.value.1| < |t|
  {
    if t == [] then None
    else if t[0] == 0x22 || t[0] == 0x5C then Some((t[0], t[1..]))
    else if t[0] == 0x62 then Some((0x08, t[1..]))
    else if t[0] == 0x66 then Some((0x0C, t[1..]))
    else if t[0] == 0x6E then Some((0x0A, t[1..]))
    else if t[0] == 0x72 then Some((0x0D, t[1..]))
    else if t[0] == 0x74 then Some((0x09, t[1..]))
    else if t[0] == 0x75 && |t| >= 5 && t[1] == t[2] == 0x30 then
      var hi :- HexValue(t[3]);
      var lo :- HexValue(t[4]);
      Some((16 * hi + lo, t[5..]))
    else None
  }

  function HexValue(c: CodePoint): (r: Option<nat>)
    ensures r.Some? ==> r.value < 16
  {
    if IsDigit(c) then Some(c - 0x30) else if 0x61 <= c <= 0x66 then Some(c - 0x57) else None
  }

  function ParseInteger(t: Text): (r: Option<(Norm, Text)>)
    ensures r.Some? ==> |r.value.1| < |t|
  {
    var negative := t != [] && t[0] == 0x2D;
    var u := if negative then t[1..] else t;
    var n := DigitRun(u);
    if n == 0 then None
    else Some((NInt(if negative then -DigitsValue(u[..n]) else DigitsValue(u[..n])), u[n..]))
  }

  /** The number of digits that `t` starts with. */
  function DigitRun(t: Text): (n: nat)
    ensures n <= |t|
  {
    if t == [] || !IsDigit(t[0]) then 0 else 1 + DigitRun(t[1..])
  }

  /** The whole of `b`, as one canonical document. */
  function Parse(b: Bytes): Option<Norm> {
    var t :- DecodeUtf8(b);
    var (n, rest) :- ParseValue(t);
    if rest == [] then Some(n) else None
  }

  // ---- It inverts the printer ----

  /** What can be printed and read back: strings are scalar sequences and every object lists its
      keys in strictly ascending order. */
  ghost predicate Printable(n: Norm) {
    match n
    case NStr(t) => Scalars(t)
    case NList(ns) => forall m :: m in ns ==> Printable(m)
    case NObj(fs) => StrictlySorted(TextLess, fs) && PrintableFields(fs)
    case _ => true
  }

  ghost predicate PrintableFields(fs: seq<Pair<Text, Norm>>) {
    forall f :: f in fs ==> assert f.val < f; Scalars(f.key) && Printable(f.val)
  }

  ghost predicate EndsToken(rest: Text) { rest == [] || !IsDigit(rest[0]) }

  lemma EscapeRoundTrip(c: CodePoint, tail: Text)
    ensures ParseChars(Escape(c) + tail) ==
            var (s, rest) :- ParseChars(tail); Some(([c] + s, rest))
  {
    var t := Escape(c) + tail;
    if c == 0x22 || c == 0x5C || c < 0x20 {
      assert t[0] == 0x5C && t[1] == Escape(c)[1];
      if |Escape(c)| == 2 {
        assert t[1..][1..] == tail;
      } else {
        assert t[1..][..5] == Escape(c)[1..];
        assert t[1..][5..] == tail;
        assert t[1..][3] == HexDigit(c / 16) && t[1..][4] == HexDigit(c % 16);
      }
      assert Unescape(t[1..]) == Some((c, tail));
    } else {
      assert t[1..] == tail;
    }
  }

  lemma {:induction false} CharsRoundTrip(s: Text, rest: Text)
    ensures ParseChars(Escapes(s) + [0x22] + rest) == Some((s, rest))
  {
    if s == [] {
      assert (Escapes(s) + [0x22] + rest)[1..] == rest;
    } else {
      CharsRoundTrip(s[1..], rest);
      EscapeRoundTrip(s[0], Escapes(s[1..]) + [0x22] + rest);
      assert Escapes(s) + [0x22] + rest == Escape(s[0]) + (Escapes(s[1..]) + [0x22] + rest);
      assert [s[0]] + s[1..] == s;
    }
  }

  // ---- It leaves no choice in strings ----

  /** The one way to end a string at its quotation mark. */
  lemma OnlyQuote(t: Text, rest: Text)
    requires ParseChars(t) == Some(([], rest))
    ensures t == [0x22] + rest
  {
    assert t[0] == 0x22;
    assert t == [t[0]] + t[1..];
  }

  lemma HexValueExact(h: CodePoint, d: nat)
    requires d < 16
    ensures HexValue(h) == Some(d) <==> h == HexDigit(d)
  {
  }

  /** The spellings of one character: the text that `Unescape` reads it from is the one that the printer
      chooses, or a longer one. */
  lemma UnescapeShortest(t: Text, c: CodePoint, more: Text)
    requires Unescape(t) == Some((c, more))
    ensures var n := |t| - |more|;
      && n >= 0 && t == t[..n] + more
      && n + 1 >= |Escape(c)| && (n + 1 == |Escape(c)| ==> [0x5C] + t[..n] == Escape(c))
  {
    var n := |t| - |more|;
    if t[0] == 0x75 {
      var hi, lo := HexValue(t[3]).value, HexValue(t[4]).value;
      HexValueExact(t[3], hi);
      HexValueExact(t[4], lo);
      assert n == 5 && c == 16 * hi + lo;
      assert t[..5] == [0x75, 0x30, 0x30, t[3], t[4]];
    } else {
      assert n == 1 && t[..1] == [t[0]];
    }
  }

  /** The first character that a string reader takes from `t`. */
  lemma CharShortest(t: Text, c: CodePoint, s: Text, rest: Text) returns (more: Text)
    requires ParseChars(t) == Some(([c] + s, rest))
    ensures ParseChars(more) == Some((s, rest)) && |more| < |t|
    ensures var n := |t| - |more|;
      && t == t[..n] + more && n >= |Escape(c)| && (n == |Escape(c)| ==> t[..n] == Escape(c))
  {
    if t[0] == 0x5C {
      var d, after := Unescape(t[1..]).value.0, Unescape(t[1..]).value.1;
      more := after;
      hide Unescape, Escape;
      SameHead(d, ParseChars(more).value.0, c, s);
      UnescapeShortest(t[1..], c, more);
      OneMoreUnit(t, more);
    } else {
      more := t[1..];
      hide Unescape;
      SameHead(t[0], ParseChars(more).value.0, c, s);
      assert t[..1] == [c];
    }
  }

  lemma SameHead(c: CodePoint, s: Text, d: CodePoint, r: Text)
    requires [c] + s == [d] + r
    ensures c == d && s == r
  {
    assert ([c] + s)[0] == c && ([c] + s)[1..] == s;
    assert ([d] + r)[0] == d && ([d] + r)[1..] == r;
  }

  lemma OneMoreUnit(t: Text, more: Text)
    requires t != [] && |more| < |t| && t[1..] == t[1..][..|t| - 1 - |more|] + more
    ensures var n := |t| - |more|; t == t[..n] + more && t[..n] == [t[0]] + t[1..][..n - 1]
  {
    assert t == [t[0]] + t[1..];
  }

  /** A string is written in the shortest spelling that reads back as it, and no other is as short. */
  lemma {:induction false} EscapesShortest(s: Text, t: Text, rest: Text)
    requires ParseChars(t) == Some((s, rest))
    ensures |t| >= |Escapes(s)| + 1 + |rest|
    ensures |t| == |Escapes(s)| + 1 + |rest| ==> t == Escapes(s) + [0x22] + rest
    decreases |t|
  {
    if s == [] {
      OnlyQuote(t, rest);
    } else {
      assert s == [s[0]] + s[1..];
      var more := CharShortest(t, s[0], s[1..], rest);
      EscapesShortest(s[1..], more, rest);
      var n := |t| - |more|;
      if |t| == |Escapes(s)| + 1 + |rest| {
        assert t == Escape(s[0]) + (Escapes(s[1..]) + [0x22] + rest);
        assert t == Escapes(s) + [0x22] + rest;
      }
    }
  }

  lemma HexCons(b: Bytes)
    requires b != []
    ensures Hex(b) == [HexDigit(b[0] / 16), HexDigit(b[0] % 16)] + Hex(b[1..])
  {
  }

  /** Two hexadecimal digits for each byte, the high one first. */
  lemma {:induction false} HexExact(b: Bytes, i: nat)
    ensures |Hex(b)| == 2 * |b|
    ensures i < |b| ==> HexValue(Hex(b)[2 * i]) == Some(b[i] / 16) && HexValue(Hex(b)[2 * i + 1]) == Some(b[i] % 16)
  {
    if b != [] {
      HexCons(b);
      HexValueExact(HexDigit(b[0] / 16), b[0] / 16);
      HexValueExact(HexDigit(b[0] % 16), b[0] % 16);
      hide Hex, HexValue, HexDigit;
      HexExact(b[1..], if i > 0 then i - 1 else 0);
      if 0 < i < |b| {
        var h, rest := Hex(b), Hex(b[1..]);
        assert h[2 * i] == rest[2 * (i - 1)] && h[2 * i + 1] == rest[2 * (i - 1) + 1] && b[i] == b[1..][i - 1];
      }
    }
  }

  lemma {:induction false} DigitRunOf(d: Text, rest: Text)
    requires forall i :: 0 <= i < |d| ==> IsDigit(d[i])
    requires EndsToken(rest)
    ensures DigitRun(d + rest) == |d|
  {
    if d == [] {
      assert d + rest == rest;
    } else {
      assert (d + rest)[1..] == d[1..] + rest;
      DigitRunOf(d[1..], rest);
    }
  }

  lemma {:induction false} DigitsRoundTrip(n: nat)
    ensures DigitsValue(Digits(n)) == n
  {
    if n >= 10 {
      DigitsRoundTrip(n / 10);
      var d := Digits(n);
      assert d[..|d| - 1] == Digits(n / 10);
    } else {
      assert Digits(n)[..0] == [];
    }
  }

  /** The sign and the digits of a decimal. */
  lemma SignAndDigits(i: int)
    ensures Decimal(i)[0] == 0x2D <==> i < 0
    ensures i < 0 ==> Decimal(i)[1..] == Digits(-i)
  {
  }

  lemma DigitsParsed(d: Text, rest: Text)
    requires d != [] && EndsToken(rest) && forall i :: 0 <= i < |d| ==> IsDigit(d[i])
    ensures DigitRun(d + rest) == |d| && (d + rest)[..|d|] == d && (d + rest)[|d|..] == rest
  {
    DigitRunOf(d, rest);
  }

  lemma IntegerRoundTrip(i: int, rest: Text)
    requires EndsToken(rest)
    ensures ParseInteger(Decimal(i) + rest) == Some((NInt(i), rest))
  {
    hide Digits, DigitRun, DigitsValue, EndsToken;
    var m: nat := if i < 0 then -i else i;
    var t := Decimal(i) + rest;
    SignAndDigits(i);
    assert t[0] == Decimal(i)[0];
    assert (if i < 0 then t[1..] else t) == Digits(m) + rest;
    DigitsParsed(Digits(m), rest);
    DigitsRoundTrip(m);
  }

  lemma LiteralRoundTrip(n: Norm, rest: Text)
    requires n.NNull? || n.NBool?
    ensures ParseValue(Dump(n) + rest) == Some((n, rest))
  {
    var t := Dump(n) + rest;
    assert t[0] == Dump(n)[0];
    assert t[|Dump(n)|..] == rest;
    if n == NBool(true) {
      assert t[0] != Lit("null")[0];
    } else if n == NBool(false) {
      assert t[0] != Lit("null")[0] && t[0] != Lit("true")[0];
    }
  }

  lemma NumberStart(i: int, rest: Text)
    ensures ParseValue(Decimal(i) + rest) == ParseInteger(Decimal(i) + rest)
  {
    var t := Decimal(i) + rest;
    assert t[0] == Decimal(i)[0] && (t[0] == 0x2D || IsDigit(t[0]));
    assert Lit("null")[0] == 0x6E && Lit("true")[0] == 0x74 && Lit("false")[0] == 0x66;
  }

  /** No printed value can be taken for the end of an array or object. */
  lemma DumpStart(n: Norm)
    ensures Dump(n) != [] && Dump(n)[0] != 0x5D && Dump(n)[0] != 0x7D
  {
    if n.NInt? {
      assert Dump(n)[0] == 0x2D || IsDigit(Dump(n)[0]);
    }
  }

  lemma ParseBrackets(ns: seq<Norm>, inside: Text, rest: Text)
    requires ParseItems(true, inside + ([0x5D] + rest)) == Some((ns, rest))
    ensures ParseValue([0x5B] + inside + [0x5D] + rest) == Some((NList(ns), rest))
  {
    hide ParseItems;
    assert ([0x5B] + inside + [0x5D] + rest)[1..] == inside + ([0x5D] + rest);
  }

  lemma ParseBraces(fs: seq<Pair<Text, Norm>>, inside: Text, rest: Text)
    requires ParseFields(true, inside + ([0x7D] + rest)) == Some((fs, rest))
    ensures ParseValue([0x7B] + inside + [0x7D] + rest) == Some((NObj(fs), rest))
  {
    hide ParseFields;
    assert ([0x7B] + inside + [0x7D] + rest)[1..] == inside + ([0x7D] + rest);
  }

  lemma ParseQuoted(s: Text, rest: Text)
    ensures ParseValue(Quote(s) + rest) == Some((NStr(s), rest))
  {
    CharsRoundTrip(s, rest);
    assert (Quote(s) + rest)[1..] == Escapes(s) + [0x22] + rest;
  }

  lemma ParseItem(first: bool, n: Norm, d: Text, ns: seq<Norm>, more: Text, rest: Text)
    requires d != [] && d[0] != 0x5D
    requires ParseValue(d + more) == Some((n, more)) && ParseItems(false, more) == Some((ns, rest))
    ensures ParseItems(first, (if first then [] else [0x2C]) + d + more) == Some(([n] + ns, rest))
  {
    hide ParseValue;
    var t := (if first then [] else [0x2C]) + d + more;
    assert (if first then t else t[1..]) == d + more;
    assert t[0] == if first then d[0] else 0x2C;
  }

  lemma MemberTail(t: Text, k: Text, colon: Text)
    requires t != [] && t[0] == 0x22 && colon != [] && colon[0] == 0x3A
    requires ParseChars(t[1..]) == Some((k, colon))
    ensures ParseMember(t) == var (n, more) :- ParseValue(colon[1..]); Some((Pair(k, n), more))
  {
  }

  lemma KeyRoundTrip(k: Text, t: Text, rest: Text)
    requires t == Quote(k) + rest
    ensures t[0] == 0x22 && ParseChars(t[1..]) == Some((k, rest))
  {
    assert t[1..] == Escapes(k) + [0x22] + rest;
    CharsRoundTrip(k, rest);
  }

  lemma MemberRoundTrip(t: Text, k: Text, n: Norm, colon: Text, more: Text)
    requires colon != [] && colon[0] == 0x3A && t == Quote(k) + colon
    requires ParseValue(colon[1..]) == Some((n, more))
    ensures ParseMember(t) == Some((Pair(k, n), more))
  {
    KeyRoundTrip(k, t, colon);
    MemberTail(t, k, colon);
  }

  lemma MemberOf(k: Text, n: Norm, d: Text, more: Text)
    requires ParseValue(d + more) == Some((n, more))
    ensures ParseMember(Quote(k) + [0x3A] + d + more) == Some((Pair(k, n), more))
  {
    hide ParseMember, Quote, ParseValue;
    var colon := [0x3A] + d + more;
    assert colon[1..] == d + more;
    assert Quote(k) + [0x3A] + d + more == Quote(k) + colon;
    MemberRoundTrip(Quote(k) + [0x3A] + d + more, k, n, colon, more);
  }

  lemma ParseField(first: bool, f: Pair<Text, Norm>, d: Text, fs: seq<Pair<Text, Norm>>, more: Text, rest: Text)
    requires d != [] && d[0] == 0x22
    requires ParseMember(d + more) == Some((f, more)) && ParseFields(false, more) == Some((fs, rest))
    ensures ParseFields(first, (if first then [] else [0x2C]) + d + more) == Some(([f] + fs, rest))
  {
    hide ParseMember;
    if first {
      assert [] + d + more == d + more;
    } else {
      assert ([0x2C] + d + more)[1..] == d + more;
    }
  }

  /** The parser recovers every normal form from its text, whatever follows. */
  lemma {:induction false} ValueRoundTrip(n: Norm, rest: Text)
    requires Printable(n) && EndsToken(rest)
    ensures ParseValue(Dump(n) + rest) == Some((n, rest))
    decreases n
  {
    match n {
      case NNull => LiteralRoundTrip(n, rest);
      case NBool(_) => LiteralRoundTrip(n, rest);
      case NInt(i) =>
        NumberStart(i, rest);
        IntegerRoundTrip(i, rest);
      case NStr(s) => ParseQuoted(s, rest);
      case NList(ns) =>
        ItemsRoundTrip(true, ns, [0x5D] + rest);
        ParseBrackets(ns, Join(true, DumpAll(ns)), rest);
      case NObj(fs) =>
        FieldsRoundTrip(true, fs, [0x7D] + rest);
        SortDumped(fs);
        ParseBraces(fs, JoinFields(true, DumpFields(fs)), rest);
    }
  }

  lemma {:induction false} SortDumped(fs: seq<Pair<Text, Norm>>)
    requires StrictlySorted(TextLess, fs)
    ensures Sort(TextLess, DumpFields(fs)) == DumpFields(fs)
  {
    DumpedKeys(fs);
    SortOfSorted(TextLess, DumpFields(fs));
  }

  lemma {:induction false} DumpedKeys(fs: seq<Pair<Text, Norm>>)
    ensures forall i :: 0 <= i < |fs| ==> DumpFields(fs)[i].key == fs[i].key
  {
    if fs != [] {
      DumpedKeys(fs[1..]);
      assert forall i :: 0 < i < |fs| ==> DumpFields(fs)[i] == DumpFields(fs[1..])[i - 1];
    }
  }

  lemma {:induction false} ItemsRoundTrip(first: bool, ns: seq<Norm>, close: Text)
    requires forall m :: m in ns ==> Printable(m)
    requires close != [] && close[0] == 0x5D
    ensures ParseItems(first, Join(first, DumpAll(ns)) + close) == Some((ns, close[1..]))
    decreases ns
  {
    if ns == [] {
      assert Join(first, DumpAll(ns)) + close == close;
    } else {
      var more := Join(false, DumpAll(ns[1..])) + close;
      JoinStart(ns[1..], close);
      ValueRoundTrip(ns[0], more);
      ItemsRoundTrip(false, ns[1..], close);
      DumpStart(ns[0]);
      ParseItem(first, ns[0], Dump(ns[0]), ns[1..], more, close[1..]);
      assert [ns[0]] + ns[1..] == ns;
      JoinUnfold(first, ns, close);
    }
  }

  lemma Regroup(a: Text, b: Text, c: Text, d: Text)
    ensures a + b + c + d == a + b + (c + d)
  {
  }

  lemma JoinUnfold(first: bool, ns: seq<Norm>, rest: Text)
    requires ns != []
    ensures Join(first, DumpAll(ns)) + rest
            == (if first then [] else [0x2C]) + Dump(ns[0]) + (Join(false, DumpAll(ns[1..])) + rest)
  {
    var parts := DumpAll(ns);
    assert parts[1..] == DumpAll(ns[1..]) && parts[0] == Dump(ns[0]);
    Regroup(if first then [] else [0x2C], parts[0], Join(false, parts[1..]), rest);
  }

  lemma JoinFieldsUnfold(first: bool, fs: seq<Pair<Text, Norm>>, rest: Text)
    requires fs != []
    ensures JoinFields(first, DumpFields(fs)) + rest
            == (if first then [] else [0x2C]) + (Quote(fs[0].key) + [0x3A] + Dump(fs[0].val))
               + (JoinFields(false, DumpFields(fs[1..])) + rest)
  {
    var parts := DumpFields(fs);
    assert parts[1..] == DumpFields(fs[1..]) && parts[0] == Pair(fs[0].key, Dump(fs[0].val));
    Regroup(if first then [] else [0x2C], Quote(parts[0].key) + [0x3A] + parts[0].val, JoinFields(false, parts[1..]),
            rest);
  }

  lemma JoinStart(ns: seq<Norm>, rest: Text)
    requires EndsToken(rest)
    ensures EndsToken(Join(false, DumpAll(ns)) + rest)
  {
    if ns != [] {
      assert Join(false, DumpAll(ns))[0] == 0x2C;
    }
  }

  lemma {:induction false} FieldsRoundTrip(first: bool, fs: seq<Pair<Text, Norm>>, close: Text)
    requires PrintableFields(fs)
    requires close != [] && close[0] == 0x7D
    ensures ParseFields(first, JoinFields(first, DumpFields(fs)) + close) == Some((fs, close[1..]))
    decreases fs
  {
    if fs == [] {
      assert JoinFields(first, DumpFields(fs)) + close == close;
    } else {
      var Pair(k, n) := fs[0];
      var more := JoinFields(false, DumpFields(fs[1..])) + close;
      JoinFieldsStart(fs[1..], close);
      assert fs[0].val < fs[0];
      ValueRoundTrip(n, more);
      FieldsRoundTrip(false, fs[1..], close);
      hide ParseValue, ParseFields, ParseMember, JoinFields, DumpFields, Dump, Quote, Printable;
      MemberOf(k, n, Dump(n), more);
      ParseField(first, fs[0], Quote(k) + [0x3A] + Dump(n), fs[1..], more, close[1..]);
      assert [fs[0]] + fs[1..] == fs;
      JoinFieldsUnfold(first, fs, close);
    }
  }

  lemma JoinFieldsStart(fs: seq<Pair<Text, Norm>>, rest: Text)
    requires EndsToken(rest)
    ensures EndsToken(JoinFields(false, DumpFields(fs)) + rest)
  {
    if fs != [] {
      assert JoinFields(false, DumpFields(fs))[0] == 0x2C;
    }
  }

  // ---- Scalars survive printing ----

  lemma {:induction false} ScalarsEscaped(t: Text)
    requires Scalars(t)
    ensures Scalars(Escapes(t))
  {
    if t != [] {
      ScalarsEscaped(t[1..]);
      assert Scalars(Escape(t[0]));
    }
  }

  lemma {:induction false} ScalarsDumped(n: Norm)
    requires Printable(n)
    ensures Scalars(Dump(n))
    decreases n
  {
    match n {
      case NStr(t) => ScalarsEscaped(t);
      case NList(ns) => ScalarsJoined(true, ns);
      case NObj(fs) =>
        SortDumped(fs);
        ScalarsJoinedFields(true, fs);
      case _ =>
    }
  }

  lemma {:induction false} ScalarsJoined(first: bool, ns: seq<Norm>)
    requires forall m :: m in ns ==> Printable(m)
    ensures Scalars(Join(first, DumpAll(ns)))
    decreases ns
  {
    if ns != [] {
      ScalarsDumped(ns[0]);
      ScalarsJoined(false, ns[1..]);
      assert DumpAll(ns)[1..] == DumpAll(ns[1..]);
    }
  }

  lemma {:induction false} ScalarsJoinedFields(first: bool, fs: seq<Pair<Text, Norm>>)
    requires PrintableFields(fs)
    ensures Scalars(JoinFields(first, DumpFields(fs)))
    decreases fs
  {
    if fs != [] {
      var Pair(k, n) := fs[0];
      assert fs[0].val < fs[0];
      ScalarsDumped(n);
      ScalarsEscaped(k);
      ScalarsJoinedFields(false, fs[1..]);
      assert Scalars(Quote(k) + [0x3A] + Dump(n));
      JoinFieldsUnfold(first, fs, []);
      assert JoinFields(first, DumpFields(fs)) + [] == JoinFields(first, DumpFields(fs));
    }
  }

  /** Parsing recovers a normal form from its canonical bytes. */
  lemma ParseInvertsPrint(n: Norm)
    requires Printable(n)
    ensures Parse(Utf8(Dump(n))) == Some(n)
  {
    ScalarsDumped(n);
    DecodeEncodeUtf8(Dump(n));
    ValueRoundTrip(n, []);
    assert Dump(n) + [] == Dump(n);
  }

  /** Canonical bytes are unambiguous: distinct normal forms never print alike. */
  lemma PrintInjective(n: Norm, m: Norm)
    requires Printable(n) && Printable(m)
    ensures Utf8(Dump(n)) == Utf8(Dump(m)) <==> n == m
  {
    ParseInvertsPrint(n);
    ParseInvertsPrint(m);
  }
}
