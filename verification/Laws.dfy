/** Laws of normalization, and exactly which values share their canonical bytes. */
module Laws {
  import opened Wrappers
  import opened Sorting
  import opened Unicode
  import opened Values
  import opened Canonical
  import opened Parsing

  // ---- Element by element ----

  lemma {:induction false} ItemAt(nfc: Nfc, vs: seq<Value>, portable: bool, i: nat)
    requires NormalizeAll(nfc, vs, portable).Some? && i < |vs|
    ensures Normalize(nfc, vs[i], portable) == Some(NormalizeAll(nfc, vs, portable).value[i])
  {
    if i > 0 {
      ItemAt(nfc, vs[1..], portable, i - 1);
    }
  }

  /** The normal form of one entry. */
  function NormalizeEntry(nfc: Nfc, e: Pair<Key, Value>, portable: bool): Option<Pair<Text, Norm>> {
    var k :- NormalizeKey(nfc, e.key);
    var n :- Normalize(nfc, e.val, portable);
    Some(Pair(k, n))
  }

  lemma {:induction false} EntryAt(nfc: Nfc, es: seq<Pair<Key, Value>>, portable: bool, i: nat)
    requires NormalizeEntries(nfc, es, portable).Some? && i < |es|
    ensures NormalizeEntry(nfc, es[i], portable) == Some(NormalizeEntries(nfc, es, portable).value[i])
  {
    if i > 0 {
      EntryAt(nfc, es[1..], portable, i - 1);
    }
  }

  lemma {:induction false} AllEntries(nfc: Nfc, es: seq<Pair<Key, Value>>, portable: bool)
    requires forall e :: e in es ==> NormalizeEntry(nfc, e, portable).Some?
    ensures NormalizeEntries(nfc, es, portable).Some?
  {
    if es != [] {
      assert es[0] in es;
      AllEntries(nfc, es[1..], portable);
    }
  }

  lemma {:induction false} AllItems(nfc: Nfc, vs: seq<Value>, portable: bool)
    requires forall v :: v in vs ==> Normalize(nfc, v, portable).Some?
    ensures NormalizeAll(nfc, vs, portable).Some?
  {
    if vs != [] {
      assert vs[0] in vs;
      AllItems(nfc, vs[1..], portable);
    }
  }

  // ---- Which values are refused ----

  predicate HasSurrogate(t: Text) { exists c :: c in t && 0xD800 <= c < 0xE000 }

  predicate RefusedKey(key: Key) { key.OtherKey? || HasSurrogate(key.text) }

  predicate CollidingKeys(nfc: Nfc, k: Key, l: Key) { k.StrKey? && l.StrKey? && nfc(k.text) == nfc(l.text) }

  /** Somewhere in the value there is a float, an object of another type, a key that is no string, an
      unpaired surrogate or two keys of one object that are the same after NFC; for the portable profile also
      `bytes` or an integer that is not safe. */
  ghost predicate Refused(nfc: Nfc, v: Value, portable: bool)
    decreases v
  {
    match v
    case Null => false
    case Bool(_) => false
    case Int(i) => portable && !(-0x20_0000_0000_0000 < i < 0x20_0000_0000_0000)
    case Float => true
    case Str(t) => HasSurrogate(t)
    case Bin(_) => portable
    case List(vs) => exists w :: w in vs && Refused(nfc, w, portable)
    case Tuple(vs) => exists w :: w in vs && Refused(nfc, w, portable)
    case Dict(es) => RefusedEntries(nfc, es, portable)
    case Record(es) => RefusedEntries(nfc, es, portable)
    case Unsupported => true
  }

  ghost predicate RefusedEntries(nfc: Nfc, es: seq<Pair<Key, Value>>, portable: bool)
    decreases es
  {
    || (exists e :: e in es && assert e.val < e; (RefusedKey(e.key) || Refused(nfc, e.val, portable)))
    || (exists i, j :: 0 <= i < j < |es| && CollidingKeys(nfc, es[i].key, es[j].key))
  }

  lemma SurrogatesExact(t: Text)
    ensures Scalars(t) <==> !HasSurrogate(t)
  {
    if !HasSurrogate(t) {
      forall i | 0 <= i < |t| ensures !IsSurrogate(t[i]) {
        assert t[i] in t;
      }
    }
  }

  /** `_normalize` raises exactly on these values. */
  lemma {:induction false} RefusedExact(nfc: Nfc, v: Value, portable: bool)
    ensures CanonicalBytes(nfc, v, portable).None? <==> Refused(nfc, v, portable)
    ensures Normalize(nfc, v, portable).None? <==> Refused(nfc, v, portable)
    decreases v
  {
    match v {
      case Str(t) => SurrogatesExact(t);
      case List(vs) => RefusedItemsExact(nfc, vs, portable);
      case Tuple(vs) => RefusedItemsExact(nfc, vs, portable);
      case Dict(es) => RefusedEntriesExact(nfc, es, portable);
      case Record(es) => RefusedEntriesExact(nfc, es, portable);
      case _ =>
    }
  }

  lemma {:induction false} RefusedItemsExact(nfc: Nfc, vs: seq<Value>, portable: bool)
    ensures NormalizeAll(nfc, vs, portable).None? <==> exists w :: w in vs && Refused(nfc, w, portable)
    decreases vs
  {
    forall w | w in vs ensures Normalize(nfc, w, portable).None? <==> Refused(nfc, w, portable) {
      RefusedExact(nfc, w, portable);
    }
    if NormalizeAll(nfc, vs, portable).Some? {
      forall w | w in vs ensures !Refused(nfc, w, portable) {
        var i :| 0 <= i < |vs| && vs[i] == w;
        ItemAt(nfc, vs, portable, i);
      }
    } else if forall w :: w in vs ==> Normalize(nfc, w, portable).Some? {
      AllItems(nfc, vs, portable);
    }
  }

  lemma EntryRefused(nfc: Nfc, e: Pair<Key, Value>, portable: bool)
    requires Normalize(nfc, e.val, portable).None? <==> Refused(nfc, e.val, portable)
    ensures NormalizeEntry(nfc, e, portable).None? <==> RefusedKey(e.key) || Refused(nfc, e.val, portable)
  {
    if e.key.StrKey? {
      SurrogatesExact(e.key.text);
    }
  }

  lemma {:induction false} RefusedEntriesExact(nfc: Nfc, es: seq<Pair<Key, Value>>, portable: bool)
    ensures (var fs :- NormalizeEntries(nfc, es, portable); Collect(fs)).None? <==> RefusedEntries(nfc, es, portable)
    decreases es
  {
    forall e | e in es
      ensures NormalizeEntry(nfc, e, portable).None? <==> RefusedKey(e.key) || Refused(nfc, e.val, portable)
    {
      assert e.val < e;
      RefusedExact(nfc, e.val, portable);
      EntryRefused(nfc, e, portable);
    }
    if NormalizeEntries(nfc, es, portable).Some? {
      var fs := NormalizeEntries(nfc, es, portable).value;
      forall i | 0 <= i < |es| ensures NormalizeEntry(nfc, es[i], portable) == Some(fs[i]) {
        EntryAt(nfc, es, portable, i);
      }
      forall e | e in es ensures !RefusedKey(e.key) && !Refused(nfc, e.val, portable) {
        var i :| 0 <= i < |es| && es[i] == e;
      }
      CollisionsExact(nfc, es, portable, fs);
    } else if forall e :: e in es ==> NormalizeEntry(nfc, e, portable).Some? {
      AllEntries(nfc, es, portable);
    }
  }

  lemma CollisionsExact(nfc: Nfc, es: seq<Pair<Key, Value>>, portable: bool, fs: seq<Pair<Text, Norm>>)
    requires |fs| == |es| && forall i :: 0 <= i < |es| ==> NormalizeEntry(nfc, es[i], portable) == Some(fs[i])
    ensures DistinctKeys(fs) <==> !exists i, j :: 0 <= i < j < |es| && CollidingKeys(nfc, es[i].key, es[j].key)
  {
    hide Normalize;
    forall i, j | 0 <= i < j < |es| ensures CollidingKeys(nfc, es[i].key, es[j].key) <==> fs[i].key == fs[j].key {
      assert NormalizeEntry(nfc, es[i], portable) == Some(fs[i]) && NormalizeEntry(nfc, es[j], portable) == Some(fs[j]);
    }
  }

  lemma OneFieldDump(name: Text, t: Text)
    ensures Dump(NObj([Pair(name, NStr(t))])) == [0x7B] + (Quote(name) + [0x3A] + Quote(t)) + [0x7D]
  {
    var field := Pair(name, Quote(t));
    hide Quote;
    SortOne(TextLess, field);
    assert DumpFields([Pair(name, NStr(t))]) == [field] by {
      assert Dump(NStr(t)) == Quote(t);
    }
    assert JoinFields(true, [field]) == Quote(name) + [0x3A] + Quote(t);
  }

  lemma TagText()
    ensures Lit("{\"$bytes_hex\":\"") == [0x7B, 0x22] + Lit("$bytes_hex") + [0x22, 0x3A, 0x22]
    ensures Lit("\"}") == [0x22, 0x7D]
  {
  }

  lemma Around(a: Text, b: Text)
    ensures [0x7B] + (([0x22] + a + [0x22]) + [0x3A] + ([0x22] + b + [0x22])) + [0x7D]
            == ([0x7B, 0x22] + a + [0x22, 0x3A, 0x22]) + b + [0x22, 0x7D]
  {
  }

  /** `bytes` become an object with one field, their hexadecimal digits. */
  lemma BytesForm(nfc: Nfc, b: Bytes)
    ensures CanonicalBytes(nfc, Bin(b), false) == Some(Utf8(Lit("{\"$bytes_hex\":\"") + Hex(b) + Lit("\"}")))
  {
    hide Dump, Hex, Utf8, Escapes;
    var name := Lit("$bytes_hex");
    assert forall i :: 0 <= i < |name| ==> 0x20 <= name[i] && name[i] != 0x22 && name[i] != 0x5C;
    hide Lit;
    PlainEscapes(name);
    PlainEscapes(Hex(b));
    OneFieldDump(name, Hex(b));
    TagText();
    Around(name, Hex(b));
  }

  lemma {:induction false} PlainEscapes(t: Text)
    requires forall i :: 0 <= i < |t| ==> 0x20 <= t[i] && t[i] != 0x22 && t[i] != 0x5C
    ensures Escapes(t) == t
  {
    if t != [] {
      PlainEscapes(t[1..]);
      assert [t[0]] + t[1..] == t;
    }
  }

  // ---- Results are normal ----

  /** Every string and key of `n` is its own NFC form. */
  ghost predicate Fixed(nfc: Nfc, n: Norm) {
    match n
    case NStr(t) => nfc(t) == t
    case NList(ns) => forall m :: m in ns ==> Fixed(nfc, m)
    case NObj(fs) => forall f :: f in fs ==> assert f.val < f; nfc(f.key) == f.key && Fixed(nfc, f.val)
    case _ => true
  }

  ghost predicate AllSafe(n: Norm) {
    match n
    case NInt(i) => IsSafe(i)
    case NList(ns) => forall m :: m in ns ==> AllSafe(m)
    case NObj(fs) => forall f :: f in fs ==> assert f.val < f; AllSafe(f.val)
    case _ => true
  }

  ghost predicate IsNormal(nfc: Nfc, n: Norm, portable: bool) {
    Printable(n) && Fixed(nfc, n) && (portable ==> AllSafe(n))
  }

  lemma ScalarsPlain(t: Text)
    requires IsAscii(t)
    ensures Scalars(t)
  {
  }

  /** What `_normalize` returns is printable, NFC throughout and, in the portable profile, safe. */
  lemma {:induction false} NormalizeIsNormal(nfc: Nfc, v: Value, portable: bool)
    requires NfcLaws(nfc) && Normalize(nfc, v, portable).Some?
    ensures IsNormal(nfc, Normalize(nfc, v, portable).value, portable)
    decreases v
  {
    match v {
      case List(vs) => ItemsAreNormal(nfc, vs, portable);
      case Tuple(vs) => ItemsAreNormal(nfc, vs, portable);
      case Dict(es) => FieldsAreNormal(nfc, es, portable);
      case Record(es) => FieldsAreNormal(nfc, es, portable);
      case Bin(b) =>
        ScalarsPlain(Hex(b));
        assert nfc(Lit("$bytes_hex")) == Lit("$bytes_hex") && nfc(Hex(b)) == Hex(b);
      case _ =>
    }
  }

  lemma {:induction false} ItemsAreNormal(nfc: Nfc, vs: seq<Value>, portable: bool)
    requires NfcLaws(nfc) && NormalizeAll(nfc, vs, portable).Some?
    ensures IsNormal(nfc, NList(NormalizeAll(nfc, vs, portable).value), portable)
    decreases vs
  {
    var ns := NormalizeAll(nfc, vs, portable).value;
    forall n | n in ns ensures IsNormal(nfc, n, portable) {
      var i :| 0 <= i < |ns| && ns[i] == n;
      ItemAt(nfc, vs, portable, i);
      NormalizeIsNormal(nfc, vs[i], portable);
    }
  }

  lemma {:induction false} FieldsAreNormal(nfc: Nfc, es: seq<Pair<Key, Value>>, portable: bool)
    requires NfcLaws(nfc) && NormalizeEntries(nfc, es, portable).Some?
    ensures var fs := NormalizeEntries(nfc, es, portable).value;
            DistinctKeys(fs) ==> IsNormal(nfc, NObj(Sort(TextLess, fs)), portable)
    decreases es
  {
    var fs := NormalizeEntries(nfc, es, portable).value;
    var sorted := Sort(TextLess, fs);
    forall f | f in sorted
      ensures Scalars(f.key) && nfc(f.key) == f.key && IsNormal(nfc, f.val, portable)
    {
      SortMember(TextLess, fs, f);
      var i :| 0 <= i < |fs| && fs[i] == f;
      EntryAt(nfc, es, portable, i);
      assert es[i].val < es[i];
      NormalizeIsNormal(nfc, es[i].val, portable);
    }
    if DistinctKeys(fs) {
      TextLessOrders(KeySet(fs));
      SortSorted(TextLess, fs);
    }
  }

  // ---- The order of keys ----

  /** At every depth the keys of an object ascend: at the first difference of two keys the earlier one has
      the smaller code point, or it ends. The same holds of their UTF-8 bytes. */
  ghost predicate Ascending(n: Norm) {
    match n
    case NList(ns) => forall m :: m in ns ==> Ascending(m)
    case NObj(fs) =>
      && (forall i, j :: 0 <= i < j < |fs| ==>
            IsBefore(fs[i].key, fs[j].key) && IsBefore(Utf8(fs[i].key), Utf8(fs[j].key)))
      && forall f :: f in fs ==> assert f.val < f; Ascending(f.val)
    case _ => true
  }

  lemma {:induction false} PrintableAscends(n: Norm)
    requires Printable(n)
    ensures Ascending(n)
    decreases n
  {
    match n {
      case NList(ns) =>
        forall m | m in ns ensures Ascending(m) {
          PrintableAscends(m);
        }
      case NObj(fs) =>
        forall f | f in fs ensures Ascending(f.val) {
          assert f.val < f;
          PrintableAscends(f.val);
        }
        forall i, j | 0 <= i < j < |fs|
          ensures IsBefore(fs[i].key, fs[j].key) && IsBefore(Utf8(fs[i].key), Utf8(fs[j].key))
        {
          assert fs[i] in fs && fs[j] in fs;
          KeysAscend(fs[i].key, fs[j].key);
        }
      case _ =>
    }
  }

  lemma KeysAscend(a: Text, b: Text)
    requires Scalars(a) && Scalars(b) && TextLess(a, b)
    ensures IsBefore(a, b) && IsBefore(Utf8(a), Utf8(b))
  {
    hide LexLess, IsBefore, Utf8;
    LexLessExact(a, b);
    CodePointOrderIsUtf8Order(a, b);
    LexLessExact(Utf8(a), Utf8(b));
  }

  /** What `_normalize` makes of a dictionary: each entry under its normalized key, in ascending order. */
  lemma DictExact(nfc: Nfc, es: seq<Pair<Key, Value>>, portable: bool, fs: seq<Pair<Text, Norm>>)
    requires NfcLaws(nfc) && Normalize(nfc, Dict(es), portable) == Some(NObj(fs))
    ensures |fs| == |es| && Ascending(NObj(fs))
    ensures forall i :: 0 <= i < |es| ==>
      && es[i].key.StrKey? && Normalize(nfc, es[i].val, portable).Some?
      && Pair(nfc(es[i].key.text), Normalize(nfc, es[i].val, portable).value) in fs
  {
    NormalizeIsNormal(nfc, Dict(es), portable);
    PrintableAscends(NObj(fs));
    var gs := NormalizeEntries(nfc, es, portable).value;
    SortMultiset(TextLess, gs);
    assert |multiset(fs)| == |multiset(gs)|;
    hide Ascending;
    forall i | 0 <= i < |es|
      ensures es[i].key.StrKey? && Normalize(nfc, es[i].val, portable).Some?
      ensures Pair(nfc(es[i].key.text), Normalize(nfc, es[i].val, portable).value) in fs
    {
      EntryAt(nfc, es, portable, i);
      assert gs[i] in multiset(gs);
    }
  }

  // ---- Idempotence ----

  /** The value that a normal form is, fed to `_normalize` again. */
  function Embed(n: Norm): Value {
    match n
    case NNull => Null
    case NBool(b) => Bool(b)
    case NInt(i) => Int(i)
    case NStr(t) => Str(t)
    case NList(ns) => List(EmbedAll(ns))
    case NObj(fs) => Dict(EmbedFields(fs))
  }

  function EmbedAll(ns: seq<Norm>): seq<Value> {
    if ns == [] then [] else [Embed(ns[0])] + EmbedAll(ns[1..])
  }

  function EmbedFields(fs: seq<Pair<Text, Norm>>): seq<Pair<Key, Value>> {
    if fs == [] then []
    else
      assert fs[0].val < fs[0];
      [Pair(StrKey(fs[0].key), Embed(fs[0].val))] + EmbedFields(fs[1..])
  }

  lemma {:induction false} NormalFormsAreFixed(nfc: Nfc, n: Norm, portable: bool)
    requires IsNormal(nfc, n, portable)
    ensures Normalize(nfc, Embed(n), portable) == Some(n)
    decreases n
  {
    match n {
      case NList(ns) => NormalItemsAreFixed(nfc, ns, portable);
      case NObj(fs) =>
        FieldsOfNormal(nfc, fs, portable);
        NormalFieldsAreFixed(nfc, fs, portable);
        CollectSorted(fs);
      case _ =>
    }
  }

  lemma FieldsOfNormal(nfc: Nfc, fs: seq<Pair<Text, Norm>>, portable: bool)
    requires IsNormal(nfc, NObj(fs), portable)
    ensures forall f :: f in fs ==> Scalars(f.key) && nfc(f.key) == f.key && IsNormal(nfc, f.val, portable)
  {
    assert PrintableFields(fs);
    forall f | f in fs ensures Scalars(f.key) && nfc(f.key) == f.key && IsNormal(nfc, f.val, portable) {
      assert f.val < f;
    }
  }

  lemma CollectSorted(fs: seq<Pair<Text, Norm>>)
    requires StrictlySorted(TextLess, fs)
    ensures Collect(fs) == Some(NObj(fs))
  {
    TextLessOrders(KeySet(fs));
    SortedDistinct(TextLess, fs);
    SortOfSorted(TextLess, fs);
  }

  lemma {:induction false} NormalItemsAreFixed(nfc: Nfc, ns: seq<Norm>, portable: bool)
    requires forall n :: n in ns ==> IsNormal(nfc, n, portable)
    ensures NormalizeAll(nfc, EmbedAll(ns), portable) == Some(ns)
    decreases ns
  {
    if ns != [] {
      NormalFormsAreFixed(nfc, ns[0], portable);
      NormalItemsAreFixed(nfc, ns[1..], portable);
      assert EmbedAll(ns)[1..] == EmbedAll(ns[1..]);
      assert [ns[0]] + ns[1..] == ns;
    }
  }

  lemma {:induction false} NormalFieldsAreFixed(nfc: Nfc, fs: seq<Pair<Text, Norm>>, portable: bool)
    requires forall f :: f in fs ==> Scalars(f.key) && nfc(f.key) == f.key && IsNormal(nfc, f.val, portable)
    ensures NormalizeEntries(nfc, EmbedFields(fs), portable) == Some(fs)
    decreases fs
  {
    if fs != [] {
      assert fs[0].val < fs[0] && fs[0] in fs;
      NormalFormsAreFixed(nfc, fs[0].val, portable);
      NormalFieldsAreFixed(nfc, fs[1..], portable);
      assert EmbedFields(fs)[1..] == EmbedFields(fs[1..]);
      assert [fs[0]] + fs[1..] == fs;
    }
  }

  /** Normalizing twice changes nothing. */
  lemma NormalizeIdempotent(nfc: Nfc, v: Value, portable: bool)
    requires NfcLaws(nfc) && Normalize(nfc, v, portable).Some?
    ensures Normalize(nfc, Embed(Normalize(nfc, v, portable).value), portable) == Normalize(nfc, v, portable)
  {
    NormalizeIsNormal(nfc, v, portable);
    NormalFormsAreFixed(nfc, Normalize(nfc, v, portable).value, portable);
  }

  // ---- The portable profile is a restriction of the local one ----

  lemma {:induction false} PortableNormalizesAlike(nfc: Nfc, v: Value)
    requires Normalize(nfc, v, true).Some?
    ensures Normalize(nfc, v, false) == Normalize(nfc, v, true)
    decreases v
  {
    match v {
      case List(vs) => PortableItemsAlike(nfc, vs);
      case Tuple(vs) => PortableItemsAlike(nfc, vs);
      case Dict(es) => PortableEntriesAlike(nfc, es);
      case Record(es) => PortableEntriesAlike(nfc, es);
      case _ =>
    }
  }

  lemma {:induction false} PortableItemsAlike(nfc: Nfc, vs: seq<Value>)
    requires NormalizeAll(nfc, vs, true).Some?
    ensures NormalizeAll(nfc, vs, false) == NormalizeAll(nfc, vs, true)
    decreases vs
  {
    if vs != [] {
      PortableNormalizesAlike(nfc, vs[0]);
      PortableItemsAlike(nfc, vs[1..]);
    }
  }

  lemma {:induction false} PortableEntriesAlike(nfc: Nfc, es: seq<Pair<Key, Value>>)
    requires NormalizeEntries(nfc, es, true).Some?
    ensures NormalizeEntries(nfc, es, false) == NormalizeEntries(nfc, es, true)
    decreases es
  {
    if es != [] {
      assert es[0].val < es[0];
      PortableNormalizesAlike(nfc, es[0].val);
      PortableEntriesAlike(nfc, es[1..]);
    }
  }

  /** Whenever the portable profile accepts, both profiles give the same bytes. */
  lemma PortableBytesAgree(nfc: Nfc, v: Value)
    requires CanonicalBytes(nfc, v, true).Some?
    ensures CanonicalBytes(nfc, v, false) == CanonicalBytes(nfc, v, true)
  {
    PortableNormalizesAlike(nfc, v);
  }

  // ---- Key order is immaterial ----

  /** `w` is `v` with the entries of its dictionaries listed in other orders, at any depth, inside lists,
      tuples and dataclasses too. */
  ghost predicate Reordered(v: Value, w: Value) {
    match (v, w)
    case (List(a), List(b)) => |a| == |b| && forall i :: 0 <= i < |a| ==> Reordered(a[i], b[i])
    case (Tuple(a), Tuple(b)) => |a| == |b| && forall i :: 0 <= i < |a| ==> Reordered(a[i], b[i])
    case (Record(es), Record(ds)) =>
      && |es| == |ds|
      && forall i :: 0 <= i < |es| ==>
        assert es[i].val < es[i];
        es[i].key == ds[i].key && Reordered(es[i].val, ds[i].val)
    case (Dict(es), Dict(ds)) =>
      exists gs: seq<Pair<Key, Value>> ::
        && multiset(gs) == multiset(ds) && |gs| == |es|
        && forall i :: 0 <= i < |es| ==>
          assert es[i].val < es[i];
          es[i].key == gs[i].key && Reordered(es[i].val, gs[i].val)
    case _ => v == w
  }

  lemma EntriesCons(nfc: Nfc, es: seq<Pair<Key, Value>>, portable: bool)
    requires es != []
    ensures var f, rest := NormalizeEntry(nfc, es[0], portable), NormalizeEntries(nfc, es[1..], portable);
            NormalizeEntries(nfc, es, portable) == if f.Some? && rest.Some? then Some([f.value] + rest.value) else None
  {
    hide Normalize, NormalizeKey;
  }

  lemma {:induction false} EntriesAppend(nfc: Nfc, a: seq<Pair<Key, Value>>, b: seq<Pair<Key, Value>>, portable: bool)
    ensures var x, y := NormalizeEntries(nfc, a, portable), NormalizeEntries(nfc, b, portable);
            NormalizeEntries(nfc, a + b, portable)
            == if x.Some? && y.Some? then Some(x.value + y.value) else None
  {
    if a == [] {
      AfterNothing(NormalizeEntries(nfc, b, portable));
      assert a + b == b;
    } else {
      EntriesAppend(nfc, a[1..], b, portable);
      assert (a + b)[1..] == a[1..] + b && (a + b)[0] == a[0];
      EntriesCons(nfc, a, portable);
      EntriesCons(nfc, a + b, portable);
      hide NormalizeEntries, NormalizeEntry;
      var f := NormalizeEntry(nfc, a[0], portable);
      var x, y := NormalizeEntries(nfc, a[1..], portable), NormalizeEntries(nfc, b, portable);
      if f.Some? && x.Some? && y.Some? {
        Associates([f.value], x.value, y.value);
      }
    }
  }

  lemma SplitAt<T>(s: seq<T>, j: nat)
    requires j < |s|
    ensures s == s[..j] + ([s[j]] + s[j + 1..])
    ensures multiset(s) == multiset([s[j]]) + multiset(s[..j] + s[j + 1..])
  {
    assert s == s[..j] + ([s[j]] + s[j + 1..]);
  }

  lemma RemoveOne<T>(x: T, a: multiset<T>, b: multiset<T>, c: multiset<T>)
    requires c == multiset{x} + a && c == multiset{x} + b
    ensures a == b
  {
    assert a == c - multiset{x} && b == c - multiset{x};
  }

  lemma OneEntry(nfc: Nfc, e: Pair<Key, Value>, portable: bool)
    ensures var f := NormalizeEntry(nfc, e, portable);
            NormalizeEntries(nfc, [e], portable) == if f.Some? then Some([f.value]) else None
  {
    EntriesCons(nfc, [e], portable);
    assert [e][1..] == [];
    var f := NormalizeEntry(nfc, e, portable);
    if f.Some? {
      assert [f.value] + [] == [f.value];
    }
  }

  /** Dropping entry `j` drops field `j`. */
  lemma EntriesSplit(nfc: Nfc, ds: seq<Pair<Key, Value>>, j: nat, portable: bool)
    requires j < |ds|
    ensures var x := NormalizeEntries(nfc, ds, portable);
            var f := NormalizeEntry(nfc, ds[j], portable);
            var rest := NormalizeEntries(nfc, ds[..j] + ds[j + 1..], portable);
            && (x.Some? <==> f.Some? && rest.Some?)
            && (x.Some? ==> multiset(x.value) == multiset([f.value]) + multiset(rest.value))
  {
    hide NormalizeEntries, NormalizeEntry;
    SplitAt(ds, j);
    var a, b := ds[..j], ds[j + 1..];
    EntriesAppend(nfc, a, b, portable);
    EntriesAppend(nfc, [ds[j]], b, portable);
    EntriesAppend(nfc, a, [ds[j]] + b, portable);
    OneEntry(nfc, ds[j], portable);
    var x, f, y := NormalizeEntries(nfc, a, portable), NormalizeEntry(nfc, ds[j], portable),
        NormalizeEntries(nfc, b, portable);
    if x.Some? && f.Some? && y.Some? {
      OneInTheMiddle(x.value, f.value, y.value);
    }
  }

  /** Listing the same entries in another order gives the same fields in another order. */
  lemma {:induction false} EntriesPermute(nfc: Nfc, es: seq<Pair<Key, Value>>, ds: seq<Pair<Key, Value>>,
        portable: bool)
    requires multiset(es) == multiset(ds)
    ensures var x, y := NormalizeEntries(nfc, es, portable), NormalizeEntries(nfc, ds, portable);
            x.Some? == y.Some? && (x.Some? ==> multiset(x.value) == multiset(y.value))
    decreases es
  {
    if es == [] {
      assert |multiset(ds)| == |ds| == 0;
    } else {
      assert es[0] in multiset(ds);
      var j :| 0 <= j < |ds| && ds[j] == es[0];
      var rest := ds[..j] + ds[j + 1..];
      SplitAt(ds, j);
      assert es == [es[0]] + es[1..] && es[..0] + es[1..] == es[1..];
      RemoveOne(es[0], multiset(es[1..]), multiset(rest), multiset(es));
      EntriesPermute(nfc, es[1..], rest, portable);
      EntriesSplit(nfc, es, 0, portable);
      EntriesSplit(nfc, ds, j, portable);
    }
  }

  lemma CollectPermute(fs: seq<Pair<Text, Norm>>, gs: seq<Pair<Text, Norm>>)
    requires multiset(fs) == multiset(gs)
    ensures Collect(fs) == Collect(gs)
  {
    DistinctAnyOrder(fs, gs);
    if DistinctKeys(fs) {
      forall p ensures p in fs <==> p in gs {
        assert p in fs <==> p in multiset(fs);
      }
      TextLessOrders(KeySet(fs));
      SortAnyOrder(TextLess, fs, gs);
    }
  }

  lemma {:induction false} EntriesReordered(nfc: Nfc, es: seq<Pair<Key, Value>>, gs: seq<Pair<Key, Value>>,
        portable: bool)
    requires |es| == |gs| && forall i :: 0 <= i < |es| ==> es[i].key == gs[i].key && Reordered(es[i].val, gs[i].val)
    ensures NormalizeEntries(nfc, es, portable) == NormalizeEntries(nfc, gs, portable)
    decreases es, -1
  {
    if es != [] {
      assert es[0].val < es[0];
      KeyOrderIrrelevant(nfc, es[0].val, gs[0].val, portable);
      EntriesReordered(nfc, es[1..], gs[1..], portable);
    }
  }

  lemma {:induction false} ItemsReordered(nfc: Nfc, a: seq<Value>, b: seq<Value>, portable: bool)
    requires |a| == |b| && forall i :: 0 <= i < |a| ==> Reordered(a[i], b[i])
    ensures NormalizeAll(nfc, a, portable) == NormalizeAll(nfc, b, portable)
    decreases a
  {
    if a != [] {
      KeyOrderIrrelevant(nfc, a[0], b[0], portable);
      ItemsReordered(nfc, a[1..], b[1..], portable);
    }
  }

  /** Neither the normal form nor the verdict depends on the order in which keys were inserted. */
  lemma {:induction false} KeyOrderIrrelevant(nfc: Nfc, v: Value, w: Value, portable: bool)
    requires Reordered(v, w)
    ensures Normalize(nfc, v, portable) == Normalize(nfc, w, portable)
    decreases v
  {
    match (v, w) {
      case (List(a), List(b)) => ItemsReordered(nfc, a, b, portable);
      case (Tuple(a), Tuple(b)) => ItemsReordered(nfc, a, b, portable);
      case (Record(es), Record(ds)) => EntriesReordered(nfc, es, ds, portable);
      case (Dict(es), Dict(ds)) => DictsReordered(nfc, es, ds, portable);
      case _ =>
    }
  }

  lemma {:induction false} DictsReordered(nfc: Nfc, es: seq<Pair<Key, Value>>, ds: seq<Pair<Key, Value>>,
        portable: bool)
    requires Reordered(Dict(es), Dict(ds))
    ensures Normalize(nfc, Dict(es), portable) == Normalize(nfc, Dict(ds), portable)
    decreases es, 0
  {
    var gs: seq<Pair<Key, Value>> :|
      && multiset(gs) == multiset(ds) && |gs| == |es|
      && forall i :: 0 <= i < |es| ==> es[i].key == gs[i].key && Reordered(es[i].val, gs[i].val);
    EntriesReordered(nfc, es, gs, portable);
    EntriesPermute(nfc, gs, ds, portable);
    var x, y := NormalizeEntries(nfc, gs, portable), NormalizeEntries(nfc, ds, portable);
    if x.Some? {
      CollectPermute(x.value, y.value);
    }
  }
}
