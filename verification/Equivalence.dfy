/** Exactly which values have equal canonical bytes. */
module Equivalence {
  import opened Wrappers
  import opened Sorting
  import opened Unicode
  import opened Values
  import opened Canonical
  import opened Parsing
  import opened Laws

  predicate IsSequence(v: Value) { v.List? || v.Tuple? }
  predicate IsMapping(v: Value) { v.Dict? || v.Record? }

  ghost predicate SameKey(nfc: Nfc, k: Key, l: Key) {
    k.StrKey? && l.StrKey? && nfc(k.text) == nfc(l.text)
  }

  /** Equal up to NFC of strings and keys, the order of entries, list against tuple, dataclass
      against dictionary, and `bytes` against the one-entry `$bytes_hex` dictionary. */
  ghost predicate Equivalent(nfc: Nfc, v: Value, w: Value)
    decreases v, 1
  {
    if v.Bin? then (w.Bin? && v.bytes == w.bytes) || (IsMapping(w) && TagsBytes(nfc, w.entries, v.bytes))
    else if IsMapping(v) then
      if w.Bin? then TagsBytes(nfc, v.entries, w.bytes)
      else IsMapping(w) && Covers(nfc, v.entries, w.entries) && CoveredBy(nfc, v.entries, w.entries)
    else if IsSequence(v) then IsSequence(w) && EquivalentItems(nfc, v.items, w.items)
    else EquivalentLeaf(nfc, v, w)
  }

  ghost predicate EquivalentLeaf(nfc: Nfc, v: Value, w: Value) {
    match v
    case Null => w.Null?
    case Bool(b) => w == Bool(b)
    case Int(i) => w == Int(i)
    case Str(t) => w.Str? && nfc(w.text) == nfc(t)
    case _ => false
  }

  ghost predicate EquivalentItems(nfc: Nfc, a: seq<Value>, b: seq<Value>)
    decreases a, 0
  {
    |a| == |b| && forall i :: 0 <= i < |a| ==> Equivalent(nfc, a[i], b[i])
  }

  /** Every entry of `es` has its counterpart in `ds`. */
  ghost predicate Covers(nfc: Nfc, es: seq<Pair<Key, Value>>, ds: seq<Pair<Key, Value>>)
    decreases es, 0
  {
    forall i :: 0 <= i < |es| ==> HasCounterpart(nfc, es[i], ds)
  }

  ghost predicate HasCounterpart(nfc: Nfc, e: Pair<Key, Value>, ds: seq<Pair<Key, Value>>)
    decreases e, 1
  {
    exists j :: 0 <= j < |ds| && EquivalentEntry(nfc, e, ds[j])
  }

  /** Every entry of `ds` has its counterpart in `es`. */
  ghost predicate CoveredBy(nfc: Nfc, es: seq<Pair<Key, Value>>, ds: seq<Pair<Key, Value>>)
    decreases es, 1
  {
    forall j :: 0 <= j < |ds| ==> IsCounterpart(nfc, es, ds[j])
  }

  ghost predicate IsCounterpart(nfc: Nfc, es: seq<Pair<Key, Value>>, f: Pair<Key, Value>)
    decreases es, 0
  {
    exists i :: 0 <= i < |es| && EquivalentEntry(nfc, es[i], f)
  }

  ghost predicate EquivalentEntry(nfc: Nfc, e: Pair<Key, Value>, f: Pair<Key, Value>)
    decreases e, 0
  {
    assert e.val < e;
    SameKey(nfc, e.key, f.key) && Equivalent(nfc, e.val, f.val)
  }

  /** The entries are those of `{"$bytes_hex": b.hex()}`. */
  ghost predicate TagsBytes(nfc: Nfc, es: seq<Pair<Key, Value>>, b: Bytes) {
    && |es| == 1 && es[0].key.StrKey? && nfc(es[0].key.text) == Lit("$bytes_hex")
    && es[0].val.Str? && nfc(es[0].val.text) == Hex(b)
  }

  lemma {:induction false} HexInjective(b: Bytes, c: Bytes)
    ensures Hex(b) == Hex(c) ==> b == c
  {
    if b != [] && c != [] && Hex(b) == Hex(c) {
      assert Hex(b)[0] == Hex(c)[0] && Hex(b)[1] == Hex(c)[1];
      assert Hex(b)[2..] == Hex(b[1..]) && Hex(c)[2..] == Hex(c[1..]);
      HexInjective(b[1..], c[1..]);
      assert b == [b[0]] + b[1..] && c == [c[0]] + c[1..];
    }
  }

  lemma {:induction false} ItemsKernel(nfc: Nfc, a: seq<Value>, b: seq<Value>, portable: bool)
    requires NormalizeAll(nfc, a, portable).Some? && NormalizeAll(nfc, b, portable).Some?
    ensures NormalizeAll(nfc, a, portable) == NormalizeAll(nfc, b, portable) <==> EquivalentItems(nfc, a, b)
    decreases a, 0
  {
    var ns, ms := NormalizeAll(nfc, a, portable).value, NormalizeAll(nfc, b, portable).value;
    if |a| == |b| {
      forall i | 0 <= i < |a| ensures Equivalent(nfc, a[i], b[i]) <==> ns[i] == ms[i] {
        ItemAt(nfc, a, portable, i);
        ItemAt(nfc, b, portable, i);
        Kernel(nfc, a[i], b[i], portable);
      }
      assert ns == ms <==> forall i :: 0 <= i < |ns| ==> ns[i] == ms[i];
    }
  }

  /** One entry normalizes like another exactly when keys and values correspond. */
  lemma {:induction false} EntryKernel(nfc: Nfc, e: Pair<Key, Value>, f: Pair<Key, Value>, portable: bool)
    requires NormalizeEntry(nfc, e, portable).Some? && NormalizeEntry(nfc, f, portable).Some?
    ensures NormalizeEntry(nfc, e, portable) == NormalizeEntry(nfc, f, portable) <==> EquivalentEntry(nfc, e, f)
    decreases e, 0
  {
    assert e.val < e;
    Kernel(nfc, e.val, f.val, portable);
  }

  /** `x` is among the members of `gs`, by position. */
  ghost predicate Occurs<T>(x: T, gs: seq<T>) { exists j :: 0 <= j < |gs| && gs[j] == x }

  /** The fields of `es` are among those of `ds` exactly when every entry of `es` has a counterpart. */
  lemma {:induction false} CoversKernel(nfc: Nfc, es: seq<Pair<Key, Value>>, ds: seq<Pair<Key, Value>>, portable: bool)
    requires NormalizeEntries(nfc, es, portable).Some? && NormalizeEntries(nfc, ds, portable).Some?
    ensures var fs, gs := NormalizeEntries(nfc, es, portable).value, NormalizeEntries(nfc, ds, portable).value;
            && (Covers(nfc, es, ds) <==> forall i :: 0 <= i < |fs| ==> Occurs(fs[i], gs))
            && (CoveredBy(nfc, es, ds) <==> forall j :: 0 <= j < |gs| ==> Occurs(gs[j], fs))
    decreases es, 0
  {
    var fs, gs := NormalizeEntries(nfc, es, portable).value, NormalizeEntries(nfc, ds, portable).value;
    forall i, j | 0 <= i < |es| && 0 <= j < |ds|
      ensures fs[i] == gs[j] <==> EquivalentEntry(nfc, es[i], ds[j])
    {
      EntryAt(nfc, es, portable, i);
      EntryAt(nfc, ds, portable, j);
      EntryKernel(nfc, es[i], ds[j], portable);
    }
    CoversByIndex(nfc, es, ds, fs, gs);
    CoveredByIndex(nfc, es, ds, fs, gs);
  }

  lemma CoversByIndex(
    nfc: Nfc, es: seq<Pair<Key, Value>>, ds: seq<Pair<Key, Value>>,
    fs: seq<Pair<Text, Norm>>, gs: seq<Pair<Text, Norm>>)
    requires |es| == |fs| && |ds| == |gs|
    requires forall i, j :: 0 <= i < |es| && 0 <= j < |ds| ==>
      (fs[i] == gs[j] <==> EquivalentEntry(nfc, es[i], ds[j]))
    ensures Covers(nfc, es, ds) <==> forall i :: 0 <= i < |fs| ==> Occurs(fs[i], gs)
  {
    if Covers(nfc, es, ds) {
      forall i | 0 <= i < |fs| ensures Occurs(fs[i], gs) {
        assert HasCounterpart(nfc, es[i], ds);
        var j :| 0 <= j < |ds| && EquivalentEntry(nfc, es[i], ds[j]);
        assert gs[j] == fs[i];
      }
    }
    if forall i :: 0 <= i < |fs| ==> Occurs(fs[i], gs) {
      forall i | 0 <= i < |es| ensures HasCounterpart(nfc, es[i], ds) {
        assert Occurs(fs[i], gs);
        var j :| 0 <= j < |gs| && gs[j] == fs[i];
        assert EquivalentEntry(nfc, es[i], ds[j]);
      }
    }
  }

  lemma CoveredByIndex(
    nfc: Nfc, es: seq<Pair<Key, Value>>, ds: seq<Pair<Key, Value>>,
    fs: seq<Pair<Text, Norm>>, gs: seq<Pair<Text, Norm>>)
    requires |es| == |fs| && |ds| == |gs|
    requires forall i, j :: 0 <= i < |es| && 0 <= j < |ds| ==>
      (fs[i] == gs[j] <==> EquivalentEntry(nfc, es[i], ds[j]))
    ensures CoveredBy(nfc, es, ds) <==> forall j :: 0 <= j < |gs| ==> Occurs(gs[j], fs)
  {
    if CoveredBy(nfc, es, ds) {
      forall j | 0 <= j < |gs| ensures Occurs(gs[j], fs) {
        assert IsCounterpart(nfc, es, ds[j]);
        var i :| 0 <= i < |es| && EquivalentEntry(nfc, es[i], ds[j]);
        assert fs[i] == gs[j];
      }
    }
    if forall j :: 0 <= j < |gs| ==> Occurs(gs[j], fs) {
      forall j | 0 <= j < |ds| ensures IsCounterpart(nfc, es, ds[j]) {
        assert Occurs(gs[j], fs);
        var i :| 0 <= i < |fs| && fs[i] == gs[j];
        assert EquivalentEntry(nfc, es[i], ds[j]);
      }
    }
  }

  lemma CollectKernel(fs: seq<Pair<Text, Norm>>, gs: seq<Pair<Text, Norm>>)
    requires Collect(fs).Some? && Collect(gs).Some?
    ensures Collect(fs) == Collect(gs) <==>
            (forall i :: 0 <= i < |fs| ==> Occurs(fs[i], gs)) && (forall j :: 0 <= j < |gs| ==> Occurs(gs[j], fs))
  {
    if Collect(fs) == Collect(gs) {
      forall x ensures x in fs <==> x in gs {
        SortMember(TextLess, fs, x);
        SortMember(TextLess, gs, x);
      }
      forall i | 0 <= i < |fs| ensures Occurs(fs[i], gs) {
        assert fs[i] in gs;
      }
      forall j | 0 <= j < |gs| ensures Occurs(gs[j], fs) {
        assert gs[j] in fs;
      }
    } else if (forall i :: 0 <= i < |fs| ==> Occurs(fs[i], gs)) && (forall j :: 0 <= j < |gs| ==> Occurs(gs[j], fs)) {
      forall x ensures x in fs <==> x in gs {
        assert x in fs ==> Occurs(x, gs);
        assert x in gs ==> Occurs(x, fs);
      }
      TextLessOrders(KeySet(fs));
      SortAnyOrder(TextLess, fs, gs);
    }
  }

  lemma {:induction false} MappingKernel(nfc: Nfc, es: seq<Pair<Key, Value>>, ds: seq<Pair<Key, Value>>, portable: bool)
    requires NormalizeEntries(nfc, es, portable).Some? && NormalizeEntries(nfc, ds, portable).Some?
    requires DistinctKeys(NormalizeEntries(nfc, es, portable).value)
    requires DistinctKeys(NormalizeEntries(nfc, ds, portable).value)
    ensures Collect(NormalizeEntries(nfc, es, portable).value) == Collect(NormalizeEntries(nfc, ds, portable).value)
            <==> Covers(nfc, es, ds) && CoveredBy(nfc, es, ds)
    decreases es, 1
  {
    CoversKernel(nfc, es, ds, portable);
    CollectKernel(NormalizeEntries(nfc, es, portable).value, NormalizeEntries(nfc, ds, portable).value);
  }

  lemma BytesKernel(nfc: Nfc, b: Bytes, w: Value)
    requires IsMapping(w) && Normalize(nfc, w, false).Some?
    ensures Normalize(nfc, Bin(b), false) == Normalize(nfc, w, false) <==> TagsBytes(nfc, w.entries, b)
  {
    hide Sort, NormalizeEntries;
    var fs := NormalizeEntries(nfc, w.entries, false).value;
    SortMultiset(TextLess, fs);
    if |fs| == 1 {
      assert fs == [fs[0]];
      SortOne(TextLess, fs[0]);
      EntryAt(nfc, w.entries, false, 0);
      if w.entries[0].val.Str? {
        assert fs[0].val == NStr(nfc(w.entries[0].val.text));
      }
    }
  }

  /** Two accepted values have the same normal form exactly when they are equivalent. */
  lemma {:induction false} Kernel(nfc: Nfc, v: Value, w: Value, portable: bool)
    requires Normalize(nfc, v, portable).Some? && Normalize(nfc, w, portable).Some?
    ensures Normalize(nfc, v, portable) == Normalize(nfc, w, portable) <==> Equivalent(nfc, v, w)
    decreases v, 1
  {
    if IsSequence(v) && IsSequence(w) {
      ItemsKernel(nfc, v.items, w.items, portable);
    } else if IsMapping(v) && IsMapping(w) {
      MappingKernel(nfc, v.entries, w.entries, portable);
    } else if v.Bin? && IsMapping(w) {
      BytesKernel(nfc, v.bytes, w);
    } else if IsMapping(v) && w.Bin? {
      BytesKernel(nfc, w.bytes, v);
    } else if v.Bin? && w.Bin? {
      HexInjective(v.bytes, w.bytes);
    }
  }

  /** Two accepted values have equal canonical bytes exactly when they are equivalent. */
  lemma BytesDetermineValue(nfc: Nfc, v: Value, w: Value, portable: bool)
    requires NfcLaws(nfc)
    requires CanonicalBytes(nfc, v, portable).Some? && CanonicalBytes(nfc, w, portable).Some?
    ensures CanonicalBytes(nfc, v, portable) == CanonicalBytes(nfc, w, portable) <==> Equivalent(nfc, v, w)
  {
    NormalizeIsNormal(nfc, v, portable);
    NormalizeIsNormal(nfc, w, portable);
    PrintInjective(Normalize(nfc, v, portable).value, Normalize(nfc, w, portable).value);
    Kernel(nfc, v, w, portable);
  }
}
