/** Texts with unpaired surrogates, which Python and JavaScript can both hold and Go cannot: the agreement of
    the Python and the Node canonicalizer on all texts. */
module Surrogates {
  import opened Wrappers
  import opened Sorting
  import opened Unicode
  import opened Values
  import opened Canonical
  import opened ThreeWay
  import opened NodeAgreement
  import Go = GoCanonical
  import Node = NodeCanonical

  // ---- Texts ----

  /** No high surrogate is followed by a low one; as a pair, they would have been read as one character. */
  predicate IsPaired(t: Text) {
    forall i :: 0 <= i < |t| - 1 && t[i] < 0x1_0000 && t[i + 1] < 0x1_0000 && IsHigh(t[i]) ==> !IsLow(t[i + 1])
  }

  lemma FirstUnit(t: Text)
    requires t != []
    ensures Utf16(t) != [] && Utf16(t)[0] == EncodeUnits(t[0])[0]
    ensures !IsSurrogate(t[0]) && t[0] < 0x1_0000 ==> Utf16(t)[1..] == Utf16(t[1..])
    ensures t[0] >= 0x1_0000 ==>
      |Utf16(t)| >= 2 && Utf16(t)[1] == EncodeUnits(t[0])[1] && Utf16(t)[2..] == Utf16(t[1..])
    ensures t[0] < 0x1_0000 ==> Utf16(t) == [t[0]] + Utf16(t[1..])
  {
  }

  /** JavaScript's string is well-formed exactly if Python's has no surrogates. */
  lemma {:induction false} PairedDecodes(t: Text)
    requires IsPaired(t)
    ensures DecodeUtf16(Utf16(t)).Some? <==> Scalars(t)
  {
    if t != [] {
      FirstUnit(t);
      if !IsSurrogate(t[0]) {
        PairedDecodes(t[1..]);
        assert Scalars(t) <==> Scalars(t[1..]);
      } else {
        assert !Scalars(t);
        if IsHigh(t[0]) && |t| > 1 {
          FirstUnit(t[1..]);
        }
      }
    }
  }

  // ---- Values ----

  /** A typed value whose texts are as a JSON decoder leaves them. */
  ghost predicate Holdable(p: Portable) {
    match p
    case PReal(_, literal) => Go.BigInt(literal).None?
    case PText(t) => IsPaired(t)
    case PArray(ps) => forall q :: q in ps ==> Holdable(q)
    case PObject(es) => forall e :: e in es ==> assert e.val < e; IsPaired(e.key) && Holdable(e.val)
    case _ => true
  }

  /** Some text or key has an unpaired surrogate. */
  ghost predicate HasSurrogate(p: Portable) {
    match p
    case PText(t) => !Scalars(t)
    case PArray(ps) => exists q :: q in ps && HasSurrogate(q)
    case PObject(es) => exists e :: e in es && assert e.val < e; !Scalars(e.key) || HasSurrogate(e.val)
    case _ => false
  }

  lemma {:induction false} WithoutSurrogates(p: Portable)
    requires Holdable(p) && !HasSurrogate(p)
    ensures Transportable(p)
    decreases p
  {
    match p {
      case PArray(ps) =>
        forall q | q in ps ensures Transportable(q) {
          WithoutSurrogates(q);
        }
      case PObject(es) =>
        forall e | e in es ensures Scalars(e.key) && Transportable(e.val) {
          assert e.val < e;
          WithoutSurrogates(e.val);
        }
      case _ =>
    }
  }

  // ---- Python ----

  lemma {:induction false} KeyRejected(nfc: Nfc, es: seq<Pair<Text, Portable>>, i: nat)
    requires i < |es| && !Scalars(es[i].key)
    ensures NormalizeEntries(nfc, ToPythonEntries(es), true).None?
  {
    assert ToPythonEntries(es)[1..] == ToPythonEntries(es[1..]);
    if i > 0 {
      KeyRejected(nfc, es[1..], i - 1);
    }
  }

  lemma {:induction false} PythonRejects(nfc: Nfc, p: Portable)
    requires HasSurrogate(p)
    ensures Normalize(nfc, ToPython(p), true).None?
    decreases p
  {
    match p {
      case PArray(ps) =>
        var i :| 0 <= i < |ps| && HasSurrogate(ps[i]);
        PythonRejects(nfc, ps[i]);
        ItemRejected(nfc, ps, i);
      case PObject(es) =>
        var i :| 0 <= i < |es| && (!Scalars(es[i].key) || HasSurrogate(es[i].val));
        if !Scalars(es[i].key) {
          KeyRejected(nfc, es, i);
        } else {
          assert es[i].val < es[i];
          PythonRejects(nfc, es[i].val);
          EntryRejected(nfc, es, i);
        }
      case _ =>
    }
  }

  // ---- Node ----

  lemma {:induction false} NodeItemRejected(nfc: Nfc, round: int -> int, ps: seq<Portable>, i: nat)
    requires i < |ps| && Node.Normalize(nfc, ToNode(round, ps[i])).None?
    ensures Node.NormalizeItems(nfc, ToNodeItems(round, ps)).None?
  {
    assert ToNodeItems(round, ps)[1..] == ToNodeItems(round, ps[1..]);
    if i > 0 {
      NodeItemRejected(nfc, round, ps[1..], i - 1);
    }
  }

  lemma {:induction false} NodePropRejected(nfc: Nfc, round: int -> int, es: seq<Pair<Text, Portable>>, i: nat)
    requires i < |es|
    requires DecodeUtf16(Utf16(es[i].key)).None? || Node.Normalize(nfc, ToNode(round, es[i].val)).None?
    ensures Node.NormalizeProps(nfc, ToNodeProps(round, es)).None?
  {
    assert ToNodeProps(round, es)[1..] == ToNodeProps(round, es[1..]);
    if i > 0 {
      NodePropRejected(nfc, round, es[1..], i - 1);
    }
  }

  lemma {:induction false} NodeRejects(nfc: Nfc, round: int -> int, p: Portable)
    requires Holdable(p) && HasSurrogate(p)
    ensures Node.Normalize(nfc, ToNode(round, p)).None?
    decreases p
  {
    match p {
      case PText(t) => PairedDecodes(t);
      case PArray(ps) =>
        var i :| 0 <= i < |ps| && HasSurrogate(ps[i]);
        NodeRejects(nfc, round, ps[i]);
        NodeItemRejected(nfc, round, ps, i);
      case PObject(es) =>
        var i :| 0 <= i < |es| && (!Scalars(es[i].key) || HasSurrogate(es[i].val));
        assert es[i] in es && es[i].val < es[i];
        PairedDecodes(es[i].key);
        if Scalars(es[i].key) {
          NodeRejects(nfc, round, es[i].val);
        }
        NodePropRejected(nfc, round, es, i);
      case _ =>
    }
  }

  // ---- Agreement ----

  /** On every typed value that both can hold, unpaired surrogates included: Node agrees with Python exactly
      if some text has such a surrogate, no float is a safe integer, or the value has a defect even with such
      floats read as integers. */
  lemma TwoWayAgreement(nfc: Nfc, round: int -> int, p: Portable)
    requires NfcLaws(nfc) && IsRounding(round) && Holdable(p)
    ensures Node.CanonicalBytes(nfc, ToNode(round, p)) == CanonicalBytes(nfc, ToPython(p), true)
            <==> HasSurrogate(p) || !HasIntegralFloat(p) || Defective(nfc, Integerized(p))
  {
    hide ToNode, ToPython, Integerized, Defective, HasIntegralFloat, HasSurrogate, Transportable, Holdable, NfcLaws;
    hide IsRounding, Node.Normalize, Normalize;
    if HasSurrogate(p) {
      PythonRejects(nfc, p);
      NodeRejects(nfc, round, p);
    } else {
      WithoutSurrogates(p);
      ThreeWayAgreement(nfc, round, p);
    }
  }
}
