/** When a verdict of `verify` lasts, so that its separately locked reads act as one. */
module Stability {
  import opened Wrappers
  import opened Sorting
  import opened Unicode
  import opened Values
  import opened Canonical
  import opened Models
  import opened Stores
  import opened Binding
  import opened Agreement
  import opened Machine
  import opened Trace
  import Authority
  import Sink
  import State

  // ---- The protected state ----

  ghost predicate HashesTo(env: Env, t: StateTransition, d: Text, id: Text) {
    Digest(env, TransitionCore(t, d)) == Some(id) && MayHash(env, TransitionCore(t, d))
  }

  /** A recorded transition: its id is the hash of it, and its nonce is normal and taken. */
  ghost predicate TransitionOk(env: Env, s: State.Protected, id: Text)
    requires id in s.transitions
  {
    var t := s.transitions[id];
    env.nfc(t.nonce) == t.nonce && t.nonce in s.nonces && exists d :: HashesTo(env, t, d, id)
  }

  ghost predicate StateOk(env: Env, s: State.Protected) {
    forall id :: id in s.transitions ==> TransitionOk(env, s, id)
  }

  /** Nothing recorded is lost or replaced. */
  ghost predicate Grows(s: State.Protected, s': State.Protected) {
    && (forall id :: id in s.transitions ==> id in s'.transitions && s'.transitions[id] == s.transitions[id])
    && (forall n :: n in s.nonces ==> n in s'.nonces && s'.nonces[n] == s.nonces[n])
  }

  lemma AuthorizedId(env: Env, s: State.Protected, c: CandidateAct, cost: int) returns (d: Text)
    requires State.Authorize(env, s, c, cost).1.Ok? && MayRecord(env, s, c, cost)
    ensures var (s', result) := State.Authorize(env, s, c, cost); var t := result.value;
      && c.nonce !in s.nonces && t.nonce == c.nonce && HashesTo(env, t, d, t.transition_id)
      && s'.transitions == s.transitions[t.transition_id := t] && s'.nonces == s.nonces[c.nonce := t.transition_id]
  {
    hide CandidateDigest, Canon;
    d := CandidateDigest(env, c).value;
  }

  /** A normal nonce gives the transition an id of its own. */
  lemma FreshId(env: Env, s: State.Protected, c: CandidateAct, cost: int)
    requires EnvLaws(env) && StateOk(env, s) && env.nfc(c.nonce) == c.nonce
    requires State.Authorize(env, s, c, cost).1.Ok? && MayRecord(env, s, c, cost)
    ensures State.Authorize(env, s, c, cost).1.value.transition_id !in s.transitions
  {
    hide State.Authorize, MayRecord, Digest, MayHash, TransitionCore;
    var d := AuthorizedId(env, s, c, cost);
    var t := State.Authorize(env, s, c, cost).1.value;
    if t.transition_id in s.transitions {
      var u := s.transitions[t.transition_id];
      assert TransitionOk(env, s, t.transition_id);
      var e :| HashesTo(env, u, e, t.transition_id);
      SameHashSameTransition(env, t, d, u, e, t.transition_id);
    }
  }

  lemma SameHashSameTransition(env: Env, t: StateTransition, d: Text, u: StateTransition, e: Text, id: Text)
    requires EnvLaws(env) && HashesTo(env, t, d, id) && HashesTo(env, u, e, id)
    ensures SameTransition(env.nfc, t, d, u, e)
  {
    hide TransitionCore, CanonicalBytes, SameTransition;
    DigestBinds(env, TransitionCore(t, d), TransitionCore(u, e));
    TransitionCoreBinds(env.nfc, t, d, u, e);
  }

  lemma RecordedGrows(env: Env, s: State.Protected, s': State.Protected, t: StateTransition, d: Text)
    requires StateOk(env, s) && t.transition_id !in s.transitions && t.nonce !in s.nonces
    requires HashesTo(env, t, d, t.transition_id) && env.nfc(t.nonce) == t.nonce
    requires s'.transitions == s.transitions[t.transition_id := t]
    requires s'.nonces == s.nonces[t.nonce := t.transition_id]
    ensures Grows(s, s') && StateOk(env, s')
  {
    hide HashesTo;
    forall id | id in s'.transitions ensures TransitionOk(env, s', id) {
      assert id != t.transition_id ==> TransitionOk(env, s, id);
    }
  }

  lemma UnchangedGrows(env: Env, s: State.Protected, s': State.Protected)
    requires StateOk(env, s) && s'.transitions == s.transitions && s'.nonces == s.nonces
    ensures Grows(s, s') && StateOk(env, s')
  {
    hide HashesTo;
    forall id | id in s'.transitions ensures TransitionOk(env, s', id) {
      assert TransitionOk(env, s, id);
    }
  }

  lemma AuthorizeGrows(env: Env, s: State.Protected, c: CandidateAct, cost: int)
    requires EnvLaws(env) && StateOk(env, s) && env.nfc(c.nonce) == c.nonce && MayRecord(env, s, c, cost)
    ensures Grows(s, State.Authorize(env, s, c, cost).0) && StateOk(env, State.Authorize(env, s, c, cost).0)
  {
    hide MayRecord, HashesTo, EnvLaws, State.Authorize, StateOk, Grows;
    var (s', result) := State.Authorize(env, s, c, cost);
    if result.Ok? {
      FreshId(env, s, c, cost);
      var d := AuthorizedId(env, s, c, cost);
      RecordedGrows(env, s, s', result.value, d);
    } else {
      RefusalKeeps(env, s, c, cost);
      UnchangedGrows(env, s, s');
    }
  }

  lemma RefusalKeeps(env: Env, s: State.Protected, c: CandidateAct, cost: int)
    requires State.Authorize(env, s, c, cost).1.Err?
    ensures var s' := State.Authorize(env, s, c, cost).0; s'.transitions == s.transitions && s'.nonces == s.nonces
  {
    hide State.TransitionId;
  }

  lemma GrowsVerify(s: State.Protected, s': State.Protected, id: Text, c: CandidateAct)
    requires Grows(s, s') && State.VerifyTransition(s, id, c)
    ensures State.VerifyTransition(s', id, c)
  {
  }

  // ---- Congruence ----

  lemma {:induction false} EntriesCongruent(nfc: Nfc, es: seq<Pair<Key, Value>>, ds: seq<Pair<Key, Value>>,
                                           portable: bool)
    requires |es| == |ds|
    requires forall i :: 0 <= i < |es| ==>
      es[i].key == ds[i].key && Normalize(nfc, es[i].val, portable) == Normalize(nfc, ds[i].val, portable)
    ensures NormalizeEntries(nfc, es, portable) == NormalizeEntries(nfc, ds, portable)
  {
    if es != [] {
      EntriesCongruent(nfc, es[1..], ds[1..], portable);
    }
  }

  lemma FieldsCongruent(nfc: Nfc, names: seq<string>, vs: seq<Value>, ws: seq<Value>, portable: bool)
    requires |names| == |vs| == |ws|
    requires forall i :: 0 <= i < |vs| ==> Normalize(nfc, vs[i], portable) == Normalize(nfc, ws[i], portable)
    ensures CanonicalBytes(nfc, Dict(FieldsOf(names, vs)), portable)
            == CanonicalBytes(nfc, Dict(FieldsOf(names, ws)), portable)
    ensures CanonicalBytes(nfc, Record(FieldsOf(names, vs)), portable)
            == CanonicalBytes(nfc, Record(FieldsOf(names, ws)), portable)
  {
    hide Normalize, CanonicalBytes;
    EntriesCongruent(nfc, FieldsOf(names, vs), FieldsOf(names, ws), portable);
    SameEntriesSameBytes(nfc, FieldsOf(names, vs), FieldsOf(names, ws), portable);
  }

  lemma SameEntriesSameBytes(nfc: Nfc, es: seq<Pair<Key, Value>>, ds: seq<Pair<Key, Value>>, portable: bool)
    requires NormalizeEntries(nfc, es, portable) == NormalizeEntries(nfc, ds, portable)
    ensures CanonicalBytes(nfc, Dict(es), portable) == CanonicalBytes(nfc, Dict(ds), portable)
    ensures CanonicalBytes(nfc, Record(es), portable) == CanonicalBytes(nfc, Record(ds), portable)
  {
  }

  /** Equal fields, up to NFC, are hashed alike. */
  lemma SameTransitionSameHash(env: Env, t: StateTransition, d: Text, u: StateTransition, e: Text)
    requires Digest(env, TransitionCore(t, d)).Some? && Digest(env, TransitionCore(u, e)).Some?
    requires SameTransition(env.nfc, t, d, u, e)
    ensures Digest(env, TransitionCore(t, d)) == Digest(env, TransitionCore(u, e))
  {
    hide TransitionValues, SameTransition, FieldsOf, Normalize;
    var vs, ws := TransitionValues(t, d), TransitionValues(u, e);
    forall i | 0 <= i < |vs| ensures Normalize(env.nfc, vs[i], false) == Normalize(env.nfc, ws[i], false) {
      FieldAccepted(env.nfc, TRANSITION_FIELDS, vs, i);
      FieldAccepted(env.nfc, TRANSITION_FIELDS, ws, i);
      SameFieldNormalizes(env.nfc, t, d, u, e, i);
    }
    hide CanonicalBytes;
    FieldsCongruent(env.nfc, TRANSITION_FIELDS, vs, ws, false);
  }

  lemma SameFieldNormalizes(nfc: Nfc, t: StateTransition, d: Text, u: StateTransition, e: Text, i: nat)
    requires SameTransition(nfc, t, d, u, e) && i < |TRANSITION_FIELDS|
    requires Normalize(nfc, TransitionValues(t, d)[i], false).Some?
    requires Normalize(nfc, TransitionValues(u, e)[i], false).Some?
    ensures Normalize(nfc, TransitionValues(t, d)[i], false) == Normalize(nfc, TransitionValues(u, e)[i], false)
  {
  }

  // ---- What undoes a verdict ----

  /** A verified transition stays verified unless another one is recorded under its id. */
  lemma StableIffFreshId(env: Env, s: State.Protected, c: CandidateAct, cost: int, id: Text, verified: CandidateAct)
    requires State.VerifyTransition(s, id, verified) && State.Authorize(env, s, c, cost).1.Ok?
    ensures State.VerifyTransition(State.Authorize(env, s, c, cost).0, id, verified)
            <==> State.TransitionId(env, State.SourceOf(s, c.source), c, cost) != Some(id)
  {
    hide State.TransitionId;
  }

  /** The exact condition: authorizing `c` undoes a verdict on the recorded transition `u` exactly if the
      transition that it makes of the state of its source agrees with `u` in every hashed field up to NFC.
      The nonces are then different texts with one normal form. */
  lemma UndoneIffSameTransition(env: Env, s: State.Protected, c: CandidateAct, cost: int, id: Text, e: Text,
                                verified: CandidateAct)
    requires EnvLaws(env) && State.VerifyTransition(s, id, verified) && HashesTo(env, s.transitions[id], e, id)
    requires State.Authorize(env, s, c, cost).1.Ok? && MayRecord(env, s, c, cost)
    ensures CandidateDigest(env, c).Some?
    ensures !State.VerifyTransition(State.Authorize(env, s, c, cost).0, id, verified)
            <==> SameTransition(env.nfc, State.TransitionFrom(State.SourceOf(s, c.source), c, cost),
                                CandidateDigest(env, c).value, s.transitions[id], e)
    ensures !State.VerifyTransition(State.Authorize(env, s, c, cost).0, id, verified) ==>
              c.nonce != verified.nonce && env.nfc(c.nonce) == env.nfc(verified.nonce)
  {
    assert id in s.transitions;
    hide State.VerifyTransition, TransitionCore, Digest, MayHash, EnvLaws, SameTransition, CandidateDigest;
    AuthorizedHash(env, s, c, cost);
    StableIffFreshId(env, s, c, cost, id, verified);
    hide State.Authorize;
    var t, d := State.TransitionFrom(State.SourceOf(s, c.source), c, cost), CandidateDigest(env, c).value;
    if Digest(env, TransitionCore(t, d)) == Some(id) {
      SameHashSameTransition(env, t, d, s.transitions[id], e, id);
      AliasedNonce(env, s, c, cost, id, verified, e);
    } else if SameTransition(env.nfc, t, d, s.transitions[id], e) {
      SameTransitionSameHash(env, t, d, s.transitions[id], e);
    }
  }

  lemma AuthorizedHash(env: Env, s: State.Protected, c: CandidateAct, cost: int)
    requires State.Authorize(env, s, c, cost).1.Ok? && MayRecord(env, s, c, cost)
    ensures CandidateDigest(env, c).Some? && c.nonce !in s.nonces
    ensures var t, d := State.TransitionFrom(State.SourceOf(s, c.source), c, cost), CandidateDigest(env, c).value;
      && Digest(env, TransitionCore(t, d)).Some? && MayHash(env, TransitionCore(t, d))
      && State.TransitionId(env, State.SourceOf(s, c.source), c, cost) == Digest(env, TransitionCore(t, d))
  {
    hide CandidateDigest, Digest, TransitionCore, MayHash;
  }

  lemma AliasedNonce(env: Env, s: State.Protected, c: CandidateAct, cost: int, id: Text, verified: CandidateAct,
                     e: Text)
    requires State.VerifyTransition(s, id, verified) && c.nonce !in s.nonces && CandidateDigest(env, c).Some?
    requires SameTransition(env.nfc, State.TransitionFrom(State.SourceOf(s, c.source), c, cost),
                            CandidateDigest(env, c).value, s.transitions[id], e)
    ensures c.nonce != verified.nonce && env.nfc(c.nonce) == env.nfc(verified.nonce)
  {
    hide CandidateDigest;
  }

  // ---- Aliased nonces ----

  /** The nonces are different texts with the same normal form. */
  predicate Aliased(nfc: Nfc, m: Text, n: Text) { m != n && nfc(m) == nfc(n) && Scalars(m) && Scalars(n) }

  lemma AliasedCandidates(env: Env, c: CandidateAct, n: Text)
    requires Aliased(env.nfc, c.nonce, n)
    ensures CandidateDigest(env, c.(nonce := n)) == CandidateDigest(env, c)
  {
    var d := c.(nonce := n);
    assert CandidateValues(d) == CandidateValues(c)[8 := Str(n)];
    assert CandidateValues(c)[8] == Str(c.nonce);
    FieldsCongruent(env.nfc, CANDIDATE_FIELDS, CandidateValues(c), CandidateValues(d), false);
  }

  lemma AliasedTransitions(env: Env, t: StateTransition, n: Text, d: Text)
    requires Aliased(env.nfc, t.nonce, n)
    ensures Digest(env, TransitionCore(t.(nonce := n), d)) == Digest(env, TransitionCore(t, d))
  {
    assert TransitionValues(t.(nonce := n), d) == TransitionValues(t, d)[0 := Str(n)];
    assert TransitionValues(t, d)[0] == Str(t.nonce);
    FieldsCongruent(env.nfc, TRANSITION_FIELDS, TransitionValues(t, d), TransitionValues(t.(nonce := n), d), false);
  }

  /** Without normal nonces verdicts do not last: authorize an act, configure its source anew, authorize
      the act again under an alias of its nonce, and the first transition no longer verifies. */
  lemma AliasUndoesVerdict(env: Env, s: State.Protected, c: CandidateAct, cost: int, n: Text)
    requires Aliased(env.nfc, c.nonce, n) && c.nonce !in s.nonces && n !in s.nonces && cost > 0
    requires CandidateDigest(env, c).Some? && State.SourceOf(s, c.source).version == 0
    requires State.Authorize(env, s, c, cost).1.Ok?
    ensures var x := State.SourceOf(s, c.source);
      var (s1, first) := State.Authorize(env, s, c, cost);
      var s2 := State.Configure(s1, c.source, x.quota, x.budget);
      var (s3, second) := State.Authorize(env, s2, c.(nonce := n), cost);
      && State.VerifyTransition(s1, first.value.transition_id, c)
      && State.VerifyTransition(s2, first.value.transition_id, c)
      && second.Ok? && second.value.transition_id == first.value.transition_id
      && !State.VerifyTransition(s3, first.value.transition_id, c)
  {
    hide Digest, TransitionCore, CandidateDigest;
    var x := State.SourceOf(s, c.source);
    AliasedCandidates(env, c, n);
    AliasedTransitions(env, State.TransitionFrom(x, c, cost), n, CandidateDigest(env, c).value);
    assert State.TransitionFrom(x, c.(nonce := n), cost) == State.TransitionFrom(x, c, cost).(nonce := n);
    assert State.TransitionId(env, x, c.(nonce := n), cost) == State.TransitionId(env, x, c, cost);
  }
}
