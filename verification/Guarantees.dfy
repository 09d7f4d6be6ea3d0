/** What holds in every run, whatever the interleaving. */
module Guarantees {
  import opened Wrappers
  import opened Sorting
  import opened Unicode
  import opened Values
  import opened Canonical
  import opened Laws
  import opened Equivalence
  import opened Models
  import opened Stores
  import opened Binding
  import opened Counting
  import opened Agreement
  import opened Machine
  import opened Trace
  import opened AtMostOnce
  import Authority
  import Policy
  import Sink
  import State

  /** A run from a fresh start leads to `w`. */
  ghost predicate Leads(cfg: Config, start: World, run: seq<Action>, w: World) {
    Fresh(cfg, start) && CanRun(cfg, start, run) && w == Run(cfg, start, run)
  }

  ghost predicate Reachable(cfg: Config, w: World) {
    WellFormed(cfg) && exists start, run :: Leads(cfg, start, run, w)
  }

  /** Every reachable state is traced and accounted for. */
  lemma Reached(cfg: Config, w: World)
    requires Reachable(cfg, w)
    ensures EnvLaws(cfg.env) && Traced(cfg, w) && Accounted(cfg, w)
  {
    hide Run, CanRun;
    var start, run :| Leads(cfg, start, run, w);
    FreshAccounts(cfg, start);
    RunTraced(cfg, start, run);
    RunAccounted(cfg, start, run);
  }

  lemma {:induction false} RunOn(cfg: Config, w: World, a: seq<Action>, b: seq<Action>)
    requires Wired(cfg, w) && CanRun(cfg, w, a) && CanRun(cfg, Run(cfg, w, a), b)
    ensures CanRun(cfg, w, a + b) && Run(cfg, w, a + b) == Run(cfg, Run(cfg, w, a), b)
    decreases |a|
  {
    hide Enabled, Next;
    if a == [] {
      assert a + b == b;
    } else {
      StaysWired(cfg, w, a[0]);
      RunOn(cfg, Next(cfg, w, a[0]), a[1..], b);
      assert (a + b)[0] == a[0] && (a + b)[1..] == a[1..] + b;
    }
  }

  lemma ReachedOnward(cfg: Config, w: World, run: seq<Action>)
    requires Reachable(cfg, w) && Wired(cfg, w) && CanRun(cfg, w, run)
    ensures Reachable(cfg, Run(cfg, w, run))
  {
    hide Run, CanRun, WellFormed, Fresh;
    var start, before :| Leads(cfg, start, before, w);
    assert Wired(cfg, start) by {
      FreshIsWired(cfg, start);
    }
    RunOn(cfg, start, before, run);
    assert Leads(cfg, start, before + run, Run(cfg, w, run));
  }

  lemma FreshIsWired(cfg: Config, w: World)
    requires Fresh(cfg, w)
    ensures Wired(cfg, w)
  {
  }

  lemma FreshAccounts(cfg: Config, w: World)
    requires Fresh(cfg, w)
    ensures Traced(cfg, w) && Accounted(cfg, w)
  {
  }

  // ---- Injective agreement ----

  predicate IsEffect(log: seq<Event>, i: nat) { i < |log| && log[i].WasEffected? }

  /** Where in the log the steps are that lead to an effect. */
  datatype Chain = Chain(record: nat, commit: nat, issue: nat, claim: nat)

  /** The effect at `i` was preceded by a claim of the same thread, and that by the issue of a
      capability for this very request, on evidence committed before it, on a transition recorded
      before that, for a candidate that the policy admitted. */
  ghost predicate IsChain(cfg: Config, log: seq<Event>, i: nat, ch: Chain)
    requires IsEffect(log, i)
  {
    var WasEffected(tid, sink, r, record) := log[i];
    && ch.record < ch.commit < ch.issue < ch.claim < i
    && log[ch.claim] == WasClaimed(tid, sink, r)
    && sink < |cfg.sinks| && IssuedFor(cfg, log[ch.issue], cfg.sinks[sink].settings, r)
    && IsAuthorization(cfg, log, ch)
    && record.candidate_digest == r.cap.candidate_digest && record.payload == r.candidate.payload
  }

  /** The issue in the chain ends a complete authorization by one thread. */
  ghost predicate IsAuthorization(cfg: Config, log: seq<Event>, ch: Chain)
    requires ch.record < |log| && ch.commit < |log| && ch.issue < |log|
  {
    && log[ch.issue].WasIssued?
    && var WasIssued(author, g) := log[ch.issue];
    && log[ch.commit] == WasCommitted(author, g.c, g.cost, g.now, g.t, g.e)
    && log[ch.record] == WasRecorded(author, g.c, g.cost, g.now, g.t)
    && Policy.Admits(cfg.authority.policy, g.c, g.now)
  }

  lemma Before(log: seq<Event>, i: nat, e: Event) returns (j: nat)
    requires i <= |log| && e in log[..i]
    ensures j < i && log[j] == e
  {
    j :| 0 <= j < i && log[..i][j] == e;
  }

  lemma AuthorizationBefore(cfg: Config, log: seq<Event>, issue: nat) returns (ch: Chain)
    requires AllJustified(cfg, log) && issue < |log| && log[issue].WasIssued?
    ensures ch.record < ch.commit < ch.issue == issue && IsAuthorization(cfg, log, ch)
  {
    hide IsGrant, Granted, IsRecorded;
    var WasIssued(author, g) := log[issue];
    assert Justified(cfg, log[..issue], log[issue]);
    var commit := Before(log, issue, WasCommitted(author, g.c, g.cost, g.now, g.t, g.e));
    assert Justified(cfg, log[..commit], log[commit]);
    var record := Before(log, commit, WasRecorded(author, g.c, g.cost, g.now, g.t));
    assert Justified(cfg, log[..record], log[record]);
    AdmittedByPolicy(cfg, g.c, g.now, g.t);
    ch := Chain(record, commit, issue, 0);
  }

  lemma AdmittedByPolicy(cfg: Config, c: CandidateAct, now: int, t: StateTransition)
    requires IsRecorded(cfg, c, now, t)
    ensures Policy.Admits(cfg.authority.policy, c, now)
  {
    Policy.NoReasonIffAdmitted(cfg.authority.policy, c, now);
  }

  /** Each effect has a chain. */
  lemma EffectHasChain(cfg: Config, log: seq<Event>, i: nat) returns (ch: Chain)
    requires AllJustified(cfg, log) && IsEffect(log, i)
    ensures IsChain(cfg, log, i, ch)
  {
    hide IsGrant, Agrees, IsRecorded, Sink.CheckLocal, CandidateDigest, Proven, IsAuthorization;
    var WasEffected(tid, sink, r, record) := log[i];
    assert Justified(cfg, log[..i], log[i]);
    var claim := Before(log, i, WasClaimed(tid, sink, r));
    assert Justified(cfg, log[..claim], log[claim]);
    var k := cfg.sinks[sink].settings;
    var e :| e in log[..claim] && IssuedFor(cfg, e, k, r);
    var issue := Before(log, claim, e);
    var authorization := AuthorizationBefore(cfg, log, issue);
    ch := authorization.(claim := claim);
    assert IsAuthorization(cfg, log, ch) by {
      SameAuthorization(cfg, log, authorization, claim);
    }
    LocalDigest(cfg.env, k, r);
  }

  lemma SameAuthorization(cfg: Config, log: seq<Event>, ch: Chain, claim: nat)
    requires ch.record < |log| && ch.commit < |log| && ch.issue < |log| && IsAuthorization(cfg, log, ch)
    ensures IsAuthorization(cfg, log, ch.(claim := claim))
  {
  }

  lemma LocalDigest(env: Env, k: Sink.Settings, r: Sink.Request)
    requires Sink.CheckLocal(env, k, r) == Ok(())
    ensures CandidateDigest(env, r.candidate) == Some(r.cap.candidate_digest)
  {
    LocalFacts(env, k, r);
  }

  /** Sinks with different stores serve different places, and no store is lost. */
  ghost predicate Separated(cfg: Config) {
    forall k, l :: 0 <= k < |cfg.sinks| && 0 <= l < |cfg.sinks| ==>
      cfg.sinks[k].store in cfg.durable.stores
      && (cfg.sinks[k].store == cfg.sinks[l].store || Apart(cfg.env, cfg.sinks[k].settings, cfg.sinks[l].settings))
  }

  /** The sinks differ in sink id or boundary id, even up to NFC. */
  predicate Apart(env: Env, k: Sink.Settings, l: Sink.Settings) {
    env.nfc(k.context.sink_id) != env.nfc(l.context.sink_id)
            || env.nfc(k.context.boundary_id) != env.nfc(l.context.boundary_id)
  }

  /** Two effects through the same store used different capabilities, however often processes
      crashed in between, provided that crashes spare the store. */
  lemma CrashTolerantAtMostOnce(cfg: Config, w: World, i: nat, j: nat)
    requires Reachable(cfg, w) && IsEffect(w.log, i) && IsEffect(w.log, j) && i != j
    ensures w.log[i].tid != w.log[j].tid
    ensures SameDurableStore(cfg, w.log[i].sink, w.log[j].sink) ==>
      w.log[i].r.cap.capability_id != w.log[j].r.cap.capability_id
  {
    hide Reachable;
    Reached(cfg, w);
    EffectsDiffer(cfg, w, i, j);
  }

  predicate SameDurableStore(cfg: Config, k: nat, l: nat) {
    && k < |cfg.sinks| && l < |cfg.sinks| && cfg.sinks[k].store == cfg.sinks[l].store
    && cfg.sinks[k].store in cfg.durable.stores
  }

  lemma EffectsDiffer(cfg: Config, w: World, i: nat, j: nat)
    requires Traced(cfg, w) && Accounted(cfg, w) && IsEffect(w.log, i) && IsEffect(w.log, j) && i != j
    ensures w.log[i].tid != w.log[j].tid
    ensures SameDurableStore(cfg, w.log[i].sink, w.log[j].sink) ==>
      w.log[i].r.cap.capability_id != w.log[j].r.cap.capability_id
  {
    hide Conserved, OrdinalsOk, AllReferenced, Granted, AllJustified;
    assert IsMilestone(w.log[i]) && IsMilestone(w.log[j]) && SameKind(w.log[i], w.log[j])
            && SameKind(w.log[j], w.log[i]);
    if SameDurableStore(cfg, w.log[i].sink, w.log[j].sink) {
      var a, b := w.log[i].tid, w.log[j].tid;
      var s := cfg.sinks[w.log[i].sink].store;
      assert Holder(cfg, s, w.threads[a]) && Holder(cfg, s, w.threads[b]);
    }
  }

  lemma ChainsDiffer(cfg: Config, w: World, i: nat, j: nat, ch: Chain, dh: Chain)
    requires Traced(cfg, w) && Accounted(cfg, w) && Separated(cfg) && AreChains(cfg, w.log, i, j, ch, dh)
    ensures Distinguished(w.log, ch, dh)
  {
    hide ClaimsOk, Conserved, OrdinalsOk, AllReferenced, Granted, AllJustified, ThreadOk;
    hide SameAct, SameCapability, CandidateDigest, DescriptorDigest, InWindow;
    EffectsDiffer(cfg, w, i, j);
    if ch.issue != dh.issue {
      assert SameKind(w.log[ch.issue], w.log[dh.issue]) && SameKind(w.log[dh.issue], w.log[ch.issue]);
    }
  }

  /** Injective agreement: every effect has a complete authorization behind it that agrees with it in
      act, descriptor, sink, boundary, nonce, scope and epoch, and no two effects have the same one. */
  lemma InjectiveAgreement(cfg: Config, w: World)
    requires Reachable(cfg, w)
    ensures forall i :: IsEffect(w.log, i) ==> exists ch :: IsChain(cfg, w.log, i, ch)
    ensures Separated(cfg) ==> forall i, j, ch, dh ::
      AreChains(cfg, w.log, i, j, ch, dh) ==> Distinguished(w.log, ch, dh)
  {
    hide Reachable, AllJustified, IsChain, Separated, Accounted, ThreadsOk;
    Reached(cfg, w);
    forall i | IsEffect(w.log, i) ensures exists ch :: IsChain(cfg, w.log, i, ch) {
      var ch := EffectHasChain(cfg, w.log, i);
    }
    if Separated(cfg) {
      forall i, j, ch, dh | AreChains(cfg, w.log, i, j, ch, dh) ensures Distinguished(w.log, ch, dh) {
        ChainsDiffer(cfg, w, i, j, ch, dh);
      }
    }
  }

  /** The chains lead to different effects. */
  ghost predicate AreChains(cfg: Config, log: seq<Event>, i: nat, j: nat, ch: Chain, dh: Chain) {
    i != j && IsEffect(log, i) && IsEffect(log, j) && IsChain(cfg, log, i, ch) && IsChain(cfg, log, j, dh)
  }

  /** The chains come from different capabilities, issued by different calls. */
  predicate Distinguished(log: seq<Event>, ch: Chain, dh: Chain) {
    && ch.issue < |log| && dh.issue < |log| && log[ch.issue].WasIssued? && log[dh.issue].WasIssued?
    && ch.issue != dh.issue && log[ch.issue].tid != log[dh.issue].tid
  }

  // ---- Exact acts and times ----

  predicate Accepted(stage: Stage) {
    stage.Local? || stage.Evidenced? || stage.Verified? || HasClaimed(stage)
  }

  /** A request that a sink accepts is for the act that was authorized, in all 18 fields. */
  lemma ExactActBinding(cfg: Config, w: World, tid: nat) returns (i: nat)
    requires Reachable(cfg, w) && tid < |w.threads| && w.threads[tid].Presenting? && Accepted(w.threads[tid].stage)
    ensures i < |w.log| && w.log[i].WasIssued?
    ensures SameAct(cfg.env.nfc, w.threads[tid].r.candidate, w.log[i].g.c)
    ensures SameCapability(cfg.env.nfc, w.threads[tid].r.cap, w.log[i].g.cap)
  {
    hide SameAct, SameCapability;
    hide Reachable, Traced, Accounted;
    Reached(cfg, w);
    i := AcceptedIsIssued(cfg, w, tid);
  }

  lemma AcceptedIsIssued(cfg: Config, w: World, tid: nat) returns (i: nat)
    requires Traced(cfg, w) && tid < |w.threads| && w.threads[tid].Presenting? && Accepted(w.threads[tid].stage)
    ensures w.threads[tid].sink < |cfg.sinks|
    ensures i < |w.log| && IssuedFor(cfg, w.log[i], cfg.sinks[w.threads[tid].sink].settings, w.threads[tid].r)
  {
    hide IssuedFor, Sink.CheckLocal, Proven, AllJustified, ProgressOk;
    var Presenting(sink, r, stage) := w.threads[tid];
    assert ThreadOk(cfg, w.log, tid, w.threads[tid]);
    if HasClaimed(stage) {
      i := ClaimIsIssued(cfg, w.log, WasClaimed(tid, sink, r));
    } else {
      var e :| e in w.log && IssuedFor(cfg, e, cfg.sinks[sink].settings, r);
      i :| 0 <= i < |w.log| && w.log[i] == e;
    }
  }

  lemma ClaimIsIssued(cfg: Config, log: seq<Event>, claim: Event) returns (i: nat)
    requires AllJustified(cfg, log) && claim in log && claim.WasClaimed?
    ensures claim.sink < |cfg.sinks|
    ensures i < |log| && IssuedFor(cfg, log[i], cfg.sinks[claim.sink].settings, claim.r)
  {
    hide IssuedFor, Sink.CheckLocal, Proven;
    var c :| 0 <= c < |log| && log[c] == claim;
    assert Justified(cfg, log[..c], log[c]);
    var e :| e in log[..c] && IssuedFor(cfg, e, cfg.sinks[claim.sink].settings, claim.r);
    i := Before(log, c, e);
  }

  /** When an effect can happen, relative to its authorization. */
  lemma TimeBound(cfg: Config, w: World, i: nat, ch: Chain)
    requires Reachable(cfg, w) && IsEffect(w.log, i) && IsChain(cfg, w.log, i, ch)
    ensures Timely(cfg, w.log[i].sink, w.log[i].r.now, w.log[ch.issue].g)
    ensures cfg.sinks[w.log[i].sink].settings.require_presentation_proof
            ==> ProvenBefore(cfg, w.log, ch.claim, w.log[i].sink, w.log[i].r, w.log[ch.issue].g)
  {
    hide Reachable, Accounted, ThreadsOk, AllJustified, EnvLaws, ProvenBefore, IsChain;
    Reached(cfg, w);
    ChainTimely(cfg, w.log, i, ch);
    if cfg.sinks[w.log[i].sink].settings.require_presentation_proof {
      EffectProven(cfg, w.log, i, ch);
    }
  }

  lemma ChainTimely(cfg: Config, log: seq<Event>, i: nat, ch: Chain)
    requires IsEffect(log, i) && IsChain(cfg, log, i, ch)
    ensures Timely(cfg, log[i].sink, log[i].r.now, log[ch.issue].g)
  {
    hide SameMandate, SamePlace, IsAuthorization;
  }

  /** Between authorization less the sink's skew and the earlier end of freshness and lifetime, and
      never before the candidate's issue less both skews. */
  predicate Timely(cfg: Config, sink: nat, now: int, g: Grant) {
    && sink < |cfg.sinks|
    && var skew := cfg.sinks[sink].settings.max_clock_skew_ns;
    && g.now - skew <= now <= g.c.issued_at_ns + g.c.freshness_ns
    && now <= g.now + cfg.authority.capability_ttl_ns
    && g.c.issued_at_ns - cfg.authority.policy.max_future_skew_ns - skew <= now
  }

  /** Before `claim`, a presenter that the authorized act names signed a fresh proof for `r`. */
  ghost predicate ProvenBefore(cfg: Config, log: seq<Event>, claim: nat, sink: nat, r: Sink.Request, g: Grant)
    requires claim <= |log| && sink < |cfg.sinks|
  {
    && Proven(cfg.env, log[..claim], cfg.sinks[sink].settings, r)
    && var named := Get(g.c.authority_context, Lit("presenter_key_id"));
    named.Some? && named.value.Str? && cfg.env.nfc(named.value.text) == cfg.env.nfc(r.proof.value.presenter_key_id)
  }

  lemma EffectProven(cfg: Config, log: seq<Event>, i: nat, ch: Chain)
    requires EnvLaws(cfg.env) && AllJustified(cfg, log) && IsEffect(log, i) && IsChain(cfg, log, i, ch)
    requires cfg.sinks[log[i].sink].settings.require_presentation_proof
    ensures ProvenBefore(cfg, log, ch.claim, log[i].sink, log[i].r, log[ch.issue].g)
  {
    hide Sink.CheckLocal, SameCapability, SamePlace, InWindow, CandidateDigest, DescriptorDigest;
    hide Canonical.CanonicalBytes;
    var WasEffected(tid, sink, r, _) := log[i];
    assert Justified(cfg, log[..ch.claim], log[ch.claim]);
    var g := log[ch.issue].g;
    assert SameMandate(cfg.env, r, g);
    NamedPresenter(cfg.env, r.candidate, g.c, r.proof.value.presenter_key_id);
  }

  lemma {:induction false} GetFinds(es: seq<Pair<Key, Value>>, name: Text) returns (i: nat)
    requires Get(es, name).Some?
    ensures i < |es| && es[i] == Pair(StrKey(name), Get(es, name).value)
  {
    if es[0].key == StrKey(name) {
      i := 0;
    } else {
      i := GetFinds(es[1..], name);
      i := i + 1;
    }
  }

  lemma {:induction false} GetOnly(es: seq<Pair<Key, Value>>, name: Text, i: nat)
    requires i < |es| && es[i].key == StrKey(name)
    requires forall j :: 0 <= j < i ==> es[j].key != StrKey(name)
    ensures Get(es, name) == Some(es[i].val)
  {
    if i > 0 {
      GetOnly(es[1..], name, i - 1);
    }
  }

  lemma ContextAccepted(env: Env, c: CandidateAct)
    requires CandidateDigest(env, c).Some?
    ensures Normalize(env.nfc, Dict(c.authority_context), false).Some?
  {
    RecordIsDict(env.nfc, FieldsOf(CANDIDATE_FIELDS, CandidateValues(c)), false);
    FieldAccepted(env.nfc, CANDIDATE_FIELDS, CandidateValues(c), 16);
  }

  /** The presenter that a candidate names is the one that the same act names. */
  lemma NamedPresenter(env: Env, c: CandidateAct, d: CandidateAct, key: Text)
    requires EnvLaws(env) && SameAct(env.nfc, c, d)
    requires Get(c.authority_context, Lit("presenter_key_id")) == Some(Str(key))
    requires CandidateDigest(env, d).Some?
    ensures var named := Get(d.authority_context, Lit("presenter_key_id"));
      named.Some? && named.value.Str? && env.nfc(named.value.text) == env.nfc(key)
  {
    hide CandidateDigest, SameAct, Get, Equivalent, Normalize;
    ContextAccepted(env, d);
    SameContext(env.nfc, c, d);
    NamedEntry(env, c.authority_context, d.authority_context, Lit("presenter_key_id"), key);
  }

  lemma SameContext(nfc: Nfc, c: CandidateAct, d: CandidateAct)
    requires SameAct(nfc, c, d)
    ensures Equivalent(nfc, Dict(c.authority_context), Dict(d.authority_context))
  {
    hide Equivalent;
  }

  lemma NamedEntry(env: Env, es: seq<Pair<Key, Value>>, ds: seq<Pair<Key, Value>>, name: Text, key: Text)
    requires EnvLaws(env) && IsPlain(name) && Equivalent(env.nfc, Dict(es), Dict(ds))
    requires Get(es, name) == Some(Str(key)) && Normalize(env.nfc, Dict(ds), false).Some?
    ensures var named := Get(ds, name);
      named.Some? && named.value.Str? && env.nfc(named.value.text) == env.nfc(key)
  {
    hide Normalize;
    var i := GetFinds(es, name);
    assert HasCounterpart(env.nfc, es[i], ds);
    var j :| 0 <= j < |ds| && EquivalentEntry(env.nfc, es[i], ds[j]);
    PlainEqual(env.nfc, ds[j].key.text, name);
    assert Equivalent(env.nfc, es[i].val, ds[j].val);
    forall l | 0 <= l < j ensures ds[l].key != StrKey(name) {
      if ds[l].key == StrKey(name) {
        KeysDistinguish(env.nfc, ds, l, j);
      }
    }
    GetOnly(ds, name, j);
  }
}
