/** Verdicts of `verify` last through every run in which nonces are normal and state is not lost. */
module Verdicts {
  import opened Wrappers
  import opened Unicode
  import opened Values
  import opened Models
  import opened Stores
  import opened Machine
  import opened Stability
  import Authority
  import Sink
  import State

  /** What normal nonces keep: transitions have ids of their own. */
  ghost predicate Settled(cfg: Config, w: World) {
    && StateOk(cfg.env, w.state)
    && forall i :: 0 <= i < |w.threads| && w.threads[i].Authorizing? ==> IsNormal(cfg.env, w.threads[i].c)
  }

  predicate IsNormal(env: Env, c: CandidateAct) { env.nfc(c.nonce) == c.nonce }

  /** The nonces that the action brings in are normal. */
  predicate BringsNormal(cfg: Config, a: Action) { a.Authorize? ==> IsNormal(cfg.env, a.c) }

  /** No crash takes state or evidence. */
  predicate Lasting(cfg: Config) { cfg.durable.state && cfg.durable.evidence }

  ghost predicate RecordsGrow(r: Records, r': Records) {
    forall id :: id in r ==> id in r' && r'[id] == r[id]
  }

  /** Nothing that `verify` reads is lost or replaced. */
  ghost predicate WorldGrows(w: World, w': World) { Grows(w.state, w'.state) && RecordsGrow(w.evidence, w'.evidence) }

  lemma AuthorizeSettled(cfg: Config, w: World, tid: nat)
    requires EnvLaws(cfg.env) && Wired(cfg, w) && Settled(cfg, w) && Ideal(cfg, w, tid)
    requires tid < |w.threads| && w.threads[tid].Authorizing?
    ensures var w' := StepAuthorize(cfg, w, tid); Settled(cfg, w') && WorldGrows(w, w')
  {
    hide EnvLaws, Settled, WorldGrows, StepRecord, StepCommit, MayHash, MayRecord, MayCommit, MayIssue;
    var w' := StepAuthorize(cfg, w, tid);
    match w.threads[tid].progress {
      case Admitted => RecordSettled(cfg, w, tid, w');
      case Recorded(t) => CommitSettled(cfg, w, tid, t, w');
      case _ => OtherSettled(cfg, w, tid, w');
    }
  }

  lemma RecordSettled(cfg: Config, w: World, tid: nat, w': World)
    requires EnvLaws(cfg.env) && Settled(cfg, w) && tid < |w.threads| && w.threads[tid].Authorizing?
    requires MayRecord(cfg.env, w.state, w.threads[tid].c, w.threads[tid].cost) && w' == StepRecord(cfg, w, tid)
    ensures Settled(cfg, w') && WorldGrows(w, w')
  {
    hide EnvLaws, StateOk, MayRecord, State.Authorize, Grows;
    AuthorizeGrows(cfg.env, w.state, w.threads[tid].c, w.threads[tid].cost);
  }

  lemma CommitSettled(cfg: Config, w: World, tid: nat, t: StateTransition, w': World)
    requires Settled(cfg, w) && tid < |w.threads| && w.threads[tid].Authorizing? && w' == StepCommit(cfg, w, tid, t)
    ensures Settled(cfg, w') && WorldGrows(w, w')
  {
    hide StateOk, Authority.MakeEvidence, EvidenceUnsigned;
  }

  lemma OtherSettled(cfg: Config, w: World, tid: nat, w': World)
    requires Settled(cfg, w) && tid < |w.threads| && w.threads[tid].Authorizing? && w' == StepAuthorize(cfg, w, tid)
    requires !w.threads[tid].progress.Admitted? && !w.threads[tid].progress.Recorded?
    ensures Settled(cfg, w') && WorldGrows(w, w')
  {
    hide StateOk, Authority.Admit, Authority.MakeCapability, StepRecord, StepCommit;
  }

  lemma PresentSettled(cfg: Config, w: World, tid: nat)
    requires Settled(cfg, w) && IsPresenting(cfg, w, tid)
    ensures var w' := StepPresent(cfg, w, tid);
      Settled(cfg, w') && w'.state == w.state && w'.evidence == w.evidence
  {
    hide StateOk, Sink.CheckLocal, Sink.CheckEvidence, Sink.CheckTransition, TryClaim, TryEffect, Sink.MakeReceipt;
  }

  lemma NextSettled(cfg: Config, w: World, a: Action)
    requires EnvLaws(cfg.env) && Wired(cfg, w) && Settled(cfg, w) && Enabled(cfg, w, a)
    requires BringsNormal(cfg, a) && Lasting(cfg)
    ensures var w' := Next(cfg, w, a); Settled(cfg, w') && WorldGrows(w, w')
  {
    hide EnvLaws, Ideal, StepAuthorize, StepPresent;
    match a {
      case Step(tid) =>
        if tid < |w.threads| && w.threads[tid].Authorizing? {
          AuthorizeSettled(cfg, w, tid);
        } else if IsPresenting(cfg, w, tid) {
          PresentSettled(cfg, w, tid);
        }
      case Configure(source, quota, budget) =>
        var w' := Next(cfg, w, a);
        forall id | id in w'.state.transitions ensures TransitionOk(cfg.env, w'.state, id) {
          assert TransitionOk(cfg.env, w.state, id);
        }
      case Crash(loss) =>
        var w' := Next(cfg, w, a);
        forall i | 0 <= i < |w'.threads| && w'.threads[i].Authorizing? ensures IsNormal(cfg.env, w'.threads[i].c) {
          assert w.threads[i].Authorizing?;
        }
      case _ =>
    }
  }

  /** Every action of the run brings in normal nonces only. */
  predicate NormalRun(cfg: Config, run: seq<Action>) { forall i :: 0 <= i < |run| ==> BringsNormal(cfg, run[i]) }

  lemma {:induction false} RunSettled(cfg: Config, w: World, run: seq<Action>)
    requires EnvLaws(cfg.env) && Wired(cfg, w) && Settled(cfg, w) && CanRun(cfg, w, run)
    requires NormalRun(cfg, run) && Lasting(cfg)
    ensures var w' := Run(cfg, w, run); Settled(cfg, w') && WorldGrows(w, w')
    decreases |run|
  {
    hide EnvLaws, Enabled, Next, Settled, BringsNormal;
    if run != [] {
      StaysWired(cfg, w, run[0]);
      NextSettled(cfg, w, run[0]);
      RunSettled(cfg, Next(cfg, w, run[0]), run[1..]);
    }
  }

  lemma FreshSettled(cfg: Config, w: World)
    requires Fresh(cfg, w)
    ensures Settled(cfg, w)
  {
  }

  // ---- Verdicts ----

  function VerdictIn(cfg: Config, w: World, k: Sink.Settings, r: Sink.Request): Result<(), Error> {
    Sink.Verify(cfg.env, k, r, w.evidence, w.state)
  }

  lemma EvidenceLasts(env: Env, k: Sink.Settings, r: Sink.Request, records: Records, records': Records)
    requires RecordsGrow(records, records') && Sink.CheckEvidence(env, k, r, records) == Ok(())
    ensures Sink.CheckEvidence(env, k, r, records') == Ok(())
  {
    hide EvidenceUnsigned;
  }

  lemma TransitionLasts(r: Sink.Request, s: State.Protected, s': State.Protected)
    requires Grows(s, s') && Sink.CheckTransition(r, s) == Ok(())
    ensures Sink.CheckTransition(r, s') == Ok(())
  {
    GrowsVerify(s, s', r.cap.transition_id, r.candidate);
  }

  lemma OnlyUnit(x: Result<(), Error>)
    ensures x.Ok? ==> x == Ok(())
  {
    assert x.Ok? ==> x.value == ();
  }

  lemma VerdictParts(env: Env, k: Sink.Settings, r: Sink.Request, records: Records, s: State.Protected)
    ensures Sink.Verify(env, k, r, records, s) == Ok(()) <==>
            Sink.CheckLocal(env, k, r) == Ok(()) && Sink.CheckEvidence(env, k, r, records) == Ok(())
            && Sink.CheckTransition(r, s) == Ok(())
  {
    hide Sink.CheckLocal, Sink.CheckEvidence, Sink.CheckTransition;
    OnlyUnit(Sink.CheckLocal(env, k, r));
    OnlyUnit(Sink.CheckEvidence(env, k, r, records));
    OnlyUnit(Sink.CheckTransition(r, s));
  }

  lemma VerdictLasts(cfg: Config, w: World, w': World, k: Sink.Settings, r: Sink.Request)
    requires VerdictIn(cfg, w, k, r) == Ok(()) && WorldGrows(w, w')
    ensures VerdictIn(cfg, w', k, r) == Ok(())
  {
    hide Sink.Verify, Sink.CheckLocal, Sink.CheckEvidence, Sink.CheckTransition;
    VerdictParts(cfg.env, k, r, w.evidence, w.state);
    VerdictParts(cfg.env, k, r, w'.evidence, w'.state);
    EvidenceLasts(cfg.env, k, r, w.evidence, w'.evidence);
    TransitionLasts(r, w.state, w'.state);
  }

  /** A verification that succeeds at a given time succeeds at that time ever after: whatever is
      authorized, configured, claimed, effected or killed in between. */
  lemma VerdictStability(cfg: Config, w: World, run: seq<Action>, k: Sink.Settings, r: Sink.Request)
    requires EnvLaws(cfg.env) && Wired(cfg, w) && Settled(cfg, w) && CanRun(cfg, w, run)
    requires NormalRun(cfg, run) && Lasting(cfg)
    requires VerdictIn(cfg, w, k, r) == Ok(())
    ensures VerdictIn(cfg, Run(cfg, w, run), k, r) == Ok(())
  {
    hide VerdictIn, EnvLaws, Settled, CanRun, WorldGrows;
    RunSettled(cfg, w, run);
    VerdictLasts(cfg, w, Run(cfg, w, run), k, r);
  }

  // ---- The reads of a thread amount to one ----

  predicate PassedLocal(stage: Stage) { stage.Local? || PassedEvidence(stage) }

  predicate PassedEvidence(stage: Stage) { stage.Evidenced? || PassedAll(stage) }

  predicate PassedAll(stage: Stage) {
    stage.Verified? || stage.Claimed? || stage.Effective? || stage.Burnt? || stage == Stopped(ReplayDetected)
            || stage == Lost(true)
  }

  /** What the thread has found to hold still does. */
  ghost predicate FindingOk(cfg: Config, w: World, th: Thread) {
    th.Presenting? && th.sink < |cfg.sinks| ==>
      var k := cfg.sinks[th.sink].settings;
      && (PassedLocal(th.stage) ==> Sink.CheckLocal(cfg.env, k, th.r) == Ok(()))
      && (PassedEvidence(th.stage) ==> Sink.CheckEvidence(cfg.env, k, th.r, w.evidence) == Ok(()))
      && (PassedAll(th.stage) ==> Sink.CheckTransition(th.r, w.state) == Ok(()))
  }

  ghost predicate FindingsOk(cfg: Config, w: World) {
    forall i :: 0 <= i < |w.threads| ==> FindingOk(cfg, w, w.threads[i])
  }

  lemma FindingLasts(cfg: Config, w: World, w': World, th: Thread)
    requires FindingOk(cfg, w, th) && WorldGrows(w, w')
    ensures FindingOk(cfg, w', th)
  {
    hide Sink.CheckLocal, Sink.CheckEvidence, Sink.CheckTransition, Grows, RecordsGrow;
    if th.Presenting? && th.sink < |cfg.sinks| {
      var k := cfg.sinks[th.sink].settings;
      if PassedEvidence(th.stage) {
        EvidenceLasts(cfg.env, k, th.r, w.evidence, w'.evidence);
      }
      if PassedAll(th.stage) {
        TransitionLasts(th.r, w.state, w'.state);
      }
    }
  }

  /** No check of `verify` reports a replay. */
  lemma ChecksNoReplay(env: Env, k: Sink.Settings, r: Sink.Request, records: Records, s: State.Protected)
    ensures Sink.CheckLocal(env, k, r) != Err(ReplayDetected)
    ensures Sink.CheckEvidence(env, k, r, records) != Err(ReplayDetected)
    ensures Sink.CheckTransition(r, s) != Err(ReplayDetected)
  {
    hide CandidateDigest, DescriptorDigest, Canon, CapabilityUnsigned, ProofUnsigned, EvidenceUnsigned, Get;
    hide State.VerifyTransition;
    hide Sink.CheckBindings, Sink.CheckProof;
    BindingsNoReplay(k, r);
    ProofNoReplay(env, k, r, CandidateDigest(env, r.candidate));
  }

  lemma BindingsNoReplay(k: Sink.Settings, r: Sink.Request)
    ensures Sink.CheckBindings(k, r) != Err(ReplayDetected)
  {
  }

  lemma ProofNoReplay(env: Env, k: Sink.Settings, r: Sink.Request, digest: Option<Text>)
    ensures Sink.CheckProof(env, k, r, digest) != Err(ReplayDetected)
  {
    hide Canon, ProofUnsigned, Get;
  }

  lemma PresentFinds(cfg: Config, w: World, tid: nat, w': World)
    requires FindingsOk(cfg, w) && IsPresenting(cfg, w, tid) && w' == StepPresent(cfg, w, tid)
    ensures tid < |w'.threads| && FindingOk(cfg, w, w'.threads[tid])
  {
    hide Sink.CheckLocal, Sink.CheckEvidence, Sink.CheckTransition, TryEffect, Sink.MakeReceipt;
    var Presenting(sink, r, stage) := w.threads[tid];
    ChecksNoReplay(cfg.env, cfg.sinks[sink].settings, r, w.evidence, w.state);
    assert FindingOk(cfg, w, w.threads[tid]);
    OnlyUnit(Sink.CheckLocal(cfg.env, cfg.sinks[sink].settings, r));
    OnlyUnit(Sink.CheckEvidence(cfg.env, cfg.sinks[sink].settings, r, w.evidence));
    OnlyUnit(Sink.CheckTransition(r, w.state));
  }

  lemma NextFinds(cfg: Config, w: World, a: Action)
    requires EnvLaws(cfg.env) && Wired(cfg, w) && Settled(cfg, w) && FindingsOk(cfg, w) && Enabled(cfg, w, a)
    requires BringsNormal(cfg, a) && Lasting(cfg)
    ensures FindingsOk(cfg, Next(cfg, w, a))
  {
    hide EnvLaws, Settled, Enabled, FindingOk, WorldGrows;
    NextSettled(cfg, w, a);
    var w' := Next(cfg, w, a);
    forall i | 0 <= i < |w'.threads| ensures FindingOk(cfg, w', w'.threads[i]) {
      ThreadFinds(cfg, w, a, i, w');
      FindingLasts(cfg, w, w', w'.threads[i]);
    }
  }

  lemma ThreadFinds(cfg: Config, w: World, a: Action, i: nat, w': World)
    requires Wired(cfg, w) && FindingsOk(cfg, w) && w' == Next(cfg, w, a) && i < |w'.threads|
    ensures FindingOk(cfg, w, w'.threads[i])
  {
    hide Sink.CheckLocal, Sink.CheckEvidence, Sink.CheckTransition, StepPresent, StepAuthorize;
    if a.Step? {
      NoNewThread(cfg, w, a.tid, w');
    }
    if i < |w.threads| {
      assert FindingOk(cfg, w, w.threads[i]);
      if a == Step(i) {
        if w.threads[i].Authorizing? {
          StillAuthorizing(cfg, w, i);
        } else if IsPresenting(cfg, w, i) {
          PresentFinds(cfg, w, i, w');
        }
      } else if a.Step? {
        OthersWait(cfg, w, a.tid, i, w');
      } else if a.Crash? {
        assert w'.threads[i] == w.threads[i] || w'.threads[i] == Kill(w.threads[i]);
      }
    }
  }

  lemma StillAuthorizing(cfg: Config, w: World, tid: nat)
    requires tid < |w.threads| && w.threads[tid].Authorizing?
    ensures var w' := StepAuthorize(cfg, w, tid);
      |w'.threads| == |w.threads| && w'.threads[tid].Authorizing? && forall i ::
        0 <= i < |w.threads| && i != tid ==> w'.threads[i] == w.threads[i]
  {
    hide Authority.Admit, Authority.MakeEvidence, Authority.MakeCapability, State.Authorize, TryCommit;
  }

  lemma PresentThreads(cfg: Config, w: World, tid: nat, w': World)
    requires IsPresenting(cfg, w, tid) && w' == StepPresent(cfg, w, tid)
    ensures |w'.threads| == |w.threads| && w'.threads[tid].Presenting?
    ensures forall i :: 0 <= i < |w.threads| && i != tid ==> w'.threads[i] == w.threads[i]
  {
    hide Sink.CheckLocal, Sink.CheckEvidence, Sink.CheckTransition, StepClaim, StepEffect;
    match w.threads[tid].stage {
      case Verified => ClaimThreads(cfg, w, tid, w');
      case Claimed => EffectThreads(cfg, w, tid, w');
      case _ =>
    }
  }

  lemma ClaimThreads(cfg: Config, w: World, tid: nat, w': World)
    requires IsPresenting(cfg, w, tid) && w' == StepClaim(cfg, w, tid)
    ensures |w'.threads| == |w.threads| && w'.threads[tid].Presenting?
    ensures forall i :: 0 <= i < |w.threads| && i != tid ==> w'.threads[i] == w.threads[i]
  {
    hide TryClaim;
  }

  lemma EffectThreads(cfg: Config, w: World, tid: nat, w': World)
    requires IsPresenting(cfg, w, tid) && w' == StepEffect(cfg, w, tid)
    ensures |w'.threads| == |w.threads| && w'.threads[tid].Presenting?
    ensures forall i :: 0 <= i < |w.threads| && i != tid ==> w'.threads[i] == w.threads[i]
  {
    hide TryEffect, Sink.MakeReceipt;
  }

  lemma NoNewThread(cfg: Config, w: World, tid: nat, w': World)
    requires Wired(cfg, w) && w' == Next(cfg, w, Step(tid))
    ensures |w'.threads| == |w.threads|
  {
    hide StepPresent, StepAuthorize;
    if tid < |w.threads| && w.threads[tid].Authorizing? {
      StillAuthorizing(cfg, w, tid);
    } else if IsPresenting(cfg, w, tid) {
      PresentThreads(cfg, w, tid, w');
    }
  }

  lemma OthersWait(cfg: Config, w: World, tid: nat, i: nat, w': World)
    requires Wired(cfg, w) && i < |w.threads| && tid != i && w' == Next(cfg, w, Step(tid))
    ensures i < |w'.threads| && w'.threads[i] == w.threads[i]
  {
    hide StepPresent, StepAuthorize;
    if tid < |w.threads| && w.threads[tid].Authorizing? {
      StillAuthorizing(cfg, w, tid);
    } else if IsPresenting(cfg, w, tid) {
      PresentThreads(cfg, w, tid, w');
    }
  }

  lemma {:induction false} RunFinds(cfg: Config, w: World, run: seq<Action>)
    requires EnvLaws(cfg.env) && Wired(cfg, w) && Settled(cfg, w) && FindingsOk(cfg, w) && CanRun(cfg, w, run)
    requires NormalRun(cfg, run) && Lasting(cfg)
    ensures FindingsOk(cfg, Run(cfg, w, run))
    decreases |run|
  {
    hide EnvLaws, Enabled, Next, Settled, BringsNormal, FindingsOk;
    if run != [] {
      StaysWired(cfg, w, run[0]);
      NextSettled(cfg, w, run[0]);
      NextFinds(cfg, w, run[0]);
      RunFinds(cfg, Next(cfg, w, run[0]), run[1..]);
    }
  }

  /** The separately locked reads of a thread that got through them all amount to one atomic `verify`,
      now and at any later moment. */
  lemma AtomicVerdict(cfg: Config, start: World, run: seq<Action>, tid: nat)
    requires EnvLaws(cfg.env) && Fresh(cfg, start) && CanRun(cfg, start, run) && NormalRun(cfg, run) && Lasting(cfg)
    requires var w := Run(cfg, start, run); IsPresenting(cfg, w, tid) && PassedAll(w.threads[tid].stage)
    ensures var w := Run(cfg, start, run);
      VerdictIn(cfg, w, cfg.sinks[w.threads[tid].sink].settings, w.threads[tid].r) == Ok(())
  {
    hide Sink.CheckLocal, Sink.CheckEvidence, Sink.CheckTransition, EnvLaws, CanRun;
    FreshSettled(cfg, start);
    RunFinds(cfg, start, run);
    var w := Run(cfg, start, run);
    assert FindingOk(cfg, w, w.threads[tid]);
    VerdictParts(cfg.env, cfg.sinks[w.threads[tid].sink].settings, w.threads[tid].r, w.evidence, w.state);
  }

  // ---- A valid request is not stopped ----

  /** The thread's request verifies, and the thread has not been turned away. */
  ghost predicate OnCourse(cfg: Config, w: World, tid: nat) {
    && IsPresenting(cfg, w, tid)
    && VerdictIn(cfg, w, cfg.sinks[w.threads[tid].sink].settings, w.threads[tid].r) == Ok(())
    && (w.threads[tid].stage.Stopped? ==> w.threads[tid].stage.error == ReplayDetected)
  }

  predicate SameErrand(th: Thread, th': Thread) {
    th.Presenting? && th'.Presenting? && th'.sink == th.sink && th'.r == th.r
  }

  lemma NextOnCourse(cfg: Config, w: World, a: Action, tid: nat)
    requires EnvLaws(cfg.env) && Wired(cfg, w) && Settled(cfg, w) && Enabled(cfg, w, a)
    requires BringsNormal(cfg, a) && Lasting(cfg) && OnCourse(cfg, w, tid)
    ensures var w' := Next(cfg, w, a);
      OnCourse(cfg, w', tid) && SameErrand(w.threads[tid], w'.threads[tid])
  {
    hide EnvLaws, Settled, Enabled, Next, VerdictIn, WorldGrows;
    StaysWired(cfg, w, a);
    NextSettled(cfg, w, a);
    StageOnCourse(cfg, w, a, tid, Next(cfg, w, a));
    var Presenting(sink, r, stage) := w.threads[tid];
    VerdictLasts(cfg, w, Next(cfg, w, a), cfg.sinks[sink].settings, r);
  }

  lemma StageOnCourse(cfg: Config, w: World, a: Action, tid: nat, w': World)
    requires Wired(cfg, w) && OnCourse(cfg, w, tid) && w' == Next(cfg, w, a)
    ensures && tid < |w'.threads| && SameErrand(w.threads[tid], w'.threads[tid])
      && (w'.threads[tid].stage.Stopped? ==> w'.threads[tid].stage.error == ReplayDetected)
  {
    hide StepPresent, StepAuthorize, VerdictIn;
    if a.Step? {
      if a.tid != tid {
        OthersWait(cfg, w, a.tid, tid, w');
      } else {
        CheckOnCourse(cfg, w, tid, w');
      }
    }
  }

  lemma CheckOnCourse(cfg: Config, w: World, tid: nat, w': World)
    requires OnCourse(cfg, w, tid) && w' == StepPresent(cfg, w, tid)
    ensures tid < |w'.threads| && SameErrand(w.threads[tid], w'.threads[tid])
    ensures w'.threads[tid].stage.Stopped? ==> w'.threads[tid].stage.error == ReplayDetected
  {
    hide Sink.CheckLocal, Sink.CheckEvidence, Sink.CheckTransition, TryEffect, Sink.MakeReceipt;
    var Presenting(sink, r, stage) := w.threads[tid];
    VerdictParts(cfg.env, cfg.sinks[sink].settings, r, w.evidence, w.state);
  }

  lemma {:induction false} RunOnCourse(cfg: Config, w: World, run: seq<Action>, tid: nat)
    requires EnvLaws(cfg.env) && Wired(cfg, w) && Settled(cfg, w) && CanRun(cfg, w, run)
    requires NormalRun(cfg, run) && Lasting(cfg) && OnCourse(cfg, w, tid)
    ensures var w' := Run(cfg, w, run);
      OnCourse(cfg, w', tid) && SameErrand(w.threads[tid], w'.threads[tid])
    decreases |run|
  {
    hide EnvLaws, Enabled, Next, Settled, BringsNormal, VerdictIn;
    if run != [] {
      StaysWired(cfg, w, run[0]);
      NextSettled(cfg, w, run[0]);
      NextOnCourse(cfg, w, run[0], tid);
      RunOnCourse(cfg, Next(cfg, w, run[0]), run[1..], tid);
    }
  }
}
