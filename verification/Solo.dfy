/** A call whose steps nobody interleaves with does what the sequential code does, so the machine's
    steps are the code's. */
module Solo {
  import opened Wrappers
  import opened Unicode
  import opened Values
  import opened Models
  import opened Stores
  import opened Agreement
  import opened Machine
  import Authority
  import Sink
  import State

  /** `n` steps of one thread. */
  function Steps(cfg: Config, w: World, tid: nat, n: nat): (w': World)
    requires Wired(cfg, w)
    ensures Wired(cfg, w')
    decreases n
  {
    if n == 0 then w
    else
      StaysWired(cfg, w, Step(tid));
      Steps(cfg, Next(cfg, w, Step(tid)), tid, n - 1)
  }

  // ---- effectuate ----

  /** What `effectuate` returns or raises at this stage, if it is over. */
  function PresentResult(stage: Stage): Option<Result<SinkReceipt, Error>> {
    match stage
    case Effective(_, result) => Some(result)
    case Burnt => Some(Err(EffectDenied))
    case Stopped(x) => Some(Err(x))
    case _ => None
  }

  /** From `stage` on, the call leaves behind what the sequential code does. */
  ghost predicate EndsAs(cfg: Config, w: World, tid: nat, w': World, claims: Claims, effects: Effects,
                         result: Result<SinkReceipt, Error>)
    requires IsPresenting(cfg, w, tid)
  {
    var at := cfg.sinks[w.threads[tid].sink];
    && w'.stores == w.stores[at.store := claims] && w'.effectors == w.effectors[at.effector := effects]
    && w'.state == w.state && w'.evidence == w.evidence
    && tid < |w'.threads| && w'.threads[tid].Presenting? && PresentResult(w'.threads[tid].stage) == Some(result)
  }

  predicate Over(w: World, tid: nat) {
    tid < |w.threads| && w.threads[tid].Presenting? && PresentResult(w.threads[tid].stage).Some?
  }

  lemma {:induction false} OverStays(cfg: Config, w: World, tid: nat, n: nat)
    requires Wired(cfg, w) && Over(w, tid)
    ensures Steps(cfg, w, tid, n) == w
    decreases n
  {
    if n > 0 {
      OverStays(cfg, Next(cfg, w, Step(tid)), tid, n - 1);
    }
  }

  lemma SoloEffect(cfg: Config, w: World, tid: nat, n: nat)
    requires IsPresenting(cfg, w, tid) && w.threads[tid].stage == Claimed && n >= 1
    ensures var Presenting(sink, r, _) := w.threads[tid]; var SinkAt(k, s, f) := cfg.sinks[sink];
      var (effects, done) := TryEffect(cfg.env, w.effectors[f], r.candidate);
      EndsAs(cfg, w, tid, Steps(cfg, w, tid, n), w.stores[s], effects, Sink.AfterEffect(cfg.env, k, r, done))
  {
    hide TryEffect, Sink.AfterEffect, StepEffect, Steps, EndsAs;
    var w' := StepEffect(cfg, w, tid);
    EffectEnds(cfg, w, tid, w');
    OneStep(cfg, w, tid, n, w');
    OverStays(cfg, w', tid, n - 1);
  }

  lemma EffectEnds(cfg: Config, w: World, tid: nat, w': World)
    requires IsPresenting(cfg, w, tid) && w.threads[tid].stage == Claimed && w' == StepEffect(cfg, w, tid)
    ensures Wired(cfg, w') && Over(w', tid)
    ensures var Presenting(sink, r, _) := w.threads[tid]; var SinkAt(k, s, f) := cfg.sinks[sink];
      var (effects, done) := TryEffect(cfg.env, w.effectors[f], r.candidate);
      EndsAs(cfg, w, tid, w', w.stores[s], effects, Sink.AfterEffect(cfg.env, k, r, done))
  {
    hide TryEffect, Sink.MakeReceipt;
    assert w'.stores
            == w.stores[cfg.sinks[w.threads[tid].sink].store := w.stores[cfg.sinks[w.threads[tid].sink].store]];
  }

  lemma OneStep(cfg: Config, w: World, tid: nat, n: nat, w': World)
    requires IsPresenting(cfg, w, tid) && n >= 1 && w' == StepPresent(cfg, w, tid)
    ensures Wired(cfg, w') && Steps(cfg, w, tid, n) == Steps(cfg, w', tid, n - 1)
  {
    hide StepPresent;
    StaysWired(cfg, w, Step(tid));
  }

  lemma SoloClaim(cfg: Config, w: World, tid: nat, n: nat)
    requires IsPresenting(cfg, w, tid) && w.threads[tid].stage == Verified && n >= 2
    ensures var Presenting(sink, r, _) := w.threads[tid]; var SinkAt(k, s, f) := cfg.sinks[sink];
      var (claims, effects, result) := Sink.AfterVerify(cfg.env, k, r, w.stores[s], w.effectors[f]);
      EndsAs(cfg, w, tid, Steps(cfg, w, tid, n), claims, effects, result)
  {
    hide TryEffect, Sink.AfterEffect, Steps;
    var Presenting(sink, r, _) := w.threads[tid];
    var SinkAt(k, s, f) := cfg.sinks[sink];
    var w' := StepClaim(cfg, w, tid);
    OneStep(cfg, w, tid, n, w');
    if r.cap.capability_id in w.stores[s] {
      assert w'.stores == w.stores[s := w.stores[s]] && w'.effectors == w.effectors[f := w.effectors[f]];
      OverStays(cfg, w', tid, n - 1);
    } else {
      SoloEffect(cfg, w', tid, n - 1);
    }
  }

  /** A check of `verify`, followed by the rest of the call if it passes. */
  lemma SoloCheck(cfg: Config, w: World, tid: nat, n: nat, verdict: Result<(), Error>, next: Stage,
                  claims: Claims, effects: Effects, result: Result<SinkReceipt, Error>)
    requires IsPresenting(cfg, w, tid) && n >= 1 && StepPresent(cfg, w, tid) == Passing(w, tid, verdict, next)
    requires var w' := Passing(w, tid, verdict, next);
      && Wired(cfg, w')
      && (verdict.Ok? ==> EndsAs(cfg, w', tid, Steps(cfg, w', tid, n - 1), claims, effects, result))
    requires var at := cfg.sinks[w.threads[tid].sink];
      verdict.Err? ==> (claims, effects, result) == (w.stores[at.store], w.effectors[at.effector], Err(verdict.error))
    ensures EndsAs(cfg, w, tid, Steps(cfg, w, tid, n), claims, effects, result)
  {
    hide StepPresent, Steps;
    var w' := Passing(w, tid, verdict, next);
    OneStep(cfg, w, tid, n, w');
    if verdict.Err? {
      var at := cfg.sinks[w.threads[tid].sink];
      assert w.stores == w.stores[at.store := w.stores[at.store]];
      assert w.effectors == w.effectors[at.effector := w.effectors[at.effector]];
      OverStays(cfg, w', tid, n - 1);
    }
  }

  lemma SoloTransition(cfg: Config, w: World, tid: nat, n: nat)
    requires IsPresenting(cfg, w, tid) && w.threads[tid].stage == Evidenced && n >= 3
    ensures var Presenting(sink, r, _) := w.threads[tid]; var SinkAt(k, s, f) := cfg.sinks[sink];
      var (claims, effects, result) := Sink.Unless(cfg.env, Sink.CheckTransition(r, w.state), k, r, w.stores[s],
                                                   w.effectors[f]);
      EndsAs(cfg, w, tid, Steps(cfg, w, tid, n), claims, effects, result)
  {
    hide Sink.CheckTransition, Sink.AfterVerify, Steps, EndsAs, StepClaim;
    var Presenting(sink, r, _) := w.threads[tid];
    var SinkAt(k, s, f) := cfg.sinks[sink];
    var verdict := Sink.CheckTransition(r, w.state);
    var (claims, effects, result) := Sink.Unless(cfg.env, verdict, k, r, w.stores[s], w.effectors[f]);
    var w' := Passing(w, tid, verdict, Verified);
    if verdict.Ok? {
      SoloClaim(cfg, w', tid, n - 1);
    }
    SoloCheck(cfg, w, tid, n, verdict, Verified, claims, effects, result);
  }

  lemma SoloEvidence(cfg: Config, w: World, tid: nat, n: nat)
    requires IsPresenting(cfg, w, tid) && w.threads[tid].stage == Local && n >= 4
    ensures var Presenting(sink, r, _) := w.threads[tid]; var SinkAt(k, s, f) := cfg.sinks[sink];
      var verdict := Both(Sink.CheckEvidence(cfg.env, k, r, w.evidence), Sink.CheckTransition(r, w.state));
      var (claims, effects, result) := Sink.Unless(cfg.env, verdict, k, r, w.stores[s], w.effectors[f]);
      EndsAs(cfg, w, tid, Steps(cfg, w, tid, n), claims, effects, result)
  {
    hide Sink.CheckEvidence, Sink.CheckTransition, Sink.AfterVerify, Steps, EndsAs, StepClaim;
    var Presenting(sink, r, _) := w.threads[tid];
    var SinkAt(k, s, f) := cfg.sinks[sink];
    var verdict := Sink.CheckEvidence(cfg.env, k, r, w.evidence);
    var (claims, effects, result) :=
      Sink.Unless(cfg.env, Both(verdict, Sink.CheckTransition(r, w.state)), k, r, w.stores[s], w.effectors[f]);
    var w' := Passing(w, tid, verdict, Evidenced);
    if verdict.Ok? {
      SoloTransition(cfg, w', tid, n - 1);
    }
    SoloCheck(cfg, w, tid, n, verdict, Evidenced, claims, effects, result);
  }

  /** The first verdict, or the second if the first is favourable. */
  function Both(a: Result<(), Error>, b: Result<(), Error>): Result<(), Error> { if a.Err? then a else b }

  lemma VerifyIsBoth(env: Env, k: Sink.Settings, r: Sink.Request, records: Records, s: State.Protected)
    ensures Sink.Verify(env, k, r, records, s)
            == Both(Sink.CheckLocal(env, k, r),
                    Both(Sink.CheckEvidence(env, k, r, records), Sink.CheckTransition(r, s)))
  {
    hide Sink.CheckLocal, Sink.CheckEvidence, Sink.CheckTransition;
  }

  /** An uninterrupted presentation is `effectuate`. */
  lemma SoloEffectuate(cfg: Config, w: World, tid: nat)
    requires IsPresenting(cfg, w, tid) && w.threads[tid].stage == Presented
    ensures var Presenting(sink, r, _) := w.threads[tid]; var SinkAt(k, s, f) := cfg.sinks[sink];
      var (claims, effects, result) := Sink.Effectuate(cfg.env, k, r, w.evidence, w.state, w.stores[s], w.effectors[f]);
      EndsAs(cfg, w, tid, Steps(cfg, w, tid, 5), claims, effects, result)
  {
    hide Sink.CheckLocal, Sink.CheckEvidence, Sink.CheckTransition, Sink.AfterVerify, Sink.Verify, Steps, EndsAs;
    hide StepClaim;
    var Presenting(sink, r, _) := w.threads[tid];
    var SinkAt(k, s, f) := cfg.sinks[sink];
    var verdict := Sink.CheckLocal(cfg.env, k, r);
    VerifyIsBoth(cfg.env, k, r, w.evidence, w.state);
    var (claims, effects, result) := Sink.Effectuate(cfg.env, k, r, w.evidence, w.state, w.stores[s], w.effectors[f]);
    var w' := Passing(w, tid, verdict, Local);
    if verdict.Ok? {
      SoloEvidence(cfg, w', tid, 4);
    }
    SoloCheck(cfg, w, tid, 5, verdict, Local, claims, effects, result);
  }

  // ---- authorize ----

  function AuthorizeResult(progress: Progress): Option<Result<Capability, Error>> {
    match progress
    case Issued(g) => Some(Ok(g.cap))
    case Refused(x) => Some(Err(x))
    case _ => None
  }

  predicate Decided(w: World, tid: nat) {
    tid < |w.threads| && w.threads[tid].Authorizing? && AuthorizeResult(w.threads[tid].progress).Some?
  }

  lemma {:induction false} DecidedStays(cfg: Config, w: World, tid: nat, n: nat)
    requires Wired(cfg, w) && Decided(w, tid)
    ensures Steps(cfg, w, tid, n) == w
    decreases n
  {
    if n > 0 {
      DecidedStays(cfg, Next(cfg, w, Step(tid)), tid, n - 1);
    }
  }

  /** After `n` more steps, the call has left behind this state and these records, and this result. */
  ghost predicate DecidesAs(cfg: Config, w: World, tid: nat, n: nat, state: State.Protected, records: Records,
                            result: Result<Capability, Error>)
    requires Wired(cfg, w)
  {
    var w' := Steps(cfg, w, tid, n);
    && w'.state == state && w'.evidence == records && w'.stores == w.stores && w'.effectors == w.effectors
    && tid < |w'.threads| && w'.threads[tid].Authorizing? && AuthorizeResult(w'.threads[tid].progress) == Some(result)
  }

  /** One step to `w'`, which either decides or leaves the rest to the following steps. */
  lemma StepDecides(cfg: Config, w: World, tid: nat, n: nat, w': World, state: State.Protected, records: Records,
                    result: Result<Capability, Error>)
    requires Wired(cfg, w) && tid < |w.threads| && w.threads[tid].Authorizing? && n >= 1
    requires w' == StepAuthorize(cfg, w, tid) && w'.stores == w.stores && w'.effectors == w.effectors
    requires if Decided(w', tid) then (w'.state, w'.evidence, AuthorizeResult(w'.threads[tid].progress))
            == (state, records, Some(result))
             else Wired(cfg, w') && DecidesAs(cfg, w', tid, n - 1, state, records, result)
    ensures DecidesAs(cfg, w, tid, n, state, records, result)
  {
    hide StepAuthorize;
    StaysWired(cfg, w, Step(tid));
    if Decided(w', tid) {
      DecidedStays(cfg, w', tid, n - 1);
    }
  }

  lemma SoloIssue(cfg: Config, w: World, tid: nat, t: StateTransition, e: ValidationEvidence, n: nat)
    requires Wired(cfg, w) && tid < |w.threads| && w.threads[tid].Authorizing?
    requires w.threads[tid].progress == Committed(t, e) && n >= 1
    ensures var Authorizing(c, cost, now, _) := w.threads[tid];
      DecidesAs(cfg, w, tid, n, w.state, w.evidence, Authority.AfterCommit(cfg.env, cfg.authority, c, now, e))
  {
    hide Authority.MakeCapability, DecidesAs;
    var Authorizing(c, cost, now, _) := w.threads[tid];
    StepDecides(cfg, w, tid, n, StepIssue(cfg, w, tid, t, e), w.state, w.evidence,
                Authority.AfterCommit(cfg.env, cfg.authority, c, now, e));
  }

  lemma SoloCommit(cfg: Config, w: World, tid: nat, t: StateTransition, n: nat)
    requires Wired(cfg, w) && tid < |w.threads| && w.threads[tid].Authorizing?
    requires w.threads[tid].progress == Recorded(t) && n >= 2
    ensures var Authorizing(c, cost, now, _) := w.threads[tid];
      var (records, result) := Authority.AfterRecord(cfg.env, cfg.authority, w.evidence, w.evidence_fails, c, now, t);
      DecidesAs(cfg, w, tid, n, w.state, records, result)
  {
    hide Authority.MakeEvidence, Authority.AfterCommit, TryCommit, DecidesAs;
    var Authorizing(c, cost, now, _) := w.threads[tid];
    var w' := StepCommit(cfg, w, tid, t);
    CommitRefusalKeeps(cfg.env, cfg.authority.auth, w.evidence, w.evidence_fails,
                       Authority.MakeEvidence(cfg.env, cfg.authority, c, now, t));
    if w'.threads[tid].progress.Committed? {
      SoloIssue(cfg, w', tid, t, w'.threads[tid].progress.e, n - 1);
    }
    var (records, result) := Authority.AfterRecord(cfg.env, cfg.authority, w.evidence, w.evidence_fails, c, now, t);
    StepDecides(cfg, w, tid, n, w', w.state, records, result);
  }

  lemma CommitRefusalKeeps(env: Env, auth: Authenticator, records: Records, fails: bool,
                           made: Option<ValidationEvidence>)
    ensures made.Some? && TryCommit(env, auth, records, fails, made.value).1.Err?
            ==> TryCommit(env, auth, records, fails, made.value).0 == records
  {
    hide EvidenceUnsigned;
  }

  lemma SoloRecord(cfg: Config, w: World, tid: nat, n: nat)
    requires Wired(cfg, w) && tid < |w.threads| && w.threads[tid].Authorizing?
    requires w.threads[tid].progress == Admitted && n >= 3
    ensures var Authorizing(c, cost, now, _) := w.threads[tid];
      var (state, records, result) :=
        Authority.AfterAdmit(cfg.env, cfg.authority, w.state, w.evidence, w.evidence_fails, c, cost, now);
      DecidesAs(cfg, w, tid, n, state, records, result)
  {
    hide State.Authorize, Authority.AfterRecord, DecidesAs;
    var Authorizing(c, cost, now, _) := w.threads[tid];
    var w' := StepRecord(cfg, w, tid);
    if w'.threads[tid].progress.Recorded? {
      SoloCommit(cfg, w', tid, w'.threads[tid].progress.t, n - 1);
    }
    var (state, records, result) :=
      Authority.AfterAdmit(cfg.env, cfg.authority, w.state, w.evidence, w.evidence_fails, c, cost, now);
    StepDecides(cfg, w, tid, n, w', state, records, result);
  }

  /** An uninterrupted authorization is `authorize`. */
  lemma SoloAuthorize(cfg: Config, w: World, tid: nat)
    requires Wired(cfg, w) && tid < |w.threads| && w.threads[tid].Authorizing? && w.threads[tid].progress == Called
    ensures var Authorizing(c, cost, now, _) := w.threads[tid];
      var (state, records, result) :=
        Authority.Authorize(cfg.env, cfg.authority, w.state, w.evidence, w.evidence_fails, c, cost, now);
      DecidesAs(cfg, w, tid, 4, state, records, result)
  {
    hide Authority.Admit, Authority.AfterAdmit, DecidesAs;
    var Authorizing(c, cost, now, _) := w.threads[tid];
    var w' := StepAdmit(cfg, w, tid);
    if w'.threads[tid].progress.Admitted? {
      SoloRecord(cfg, w', tid, 3);
    }
    var (state, records, result) :=
      Authority.Authorize(cfg.env, cfg.authority, w.state, w.evidence, w.evidence_fails, c, cost, now);
    StepDecides(cfg, w, tid, 4, w', state, records, result);
  }
}
