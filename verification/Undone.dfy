/** When a step of any run, with whatever nonces, ends the verification of a recorded transition. */
module Undone {
  import opened Wrappers
  import opened Unicode
  import opened Values
  import opened Models
  import opened Binding
  import opened Machine
  import opened Stability
  import opened Verdicts
  import opened Guarantees
  import Authority
  import Sink
  import State
  import Stores

  // ---- Ids are hashes ----

  /** The id of the recorded transition is the hash of it. */
  ghost predicate IsHashed(env: Env, s: State.Protected, id: Text)
    requires id in s.transitions
  {
    exists d :: HashesTo(env, s.transitions[id], d, id)
  }

  ghost predicate AllHashed(env: Env, s: State.Protected) {
    forall id :: id in s.transitions ==> IsHashed(env, s, id)
  }

  lemma AuthorizeHashed(env: Env, s: State.Protected, c: CandidateAct, cost: int)
    requires AllHashed(env, s) && MayRecord(env, s, c, cost)
    ensures AllHashed(env, State.Authorize(env, s, c, cost).0)
  {
    hide HashesTo, State.Authorize, MayRecord;
    var (s', result) := State.Authorize(env, s, c, cost);
    if result.Ok? {
      var d := AuthorizedId(env, s, c, cost);
      forall id | id in s'.transitions ensures IsHashed(env, s', id) {
        assert id != result.value.transition_id ==> IsHashed(env, s, id);
      }
    } else {
      RefusalKeeps(env, s, c, cost);
      SameTransitionsHashed(env, s, s');
    }
  }

  lemma SameTransitionsHashed(env: Env, s: State.Protected, s': State.Protected)
    requires AllHashed(env, s) && s'.transitions == s.transitions
    ensures AllHashed(env, s')
  {
    hide HashesTo;
    forall id | id in s'.transitions ensures IsHashed(env, s', id) {
      assert IsHashed(env, s, id);
    }
  }

  // ---- What steps do to the protected state ----

  /** The step records a transition, or fails to. */
  predicate IsRecording(w: World, a: Action) {
    a.Step? && a.tid < |w.threads| && w.threads[a.tid].Authorizing? && w.threads[a.tid].progress == Admitted
  }

  lemma RecordingState(cfg: Config, w: World, a: Action, w': World)
    requires Wired(cfg, w) && IsRecording(w, a) && w' == Next(cfg, w, a)
    ensures w'.state == State.Authorize(cfg.env, w.state, w.threads[a.tid].c, w.threads[a.tid].cost).0
  {
    hide State.Authorize;
  }

  lemma AuthorizeKeepsState(cfg: Config, w: World, tid: nat)
    requires tid < |w.threads| && w.threads[tid].Authorizing? && w.threads[tid].progress != Admitted
    ensures StepAuthorize(cfg, w, tid).state == w.state
  {
    hide Authority.Admit, Authority.MakeEvidence, Authority.MakeCapability, StepRecord, Stores.TryCommit;
  }

  lemma PresentKeepsState(cfg: Config, w: World, tid: nat)
    requires IsPresenting(cfg, w, tid)
    ensures StepPresent(cfg, w, tid).state == w.state
  {
    hide Sink.CheckLocal, Sink.CheckEvidence, Sink.CheckTransition, Stores.TryClaim, Stores.TryEffect, Sink.MakeReceipt;
  }

  predicate Forgets(a: Action) { a.Crash? && a.loss.state }

  /** All other steps leave transitions and nonces alone. */
  lemma OthersKeepTransitions(cfg: Config, w: World, a: Action, w': World)
    requires Wired(cfg, w) && !IsRecording(w, a) && !Forgets(a) && w' == Next(cfg, w, a)
    ensures w'.state.transitions == w.state.transitions && w'.state.nonces == w.state.nonces
  {
    hide StepAuthorize, StepPresent;
    if a.Step? {
      if a.tid < |w.threads| && w.threads[a.tid].Authorizing? {
        AuthorizeKeepsState(cfg, w, a.tid);
      } else if IsPresenting(cfg, w, a.tid) {
        PresentKeepsState(cfg, w, a.tid);
      }
    }
  }

  lemma RecordingAllowed(cfg: Config, w: World, a: Action)
    requires Wired(cfg, w) && Enabled(cfg, w, a) && IsRecording(w, a)
    ensures MayRecord(cfg.env, w.state, w.threads[a.tid].c, w.threads[a.tid].cost)
  {
    hide MayRecord, MayHash;
  }

  lemma NextHashed(cfg: Config, w: World, a: Action, w': World)
    requires Wired(cfg, w) && AllHashed(cfg.env, w.state) && Enabled(cfg, w, a) && w' == Next(cfg, w, a)
    ensures AllHashed(cfg.env, w'.state)
  {
    hide HashesTo, Next, Enabled, State.Authorize, MayRecord;
    if IsRecording(w, a) {
      RecordingAllowed(cfg, w, a);
      RecordingState(cfg, w, a, w');
      AuthorizeHashed(cfg.env, w.state, w.threads[a.tid].c, w.threads[a.tid].cost);
    } else if Forgets(a) {
      ForgetsAll(cfg, w, a, w');
    } else {
      OthersKeepTransitions(cfg, w, a, w');
      SameTransitionsHashed(cfg.env, w.state, w'.state);
    }
  }

  lemma ForgetsAll(cfg: Config, w: World, a: Action, w': World)
    requires Wired(cfg, w) && Forgets(a) && w' == Next(cfg, w, a)
    ensures w'.state.transitions == map[]
  {
  }

  lemma {:induction false} RunHashed(cfg: Config, w: World, run: seq<Action>)
    requires Wired(cfg, w) && AllHashed(cfg.env, w.state) && CanRun(cfg, w, run)
    ensures AllHashed(cfg.env, Run(cfg, w, run).state)
    decreases |run|
  {
    hide AllHashed, Enabled, Next;
    if run != [] {
      StaysWired(cfg, w, run[0]);
      NextHashed(cfg, w, run[0], Next(cfg, w, run[0]));
      RunHashed(cfg, Next(cfg, w, run[0]), run[1..]);
    }
  }

  lemma ReachedHashed(cfg: Config, w: World)
    requires Reachable(cfg, w)
    ensures AllHashed(cfg.env, w.state) && EnvLaws(cfg.env)
  {
    hide Run, CanRun, EnvLaws;
    var start, run :| Leads(cfg, start, run, w);
    assert AllHashed(cfg.env, start.state);
    RunHashed(cfg, start, run);
  }

  // ---- What ends a verification ----

  /** The step records a transition that agrees with `u`, recorded for a candidate with digest `e`, in every
      hashed field up to NFC. */
  ghost predicate RecordsSame(cfg: Config, w: World, a: Action, u: StateTransition, e: Text) {
    && IsRecording(w, a)
    && var Authorizing(c, cost, _, _) := w.threads[a.tid];
    && State.Authorize(cfg.env, w.state, c, cost).1.Ok? && CandidateDigest(cfg.env, c).Some?
    && SameTransition(cfg.env.nfc, State.TransitionFrom(State.SourceOf(w.state, c.source), c, cost),
                      CandidateDigest(cfg.env, c).value, u, e)
  }

  lemma RecordingUndoes(cfg: Config, w: World, a: Action, id: Text, e: Text, verified: CandidateAct)
    requires EnvLaws(cfg.env) && Wired(cfg, w) && Enabled(cfg, w, a) && IsRecording(w, a)
    requires State.VerifyTransition(w.state, id, verified) && HashesTo(cfg.env, w.state.transitions[id], e, id)
    ensures var Authorizing(c, cost, _, _) := w.threads[a.tid];
      !State.VerifyTransition(State.Authorize(cfg.env, w.state, c, cost).0, id, verified)
      <==> RecordsSame(cfg, w, a, w.state.transitions[id], e)
  {
    hide EnvLaws, Enabled, HashesTo, State.Authorize, MayRecord, SameTransition, CandidateDigest;
    RecordingAllowed(cfg, w, a);
    var Authorizing(c, cost, _, _) := w.threads[a.tid];
    if State.Authorize(cfg.env, w.state, c, cost).1.Ok? {
      UndoneIffSameTransition(cfg.env, w.state, c, cost, id, e, verified);
    } else {
      RefusalKeeps(cfg.env, w.state, c, cost);
    }
  }

  /** In every state of every run, whatever the nonces: a step ends the verification of a transition exactly
      if it is a crash that takes the protected state, or if it records a transition that agrees with that
      one in every hashed field up to NFC. Here `e` is the digest that the transition was recorded with. */
  lemma StepUndoes(cfg: Config, w: World, a: Action, id: Text, verified: CandidateAct, w': World) returns (e: Text)
    requires Reachable(cfg, w) && Wired(cfg, w) && Enabled(cfg, w, a) && w' == Next(cfg, w, a)
    requires State.VerifyTransition(w.state, id, verified)
    ensures HashesTo(cfg.env, w.state.transitions[id], e, id)
    ensures !State.VerifyTransition(w'.state, id, verified)
            <==> Forgets(a) || RecordsSame(cfg, w, a, w.state.transitions[id], e)
  {
    hide Reachable, Enabled, Next, HashesTo, State.Authorize, EnvLaws;
    ReachedHashed(cfg, w);
    assert IsHashed(cfg.env, w.state, id);
    e :| HashesTo(cfg.env, w.state.transitions[id], e, id);
    if IsRecording(w, a) {
      RecordingUndoes(cfg, w, a, id, e, verified);
      RecordingState(cfg, w, a, w');
    } else if Forgets(a) {
      ForgetsAll(cfg, w, a, w');
    } else {
      OthersKeepTransitions(cfg, w, a, w');
    }
  }
}
