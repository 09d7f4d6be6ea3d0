/** Who wins when several threads present one capability, and what the stores and records add up to. */
module Race {
  import opened Wrappers
  import opened Unicode
  import opened Values
  import opened Models
  import opened Stores
  import opened Binding
  import opened Counting
  import opened Machine
  import opened Trace
  import opened AtMostOnce
  import opened Guarantees
  import opened Verdicts
  import opened Completeness
  import Authority
  import Sink
  import State

  // ---- Every row has its thread ----

  /** The thread holds the claim `row` on the capability `id` at store `s`. */
  predicate HoldsRow(cfg: Config, s: nat, id: Text, row: Claim, th: Thread) {
    && Holder(cfg, s, th) && CapabilityId(th) == id
    && row.sink_id == cfg.sinks[th.sink].settings.context.sink_id
    && row.boundary_id == cfg.sinks[th.sink].settings.context.boundary_id
    && row.nonce == th.r.cap.nonce && row.claimed_at_ns == th.r.now
  }

  ghost predicate HeldBy(cfg: Config, threads: seq<Thread>, s: nat, id: Text, row: Claim) {
    exists i :: 0 <= i < |threads| && HoldsRow(cfg, s, id, row, threads[i])
  }

  predicate Replayed(th: Thread) { th.Presenting? && th.stage == Stopped(ReplayDetected) }

  predicate ReplayedAt(cfg: Config, s: nat, th: Thread) { Replayed(th) && AtStore(cfg, s, th) }

  /** Rows were claimed by threads that still hold them, and replays were reported because of rows. */
  ghost predicate RowsOk(cfg: Config, w: World) {
    && (forall s, id :: s in cfg.durable.stores && s < |w.stores| && id in w.stores[s]
          ==> HeldBy(cfg, w.threads, s, id, w.stores[s][id]))
    && (forall i, s ::
          0 <= i < |w.threads| && s in cfg.durable.stores && s < |w.stores| && ReplayedAt(cfg, s, w.threads[i])
          ==> CapabilityId(w.threads[i]) in w.stores[s])
  }

  lemma RowHolder(cfg: Config, w: World, s: nat, id: Text) returns (i: nat)
    requires RowsOk(cfg, w) && s in cfg.durable.stores && s < |w.stores| && id in w.stores[s]
    ensures i < |w.threads| && HoldsRow(cfg, s, id, w.stores[s][id], w.threads[i]) && Holder(cfg, s, w.threads[i])
  {
    assert HeldBy(cfg, w.threads, s, id, w.stores[s][id]);
    i :| 0 <= i < |w.threads| && HoldsRow(cfg, s, id, w.stores[s][id], w.threads[i]);
  }

  lemma RowsMove(cfg: Config, w: World, w': World)
    requires RowsOk(cfg, w) && |w'.threads| == |w.threads| && StoresKept(cfg, w, w')
    requires forall i :: 0 <= i < |w.threads| ==>
      SameHold(w.threads[i], w'.threads[i]) && (Replayed(w'.threads[i]) ==> Replayed(w.threads[i]))
    ensures RowsOk(cfg, w')
  {
    forall s, id | s in cfg.durable.stores && s < |w'.stores| && id in w'.stores[s]
      ensures HeldBy(cfg, w'.threads, s, id, w'.stores[s][id])
    {
      var i := RowHolder(cfg, w, s, id);
      assert SameHold(w.threads[i], w'.threads[i]);
      assert HoldsRow(cfg, s, id, w'.stores[s][id], w'.threads[i]);
    }
    forall i, s | 0 <= i < |w'.threads| && s in cfg.durable.stores && s < |w'.stores|
            && ReplayedAt(cfg, s, w'.threads[i])
      ensures CapabilityId(w'.threads[i]) in w'.stores[s]
    {
      assert SameHold(w.threads[i], w'.threads[i]);
    }
  }

  lemma RowsStart(cfg: Config, w: World, th: Thread)
    requires RowsOk(cfg, w) && !Replayed(th)
    ensures RowsOk(cfg, w.(threads := w.threads + [th]))
  {
    var threads := w.threads + [th];
    forall s, id | s in cfg.durable.stores && s < |w.stores| && id in w.stores[s]
      ensures HeldBy(cfg, threads, s, id, w.stores[s][id])
    {
      var i := RowHolder(cfg, w, s, id);
      assert threads[i] == w.threads[i];
    }
  }

  /** What a claim leaves behind. */
  lemma NewRow(cfg: Config, w: World, tid: nat, w': World)
    requires IsPresenting(cfg, w, tid) && w.threads[tid].stage == Verified && w' == StepClaim(cfg, w, tid)
    ensures var s, id := cfg.sinks[w.threads[tid].sink].store, CapabilityId(w.threads[tid]);
      if id in w.stores[s] then
        w' == w.(threads := w.threads[tid := w.threads[tid].(stage := Stopped(ReplayDetected))], log := w'.log)
      else
        && w'.threads == w.threads[tid := w.threads[tid].(stage := Claimed)]
        && |w'.stores| == |w.stores| && id in w'.stores[s] && HoldsRow(cfg, s, id, w'.stores[s][id], w'.threads[tid])
        && w'.stores == w.stores[s := w.stores[s][id := w'.stores[s][id]]]
  {
  }

  lemma RowsClaim(cfg: Config, w: World, tid: nat, w': World)
    requires RowsOk(cfg, w) && IsPresenting(cfg, w, tid)
    requires w.threads[tid].stage == Verified && w' == StepClaim(cfg, w, tid)
    ensures RowsOk(cfg, w')
  {
    hide StepClaim, HoldsRow;
    NewRow(cfg, w, tid, w');
    forall s, id | s in cfg.durable.stores && s < |w'.stores| && id in w'.stores[s]
      ensures HeldBy(cfg, w'.threads, s, id, w'.stores[s][id])
    {
      if id in w.stores[s] {
        var i := RowHolder(cfg, w, s, id);
        assert i != tid && w'.threads[i] == w.threads[i] && w'.stores[s][id] == w.stores[s][id];
      }
    }
  }

  lemma RowsPresent(cfg: Config, w: World, tid: nat, w': World)
    requires RowsOk(cfg, w) && IsPresenting(cfg, w, tid) && w' == StepPresent(cfg, w, tid)
    ensures RowsOk(cfg, w')
  {
    hide RowsOk, Sink.CheckLocal, Sink.CheckEvidence, Sink.CheckTransition, StepClaim, TryEffect, Sink.MakeReceipt;
    var Presenting(sink, r, stage) := w.threads[tid];
    if stage == Verified {
      RowsClaim(cfg, w, tid, w');
    } else {
      ChecksNoReplay(cfg.env, cfg.sinks[sink].settings, r, w.evidence, w.state);
      RowsMove(cfg, w, w');
    }
  }

  lemma NextRows(cfg: Config, w: World, a: Action, w': World)
    requires Wired(cfg, w) && RowsOk(cfg, w) && Enabled(cfg, w, a) && w' == Next(cfg, w, a)
    ensures RowsOk(cfg, w')
  {
    hide RowsOk, StepAuthorize, StepPresent, Ideal;
    match a {
      case Authorize(c, cost, now) => RowsStart(cfg, w, Authorizing(c, cost, now, Called));
      case Present(sink, r) => RowsStart(cfg, w, Presenting(sink, r, Presented));
      case Step(tid) =>
        if tid < |w.threads| && w.threads[tid].Authorizing? {
          StillAuthorizing(cfg, w, tid);
          AuthorizeKeepsStores(cfg, w, tid);
          RowsMove(cfg, w, w');
        } else if IsPresenting(cfg, w, tid) {
          RowsPresent(cfg, w, tid, w');
        }
      case _ => RowsMove(cfg, w, w');
    }
  }

  lemma AuthorizeKeepsStores(cfg: Config, w: World, tid: nat)
    requires tid < |w.threads| && w.threads[tid].Authorizing?
    ensures StepAuthorize(cfg, w, tid).stores == w.stores
  {
    hide Authority.Admit, Authority.MakeEvidence, Authority.MakeCapability, State.Authorize, TryCommit;
  }

  lemma {:induction false} RunRows(cfg: Config, w: World, run: seq<Action>)
    requires Wired(cfg, w) && RowsOk(cfg, w) && CanRun(cfg, w, run)
    ensures RowsOk(cfg, Run(cfg, w, run))
    decreases |run|
  {
    hide RowsOk, Enabled, Next;
    if run != [] {
      StaysWired(cfg, w, run[0]);
      NextRows(cfg, w, run[0], Next(cfg, w, run[0]));
      RunRows(cfg, Next(cfg, w, run[0]), run[1..]);
    }
  }

  lemma ReachedRows(cfg: Config, w: World)
    requires Reachable(cfg, w)
    ensures Wired(cfg, w) && RowsOk(cfg, w)
  {
    hide Run, CanRun;
    var start, run :| Leads(cfg, start, run, w);
    assert RowsOk(cfg, start);
    RunRows(cfg, start, run);
  }

  // ---- The outcome of a race ----

  /** The thread presented the capability `id` at store `s`, verified it, and is done. */
  predicate Raced(cfg: Config, s: nat, id: Text, th: Thread) {
    && AtStore(cfg, s, th) && CapabilityId(th) == id
    && (th.stage.Effective? || th.stage.Burnt? || Replayed(th))
  }

  /** The thread at `winner` took the capability `id` from store `s`, and every other thread that
      finished a verified presentation of it there was told of a replay. */
  ghost predicate Outcome(cfg: Config, threads: seq<Thread>, s: nat, id: Text, winner: nat) {
    && winner < |threads| && Holder(cfg, s, threads[winner]) && CapabilityId(threads[winner]) == id
    && forall i :: 0 <= i < |threads| && i != winner && Raced(cfg, s, id, threads[i]) ==> Replayed(threads[i])
  }

  /** As soon as one thread is done with a verified capability at a store, exactly one thread has
      claimed it there, and the row says where, for what nonce and when; all others that are done got the
      replay error. */
  lemma RaceOutcome(cfg: Config, w: World, s: nat, id: Text, tid: nat) returns (winner: nat)
    requires Reachable(cfg, w) && s in cfg.durable.stores && s < |w.stores|
    requires tid < |w.threads| && Raced(cfg, s, id, w.threads[tid])
    ensures Outcome(cfg, w.threads, s, id, winner)
    ensures forall i :: Outcome(cfg, w.threads, s, id, i) ==> i == winner
    ensures id in w.stores[s] && HoldsRow(cfg, s, id, w.stores[s][id], w.threads[winner])
  {
    hide Traced, EventsOk, Conserved, OrdinalsOk, AllReferenced, RowsOk, Run, CanRun, EnvLaws;
    hide Reachable, Wired;
    hide ClaimsOk;
    Reached(cfg, w);
    ReachedRows(cfg, w);
    RacedHasRow(cfg, w, s, id, tid);
    winner := RowHolder(cfg, w, s, id);
    SoleHolder(cfg, w, s, id, winner);
  }

  lemma RacedHasRow(cfg: Config, w: World, s: nat, id: Text, tid: nat)
    requires ClaimsOk(cfg, w) && RowsOk(cfg, w) && s in cfg.durable.stores && s < |w.stores|
    requires tid < |w.threads| && Raced(cfg, s, id, w.threads[tid])
    ensures id in w.stores[s]
  {
    assert Holder(cfg, s, w.threads[tid]) || ReplayedAt(cfg, s, w.threads[tid]);
  }

  lemma SoleHolder(cfg: Config, w: World, s: nat, id: Text, winner: nat)
    requires ClaimsOk(cfg, w) && s in cfg.durable.stores
    requires winner < |w.threads| && Holder(cfg, s, w.threads[winner]) && CapabilityId(w.threads[winner]) == id
    ensures Outcome(cfg, w.threads, s, id, winner)
    ensures forall i :: Outcome(cfg, w.threads, s, id, i) ==> i == winner
  {
    forall i | 0 <= i < |w.threads| && i != winner && Holder(cfg, s, w.threads[i])
      ensures CapabilityId(w.threads[i]) != id
    {
    }
  }

  /** The thread presents the capability `id` at store `s`, its request verifies, and it has not been
      turned away. */
  ghost predicate Contends(cfg: Config, w: World, s: nat, id: Text, tid: nat) {
    OnCourse(cfg, w, tid) && AtStore(cfg, s, w.threads[tid]) && CapabilityId(w.threads[tid]) == id
  }

  predicate Done(th: Thread) { th.Presenting? && (th.stage.Effective? || th.stage.Burnt? || th.stage.Stopped?) }

  /** Nobody but the contenders presented the capability at this store. */
  predicate Closed(cfg: Config, threads: seq<Thread>, s: nat, id: Text, contenders: set<nat>) {
    forall i :: 0 <= i < |threads| && AtStore(cfg, s, threads[i]) && CapabilityId(threads[i]) == id ==> i in contenders
  }

  // ---- Effectors that work ----

  lemma ReferenceNames()
    ensures FieldNames(REFERENCE_FIELDS)
  {
  }

  /** A working effector commits every candidate that has a digest. */
  lemma EffectSucceeds(env: Env, s: Effects, c: CandidateAct)
    requires EnvLaws(env) && !s.fail_next && Scalars(s.channel) && CandidateDigest(env, c).Some?
    ensures TryEffect(env, s, c).1.Ok? && IsPlain(TryEffect(env, s, c).1.value.effect_reference)
    ensures |TryEffect(env, s, c).0.records| == |s.records| + 1
  {
    hide CandidateDigest;
    var d := CandidateDigest(env, c).value;
    CandidateDigestPlain(env, c);
    PlainIsScalars(d);
    ReferenceNames();
    AcceptedRecord(env, REFERENCE_FIELDS, ReferenceValues(s.channel, d, |s.records|));
    DigestIsPlain(env, ReferenceCore(s.channel, d, |s.records|));
  }

  /** No failure is due at the effector, and its channel is a Unicode text. */
  predicate IsWorking(effects: Effects) { !effects.fail_next && Scalars(effects.channel) }

  /** The thread's commit has not failed, its effector works, and the run injects no failure there. */
  ghost predicate Unfailing(cfg: Config, w: World, run: seq<Action>, tid: nat) {
    && IsPresenting(cfg, w, tid) && !IsBurnt(w.threads[tid])
    && var f := cfg.sinks[w.threads[tid].sink].effector;
    IsWorking(w.effectors[f]) && forall i :: 0 <= i < |run| ==> run[i] != FailEffect(f)
  }

  lemma TryEffectWorks(env: Env, s: Effects, c: CandidateAct)
    requires IsWorking(s)
    ensures IsWorking(TryEffect(env, s, c).0)
  {
    hide CandidateDigest, Digest, ReferenceCore;
  }

  lemma StepWorks(cfg: Config, w: World, tid: nat, f: nat, w': World)
    requires f < |w.effectors| && IsWorking(w.effectors[f])
    requires IsPresenting(cfg, w, tid) && w' == StepPresent(cfg, w, tid)
    ensures f < |w'.effectors| && IsWorking(w'.effectors[f])
  {
    hide Sink.CheckLocal, Sink.CheckEvidence, Sink.CheckTransition, TryClaim, TryEffect, Sink.MakeReceipt, IsWorking;
    var here := cfg.sinks[w.threads[tid].sink].effector;
    if here == f {
      TryEffectWorks(cfg.env, w.effectors[f], w.threads[tid].r.candidate);
    }
  }

  /** Nothing but an injected failure stops an effector from working. */
  lemma NextWorks(cfg: Config, w: World, a: Action, f: nat, w': World)
    requires Wired(cfg, w) && f < |w.effectors| && IsWorking(w.effectors[f])
    requires a != FailEffect(f) && w' == Next(cfg, w, a)
    ensures f < |w'.effectors| && IsWorking(w'.effectors[f])
  {
    hide StepAuthorize, StepPresent;
    if a.Step? {
      if a.tid < |w.threads| && w.threads[a.tid].Authorizing? {
        AuthorizeKeepsEffectors(cfg, w, a.tid);
      } else if IsPresenting(cfg, w, a.tid) {
        StepWorks(cfg, w, a.tid, f, w');
      }
    }
  }

  lemma AuthorizeKeepsEffectors(cfg: Config, w: World, tid: nat)
    requires tid < |w.threads| && w.threads[tid].Authorizing?
    ensures StepAuthorize(cfg, w, tid).effectors == w.effectors
  {
    hide Authority.Admit, Authority.MakeEvidence, Authority.MakeCapability, State.Authorize, TryCommit;
  }

  predicate IsBurnt(th: Thread) { th.Presenting? && th.stage.Burnt? }

  lemma OnCourseHasDigest(cfg: Config, w: World, tid: nat)
    requires OnCourse(cfg, w, tid)
    ensures CandidateDigest(cfg.env, w.threads[tid].r.candidate).Some?
  {
    hide Sink.CheckLocal, Sink.CheckEvidence, Sink.CheckTransition, CandidateDigest;
    var Presenting(sink, r, _) := w.threads[tid];
    VerdictParts(cfg.env, cfg.sinks[sink].settings, r, w.evidence, w.state);
    LocalDigest(cfg.env, cfg.sinks[sink].settings, r);
  }

  /** At a working effector the commit does not fail. */
  lemma NextNotBurnt(cfg: Config, w: World, a: Action, tid: nat, w': World)
    requires EnvLaws(cfg.env) && Wired(cfg, w) && OnCourse(cfg, w, tid) && w' == Next(cfg, w, a)
    requires IsWorking(w.effectors[cfg.sinks[w.threads[tid].sink].effector]) && !IsBurnt(w.threads[tid])
    ensures tid < |w'.threads| && !IsBurnt(w'.threads[tid])
  {
    hide StepAuthorize, StepPresent, EnvLaws, IsWorking, VerdictIn;
    if a.Step? {
      if a.tid != tid {
        OthersWait(cfg, w, a.tid, tid, w');
      } else {
        OnCourseHasDigest(cfg, w, tid);
        StepNotBurnt(cfg, w, tid, w');
      }
    }
  }

  lemma StepNotBurnt(cfg: Config, w: World, tid: nat, w': World)
    requires EnvLaws(cfg.env) && IsPresenting(cfg, w, tid) && w' == StepPresent(cfg, w, tid)
    requires CandidateDigest(cfg.env, w.threads[tid].r.candidate).Some? && !IsBurnt(w.threads[tid])
    requires IsWorking(w.effectors[cfg.sinks[w.threads[tid].sink].effector])
    ensures tid < |w'.threads| && !IsBurnt(w'.threads[tid])
  {
    hide Sink.CheckLocal, Sink.CheckEvidence, Sink.CheckTransition, TryClaim, TryEffect, Sink.MakeReceipt, EnvLaws;
    hide CandidateDigest;
    if w.threads[tid].stage == Claimed {
      EffectSucceeds(cfg.env, w.effectors[cfg.sinks[w.threads[tid].sink].effector], w.threads[tid].r.candidate);
    }
  }

  lemma {:induction false} RunNotBurnt(cfg: Config, w: World, run: seq<Action>, tid: nat)
    requires EnvLaws(cfg.env) && Wired(cfg, w) && Settled(cfg, w) && CanRun(cfg, w, run)
    requires NormalRun(cfg, run) && Lasting(cfg) && OnCourse(cfg, w, tid)
    requires Unfailing(cfg, w, run, tid)
    ensures var w' := Run(cfg, w, run); tid < |w'.threads| && !IsBurnt(w'.threads[tid])
    decreases |run|
  {
    hide EnvLaws, Enabled, Next, Settled, BringsNormal, OnCourse, IsWorking;
    if run != [] {
      var w' := Next(cfg, w, run[0]);
      StaysWired(cfg, w, run[0]);
      NextSettled(cfg, w, run[0]);
      NextOnCourse(cfg, w, run[0], tid);
      NextWorks(cfg, w, run[0], cfg.sinks[w.threads[tid].sink].effector, w');
      NextNotBurnt(cfg, w, run[0], tid, w');
      OnCoursePresents(cfg, w', tid);
      RunNotBurnt(cfg, w', run[1..], tid);
    }
  }

  lemma OnCoursePresents(cfg: Config, w: World, tid: nat)
    requires OnCourse(cfg, w, tid)
    ensures IsPresenting(cfg, w, tid)
  {
    hide VerdictIn;
  }

  // ---- A race of valid requests ----

  /** A race: threads present one capability that verifies, anything else may happen in between, and
      when all of them are done exactly one thread has claimed it and each of the others has been told
      of a replay. If nobody else presented it, the one is among them. It has its effect, unless a failure
      of its effector was due or injected. */
  lemma ValidRace(cfg: Config, w: World, run: seq<Action>, s: nat, id: Text, contenders: set<nat>) returns (winner: nat)
    requires Reachable(cfg, w) && Wired(cfg, w) && Settled(cfg, w) && CanRun(cfg, w, run)
    requires NormalRun(cfg, run) && Lasting(cfg) && s in cfg.durable.stores
    requires contenders != {} && forall i :: i in contenders ==> Contends(cfg, w, s, id, i)
    requires var threads := Run(cfg, w, run).threads; forall i :: i in contenders ==> i < |threads| && Done(threads[i])
    ensures Outcome(cfg, Run(cfg, w, run).threads, s, id, winner)
    ensures forall i :: i in contenders && i != winner ==> Replayed(Run(cfg, w, run).threads[i])
    ensures Closed(cfg, Run(cfg, w, run).threads, s, id, contenders) ==> winner in contenders
    ensures winner in contenders && Unfailing(cfg, w, run, winner) ==> Run(cfg, w, run).threads[winner].stage.Effective?
  {
    hide EnvLaws, Settled, CanRun, NormalRun, Run, Reachable, WellFormed, Unfailing, Contends, Done, Raced, Outcome;
    hide Traced, Accounted;
    var w' := Run(cfg, w, run);
    Reached(cfg, w);
    ReachedOnward(cfg, w, run);
    forall i | i in contenders ensures Raced(cfg, s, id, w'.threads[i]) && s < |w'.stores| {
      ContenderRaced(cfg, w, run, s, id, i, w');
    }
    var tid :| tid in contenders;
    winner := RaceOutcome(cfg, w', s, id, tid);
    OutcomeFacts(cfg, w'.threads, s, id, winner);
    if winner in contenders && Unfailing(cfg, w, run, winner) {
      WinnerEffective(cfg, w, run, s, id, winner, w');
    }
  }

  lemma OutcomeFacts(cfg: Config, threads: seq<Thread>, s: nat, id: Text, winner: nat)
    requires Outcome(cfg, threads, s, id, winner)
    ensures winner < |threads| && AtStore(cfg, s, threads[winner]) && CapabilityId(threads[winner]) == id
    ensures !Replayed(threads[winner])
    ensures forall i :: 0 <= i < |threads| && i != winner && Raced(cfg, s, id, threads[i]) ==> Replayed(threads[i])
  {
  }

  lemma ContenderRaced(cfg: Config, w: World, run: seq<Action>, s: nat, id: Text, i: nat, w': World)
    requires EnvLaws(cfg.env) && Wired(cfg, w) && Settled(cfg, w) && CanRun(cfg, w, run)
    requires NormalRun(cfg, run) && Lasting(cfg) && Contends(cfg, w, s, id, i)
    requires w' == Run(cfg, w, run) && i < |w'.threads| && Done(w'.threads[i])
    ensures s < |w'.stores| && Raced(cfg, s, id, w'.threads[i])
  {
    hide EnvLaws, Settled, CanRun, NormalRun, VerdictIn, Run;
    RunOnCourse(cfg, w, run, i);
  }

  lemma WinnerEffective(cfg: Config, w: World, run: seq<Action>, s: nat, id: Text, i: nat, w': World)
    requires EnvLaws(cfg.env) && Wired(cfg, w) && Settled(cfg, w) && CanRun(cfg, w, run)
    requires NormalRun(cfg, run) && Lasting(cfg) && Contends(cfg, w, s, id, i) && Unfailing(cfg, w, run, i)
    requires w' == Run(cfg, w, run) && i < |w'.threads| && Raced(cfg, s, id, w'.threads[i])
    requires !Replayed(w'.threads[i])
    ensures w'.threads[i].stage.Effective?
  {
    hide EnvLaws, Settled, CanRun, NormalRun, VerdictIn, Run, Unfailing;
    RunNotBurnt(cfg, w, run, i);
  }

  // ---- Conservation ----

  predicate EffectiveHere(cfg: Config, s: nat, th: Thread) { AtStore(cfg, s, th) && th.stage.Effective? }
  predicate BurntHere(cfg: Config, s: nat, th: Thread) { AtStore(cfg, s, th) && th.stage.Burnt? }
  predicate InFlight(cfg: Config, s: nat, th: Thread) { AtStore(cfg, s, th) && th.stage.Claimed? }
  predicate LostHere(cfg: Config, s: nat, th: Thread) { AtStore(cfg, s, th) && th.stage == Lost(true) }

  /** The claims in a store are the effects, the failed commits, the threads between claim and commit,
      and the threads lost there. */
  lemma ClaimConservation(cfg: Config, w: World, s: nat)
    requires Reachable(cfg, w) && s in cfg.durable.stores && s < |w.stores|
    ensures |w.stores[s]|
            == Count(w.threads, th => EffectiveHere(cfg, s, th)) + Count(w.threads, th => BurntHere(cfg, s, th))
                           + Count(w.threads, th => InFlight(cfg, s, th)) + Count(w.threads, th => LostHere(cfg, s, th))
  {
    hide Traced, ClaimsOk, EventsOk, OrdinalsOk, AllReferenced, EnvLaws;
    hide Reachable;
    Reached(cfg, w);
    CountSplit(w.threads, Holders(cfg, s), th => EffectiveHere(cfg, s, th), th => BurntHere(cfg, s, th),
               th => InFlight(cfg, s, th), th => LostHere(cfg, s, th));
  }

  lemma ReferenceBinds(env: Env, channel: Text, d: Text, m: nat, e: Text, n: nat)
    requires EnvLaws(env) && MayHash(env, ReferenceCore(channel, d, m)) && MayHash(env, ReferenceCore(channel, e, n))
    requires Digest(env, ReferenceCore(channel, d, m)).Some?
    requires Digest(env, ReferenceCore(channel, d, m)) == Digest(env, ReferenceCore(channel, e, n))
    ensures m == n
  {
    DigestBinds(env, ReferenceCore(channel, d, m), ReferenceCore(channel, e, n));
    var vs, ws := ReferenceValues(channel, d, m), ReferenceValues(channel, e, n);
    AllFieldsBind(env.nfc, REFERENCE_FIELDS, vs, ws);
    IntBinds(env.nfc, vs, ws, 2, m, n);
  }

  /** An effector has as many records as there were effects at it, under distinct references. */
  lemma RecordConservation(cfg: Config, w: World, f: nat)
    requires Reachable(cfg, w) && f in cfg.durable.effectors && f < |w.effectors|
    ensures |w.effectors[f].records| == Count(w.threads, EffectiveAt(cfg, f))
    ensures forall m, n :: 0 <= m < n < |w.effectors[f].records| ==>
      w.effectors[f].records[m].effect_reference != w.effectors[f].records[n].effect_reference
  {
    hide Traced, ClaimsOk, EventsOk, OrdinalsOk, Digest, ReferenceCore, MayHash, EnvLaws;
    hide Reachable;
    Reached(cfg, w);
    var effects := w.effectors[f];
    forall m, n | 0 <= m < n < |effects.records|
      ensures effects.records[m].effect_reference != effects.records[n].effect_reference
    {
      assert IsReferenced(cfg.env, effects, m) && IsReferenced(cfg.env, effects, n);
      if effects.records[m].effect_reference == effects.records[n].effect_reference {
        ReferenceBinds(cfg.env, effects.channel, effects.records[m].candidate_digest, m,
                       effects.records[n].candidate_digest, n);
      }
    }
  }

  /** Each receipt names a record of its own. */
  lemma ReceiptsNameRecords(cfg: Config, w: World, f: nat, i: nat, j: nat)
    requires Reachable(cfg, w) && f in cfg.durable.effectors && f < |w.effectors|
    requires i < |w.threads| && j < |w.threads| && i != j
    requires IsEffective(cfg, f, w.threads[i]) && IsEffective(cfg, f, w.threads[j])
    ensures RecordOf(w.threads[i], w.effectors[f].records)
    ensures w.threads[i].stage.ordinal != w.threads[j].stage.ordinal
    ensures w.threads[i].stage.result.Ok? && w.threads[j].stage.result.Ok? ==>
      w.threads[i].stage.result.value.effect_reference != w.threads[j].stage.result.value.effect_reference
  {
    hide Traced, ClaimsOk, EventsOk, AllReferenced, Conserved, EnvLaws;
    hide Reachable;
    Reached(cfg, w);
    RecordConservation(cfg, w, f);
  }

  // ---- Why the store has to last ----

  lemma ReferenceExists(env: Env, channel: Text, d: Text, m: nat, n: nat)
    requires EnvLaws(env) && Digest(env, ReferenceCore(channel, d, m)).Some?
    ensures Digest(env, ReferenceCore(channel, d, n)).Some?
  {
    var vs, ws := ReferenceValues(channel, d, m), ReferenceValues(channel, d, n);
    FieldAccepted(env.nfc, REFERENCE_FIELDS, vs, 0);
    FieldAccepted(env.nfc, REFERENCE_FIELDS, vs, 1);
    ReferenceNames();
    RecordAccepted(env.nfc, REFERENCE_FIELDS, ws);
  }

  /** At-most-once is as good as the claim store: a sink of the same identity whose claims do not hold the
      capability, because they were lost or are kept in a store of their own, has the effect again. */
  lemma ForgottenClaimRepeats(env: Env, k: Sink.Settings, r: Sink.Request, records: Records, s: State.Protected,
                              claims: Claims, effects: Effects, others: Claims)
    requires EnvLaws(env) && r.cap.capability_id !in others
    requires var (_, after, _) := Sink.Effectuate(env, k, r, records, s, claims, effects);
      |after.records| == |effects.records| + 1
    ensures var (_, after, _) := Sink.Effectuate(env, k, r, records, s, claims, effects);
      var (_, again, _) := Sink.Effectuate(env, k, r, records, s, others, after);
      |again.records| == |effects.records| + 2
  {
    hide Sink.Verify, Sink.MakeReceipt, CandidateDigest, ReferenceCore, Canon;
    var d := CandidateDigest(env, r.candidate);
    if d.Some? && Digest(env, ReferenceCore(effects.channel, d.value, |effects.records|)).Some? {
      ReferenceExists(env, effects.channel, d.value, |effects.records|, |effects.records| + 1);
    }
  }
}
