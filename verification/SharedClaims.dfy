/** Claims through the shared SQLite table are the machine's atomic claim steps, so what holds of every
    run of the machine holds with that store too. */
module SharedClaims {
  import opened Wrappers
  import opened Unicode
  import opened Models
  import opened Stores
  import opened Machine
  import opened AtMostOnce
  import opened Guarantees
  import Race
  import Sink
  import T = Transactions

  // ---- Processes and threads ----

  /** What the process of a verified presentation asks the table for. */
  function RequestOf(cfg: Config, th: Thread): T.Request
    requires th.Presenting? && th.sink < |cfg.sinks|
  {
    T.Request(CapabilityId(th), Sink.ClaimRow(cfg.sinks[th.sink].settings, th.r))
  }

  predicate AtClaim(cfg: Config, w: World, s: nat, tid: nat) {
    IsPresenting(cfg, w, tid) && w.threads[tid].stage == Verified && cfg.sinks[w.threads[tid].sink].store == s
  }

  /** The `p`-th process runs thread `tids[p]`, which is about to claim at store `s`. */
  ghost predicate AreClaims(cfg: Config, w: World, s: nat, tids: seq<nat>, requests: seq<T.Request>) {
    && |requests| == |tids| && s < |w.stores|
    && (forall p :: 0 <= p < |tids| ==>
          AtClaim(cfg, w, s, tids[p]) && requests[p] == RequestOf(cfg, w.threads[tids[p]]))
    && (forall p, q :: 0 <= p < q < |tids| ==> tids[p] != tids[q])
  }

  /** What a thread makes of the result of its claim. */
  function StageOf(result: Result<(), Error>): Stage {
    match result
    case Ok(_) => Claimed
    case Err(x) => Stopped(x)
  }

  /** The claim steps of the threads, in the order of the processes. */
  function ClaimSteps(tids: seq<nat>, order: seq<nat>): (run: seq<Action>)
    requires forall i :: 0 <= i < |order| ==> order[i] < |tids|
    ensures |run| == |order| && forall i :: 0 <= i < |order| ==> run[i] == Step(tids[order[i]])
  {
    seq(|order|, i requires 0 <= i < |order| => Step(tids[order[i]]))
  }

  /** The threads of the processes in `order` are where their claims have put them, those of the others
      where they were. */
  ghost predicate ThreadsClaimed(threads: seq<Thread>, after: seq<Thread>, tids: seq<nat>, requests: seq<T.Request>,
                                 initial: Claims, order: seq<nat>) {
    && T.ValidOrder(requests, order) && |requests| == |tids| && |after| == |threads|
    && (forall p :: 0 <= p < |tids| ==> tids[p] < |threads| && threads[tids[p]].Presenting?)
    && (forall i :: 0 <= i < |order| ==>
          after[tids[order[i]]] == threads[tids[order[i]]].(stage := StageOf(T.ResultAt(requests, initial, order, i))))
    && (forall p :: 0 <= p < |tids| && p !in order ==> after[tids[p]] == threads[tids[p]])
  }

  /** In `x`, the processes in `order` have claimed one after the other, and nothing else has happened. */
  ghost predicate HaveClaimed(cfg: Config, w: World, x: World, s: nat, tids: seq<nat>, requests: seq<T.Request>,
                              order: seq<nat>)
    requires s < |w.stores|
  {
    && ThreadsClaimed(w.threads, x.threads, tids, requests, w.stores[s], order)
    && x.stores == w.stores[s := T.Claimed(requests, w.stores[s], order)]
    && x.effectors == w.effectors && x.state == w.state && x.evidence == w.evidence
  }

  // ---- One claim more ----

  /** What a claim step does, in terms of the table. */
  lemma ClaimStep(cfg: Config, x: World, s: nat, tid: nat, x': World)
    requires AtClaim(cfg, x, s, tid) && x' == Next(cfg, x, Step(tid))
    ensures var r := RequestOf(cfg, x.threads[tid]);
      var (claims, result) := TryClaim(x.stores[s], r.id, r.row);
      && x'.threads == x.threads[tid := x.threads[tid].(stage := StageOf(result))] && x'.stores == x.stores[s := claims]
      && x'.effectors == x.effectors && x'.state == x.state && x'.evidence == x.evidence
  {
  }

  lemma OneThreadMore(threads: seq<Thread>, after: seq<Thread>, tids: seq<nat>, requests: seq<T.Request>,
                      initial: Claims, order: seq<nat>, p: nat, result: Result<(), Error>, after': seq<Thread>)
    requires ThreadsClaimed(threads, after, tids, requests, initial, order) && p < |tids| && p !in order
    requires forall q :: 0 <= q < |tids| && q != p ==> tids[q] != tids[p]
    requires after' == after[tids[p] := threads[tids[p]].(stage := StageOf(result))]
    requires result == TryClaim(T.Claimed(requests, initial, order), requests[p].id, requests[p].row).1
    ensures ThreadsClaimed(threads, after', tids, requests, initial, order + [p])
  {
    hide T.Claimed, T.ResultAt, TryClaim, StageOf;
    T.ClaimedSnoc(requests, initial, order, p);
    var longer := order + [p];
    forall i | 0 <= i < |longer|
      ensures after'[tids[longer[i]]]
              == threads[tids[longer[i]]].(stage := StageOf(T.ResultAt(requests, initial, longer, i)))
    {
      if i < |order| {
        assert longer[i] == order[i] && order[i] in order;
      }
    }
    forall q | 0 <= q < |tids| && q !in longer ensures after'[tids[q]] == threads[tids[q]] {
      assert longer[|order|] == p;
      assert forall i :: 0 <= i < |order| ==> order[i] == longer[i] && longer[i] in longer;
    }
  }

  /** The process has not claimed yet, so its thread is where it was. */
  lemma StillAtClaim(cfg: Config, w: World, x: World, s: nat, tids: seq<nat>, requests: seq<T.Request>,
                     order: seq<nat>, p: nat)
    requires Wired(cfg, x) && AreClaims(cfg, w, s, tids, requests) && HaveClaimed(cfg, w, x, s, tids, requests, order)
    requires p < |tids| && p !in order
    ensures AtClaim(cfg, x, s, tids[p]) && x.threads[tids[p]] == w.threads[tids[p]]
    ensures requests[p] == RequestOf(cfg, x.threads[tids[p]])
  {
    hide T.Claimed, T.ResultAt, RequestOf;
    assert AtClaim(cfg, w, s, tids[p]);
  }

  lemma OneMore(cfg: Config, w: World, x: World, s: nat, tids: seq<nat>, requests: seq<T.Request>, order: seq<nat>,
                p: nat, x': World)
    requires Wired(cfg, x) && AreClaims(cfg, w, s, tids, requests) && HaveClaimed(cfg, w, x, s, tids, requests, order)
    requires p < |tids| && p !in order && x' == Next(cfg, x, Step(tids[p]))
    ensures HaveClaimed(cfg, w, x', s, tids, requests, order + [p])
  {
    hide Next, T.Claimed, T.ResultAt, TryClaim, RequestOf, AtClaim;
    StillAtClaim(cfg, w, x, s, tids, requests, order, p);
    ClaimStep(cfg, x, s, tids[p], x');
    var (claims, result) := TryClaim(x.stores[s], requests[p].id, requests[p].row);
    assert x.stores[s] == T.Claimed(requests, w.stores[s], order);
    OneThreadMore(w.threads, x.threads, tids, requests, w.stores[s], order, p, result, x'.threads);
    T.ClaimedSnoc(requests, w.stores[s], order, p);
  }

  lemma StepEnabled(cfg: Config, x: World, s: nat, tid: nat)
    requires AtClaim(cfg, x, s, tid) && MayHash(cfg.env, CandidateValue(x.threads[tid].r.candidate))
    ensures Enabled(cfg, x, Step(tid))
  {
    hide MayHash, MayRefer;
  }

  // ---- All of them ----

  /** The run hashes the candidates of all processes. */
  ghost predicate MayHashAll(cfg: Config, w: World, tids: seq<nat>) {
    forall p :: 0 <= p < |tids| ==>
      tids[p] < |w.threads| && w.threads[tids[p]].Presenting?
      && MayHash(cfg.env, CandidateValue(w.threads[tids[p]].r.candidate))
  }

  lemma OneStepMore(cfg: Config, w: World, s: nat, tids: seq<nat>, requests: seq<T.Request>, front: seq<nat>, p: nat)
    requires Wired(cfg, w) && AreClaims(cfg, w, s, tids, requests) && T.ValidOrder(requests, front)
    requires p < |tids| && p !in front && MayHash(cfg.env, CandidateValue(w.threads[tids[p]].r.candidate))
    requires CanRun(cfg, w, ClaimSteps(tids, front))
    requires HaveClaimed(cfg, w, Run(cfg, w, ClaimSteps(tids, front)), s, tids, requests, front)
    ensures CanRun(cfg, w, ClaimSteps(tids, front + [p]))
    ensures HaveClaimed(cfg, w, Run(cfg, w, ClaimSteps(tids, front + [p])), s, tids, requests, front + [p])
  {
    hide Next, Enabled, MayHash, T.ResultAt, T.Claimed, AtClaim, RequestOf, Run, CanRun, HaveClaimed;
    var x := Run(cfg, w, ClaimSteps(tids, front));
    StillAtClaim(cfg, w, x, s, tids, requests, front, p);
    StepEnabled(cfg, x, s, tids[p]);
    OneStepRun(cfg, x, Step(tids[p]));
    OneMore(cfg, w, x, s, tids, requests, front, p, Next(cfg, x, Step(tids[p])));
    RunOn(cfg, w, ClaimSteps(tids, front), [Step(tids[p])]);
    assert ClaimSteps(tids, front + [p]) == ClaimSteps(tids, front) + [Step(tids[p])];
  }

  lemma {:induction false} StepsClaim(cfg: Config, w: World, s: nat, tids: seq<nat>, requests: seq<T.Request>,
                                      order: seq<nat>)
    requires Wired(cfg, w) && AreClaims(cfg, w, s, tids, requests) && T.ValidOrder(requests, order)
    requires (forall i, j :: 0 <= i < j < |order| ==> order[i] != order[j]) && MayHashAll(cfg, w, tids)
    ensures CanRun(cfg, w, ClaimSteps(tids, order))
    ensures HaveClaimed(cfg, w, Run(cfg, w, ClaimSteps(tids, order)), s, tids, requests, order)
    decreases |order|
  {
    hide Next, Enabled, MayHash, T.ResultAt, AtClaim, RequestOf;
    if order == [] {
      assert ClaimSteps(tids, order) == [];
    } else {
      hide AreClaims, HaveClaimed, Run, CanRun;
      var front, p := order[..|order| - 1], order[|order| - 1];
      assert order == front + [p] && p !in front;
      StepsClaim(cfg, w, s, tids, requests, front);
      OneStepMore(cfg, w, s, tids, requests, front, p);
    }
  }

  lemma OneStepRun(cfg: Config, x: World, a: Action)
    requires Wired(cfg, x) && Enabled(cfg, x, a)
    ensures CanRun(cfg, x, [a]) && Run(cfg, x, [a]) == Next(cfg, x, a)
  {
    hide Next, Enabled;
    StaysWired(cfg, x, a);
    assert [a][1..] == [];
  }

  /** However the transactions of the processes interleave and whichever of them die, the machine can take
      the claim steps of those that end, in the order in which they end; its store is then the table, and
      every thread is where the result of its transaction puts it. */
  lemma TransactionsAreSteps(cfg: Config, w: World, s: nat, tids: seq<nat>, requests: seq<T.Request>,
                             run: seq<T.Action>, d: T.Database)
    requires Wired(cfg, w) && AreClaims(cfg, w, s, tids, requests) && MayHashAll(cfg, w, tids)
    requires d == T.Run(requests, T.Start(requests, w.stores[s]), run)
    ensures T.ValidOrder(requests, d.order) && CanRun(cfg, w, ClaimSteps(tids, d.order))
    ensures var x := Run(cfg, w, ClaimSteps(tids, d.order));
      HaveClaimed(cfg, w, x, s, tids, requests, d.order) && x.stores[s] == d.committed && ToldAlike(x.threads, tids, d)
  {
    hide T.Run, T.Claimed, T.ResultAt, AtClaim, RequestOf, CanRun, Run, MayHashAll, T.Exclusive;
    T.StartRefines(requests, w.stores[s]);
    T.TransactionsRefineClaims(requests, w.stores[s], T.Start(requests, w.stores[s]), run);
    StepsClaim(cfg, w, s, tids, requests, d.order);
    ResultsReach(w.threads, Run(cfg, w, ClaimSteps(tids, d.order)).threads, tids, requests, w.stores[s], d);
  }

  /** Every thread is where the result of its process puts it. */
  ghost predicate ToldAlike(threads: seq<Thread>, tids: seq<nat>, d: T.Database) {
    forall p :: 0 <= p < |tids| && p < |d.phases| && d.phases[p].Finished? ==>
      tids[p] < |threads| && threads[tids[p]].Presenting? && threads[tids[p]].stage == StageOf(d.phases[p].result)
  }

  lemma ResultsReach(threads: seq<Thread>, after: seq<Thread>, tids: seq<nat>, requests: seq<T.Request>,
                     initial: Claims, d: T.Database)
    requires ThreadsClaimed(threads, after, tids, requests, initial, d.order) && T.Refines(requests, initial, d)
    ensures ToldAlike(after, tids, d)
  {
    hide T.Claimed, T.ResultAt, StageOf;
    forall p | 0 <= p < |tids| && p < |d.phases| && d.phases[p].Finished?
      ensures tids[p] < |after| && after[tids[p]].Presenting? && after[tids[p]].stage == StageOf(d.phases[p].result)
    {
      var i :| 0 <= i < |d.order| && d.order[i] == p;
    }
  }

  /** So at-most-once across crashes holds with the shared table: it reaches only what the machine
      reaches. */
  lemma TransactionsReach(cfg: Config, w: World, s: nat, tids: seq<nat>, requests: seq<T.Request>,
                          run: seq<T.Action>, d: T.Database)
    requires Reachable(cfg, w) && AreClaims(cfg, w, s, tids, requests) && MayHashAll(cfg, w, tids)
    requires d == T.Run(requests, T.Start(requests, w.stores[s]), run)
    ensures Wired(cfg, w) && T.ValidOrder(requests, d.order)
    ensures Reachable(cfg, Run(cfg, w, ClaimSteps(tids, d.order)))
    ensures Run(cfg, w, ClaimSteps(tids, d.order)).stores[s] == d.committed
  {
    hide Reachable, T.Run, T.Claimed, T.ResultAt, CanRun, Run, MayHashAll, Race.RowsOk, AtClaim, RequestOf;
    Race.ReachedRows(cfg, w);
    TransactionsAreSteps(cfg, w, s, tids, requests, run, d);
    ReachedOnward(cfg, w, ClaimSteps(tids, d.order));
  }
}
