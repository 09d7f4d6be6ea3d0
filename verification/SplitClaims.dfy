/** The machine with its claim steps split into the transactions of the SQLite store: begin, insert, and
    commit or rollback, with any other steps of any threads, failures and crashes between them. It reaches
    only what the machine reaches, so every guarantee holds with that store. */
module SplitClaims {
  import opened Wrappers
  import opened Unicode
  import opened Models
  import opened Stores
  import opened Machine
  import opened AtMostOnce
  import opened Guarantees
  import opened Verdicts
  import Race
  import Sink

  // ---- Transactions ----

  datatype Phase = Begun | Inserted | Violated

  /** The write transaction that is open on a store. */
  datatype Transaction = Transaction(tid: nat, table: Claims, phase: Phase)

  /** The machine, and the transactions open on its stores. */
  datatype Shared = Shared(w: World, open: map<nat, Transaction>)

  datatype Move = Other(a: Action) | Begin(tid: nat) | Insert(tid: nat) | Commit(tid: nat) | Rollback(tid: nat)

  /** The thread is about to claim. */
  predicate IsClaiming(cfg: Config, w: World, tid: nat) {
    IsPresenting(cfg, w, tid) && w.threads[tid].stage == Verified
  }

  function StoreOf(cfg: Config, w: World, tid: nat): nat
    requires IsPresenting(cfg, w, tid)
  {
    cfg.sinks[w.threads[tid].sink].store
  }

  function RowOf(cfg: Config, w: World, tid: nat): Claim
    requires IsPresenting(cfg, w, tid)
  {
    Sink.ClaimRow(cfg.sinks[w.threads[tid].sink].settings, w.threads[tid].r)
  }

  predicate Holds(cfg: Config, x: Shared, tid: nat) {
    && IsClaiming(cfg, x.w, tid) && StoreOf(cfg, x.w, tid) in x.open
    && x.open[StoreOf(cfg, x.w, tid)].tid == tid
  }

  /** A transaction dies with its process or with its file. */
  function Surviving(open: map<nat, Transaction>, loss: Loss): map<nat, Transaction> {
    map s | s in open && s !in loss.stores && open[s].tid !in loss.threads :: open[s]
  }

  /** Every step but a claim is the machine's. */
  function StepOther(cfg: Config, x: Shared, a: Action): Shared
    requires Wired(cfg, x.w)
  {
    if a.Step? && IsClaiming(cfg, x.w, a.tid) then x
    else Shared(Next(cfg, x.w, a), if a.Crash? then Surviving(x.open, a.loss) else x.open)
  }

  /** `BEGIN IMMEDIATE` waits while another transaction is open. */
  function StepBegin(cfg: Config, x: Shared, tid: nat): Shared {
    if IsClaiming(cfg, x.w, tid) && StoreOf(cfg, x.w, tid) !in x.open then
      var s := StoreOf(cfg, x.w, tid);
      x.(open := x.open[s := Transaction(tid, x.w.stores[s], Begun)])
    else x
  }

  function StepInsert(cfg: Config, x: Shared, tid: nat): Shared {
    if Holds(cfg, x, tid) && x.open[StoreOf(cfg, x.w, tid)].phase == Begun then
      var s, id := StoreOf(cfg, x.w, tid), CapabilityId(x.w.threads[tid]);
      var table := x.open[s].table;
      if id in table then x.(open := x.open[s := Transaction(tid, table, Violated)])
      else x.(open := x.open[s := Transaction(tid, table[id := RowOf(cfg, x.w, tid)], Inserted)])
    else x
  }

  /** The table of the transaction becomes that of the store, and the claim has been made. */
  function StepCommit(cfg: Config, x: Shared, tid: nat): Shared {
    if Holds(cfg, x, tid) && x.open[StoreOf(cfg, x.w, tid)].phase == Inserted then
      var s := StoreOf(cfg, x.w, tid);
      var Presenting(sink, r, _) := x.w.threads[tid];
      Shared(Staged(x.w.(stores := x.w.stores[s := x.open[s].table]), tid, Claimed, [WasClaimed(tid, sink, r)]),
             x.open - {s})
    else x
  }

  function StepRollback(cfg: Config, x: Shared, tid: nat): Shared {
    if Holds(cfg, x, tid) && x.open[StoreOf(cfg, x.w, tid)].phase == Violated then
      Shared(Staged(x.w, tid, Stopped(ReplayDetected), []), x.open - {StoreOf(cfg, x.w, tid)})
    else x
  }

  function NextShared(cfg: Config, x: Shared, m: Move): Shared
    requires Wired(cfg, x.w)
  {
    match m
    case Other(a) => StepOther(cfg, x, a)
    case Begin(tid) => StepBegin(cfg, x, tid)
    case Insert(tid) => StepInsert(cfg, x, tid)
    case Commit(tid) => StepCommit(cfg, x, tid)
    case Rollback(tid) => StepRollback(cfg, x, tid)
  }

  // ---- What the write lock guards ----

  /** The transaction is that of a thread about to claim at this store, over what the store holds. */
  ghost predicate TransactionOk(cfg: Config, w: World, s: nat, t: Transaction) {
    && IsClaiming(cfg, w, t.tid) && StoreOf(cfg, w, t.tid) == s
    && var id := CapabilityId(w.threads[t.tid]);
    match t.phase
    case Begun => t.table == w.stores[s]
    case Inserted => id !in w.stores[s] && t.table == w.stores[s][id := RowOf(cfg, w, t.tid)]
    case Violated => id in w.stores[s]
  }

  ghost predicate TransactionsOk(cfg: Config, x: Shared) {
    forall s :: s in x.open ==> TransactionOk(cfg, x.w, s, x.open[s])
  }

  /** The thread and the store are what they were. */
  lemma TransactionStays(cfg: Config, w: World, w': World, s: nat, t: Transaction)
    requires TransactionOk(cfg, w, s, t) && Wired(cfg, w')
    requires t.tid < |w'.threads| && w'.threads[t.tid] == w.threads[t.tid]
    requires s < |w'.stores| && w'.stores[s] == w.stores[s]
    ensures TransactionOk(cfg, w', s, t)
  {
  }

  lemma PresentKeepsStores(cfg: Config, w: World, tid: nat)
    requires IsPresenting(cfg, w, tid) && !IsClaiming(cfg, w, tid)
    ensures StepPresent(cfg, w, tid).stores == w.stores
  {
    hide Sink.CheckLocal, Sink.CheckEvidence, Sink.CheckTransition, StepClaim, TryEffect, Sink.MakeReceipt;
  }

  /** Only claim steps and crashes touch stores. */
  lemma OtherKeepsStores(cfg: Config, w: World, a: Action, w': World)
    requires Wired(cfg, w) && !a.Crash? && (a.Step? ==> !IsClaiming(cfg, w, a.tid)) && w' == Next(cfg, w, a)
    ensures w'.stores == w.stores
  {
    hide StepAuthorize, StepPresent;
    if a.Step? {
      if a.tid < |w.threads| && w.threads[a.tid].Authorizing? {
        Race.AuthorizeKeepsStores(cfg, w, a.tid);
      } else if IsPresenting(cfg, w, a.tid) {
        PresentKeepsStores(cfg, w, a.tid);
      }
    }
  }

  lemma OtherKeepsThread(cfg: Config, w: World, a: Action, tid: nat, w': World)
    requires Wired(cfg, w) && tid < |w.threads| && a != Step(tid) && w' == Next(cfg, w, a)
    requires a.Crash? ==> tid !in a.loss.threads
    ensures tid < |w'.threads| && w'.threads[tid] == w.threads[tid]
  {
    hide StepAuthorize, StepPresent;
    if a.Step? {
      OthersWait(cfg, w, a.tid, tid, w');
    }
  }

  lemma CrashKeepsStore(cfg: Config, w: World, loss: Loss, s: nat, w': World)
    requires Wired(cfg, w) && s < |w.stores| && s !in loss.stores && w' == Next(cfg, w, Crash(loss))
    ensures s < |w'.stores| && w'.stores[s] == w.stores[s]
  {
  }

  lemma OtherOk(cfg: Config, x: Shared, a: Action, x': Shared)
    requires Wired(cfg, x.w) && TransactionsOk(cfg, x) && x' == StepOther(cfg, x, a)
    ensures TransactionsOk(cfg, x')
  {
    hide Next, TransactionOk;
    if !(a.Step? && IsClaiming(cfg, x.w, a.tid)) {
      StaysWired(cfg, x.w, a);
      forall s | s in x'.open ensures TransactionOk(cfg, x'.w, s, x'.open[s]) {
        var t := x.open[s];
        assert TransactionOk(cfg, x.w, s, t);
        OneOtherOk(cfg, x.w, a, s, t, x'.w);
      }
    }
  }

  lemma OneOtherOk(cfg: Config, w: World, a: Action, s: nat, t: Transaction, w': World)
    requires Wired(cfg, w) && TransactionOk(cfg, w, s, t) && w' == Next(cfg, w, a) && Wired(cfg, w')
    requires a.Step? ==> !IsClaiming(cfg, w, a.tid)
    requires a.Crash? ==> s !in a.loss.stores && t.tid !in a.loss.threads
    ensures TransactionOk(cfg, w', s, t)
  {
    hide Next;
    OtherKeepsThread(cfg, w, a, t.tid, w');
    if a.Crash? {
      CrashKeepsStore(cfg, w, a.loss, s, w');
    } else {
      OtherKeepsStores(cfg, w, a, w');
    }
    TransactionStays(cfg, w, w', s, t);
  }

  // ---- Ends ----

  /** A commit is the claim step of a thread that gets the claim. */
  lemma CommitIsClaim(cfg: Config, x: Shared, tid: nat)
    requires TransactionsOk(cfg, x) && Holds(cfg, x, tid)
    requires x.open[StoreOf(cfg, x.w, tid)].phase == Inserted
    ensures StepCommit(cfg, x, tid).w == Next(cfg, x.w, Step(tid))
  {
    var s := StoreOf(cfg, x.w, tid);
    assert TransactionOk(cfg, x.w, s, x.open[s]);
  }

  /** A rollback is the claim step of a thread that is told of a replay. */
  lemma RollbackIsClaim(cfg: Config, x: Shared, tid: nat)
    requires TransactionsOk(cfg, x) && Holds(cfg, x, tid)
    requires x.open[StoreOf(cfg, x.w, tid)].phase == Violated
    ensures StepRollback(cfg, x, tid).w == Next(cfg, x.w, Step(tid))
  {
    var s := StoreOf(cfg, x.w, tid);
    assert TransactionOk(cfg, x.w, s, x.open[s]);
    assert x.w.stores[s := x.w.stores[s]] == x.w.stores;
  }

  /** A claim step leaves other threads and other stores alone. */
  lemma ClaimIsLocal(cfg: Config, w: World, tid: nat, w': World)
    requires IsClaiming(cfg, w, tid) && w' == Next(cfg, w, Step(tid))
    ensures |w'.threads| == |w.threads| && |w'.stores| == |w.stores|
    ensures forall i :: 0 <= i < |w.threads| && i != tid ==> w'.threads[i] == w.threads[i]
    ensures forall s :: 0 <= s < |w.stores| && s != StoreOf(cfg, w, tid) ==> w'.stores[s] == w.stores[s]
  {
  }

  /** When a transaction ends, those on other stores are not affected. */
  lemma EndOk(cfg: Config, x: Shared, tid: nat, x': Shared)
    requires TransactionsOk(cfg, x) && Holds(cfg, x, tid)
    requires x'.w == Next(cfg, x.w, Step(tid)) && x'.open == x.open - {StoreOf(cfg, x.w, tid)}
    ensures TransactionsOk(cfg, x')
  {
    hide Next;
    StaysWired(cfg, x.w, Step(tid));
    ClaimIsLocal(cfg, x.w, tid, x'.w);
    forall s | s in x'.open ensures TransactionOk(cfg, x'.w, s, x'.open[s]) {
      assert TransactionOk(cfg, x.w, s, x.open[s]);
      TransactionStays(cfg, x.w, x'.w, s, x.open[s]);
    }
  }

  lemma BeginOk(cfg: Config, x: Shared, tid: nat, x': Shared)
    requires TransactionsOk(cfg, x) && x' == StepBegin(cfg, x, tid)
    ensures TransactionsOk(cfg, x')
  {
    forall s | s in x'.open ensures TransactionOk(cfg, x'.w, s, x'.open[s]) {
      assert s in x.open ==> TransactionOk(cfg, x.w, s, x.open[s]);
    }
  }

  lemma InsertOk(cfg: Config, x: Shared, tid: nat, x': Shared)
    requires TransactionsOk(cfg, x) && x' == StepInsert(cfg, x, tid)
    ensures TransactionsOk(cfg, x')
  {
    forall s | s in x'.open ensures TransactionOk(cfg, x'.w, s, x'.open[s]) {
      assert TransactionOk(cfg, x.w, s, x.open[s]);
    }
  }

  // ---- Refinement ----

  /** The step of the machine that the move comes to, if any. */
  function StepOf(cfg: Config, x: Shared, m: Move): Option<Action> {
    match m
    case Other(a) => if a.Step? && IsClaiming(cfg, x.w, a.tid) then None else Some(a)
    case Commit(tid) =>
      if Holds(cfg, x, tid) && x.open[StoreOf(cfg, x.w, tid)].phase == Inserted then Some(Step(tid)) else None
    case Rollback(tid) =>
      if Holds(cfg, x, tid) && x.open[StoreOf(cfg, x.w, tid)].phase == Violated then Some(Step(tid)) else None
    case _ => None
  }

  ghost predicate MayMove(cfg: Config, x: Shared, m: Move)
    requires Wired(cfg, x.w)
  {
    var a := StepOf(cfg, x, m);
    a.Some? ==> Enabled(cfg, x.w, a.value)
  }

  /** Every move keeps the transactions in order, and is a step of the machine or none. */
  lemma MoveRefines(cfg: Config, x: Shared, m: Move, x': Shared)
    requires Wired(cfg, x.w) && TransactionsOk(cfg, x) && x' == NextShared(cfg, x, m)
    ensures TransactionsOk(cfg, x')
    ensures var a := StepOf(cfg, x, m);
      if a.Some? then x'.w == Next(cfg, x.w, a.value) else x'.w == x.w
  {
    hide Next, TransactionsOk, Staged;
    match m {
      case Other(a) => OtherOk(cfg, x, a, x');
      case Begin(tid) => BeginOk(cfg, x, tid, x');
      case Insert(tid) => InsertOk(cfg, x, tid, x');
      case Commit(tid) =>
        if StepOf(cfg, x, m).Some? {
          CommitIsClaim(cfg, x, tid);
          EndOk(cfg, x, tid, x');
        }
      case Rollback(tid) =>
        if StepOf(cfg, x, m).Some? {
          RollbackIsClaim(cfg, x, tid);
          EndOk(cfg, x, tid, x');
        }
    }
  }

  lemma MovesWired(cfg: Config, x: Shared, m: Move)
    requires Wired(cfg, x.w)
    ensures Wired(cfg, NextShared(cfg, x, m).w)
  {
    hide Next;
    if m.Other? {
      StaysWired(cfg, x.w, m.a);
    }
  }

  ghost predicate CanMove(cfg: Config, x: Shared, moves: seq<Move>)
    requires Wired(cfg, x.w)
    decreases |moves|
  {
    if moves == [] then true
    else
      MovesWired(cfg, x, moves[0]);
      MayMove(cfg, x, moves[0]) && CanMove(cfg, NextShared(cfg, x, moves[0]), moves[1..])
  }

  function RunShared(cfg: Config, x: Shared, moves: seq<Move>): (x': Shared)
    requires Wired(cfg, x.w)
    decreases |moves|
  {
    if moves == [] then x
    else
      MovesWired(cfg, x, moves[0]);
      RunShared(cfg, NextShared(cfg, x, moves[0]), moves[1..])
  }

  lemma OneStepOn(cfg: Config, w: World, a: Action)
    requires Reachable(cfg, w) && Wired(cfg, w) && Enabled(cfg, w, a)
    ensures Reachable(cfg, Next(cfg, w, a))
  {
    hide Reachable, Next, Enabled;
    StaysWired(cfg, w, a);
    assert [a][1..] == [];
    assert CanRun(cfg, w, [a]) && Run(cfg, w, [a]) == Next(cfg, w, a);
    ReachedOnward(cfg, w, [a]);
  }

  /** However transactions, other steps, failures and crashes interleave, the split machine is always in a
      state that the machine reaches: an effect may happen while the transaction of another thread is open,
      and at-most-once, injective agreement and all the rest hold of it. */
  lemma {:induction false} SplitReaches(cfg: Config, x: Shared, moves: seq<Move>)
    requires Reachable(cfg, x.w) && Wired(cfg, x.w) && TransactionsOk(cfg, x) && CanMove(cfg, x, moves)
    ensures Reachable(cfg, RunShared(cfg, x, moves).w) && TransactionsOk(cfg, RunShared(cfg, x, moves))
    decreases |moves|
  {
    hide Reachable, NextShared, Next, Enabled, TransactionsOk, StepOf;
    if moves != [] {
      var x' := NextShared(cfg, x, moves[0]);
      MovesWired(cfg, x, moves[0]);
      MoveRefines(cfg, x, moves[0], x');
      var a := StepOf(cfg, x, moves[0]);
      if a.Some? {
        OneStepOn(cfg, x.w, a.value);
      }
      SplitReaches(cfg, x', moves[1..]);
    }
  }

  /** From a start at which no transaction is open. */
  lemma SplitStart(cfg: Config, start: World)
    requires WellFormed(cfg) && Fresh(cfg, start)
    ensures Reachable(cfg, start) && Wired(cfg, start) && TransactionsOk(cfg, Shared(start, map[]))
  {
    hide WellFormed;
    FreshIsWired(cfg, start);
    assert Leads(cfg, start, [], start);
  }
}
