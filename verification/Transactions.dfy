/** `SQLiteConsumptionStore.claim` by many processes at once: their interleaved transactions, any of which
    may die at any point, come to the same as atomic claims in some order. */
module Transactions {
  import opened Wrappers
  import opened Unicode
  import opened Models
  import opened Stores

  /** What one process asks the table for. */
  datatype Request = Request(id: Text, row: Claim)

  datatype Phase = Waiting | Begun | Inserted | Violated | Finished(result: Result<(), Error>) | Died

  datatype Transaction = Transaction(writer: nat, table: Claims)

  /** The database file, the write transaction that is open on it, how far each process is, and the order
      in which transactions ended. */
  datatype Database = Database(committed: Claims, open: Option<Transaction>, phases: seq<Phase>, order: seq<nat>)

  datatype Action = Begin(p: nat) | Insert(p: nat) | Commit(p: nat) | Rollback(p: nat) | Kill(p: nat)

  predicate Holds(d: Database, p: nat) { d.open.Some? && d.open.value.writer == p }

  /** `BEGIN IMMEDIATE` waits for the write lock. */
  function StepBegin(d: Database, p: nat): Database {
    if d.open.None? && p < |d.phases| && d.phases[p].Waiting? then
      d.(open := Some(Transaction(p, d.committed)), phases := d.phases[p := Begun])
    else d
  }

  function StepInsert(requests: seq<Request>, d: Database, p: nat): Database
    requires |requests| == |d.phases|
  {
    if Holds(d, p) && p < |d.phases| && d.phases[p].Begun? then
      var Request(id, row) := requests[p];
      if id in d.open.value.table then d.(phases := d.phases[p := Violated])
      else d.(open := Some(Transaction(p, d.open.value.table[id := row])), phases := d.phases[p := Inserted])
    else d
  }

  function StepCommit(d: Database, p: nat): Database {
    if Holds(d, p) && p < |d.phases| && d.phases[p].Inserted? then
      Database(d.open.value.table, None, d.phases[p := Finished(Ok(()))], d.order + [p])
    else d
  }

  function StepRollback(d: Database, p: nat): Database {
    if Holds(d, p) && p < |d.phases| && d.phases[p].Violated? then
      d.(open := None, phases := d.phases[p := Finished(Err(ReplayDetected))], order := d.order + [p])
    else d
  }

  /** The process dies; what it had not committed is gone, and the lock is free. */
  function StepKill(d: Database, p: nat): Database {
    if p < |d.phases| && !d.phases[p].Finished? then
      d.(open := if Holds(d, p) then None else d.open, phases := d.phases[p := Died])
    else d
  }

  function Next(requests: seq<Request>, d: Database, a: Action): (d': Database)
    requires |requests| == |d.phases|
    ensures |d'.phases| == |d.phases|
  {
    match a
    case Begin(p) => StepBegin(d, p)
    case Insert(p) => StepInsert(requests, d, p)
    case Commit(p) => StepCommit(d, p)
    case Rollback(p) => StepRollback(d, p)
    case Kill(p) => StepKill(d, p)
  }

  function Run(requests: seq<Request>, d: Database, run: seq<Action>): (d': Database)
    requires |requests| == |d.phases|
    ensures |d'.phases| == |d.phases|
    decreases |run|
  {
    if run == [] then d else Run(requests, Next(requests, d, run[0]), run[1..])
  }

  // ---- The atomic store ----

  predicate ValidOrder(requests: seq<Request>, order: seq<nat>) {
    forall i :: 0 <= i < |order| ==> order[i] < |requests|
  }

  /** Atomic claims, one after the other. */
  function Claimed(requests: seq<Request>, initial: Claims, order: seq<nat>): Claims
    requires ValidOrder(requests, order)
  {
    if order == [] then initial
    else
      var r := requests[order[|order| - 1]];
      TryClaim(Claimed(requests, initial, order[..|order| - 1]), r.id, r.row).0
  }

  /** What the `i`-th atomic claim returns. */
  function ResultAt(requests: seq<Request>, initial: Claims, order: seq<nat>, i: nat): Result<(), Error>
    requires ValidOrder(requests, order) && i < |order|
  {
    var r := requests[order[i]];
    TryClaim(Claimed(requests, initial, order[..i]), r.id, r.row).1
  }

  // ---- Refinement ----

  /** The open transaction is that of the one process inside, over what is committed. */
  ghost predicate Exclusive(requests: seq<Request>, d: Database) {
    && |requests| == |d.phases|
    && (d.open.Some? ==>
          var Transaction(p, table) := d.open.value;
          && p < |d.phases|
          && (d.phases[p] == Begun ==> table == d.committed)
          && (d.phases[p] == Inserted ==>
                requests[p].id !in d.committed && table == d.committed[requests[p].id := requests[p].row])
          && (d.phases[p] == Violated ==> requests[p].id in d.committed)
          && (d.phases[p].Begun? || d.phases[p].Inserted? || d.phases[p].Violated?))
    && forall q :: 0 <= q < |d.phases| && (d.phases[q].Begun? || d.phases[q].Inserted? || d.phases[q].Violated?) ==>
      Holds(d, q)
  }

  /** The committed table and all results are those of atomic claims in the order in which the
      transactions ended; every process that finished is in that order once. */
  ghost predicate Refines(requests: seq<Request>, initial: Claims, d: Database) {
    && |requests| == |d.phases| && ValidOrder(requests, d.order)
    && d.committed == Claimed(requests, initial, d.order)
    && (forall i :: 0 <= i < |d.order| ==> d.phases[d.order[i]] == Finished(ResultAt(requests, initial, d.order, i)))
    && (forall p :: 0 <= p < |d.phases| && d.phases[p].Finished? ==> p in d.order)
    && (forall i, j :: 0 <= i < j < |d.order| ==> d.order[i] != d.order[j])
  }

  lemma ClaimedSnoc(requests: seq<Request>, initial: Claims, order: seq<nat>, p: nat)
    requires ValidOrder(requests, order) && p < |requests|
    ensures Claimed(requests, initial, order + [p])
            == TryClaim(Claimed(requests, initial, order), requests[p].id, requests[p].row).0
    ensures ResultAt(requests, initial, order + [p], |order|)
            == TryClaim(Claimed(requests, initial, order), requests[p].id, requests[p].row).1
    ensures forall i ::
      0 <= i < |order| ==> ResultAt(requests, initial, order + [p], i) == ResultAt(requests, initial, order, i)
  {
    var longer := order + [p];
    assert longer[..|order|] == order;
    forall i | 0 <= i < |order|
      ensures ResultAt(requests, initial, longer, i) == ResultAt(requests, initial, order, i)
    {
      assert longer[..i] == order[..i];
    }
  }

  /** A process ends with the result of an atomic claim on what is committed. */
  lemma Ends(requests: seq<Request>, initial: Claims, d: Database, p: nat, result: Result<(), Error>, d': Database)
    requires Refines(requests, initial, d) && p < |d.phases| && !d.phases[p].Finished?
    requires (d'.committed, result) == TryClaim(d.committed, requests[p].id, requests[p].row)
    requires d'.phases == d.phases[p := Finished(result)] && d'.order == d.order + [p]
    ensures Refines(requests, initial, d')
  {
    hide Claimed, ResultAt, TryClaim;
    ClaimedSnoc(requests, initial, d.order, p);
    assert p !in d.order;
    forall i | 0 <= i < |d'.order|
      ensures d'.phases[d'.order[i]] == Finished(ResultAt(requests, initial, d'.order, i))
    {
      assert i < |d.order| ==> d'.order[i] == d.order[i] && d.order[i] != p;
    }
    assert d.order == d'.order[..|d.order|];
    forall q | 0 <= q < |d'.phases| && d'.phases[q].Finished? ensures q in d'.order {
      assert q == p || q in d.order;
    }
  }

  /** Nobody ends. */
  lemma Continues(requests: seq<Request>, initial: Claims, d: Database, p: nat, phase: Phase, d': Database)
    requires Refines(requests, initial, d) && p < |d.phases| && !d.phases[p].Finished? && !phase.Finished?
    requires d'.committed == d.committed && d'.order == d.order && d'.phases == d.phases[p := phase]
    ensures Refines(requests, initial, d')
  {
    forall i | 0 <= i < |d.order| ensures d'.phases[d.order[i]] == d.phases[d.order[i]] {
    }
  }

  lemma NextRefines(requests: seq<Request>, initial: Claims, d: Database, a: Action)
    requires Exclusive(requests, d) && Refines(requests, initial, d)
    ensures Exclusive(requests, Next(requests, d, a)) && Refines(requests, initial, Next(requests, d, a))
  {
    hide Refines;
    var d' := Next(requests, d, a);
    if d' != d {
      if d'.order == d.order {
        assert a.p < |d.phases| && d'.phases == d.phases[a.p := d'.phases[a.p]] && d'.committed == d.committed;
        Continues(requests, initial, d, a.p, d'.phases[a.p], d');
      } else {
        Ends(requests, initial, d, a.p, d'.phases[a.p].result, d');
      }
    }
  }

  /** The transactional store refines the atomic one: after any run, deaths included, the table is what
      atomic claims in the order of the transactions' ends would have made of it, and every process that
      finished was told what its atomic claim returns. */
  lemma {:induction false} TransactionsRefineClaims(requests: seq<Request>, initial: Claims, d: Database,
        run: seq<Action>)
    requires Exclusive(requests, d) && Refines(requests, initial, d)
    ensures Exclusive(requests, Run(requests, d, run)) && Refines(requests, initial, Run(requests, d, run))
    decreases |run|
  {
    if run != [] {
      NextRefines(requests, initial, d, run[0]);
      hide Exclusive, Refines;
      TransactionsRefineClaims(requests, initial, Next(requests, d, run[0]), run[1..]);
    }
  }

  /** The processes before any of them has begun, on a table as another run may have left it. */
  function Start(requests: seq<Request>, initial: Claims): (d: Database)
    ensures |d.phases| == |requests|
  {
    Database(initial, None, seq(|requests|, i => Waiting), [])
  }

  lemma StartRefines(requests: seq<Request>, initial: Claims)
    ensures Exclusive(requests, Start(requests, initial)) && Refines(requests, initial, Start(requests, initial))
  {
  }

  /** So at most one process ever learns that it has claimed a given capability, and a process that is
      told of a replay is told so because the capability is in the table for good. */
  lemma OneWinner(requests: seq<Request>, initial: Claims, run: seq<Action>, p: nat, q: nat)
    requires p < |requests| && q < |requests| && p != q && requests[p].id == requests[q].id
    requires var d := Run(requests, Start(requests, initial), run);
      d.phases[p] == Finished(Ok(())) && d.phases[q].Finished?
    ensures Run(requests, Start(requests, initial), run).phases[q] == Finished(Err(ReplayDetected))
    ensures requests[p].id in Run(requests, Start(requests, initial), run).committed
  {
    StartRefines(requests, initial);
    TransactionsRefineClaims(requests, initial, Start(requests, initial), run);
    LaterLoses(requests, initial, Run(requests, Start(requests, initial), run), p, q);
  }

  lemma LaterLoses(requests: seq<Request>, initial: Claims, d: Database, p: nat, q: nat)
    requires Refines(requests, initial, d) && p < |requests|
    requires q < |requests| && p != q && requests[p].id == requests[q].id
    requires d.phases[p] == Finished(Ok(())) && d.phases[q].Finished?
    ensures d.phases[q] == Finished(Err(ReplayDetected)) && requests[p].id in d.committed
  {
    hide Claimed;
    var i :| 0 <= i < |d.order| && d.order[i] == p;
    var j :| 0 <= j < |d.order| && d.order[j] == q;
    if i < j {
      RowsStay(requests, initial, d.order, i, j);
    } else {
      RowsStay(requests, initial, d.order, j, i);
    }
    RowsStay(requests, initial, d.order, i, |d.order|);
    assert d.order[..|d.order|] == d.order;
  }

  /** A claim, successful or not, leaves its capability in the table. */
  lemma {:induction false} RowsStay(requests: seq<Request>, initial: Claims, order: seq<nat>, i: nat, n: nat)
    requires ValidOrder(requests, order) && i < n <= |order|
    ensures ValidOrder(requests, order[..n]) && requests[order[i]].id in Claimed(requests, initial, order[..n])
    decreases n
  {
    assert order[..n][..n - 1] == order[..n - 1];
    if i < n - 1 {
      RowsStay(requests, initial, order, i, n - 1);
    }
  }
}
