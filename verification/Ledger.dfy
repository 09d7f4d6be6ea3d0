/** The books of every source: since its last configuration, its transitions form one contiguous chain. */
module Ledger {
  import opened Wrappers
  import opened Unicode
  import opened Values
  import opened Models
  import opened Stores
  import opened Machine
  import opened Guarantees
  import Authority
  import Sink
  import State

  /** A recorded transition and what it cost. */
  datatype Entry = Entry(t: StateTransition, cost: int)

  /** What a source was last configured with, and what has been recorded for it since. */
  datatype Account = Account(initial: State.SourceState, entries: seq<Entry>)

  function DefaultState(s: State.Protected): State.SourceState {
    State.SourceState(0, s.default_quota, s.default_budget)
  }

  function AccountOf(log: seq<Event>, source: Text, default: State.SourceState): Account {
    if log == [] then Account(default, [])
    else
      var before := AccountOf(log[..|log| - 1], source, default);
      match log[|log| - 1]
      case WasConfigured(s, quota, budget) =>
        if s == source then Account(State.SourceState(0, quota, budget), []) else before
      case WasForgotten => Account(default, [])
      case WasRecorded(_, _, cost, _, t) =>
        if t.source == source then before.(entries := before.entries + [Entry(t, cost)]) else before
      case _ => before
  }

  function BeforeState(t: StateTransition): State.SourceState {
    State.SourceState(t.before_version, t.quota_before, t.budget_before)
  }

  function AfterState(t: StateTransition): State.SourceState {
    State.SourceState(t.after_version, t.quota_after, t.budget_after)
  }

  /** One authorization: a version up, a unit of quota and the positive cost down, both covered. */
  predicate IsEntry(e: Entry) {
    && e.t.after_version == e.t.before_version + 1 && e.t.quota_after == e.t.quota_before - 1
    && e.t.budget_after == e.t.budget_before - e.cost && e.cost > 0
    && e.t.quota_before >= 1 && e.t.budget_before >= e.cost
  }

  /** The entries lead from `x` to `y` without a gap. */
  predicate Linked(x: State.SourceState, entries: seq<Entry>, y: State.SourceState) {
    if entries == [] then x == y
    else
      var e := entries[|entries| - 1];
      IsEntry(e) && y == AfterState(e.t) && Linked(x, entries[..|entries| - 1], BeforeState(e.t))
  }

  ghost predicate Balanced(w: World) {
    forall source ::
      var account := AccountOf(w.log, source, DefaultState(w.state));
      Linked(account.initial, account.entries, State.SourceOf(w.state, source))
  }

  // ---- Every step keeps the books ----

  predicate ConcernsLedger(e: Event) { e.WasConfigured? || e.WasForgotten? || e.WasRecorded? }

  lemma AccountSnoc(log: seq<Event>, e: Event, source: Text, default: State.SourceState)
    ensures AccountOf(log + [e], source, default) ==
      var before := AccountOf(log, source, default);
      match e
      case WasConfigured(s, quota, budget) =>
        if s == source then Account(State.SourceState(0, quota, budget), []) else before
      case WasForgotten => Account(default, [])
      case WasRecorded(_, _, cost, _, t) =>
        if t.source == source then before.(entries := before.entries + [Entry(t, cost)]) else before
      case _ => before
  {
    assert (log + [e])[..|log|] == log;
  }

  lemma {:induction false} AccountUnmoved(log: seq<Event>, events: seq<Event>, source: Text, default: State.SourceState)
    requires forall i :: 0 <= i < |events| ==> !ConcernsLedger(events[i])
    ensures AccountOf(log + events, source, default) == AccountOf(log, source, default)
  {
    if events == [] {
      assert log + events == log;
    } else {
      var n := |events| - 1;
      AccountUnmoved(log, events[..n], source, default);
      AccountSnoc(log + events[..n], events[n], source, default);
      assert log + events == log + events[..n] + [events[n]];
    }
  }

  /** No source changes, and nothing is logged that concerns one. */
  lemma BalancedUnmoved(w: World, events: seq<Event>, w': World)
    requires Balanced(w) && w'.log == w.log + events && DefaultState(w'.state) == DefaultState(w.state)
    requires forall i :: 0 <= i < |events| ==> !ConcernsLedger(events[i])
    requires forall source :: State.SourceOf(w'.state, source) == State.SourceOf(w.state, source)
    ensures Balanced(w')
  {
    forall source ensures var account := AccountOf(w'.log, source, DefaultState(w'.state));
      Linked(account.initial, account.entries, State.SourceOf(w'.state, source))
    {
      AccountUnmoved(w.log, events, source, DefaultState(w.state));
    }
  }

  /** What an authorization does to the sources. */
  lemma AuthorizedSources(env: Env, s: State.Protected, c: CandidateAct, cost: int, source: Text)
    ensures var (s', result) := State.Authorize(env, s, c, cost);
      && DefaultState(s') == DefaultState(s)
      && (result.Err? || source != c.source ==> State.SourceOf(s', source) == State.SourceOf(s, source))
      && (result.Ok? ==>
            && result.value.source == c.source
            && BeforeState(result.value) == State.SourceOf(s, c.source)
            && AfterState(result.value) == State.SourceOf(s', c.source)
            && IsEntry(Entry(result.value, cost)))
  {
    hide State.TransitionId;
  }

  lemma LinkedSnoc(x: State.SourceState, entries: seq<Entry>, e: Entry)
    requires IsEntry(e) && Linked(x, entries, BeforeState(e.t))
    ensures Linked(x, entries + [e], AfterState(e.t))
  {
    assert (entries + [e])[..|entries|] == entries;
  }

  lemma RecordBalanced(cfg: Config, w: World, tid: nat)
    requires Balanced(w) && tid < |w.threads| && w.threads[tid].Authorizing?
    ensures Balanced(StepRecord(cfg, w, tid))
  {
    hide State.Authorize, State.SourceOf, IsEntry;
    var Authorizing(c, cost, now, _) := w.threads[tid];
    var w' := StepRecord(cfg, w, tid);
    var result := State.Authorize(cfg.env, w.state, c, cost).1;
    forall source ensures var account := AccountOf(w'.log, source, DefaultState(w'.state));
      Linked(account.initial, account.entries, State.SourceOf(w'.state, source))
    {
      var default := DefaultState(w.state);
      AuthorizedSources(cfg.env, w.state, c, cost, source);
      var account := AccountOf(w.log, source, default);
      if result.Err? {
        assert w'.log == w.log;
      } else {
        AccountSnoc(w.log, WasRecorded(tid, c, cost, now, result.value), source, default);
        if source == c.source {
          LinkedSnoc(account.initial, account.entries, Entry(result.value, cost));
        }
      }
    }
  }

  lemma ConfigureBalanced(w: World, source: Text, quota: int, budget: int, w': World)
    requires Balanced(w)
    requires w'.state == State.Configure(w.state, source, quota, budget)
    requires w'.log == w.log + [WasConfigured(source, quota, budget)]
    ensures Balanced(w')
  {
    forall s ensures var account := AccountOf(w'.log, s, DefaultState(w'.state));
      Linked(account.initial, account.entries, State.SourceOf(w'.state, s))
    {
      AccountSnoc(w.log, WasConfigured(source, quota, budget), s, DefaultState(w.state));
    }
  }

  lemma ForgetBalanced(w: World, w': World)
    requires w'.state == State.Initial(w.state.default_quota, w.state.default_budget)
    requires w'.log == w.log + [WasForgotten]
    ensures Balanced(w')
  {
    forall s ensures var account := AccountOf(w'.log, s, DefaultState(w'.state));
      Linked(account.initial, account.entries, State.SourceOf(w'.state, s))
    {
      AccountSnoc(w.log, WasForgotten, s, DefaultState(w.state));
    }
  }

  /** The steps of `authorize` other than the record step. */
  lemma AuthorizeUnmoved(cfg: Config, w: World, tid: nat, w': World) returns (events: seq<Event>)
    requires tid < |w.threads| && w.threads[tid].Authorizing? && !w.threads[tid].progress.Admitted?
    requires w' == StepAuthorize(cfg, w, tid)
    ensures w'.state == w.state && w'.log == w.log + events && forall i ::
      0 <= i < |events| ==> !ConcernsLedger(events[i])
  {
    hide StepRecord, Authority.Admit, Authority.MakeEvidence, Authority.MakeCapability, TryCommit;
    events := w'.log[|w.log|..];
  }

  lemma ClaimUnmoved(cfg: Config, w: World, tid: nat, w': World) returns (events: seq<Event>)
    requires IsPresenting(cfg, w, tid) && w' == StepClaim(cfg, w, tid)
    ensures w'.state == w.state && w'.log == w.log + events && forall i ::
      0 <= i < |events| ==> !ConcernsLedger(events[i])
  {
    hide TryClaim;
    events := w'.log[|w.log|..];
  }

  lemma EffectUnmoved(cfg: Config, w: World, tid: nat, w': World) returns (events: seq<Event>)
    requires IsPresenting(cfg, w, tid) && w' == StepEffect(cfg, w, tid)
    ensures w'.state == w.state && w'.log == w.log + events && forall i ::
      0 <= i < |events| ==> !ConcernsLedger(events[i])
  {
    hide TryEffect, Sink.MakeReceipt;
    events := w'.log[|w.log|..];
  }

  lemma PresentUnmoved(cfg: Config, w: World, tid: nat, w': World) returns (events: seq<Event>)
    requires IsPresenting(cfg, w, tid) && w' == StepPresent(cfg, w, tid)
    ensures w'.state == w.state && w'.log == w.log + events && forall i ::
      0 <= i < |events| ==> !ConcernsLedger(events[i])
  {
    hide Sink.CheckLocal, Sink.CheckEvidence, Sink.CheckTransition, StepClaim, StepEffect;
    match w.threads[tid].stage {
      case Verified => events := ClaimUnmoved(cfg, w, tid, w');
      case Claimed => events := EffectUnmoved(cfg, w, tid, w');
      case _ => events := [];
    }
  }

  lemma StepBalanced(cfg: Config, w: World, tid: nat, w': World)
    requires Wired(cfg, w) && Balanced(w) && w' == Next(cfg, w, Step(tid))
    ensures Balanced(w')
  {
    hide Balanced, State.SourceOf, StepRecord, StepPresent, StepAdmit, StepCommit, StepIssue;
    if tid < |w.threads| && w.threads[tid].Authorizing? {
      if w.threads[tid].progress.Admitted? {
        RecordBalanced(cfg, w, tid);
      } else {
        var events := AuthorizeUnmoved(cfg, w, tid, w');
        BalancedUnmoved(w, events, w');
      }
    } else if IsPresenting(cfg, w, tid) {
      var events := PresentUnmoved(cfg, w, tid, w');
      BalancedUnmoved(w, events, w');
    }
  }

  lemma NextBalanced(cfg: Config, w: World, a: Action, w': World)
    requires Wired(cfg, w) && Balanced(w) && w' == Next(cfg, w, a)
    ensures Balanced(w')
  {
    hide Balanced, AccountOf, Linked, State.SourceOf;
    match a {
      case Step(tid) => StepBalanced(cfg, w, tid, w');
      case Configure(source, quota, budget) => ConfigureBalanced(w, source, quota, budget, w');
      case Prove(presenter, p) => BalancedUnmoved(w, [WasSigned(presenter.key, ProofDocument(p))], w');
      case Crash(loss) =>
        if loss.state {
          ForgetBalanced(w, w');
        } else {
          BalancedUnmoved(w, [], w');
        }
      case _ => BalancedUnmoved(w, [], w');
    }
  }

  lemma {:induction false} RunBalanced(cfg: Config, w: World, run: seq<Action>)
    requires Wired(cfg, w) && Balanced(w) && CanRun(cfg, w, run)
    ensures Balanced(Run(cfg, w, run))
    decreases |run|
  {
    hide Balanced, Enabled, Next;
    if run != [] {
      StaysWired(cfg, w, run[0]);
      NextBalanced(cfg, w, run[0], Next(cfg, w, run[0]));
      RunBalanced(cfg, Next(cfg, w, run[0]), run[1..]);
    }
  }

  // ---- What the books say ----

  function TotalCost(entries: seq<Entry>): int {
    if entries == [] then 0 else TotalCost(entries[..|entries| - 1]) + entries[|entries| - 1].cost
  }

  /** Version plus quota, and budget plus costs, are constant; nothing is overdrawn. */
  lemma {:induction false} LinkedTotals(x: State.SourceState, entries: seq<Entry>, y: State.SourceState)
    requires Linked(x, entries, y)
    ensures y.version == x.version + |entries| && y.version + y.quota == x.version + x.quota
    ensures y.budget + TotalCost(entries) == x.budget && TotalCost(entries) >= |entries|
    ensures entries != [] ==> y.quota >= 0 && y.budget >= 0
  {
    if entries != [] {
      LinkedTotals(x, entries[..|entries| - 1], BeforeState(entries[|entries| - 1].t));
    }
  }

  /** Each entry starts where the one before it ended. */
  lemma {:induction false} LinkedAt(x: State.SourceState, entries: seq<Entry>, y: State.SourceState, i: nat)
    requires Linked(x, entries, y) && i < |entries|
    ensures IsEntry(entries[i])
    ensures BeforeState(entries[i].t) == if i == 0 then x else AfterState(entries[i - 1].t)
    ensures i == |entries| - 1 ==> y == AfterState(entries[i].t)
  {
    var n := |entries| - 1;
    var before := BeforeState(entries[n].t);
    if i < n {
      LinkedAt(x, entries[..n], before, i);
    } else if n > 0 {
      LinkedAt(x, entries[..n], before, n - 1);
    }
  }

  /** The entries run from `x` to `y` without a gap, each a proper authorization. */
  ghost predicate Contiguous(x: State.SourceState, entries: seq<Entry>, y: State.SourceState) {
    && (forall i :: 0 <= i < |entries| ==> IsEntry(entries[i]))
    && (forall i :: 0 < i < |entries| ==> BeforeState(entries[i].t) == AfterState(entries[i - 1].t))
    && (if entries == [] then x == y else x == BeforeState(entries[0].t) && y == AfterState(entries[|entries| - 1].t))
  }

  lemma LinkedContiguous(x: State.SourceState, entries: seq<Entry>, y: State.SourceState)
    requires Linked(x, entries, y)
    ensures Contiguous(x, entries, y)
  {
    hide IsEntry;
    forall i | 0 <= i < |entries|
      ensures IsEntry(entries[i]) && (i > 0 ==> BeforeState(entries[i].t) == AfterState(entries[i - 1].t))
    {
      LinkedAt(x, entries, y, i);
    }
    if entries != [] {
      LinkedAt(x, entries, y, 0);
      LinkedAt(x, entries, y, |entries| - 1);
    }
  }

  function Least(a: int, b: int): int { if a <= b then a else b }

  /** The ledger theorem: in every reachable state, what has been recorded for a source since its last
      configuration is one contiguous chain to its current state; version plus quota and budget plus
      costs are constant; nonnegative amounts stay nonnegative; and the number of authorizations,
      whatever became of their evidence, is at most the quota and the budget. */
  lemma LedgerChain(cfg: Config, w: World, source: Text)
    requires Reachable(cfg, w)
    ensures var Account(x, entries) := AccountOf(w.log, source, DefaultState(w.state));
      var y := State.SourceOf(w.state, source);
      && Contiguous(x, entries, y)
      && y.version == x.version + |entries| && y.version + y.quota == x.version + x.quota
      && y.budget + TotalCost(entries) == x.budget
      && (x.quota >= 0 ==> y.quota >= 0) && (x.budget >= 0 ==> y.budget >= 0)
      && (entries != [] ==> |entries| <= Least(x.quota, x.budget))
  {
    hide Run, CanRun;
    var start, run :| Leads(cfg, start, run, w);
    FreshIsWired(cfg, start);
    assert Balanced(start);
    RunBalanced(cfg, start, run);
    var account := AccountOf(w.log, source, DefaultState(w.state));
    LinkedTotals(account.initial, account.entries, State.SourceOf(w.state, source));
    LinkedContiguous(account.initial, account.entries, State.SourceOf(w.state, source));
  }
}
