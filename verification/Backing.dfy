/** In every run with normal nonces and lasting state, evidence is for recorded transitions, so that the
    completeness of issue and verification applies to every state the run reaches. */
module Backing {
  import opened Wrappers
  import opened Unicode
  import opened Values
  import opened Models
  import opened Stores
  import opened Machine
  import opened Stability
  import opened Verdicts
  import opened Completeness
  import Authority
  import Policy
  import Sink
  import State

  /** The transition that the thread goes by, once it has one. */
  function TransitionOf(th: Thread): Option<StateTransition> {
    if !th.Authorizing? then None
    else
      match th.progress
      case Recorded(t) => Some(t)
      case Committed(t, _) => Some(t)
      case Issued(g) => Some(g.t)
      case _ => None
  }

  ghost predicate ThreadBacked(w: World, th: Thread) {
    var t := TransitionOf(th);
    t.Some? ==> IsPlain(t.value.transition_id) && t.value.transition_id in w.state.transitions
  }

  ghost predicate Backed(cfg: Config, w: World) {
    EvidenceOk(cfg.env, w.state, w.evidence) && forall i :: 0 <= i < |w.threads| ==> ThreadBacked(w, w.threads[i])
  }

  lemma EvidenceStaysOk(env: Env, s: State.Protected, s': State.Protected, records: Records)
    requires EvidenceOk(env, s, records) && Grows(s, s')
    ensures EvidenceOk(env, s', records)
  {
    hide EvidenceCore, Digest, MayHash;
    forall id | id in records ensures RecordOk(env, s', id, records[id]) {
      assert RecordOk(env, s, id, records[id]);
    }
  }

  lemma ThreadsStayBacked(w: World, w': World)
    requires Grows(w.state, w'.state) && |w'.threads| >= |w.threads|
    requires forall i :: 0 <= i < |w.threads| ==> ThreadBacked(w, w.threads[i])
    requires forall i :: 0 <= i < |w'.threads| ==>
      TransitionOf(w'.threads[i]).None?
              || (i < |w.threads| && TransitionOf(w'.threads[i]) == TransitionOf(w.threads[i]))
    ensures forall i :: 0 <= i < |w'.threads| ==> ThreadBacked(w', w'.threads[i])
  {
    forall i | 0 <= i < |w'.threads| ensures ThreadBacked(w', w'.threads[i]) {
      if TransitionOf(w'.threads[i]).Some? {
        assert ThreadBacked(w, w.threads[i]);
      }
    }
  }

  lemma RecordBacked(cfg: Config, w: World, tid: nat, w': World)
    requires EnvLaws(cfg.env) && Backed(cfg, w) && tid < |w.threads| && w.threads[tid].Authorizing?
    requires MayRecord(cfg.env, w.state, w.threads[tid].c, w.threads[tid].cost)
    requires w' == StepRecord(cfg, w, tid) && Grows(w.state, w'.state)
    ensures Backed(cfg, w')
  {
    hide EnvLaws, State.Authorize, Grows, EvidenceOk, MayRecord, HashesTo;
    var Authorizing(c, cost, now, _) := w.threads[tid];
    EvidenceStaysOk(cfg.env, w.state, w'.state, w.evidence);
    var result := State.Authorize(cfg.env, w.state, c, cost).1;
    if result.Ok? {
      RecordedIsPlain(cfg.env, w.state, c, cost);
      var d := AuthorizedId(cfg.env, w.state, c, cost);
    }
    forall i | 0 <= i < |w'.threads| ensures ThreadBacked(w', w'.threads[i]) {
      if i != tid {
        assert ThreadBacked(w, w.threads[i]);
        ThreadStaysBacked(w, w', w.threads[i]);
      }
    }
  }

  lemma ThreadStaysBacked(w: World, w': World, th: Thread)
    requires ThreadBacked(w, th) && Grows(w.state, w'.state)
    ensures ThreadBacked(w', th)
  {
  }

  /** Evidence carries the id of its transition and the hash of itself. */
  lemma MadeEvidenceHashes(env: Env, a: Authority.Settings, c: CandidateAct, now: int, t: StateTransition)
    ensures var made := Authority.MakeEvidence(env, a, c, now, t);
      && (made.Some? ==> made.value.transition_id == t.transition_id)
      && (made.Some? ==> Digest(env, EvidenceCore(made.value)) == Some(made.value.evidence_id))
  {
    hide CandidateDigest, DescriptorDigest, Canon, EvidenceValues, FieldsOf;
    var made := Authority.MakeEvidence(env, a, c, now, t);
    if made.Some? {
      var e := made.value;
      EvidenceFieldsOnly(e, e.(evidence_id := [], signature := []));
    }
  }

  lemma CommitBacked(cfg: Config, w: World, tid: nat, t: StateTransition, w': World)
    requires Backed(cfg, w) && tid < |w.threads| && w.threads[tid].Authorizing?
    requires w.threads[tid].progress == Recorded(t)
    requires MayCommit(cfg.env, cfg.authority, w.threads[tid].c, w.threads[tid].now, t)
    requires w' == StepCommit(cfg, w, tid, t)
    ensures Backed(cfg, w')
  {
    hide EvidenceCore, EvidenceUnsigned, Digest, MayHash, Authority.MakeEvidence, EvidenceOk, Grows;
    var Authorizing(c, cost, now, _) := w.threads[tid];
    assert ThreadBacked(w, w.threads[tid]);
    MadeEvidenceHashes(cfg.env, cfg.authority, c, now, t);
    var made := Authority.MakeEvidence(cfg.env, cfg.authority, c, now, t);
    if made.Some? {
      CommitStaysOk(cfg.env, cfg.authority.auth, w.state, w.evidence, w.evidence_fails, made.value);
    }
    SameGrows(w.state);
    ThreadsStayBacked(w, w');
  }

  lemma SameGrows(s: State.Protected)
    ensures Grows(s, s)
  {
  }

  lemma CommitStaysOk(env: Env, auth: Authenticator, s: State.Protected, records: Records, fails: bool,
                      e: ValidationEvidence)
    requires EvidenceOk(env, s, records) && e.transition_id in s.transitions && IsPlain(e.transition_id)
    requires Digest(env, EvidenceCore(e)) == Some(e.evidence_id) && MayHash(env, EvidenceCore(e))
    ensures EvidenceOk(env, s, TryCommit(env, auth, records, fails, e).0)
  {
    hide EvidenceCore, EvidenceUnsigned, Digest, MayHash;
    var after := TryCommit(env, auth, records, fails, e).0;
    forall id | id in after ensures RecordOk(env, s, id, after[id]) {
      if id in records && after[id] == records[id] {
        assert RecordOk(env, s, id, records[id]);
      }
    }
  }

  lemma AuthorizeBacked(cfg: Config, w: World, tid: nat, w': World)
    requires EnvLaws(cfg.env) && Wired(cfg, w) && Settled(cfg, w) && Backed(cfg, w) && Ideal(cfg, w, tid)
    requires tid < |w.threads| && w.threads[tid].Authorizing? && w' == StepAuthorize(cfg, w, tid)
    ensures Backed(cfg, w')
  {
    hide EnvLaws, Settled, StepRecord, StepCommit, MayRecord, MayCommit, MayIssue, MayHash, EvidenceOk, Grows;
    AuthorizeSettled(cfg, w, tid);
    match w.threads[tid].progress {
      case Admitted => RecordBacked(cfg, w, tid, w');
      case Recorded(t) => CommitBacked(cfg, w, tid, t, w');
      case _ => OtherBacked(cfg, w, tid, w');
    }
  }

  lemma OtherBacked(cfg: Config, w: World, tid: nat, w': World)
    requires Backed(cfg, w) && tid < |w.threads| && w.threads[tid].Authorizing? && w' == StepAuthorize(cfg, w, tid)
    requires !w.threads[tid].progress.Admitted? && !w.threads[tid].progress.Recorded?
    ensures Backed(cfg, w')
  {
    hide StepRecord, StepCommit, EvidenceOk, Authority.Admit, Authority.MakeCapability;
    assert w'.state == w.state && w'.evidence == w.evidence;
    ThreadsStayBacked(w, w');
  }

  lemma PresentBacked(cfg: Config, w: World, tid: nat, w': World)
    requires Settled(cfg, w) && Backed(cfg, w) && IsPresenting(cfg, w, tid) && w' == StepPresent(cfg, w, tid)
    ensures Backed(cfg, w')
  {
    hide EvidenceOk, StepPresent, Settled;
    PresentSettled(cfg, w, tid);
    PresentThreads(cfg, w, tid, w');
    ThreadsStayBacked(w, w');
  }

  /** The actions other than steps. */
  lemma ActionBacked(cfg: Config, w: World, a: Action, w': World)
    requires Wired(cfg, w) && Backed(cfg, w) && Enabled(cfg, w, a) && Lasting(cfg) && !a.Step?
    requires w' == Next(cfg, w, a) && Grows(w.state, w'.state)
    ensures Backed(cfg, w')
  {
    hide Ideal, StepAuthorize, StepPresent, Grows, EvidenceOk, EnvLaws;
    assert w'.evidence == w.evidence;
    EvidenceStaysOk(cfg.env, w.state, w'.state, w.evidence);
    ThreadsStayBacked(w, w');
  }

  lemma NextBacked(cfg: Config, w: World, a: Action, w': World)
    requires EnvLaws(cfg.env) && Wired(cfg, w) && Settled(cfg, w) && Backed(cfg, w) && Enabled(cfg, w, a)
    requires BringsNormal(cfg, a) && Lasting(cfg) && w' == Next(cfg, w, a)
    ensures Backed(cfg, w')
  {
    hide EnvLaws, Settled, Ideal, StepAuthorize, StepPresent, Grows, Backed;
    NextSettled(cfg, w, a);
    if !a.Step? {
      ActionBacked(cfg, w, a, w');
    } else if a.tid < |w.threads| && w.threads[a.tid].Authorizing? {
      AuthorizeBacked(cfg, w, a.tid, w');
    } else if IsPresenting(cfg, w, a.tid) {
      PresentBacked(cfg, w, a.tid, w');
    }
  }

  lemma {:induction false} RunBacked(cfg: Config, w: World, run: seq<Action>)
    requires EnvLaws(cfg.env) && Wired(cfg, w) && Settled(cfg, w) && Backed(cfg, w) && CanRun(cfg, w, run)
    requires NormalRun(cfg, run) && Lasting(cfg)
    ensures Backed(cfg, Run(cfg, w, run))
    decreases |run|
  {
    hide EnvLaws, Enabled, Next, Settled, BringsNormal, Backed;
    if run != [] {
      StaysWired(cfg, w, run[0]);
      NextSettled(cfg, w, run[0]);
      NextBacked(cfg, w, run[0], Next(cfg, w, run[0]));
      RunBacked(cfg, Next(cfg, w, run[0]), run[1..]);
    }
  }

  /** Wherever a run leads, an admitted, affordable, canonicalizable candidate gets its capability as long
      as the evidence store works. */
  lemma AlwaysIssues(cfg: Config, start: World, run: seq<Action>, c: CandidateAct, cost: int, now: int)
    returns (t: StateTransition, e: ValidationEvidence, cap: Capability)
    requires EnvLaws(cfg.env) && Fresh(cfg, start) && CanRun(cfg, start, run) && NormalRun(cfg, run) && Lasting(cfg)
    requires Policy.Admits(cfg.authority.policy, c, now)
    requires Canonicalizable(cfg.env, cfg.authority, c) && IsNormal(cfg.env, c)
    requires var w := Run(cfg, start, run);
      Affordable(w.state, c, cost) && MayAuthorize(cfg.env, cfg.authority, w.state, c, cost, now)
    ensures var w := Run(cfg, start, run);
      IsIssued(cfg.env, cfg.authority, w.state, w.evidence, c, cost, now, t, e, cap)
  {
    hide EnvLaws, CanRun, Policy.Admits, Canonicalizable, Affordable, MayAuthorize, IsIssued, StateOk, EvidenceOk;
    FreshSettled(cfg, start);
    RunSettled(cfg, start, run);
    FreshBacked(cfg, start);
    RunBacked(cfg, start, run);
    var w := Run(cfg, start, run);
    t, e, cap := IssueCompleteness(cfg.env, cfg.authority, w.state, w.evidence, c, cost, now);
  }

  lemma FreshBacked(cfg: Config, w: World)
    requires Fresh(cfg, w)
    ensures Backed(cfg, w)
  {
  }
}
