/** Every record of an effector is the record of one effect, and the other way around. */
module EffectRecords {
  import opened Wrappers
  import opened Unicode
  import opened Values
  import opened Models
  import opened Stores
  import opened Counting
  import Agreement
  import opened Machine
  import opened Trace
  import opened AtMostOnce
  import opened Guarantees
  import opened Verdicts
  import Authority
  import Race
  import Sink
  import State

  // ---- Records and events ----

  /** The event at `i` is an effect at effector `f`. */
  predicate IsEffectAt(cfg: Config, log: seq<Event>, f: nat, i: nat) {
    IsEffect(log, i) && log[i].sink < |cfg.sinks| && cfg.sinks[log[i].sink].effector == f
  }

  /** The thread has had its effect, as the record at `ordinal`. */
  predicate RecordedAt(th: Thread, ordinal: nat) {
    th.Presenting? && th.stage.Effective? && th.stage.ordinal == ordinal
  }

  /** The event at `i` is the effect that wrote the record at `ordinal`. */
  predicate Wrote(cfg: Config, w: World, f: nat, ordinal: nat, i: nat)
    requires f < |w.effectors|
  {
    && IsEffectAt(cfg, w.log, f, i) && ordinal < |w.effectors[f].records|
    && w.effectors[f].records[ordinal] == w.log[i].record
    && w.log[i].tid < |w.threads| && RecordedAt(w.threads[w.log[i].tid], ordinal)
  }

  ghost predicate HasWriter(cfg: Config, w: World, f: nat, ordinal: nat)
    requires f < |w.effectors|
  {
    exists i :: Wrote(cfg, w, f, ordinal, i)
  }

  ghost predicate HasRecord(cfg: Config, w: World, f: nat, i: nat)
    requires f < |w.effectors|
  {
    exists ordinal :: Wrote(cfg, w, f, ordinal, i)
  }

  /** At an effector that crashes spare, each record was written by an effect, and each effect wrote one. */
  ghost predicate RecordsOk(cfg: Config, w: World, f: nat) {
    f in cfg.durable.effectors && f < |w.effectors| ==>
      && (forall ordinal :: 0 <= ordinal < |w.effectors[f].records| ==> HasWriter(cfg, w, f, ordinal))
      && (forall i :: IsEffectAt(cfg, w.log, f, i) ==> HasRecord(cfg, w, f, i))
  }

  // ---- What keeps them linked ----

  predicate HasEffect(th: Thread) { th.Presenting? && th.stage.Effective? }

  /** No effect happened at `f`, and its records are what they were. */
  ghost predicate Leaves(cfg: Config, w: World, w': World, f: nat) {
    && |w.threads| <= |w'.threads|
    && (forall i :: 0 <= i < |w.threads| && HasEffect(w.threads[i]) ==> w'.threads[i] == w.threads[i])
    && w.log <= w'.log && (forall i :: |w.log| <= i ==> !IsEffectAt(cfg, w'.log, f, i))
    && |w'.effectors| == |w.effectors|
    && (f in cfg.durable.effectors && f < |w.effectors| ==> w'.effectors[f].records == w.effectors[f].records)
  }

  lemma WroteLasts(cfg: Config, w: World, w': World, f: nat, ordinal: nat, i: nat)
    requires f < |w.effectors| == |w'.effectors| && Wrote(cfg, w, f, ordinal, i) && w.log <= w'.log
    requires w.effectors[f].records <= w'.effectors[f].records && |w.threads| <= |w'.threads|
    requires w'.threads[w.log[i].tid] == w.threads[w.log[i].tid]
    ensures Wrote(cfg, w', f, ordinal, i)
  {
    assert w'.log[i] == w.log[i];
  }

  lemma WroteLeft(cfg: Config, w: World, w': World, f: nat, ordinal: nat, i: nat)
    requires Leaves(cfg, w, w', f) && f in cfg.durable.effectors && f < |w.effectors| && Wrote(cfg, w, f, ordinal, i)
    ensures Wrote(cfg, w', f, ordinal, i)
  {
    assert HasEffect(w.threads[w.log[i].tid]);
    WroteLasts(cfg, w, w', f, ordinal, i);
  }

  lemma RecordsLeft(cfg: Config, w: World, w': World, f: nat)
    requires RecordsOk(cfg, w, f) && Leaves(cfg, w, w', f)
    ensures RecordsOk(cfg, w', f)
  {
    hide IsEffectAt, Wrote;
    if f in cfg.durable.effectors && f < |w.effectors| {
      forall ordinal | 0 <= ordinal < |w'.effectors[f].records| ensures HasWriter(cfg, w', f, ordinal) {
        assert HasWriter(cfg, w, f, ordinal);
        var i: nat :| Wrote(cfg, w, f, ordinal, i);
        WroteLeft(cfg, w, w', f, ordinal, i);
      }
      forall i: nat | IsEffectAt(cfg, w'.log, f, i) ensures HasRecord(cfg, w', f, i) {
        EarlierEffect(cfg, w, w', f, i);
        assert HasRecord(cfg, w, f, i);
        var ordinal: nat :| Wrote(cfg, w, f, ordinal, i);
        WroteLeft(cfg, w, w', f, ordinal, i);
      }
    }
  }

  lemma EarlierEffect(cfg: Config, w: World, w': World, f: nat, i: nat)
    requires Leaves(cfg, w, w', f) && IsEffectAt(cfg, w'.log, f, i)
    ensures IsEffectAt(cfg, w.log, f, i)
  {
    assert i < |w.log|;
    assert w'.log[i] == w.log[i];
  }

  /** The effect of thread `tid` wrote `record` at the end of the list. */
  predicate Appends(w: World, w': World, tid: nat, f: nat, sink: nat, record: EffectRecord)
    requires tid < |w.threads| && w.threads[tid].Presenting? && f < |w.effectors| == |w'.effectors|
  {
    && |w'.threads| == |w.threads| && RecordedAt(w'.threads[tid], |w.effectors[f].records|)
    && (forall i :: 0 <= i < |w.threads| && i != tid ==> w'.threads[i] == w.threads[i])
    && w'.effectors[f].records == w.effectors[f].records + [record]
    && |w.log| < |w'.log| && w.log <= w'.log && w'.log[|w.log|] == WasEffected(tid, sink, w.threads[tid].r, record)
    && (forall i :: |w.log| < i < |w'.log| ==> !w'.log[i].WasEffected?)
  }

  lemma RecordsAppended(cfg: Config, w: World, w': World, tid: nat, f: nat, sink: nat, record: EffectRecord)
    requires RecordsOk(cfg, w, f) && f in cfg.durable.effectors
    requires tid < |w.threads| && w.threads[tid].Presenting? && !HasEffect(w.threads[tid])
    requires sink < |cfg.sinks| && cfg.sinks[sink].effector == f && f < |w.effectors| == |w'.effectors|
    requires Appends(w, w', tid, f, sink, record)
    ensures RecordsOk(cfg, w', f)
  {
    hide IsEffectAt, Appends;
    NewRecord(cfg, w, w', tid, f, sink, record);
    var n := |w.effectors[f].records|;
    forall ordinal | 0 <= ordinal < |w'.effectors[f].records| ensures HasWriter(cfg, w', f, ordinal) {
      if ordinal < n {
        assert HasWriter(cfg, w, f, ordinal);
        var i :| Wrote(cfg, w, f, ordinal, i);
        OldRecord(cfg, w, w', tid, f, sink, record, ordinal, i);
      } else {
        assert Wrote(cfg, w', f, ordinal, |w.log|);
      }
    }
    forall i | IsEffectAt(cfg, w'.log, f, i) ensures HasRecord(cfg, w', f, i) {
      if i == |w.log| {
        assert Wrote(cfg, w', f, n, i);
      } else {
        OldEffect(cfg, w, w', tid, f, sink, record, i);
        assert HasRecord(cfg, w, f, i);
        var ordinal :| Wrote(cfg, w, f, ordinal, i);
        OldRecord(cfg, w, w', tid, f, sink, record, ordinal, i);
      }
    }
  }

  lemma NewRecord(cfg: Config, w: World, w': World, tid: nat, f: nat, sink: nat, record: EffectRecord)
    requires tid < |w.threads| && w.threads[tid].Presenting?
    requires sink < |cfg.sinks| && cfg.sinks[sink].effector == f && f < |w.effectors| == |w'.effectors|
    requires Appends(w, w', tid, f, sink, record)
    ensures Wrote(cfg, w', f, |w.effectors[f].records|, |w.log|)
    ensures |w'.effectors[f].records| == |w.effectors[f].records| + 1
  {
  }

  lemma OldRecord(cfg: Config, w: World, w': World, tid: nat, f: nat, sink: nat, record: EffectRecord,
                  ordinal: nat, i: nat)
    requires tid < |w.threads| && w.threads[tid].Presenting? && !HasEffect(w.threads[tid])
    requires f < |w.effectors| == |w'.effectors| && Appends(w, w', tid, f, sink, record)
    requires Wrote(cfg, w, f, ordinal, i)
    ensures Wrote(cfg, w', f, ordinal, i)
  {
    WroteLasts(cfg, w, w', f, ordinal, i);
  }

  lemma OldEffect(cfg: Config, w: World, w': World, tid: nat, f: nat, sink: nat, record: EffectRecord, i: nat)
    requires tid < |w.threads| && w.threads[tid].Presenting? && f < |w.effectors| == |w'.effectors|
    requires Appends(w, w', tid, f, sink, record) && IsEffectAt(cfg, w'.log, f, i) && i != |w.log|
    ensures IsEffectAt(cfg, w.log, f, i)
  {
    assert i < |w.log|;
    assert w'.log[i] == w.log[i];
  }

  // ---- Steps ----

  lemma AuthorizeLeaves(cfg: Config, w: World, tid: nat, w': World, f: nat)
    requires tid < |w.threads| && w.threads[tid].Authorizing? && w' == StepAuthorize(cfg, w, tid)
    ensures Leaves(cfg, w, w', f)
  {
    hide StepAdmit, StepRecord, StepCommit, StepIssue, Leaves;
    match w.threads[tid].progress {
      case Called => AdmitLeaves(cfg, w, tid, w', f);
      case Admitted => RecordLeaves(cfg, w, tid, w', f);
      case Recorded(t) => CommitLeaves(cfg, w, tid, t, w', f);
      case Committed(t, e) => IssueLeaves(cfg, w, tid, t, e, w', f);
      case _ => NothingLeaves(cfg, w, f);
    }
  }

  lemma NothingLeaves(cfg: Config, w: World, f: nat)
    ensures Leaves(cfg, w, w, f)
  {
  }

  lemma ProgressLeaves(cfg: Config, w: World, x: World, tid: nat, progress: Progress, events: seq<Event>, f: nat)
    requires tid < |w.threads| && w.threads[tid].Authorizing?
    requires x.threads == w.threads && x.effectors == w.effectors && x.log == w.log
    requires forall e :: e in events ==> !e.WasEffected?
    ensures Leaves(cfg, w, Progressed(x, tid, progress, events), f)
  {
    var w' := Progressed(x, tid, progress, events);
    forall i | |w.log| <= i ensures !IsEffectAt(cfg, w'.log, f, i) {
      if i < |w'.log| {
        assert w'.log[i] == events[i - |w.log|] && events[i - |w.log|] in events;
      }
    }
  }

  lemma AdmitLeaves(cfg: Config, w: World, tid: nat, w': World, f: nat)
    requires tid < |w.threads| && w.threads[tid].Authorizing? && w' == StepAdmit(cfg, w, tid)
    ensures Leaves(cfg, w, w', f)
  {
    hide Authority.Admit, Leaves, Progressed;
    var Authorizing(c, cost, now, _) := w.threads[tid];
    match Authority.Admit(cfg.env, cfg.authority, c, now) {
      case Err(error) => ProgressLeaves(cfg, w, w, tid, Refused(error), [], f);
      case Ok(_) => ProgressLeaves(cfg, w, w, tid, Admitted, [], f);
    }
  }

  lemma RecordLeaves(cfg: Config, w: World, tid: nat, w': World, f: nat)
    requires tid < |w.threads| && w.threads[tid].Authorizing? && w' == StepRecord(cfg, w, tid)
    ensures Leaves(cfg, w, w', f)
  {
    hide State.Authorize, Leaves, Progressed;
    var Authorizing(c, cost, now, _) := w.threads[tid];
    var (state, result) := State.Authorize(cfg.env, w.state, c, cost);
    var x := w.(state := state);
    match result {
      case Err(error) => ProgressLeaves(cfg, w, x, tid, Refused(error), [], f);
      case Ok(t) => ProgressLeaves(cfg, w, x, tid, Recorded(t), [WasRecorded(tid, c, cost, now, t)], f);
    }
  }

  lemma CommitLeaves(cfg: Config, w: World, tid: nat, t: StateTransition, w': World, f: nat)
    requires tid < |w.threads| && w.threads[tid].Authorizing? && w' == StepCommit(cfg, w, tid, t)
    ensures Leaves(cfg, w, w', f)
  {
    hide Authority.MakeEvidence, TryCommit, Leaves, Progressed;
    var Authorizing(c, cost, now, _) := w.threads[tid];
    match Authority.MakeEvidence(cfg.env, cfg.authority, c, now, t) {
      case None => ProgressLeaves(cfg, w, w, tid, Refused(CanonicalizationError), [], f);
      case Some(e) =>
        var signed := WasSigned(cfg.authority.auth.key, EvidenceDocument(e));
        var (evidence, result) := TryCommit(cfg.env, cfg.authority.auth, w.evidence, w.evidence_fails, e);
        match result {
          case Err(error) => ProgressLeaves(cfg, w, w, tid, Refused(error), [signed], f);
          case Ok(_) =>
            ProgressLeaves(cfg, w, w.(evidence := evidence), tid, Committed(t, e),
                           [signed, WasCommitted(tid, c, cost, now, t, e)], f);
        }
    }
  }

  lemma IssueLeaves(cfg: Config, w: World, tid: nat, t: StateTransition, e: ValidationEvidence, w': World, f: nat)
    requires tid < |w.threads| && w.threads[tid].Authorizing? && w' == StepIssue(cfg, w, tid, t, e)
    ensures Leaves(cfg, w, w', f)
  {
    hide Authority.MakeCapability, Leaves, Progressed;
    var Authorizing(c, cost, now, _) := w.threads[tid];
    match Authority.MakeCapability(cfg.env, cfg.authority, c, now, e) {
      case None => ProgressLeaves(cfg, w, w, tid, Refused(CanonicalizationError), [], f);
      case Some(cap) =>
        var g := Agreement.Grant(c, cost, now, t, e, cap);
        ProgressLeaves(cfg, w, w, tid, Issued(g),
                       [WasIssued(tid, g), WasSigned(cfg.authority.auth.key, CapabilityDocument(cap))], f);
    }
  }

  lemma PresentLeaves(cfg: Config, w: World, tid: nat, w': World, f: nat)
    requires IsPresenting(cfg, w, tid) && w' == StepPresent(cfg, w, tid) && w.threads[tid].stage != Claimed
    ensures Leaves(cfg, w, w', f)
  {
    hide Sink.CheckLocal, Sink.CheckEvidence, Sink.CheckTransition, TryClaim, StepEffect;
  }

  lemma EffectLinked(cfg: Config, w: World, tid: nat, w': World, f: nat)
    requires RecordsOk(cfg, w, f) && IsPresenting(cfg, w, tid) && w.threads[tid].stage == Claimed
    requires w' == StepEffect(cfg, w, tid)
    ensures RecordsOk(cfg, w', f)
  {
    hide RecordsOk, Leaves, Appends, StepEffect, TryEffect;
    var sink := w.threads[tid].sink;
    var here := cfg.sinks[sink].effector;
    var (effects, result) := TryEffect(cfg.env, w.effectors[here], w.threads[tid].r.candidate);
    if result.Ok? && f == here {
      EffectAppends(cfg, w, tid, w', result.value);
      if f in cfg.durable.effectors {
        RecordsAppended(cfg, w, w', tid, f, sink, result.value);
      } else {
        assert RecordsOk(cfg, w', f) by {
          NotDurable(cfg, w', f);
        }
      }
    } else {
      EffectLeaves(cfg, w, tid, w', f);
      RecordsLeft(cfg, w, w', f);
    }
  }

  lemma NotDurable(cfg: Config, w: World, f: nat)
    requires f !in cfg.durable.effectors
    ensures RecordsOk(cfg, w, f)
  {
  }

  lemma EffectAppends(cfg: Config, w: World, tid: nat, w': World, record: EffectRecord)
    requires IsPresenting(cfg, w, tid) && w.threads[tid].stage == Claimed && w' == StepEffect(cfg, w, tid)
    requires var f := cfg.sinks[w.threads[tid].sink].effector;
      TryEffect(cfg.env, w.effectors[f], w.threads[tid].r.candidate).1 == Ok(record)
    ensures |w'.effectors| == |w.effectors|
    ensures Appends(w, w', tid, cfg.sinks[w.threads[tid].sink].effector, w.threads[tid].sink, record)
  {
    hide TryEffect, Sink.MakeReceipt, CandidateDigest, Digest, ReferenceCore;
    EffectFacts(cfg.env, w.effectors[cfg.sinks[w.threads[tid].sink].effector], w.threads[tid].r.candidate);
  }

  /** A commit that fails, or that is made at another effector. */
  lemma EffectLeaves(cfg: Config, w: World, tid: nat, w': World, f: nat)
    requires IsPresenting(cfg, w, tid) && w.threads[tid].stage == Claimed && w' == StepEffect(cfg, w, tid)
    requires var here := cfg.sinks[w.threads[tid].sink].effector;
      here != f || TryEffect(cfg.env, w.effectors[here], w.threads[tid].r.candidate).1.Err?
    ensures Leaves(cfg, w, w', f)
  {
    hide Sink.MakeReceipt, CandidateDigest, Digest;
  }

  lemma NextLinked(cfg: Config, w: World, a: Action, w': World, f: nat)
    requires Wired(cfg, w) && RecordsOk(cfg, w, f) && Enabled(cfg, w, a) && w' == Next(cfg, w, a)
    ensures RecordsOk(cfg, w', f)
  {
    hide RecordsOk, StepAuthorize, StepPresent, StepEffect, Ideal;
    match a {
      case Step(tid) =>
        if tid < |w.threads| && w.threads[tid].Authorizing? {
          AuthorizeLeaves(cfg, w, tid, w', f);
          RecordsLeft(cfg, w, w', f);
        } else if IsPresenting(cfg, w, tid) {
          if w.threads[tid].stage == Claimed {
            EffectStep(cfg, w, tid);
            EffectLinked(cfg, w, tid, w', f);
          } else {
            PresentLeaves(cfg, w, tid, w', f);
            RecordsLeft(cfg, w, w', f);
          }
        }
      case _ => RecordsLeft(cfg, w, w', f);
    }
  }

  lemma EffectStep(cfg: Config, w: World, tid: nat)
    requires IsPresenting(cfg, w, tid) && w.threads[tid].stage == Claimed
    ensures StepPresent(cfg, w, tid) == StepEffect(cfg, w, tid)
  {
    hide StepEffect;
  }

  lemma {:induction false} RunLinked(cfg: Config, w: World, run: seq<Action>, f: nat)
    requires Wired(cfg, w) && RecordsOk(cfg, w, f) && CanRun(cfg, w, run)
    ensures RecordsOk(cfg, Run(cfg, w, run), f)
    decreases |run|
  {
    hide RecordsOk, Enabled, Next;
    if run != [] {
      StaysWired(cfg, w, run[0]);
      NextLinked(cfg, w, run[0], Next(cfg, w, run[0]), f);
      RunLinked(cfg, Next(cfg, w, run[0]), run[1..], f);
    }
  }

  lemma ReachedLinked(cfg: Config, w: World, f: nat)
    requires Reachable(cfg, w)
    ensures RecordsOk(cfg, w, f)
  {
    hide Run, CanRun;
    var start, run :| Leads(cfg, start, run, w);
    assert RecordsOk(cfg, start, f);
    RunLinked(cfg, start, run, f);
  }

  // ---- Records are effects ----

  /** One record, one effect. */
  lemma WriterIsUnique(cfg: Config, w: World, f: nat, ordinal: nat, i: nat, j: nat)
    requires Accounted(cfg, w) && f in cfg.durable.effectors && f < |w.effectors|
    requires Wrote(cfg, w, f, ordinal, i) && Wrote(cfg, w, f, ordinal, j)
    ensures i == j
  {
    hide ClaimsOk, Conserved, AllReferenced;
    var a, b := w.log[i].tid, w.log[j].tid;
    assert IsEffective(cfg, f, w.threads[a]) && IsEffective(cfg, f, w.threads[b]) by {
      WriterIsEffective(cfg, w, f, ordinal, i);
      WriterIsEffective(cfg, w, f, ordinal, j);
    }
    assert a == b;
    assert SameKind(w.log[i], w.log[j]) && SameKind(w.log[j], w.log[i]);
  }

  lemma WriterIsEffective(cfg: Config, w: World, f: nat, ordinal: nat, i: nat)
    requires EventsOk(w) && f < |w.effectors| && Wrote(cfg, w, f, ordinal, i)
    ensures IsEffective(cfg, f, w.threads[w.log[i].tid])
  {
    assert IsMilestone(w.log[i]);
  }

  /** The record is for the digest that the capability binds, and holds the payload of the request. */
  predicate RecordFor(record: EffectRecord, r: Sink.Request) {
    record.candidate_digest == r.cap.candidate_digest && record.payload == r.candidate.payload
  }

  /** The record at `ordinal` was written by the effect at `i`, which `ch` justifies. */
  ghost predicate Explains(cfg: Config, w: World, f: nat, ordinal: nat, i: nat, ch: Chain)
    requires f < |w.effectors|
  {
    && Wrote(cfg, w, f, ordinal, i) && IsChain(cfg, w.log, i, ch)
    && RecordFor(w.effectors[f].records[ordinal], w.log[i].r)
  }

  /** Behind every record of an effector there is exactly one effect, with its claim and its authorization:
      the record is for the digest that the capability binds, and it holds the payload of that request. */
  lemma RecordHasChain(cfg: Config, w: World, f: nat, ordinal: nat) returns (i: nat, ch: Chain)
    requires Reachable(cfg, w) && f in cfg.durable.effectors && f < |w.effectors|
    requires ordinal < |w.effectors[f].records|
    ensures Explains(cfg, w, f, ordinal, i, ch)
    ensures forall j :: Wrote(cfg, w, f, ordinal, j) ==> j == i
  {
    hide Reachable, Accounted, AllJustified, ThreadsOk, EnvLaws, Wrote, IsChain;
    Reached(cfg, w);
    ReachedLinked(cfg, w, f);
    assert HasWriter(cfg, w, f, ordinal);
    i :| Wrote(cfg, w, f, ordinal, i);
    forall j | Wrote(cfg, w, f, ordinal, j) ensures j == i {
      WriterIsUnique(cfg, w, f, ordinal, i, j);
    }
    WroteFacts(cfg, w, f, ordinal, i);
    ch := EffectHasChain(cfg, w.log, i);
    ChainRecord(cfg, w.log, i, ch);
  }

  lemma WroteFacts(cfg: Config, w: World, f: nat, ordinal: nat, i: nat)
    requires f < |w.effectors| && Wrote(cfg, w, f, ordinal, i)
    ensures IsEffect(w.log, i) && ordinal < |w.effectors[f].records|
    ensures w.effectors[f].records[ordinal] == w.log[i].record
  {
  }

  lemma ChainRecord(cfg: Config, log: seq<Event>, i: nat, ch: Chain)
    requires IsEffect(log, i) && IsChain(cfg, log, i, ch)
    ensures RecordFor(log[i].record, log[i].r)
  {
    hide IssuedFor, IsAuthorization;
  }

  /** Every effect at the effector is in its list, at the ordinal of its thread. */
  lemma EffectHasRecord(cfg: Config, w: World, f: nat, i: nat)
    requires Reachable(cfg, w) && f in cfg.durable.effectors && f < |w.effectors| && IsEffectAt(cfg, w.log, f, i)
    ensures w.log[i].tid < |w.threads| && HasEffect(w.threads[w.log[i].tid])
    ensures Wrote(cfg, w, f, w.threads[w.log[i].tid].stage.ordinal, i) && HasRecord(cfg, w, f, i)
  {
    hide Reachable;
    ReachedLinked(cfg, w, f);
    assert HasRecord(cfg, w, f, i);
  }

  ghost predicate IsExplained(cfg: Config, w: World, f: nat, ordinal: nat)
    requires f < |w.effectors|
  {
    exists i, ch :: Explains(cfg, w, f, ordinal, i, ch)
  }

  /** The records of an effector are exactly the effects at it: as many, each written by one effect with a
      complete authorization behind it, under references of their own. */
  lemma RecordsAreEffects(cfg: Config, w: World, f: nat)
    requires Reachable(cfg, w) && f in cfg.durable.effectors && f < |w.effectors|
    ensures |w.effectors[f].records| == Count(w.threads, EffectiveAt(cfg, f))
    ensures forall ordinal :: 0 <= ordinal < |w.effectors[f].records| ==> IsExplained(cfg, w, f, ordinal)
    ensures forall i :: IsEffectAt(cfg, w.log, f, i) ==> HasRecord(cfg, w, f, i)
    ensures forall ordinal, i, j :: Wrote(cfg, w, f, ordinal, i) && Wrote(cfg, w, f, ordinal, j) ==> i == j
    ensures forall m, n :: 0 <= m < n < |w.effectors[f].records| ==>
      w.effectors[f].records[m].effect_reference != w.effectors[f].records[n].effect_reference
  {
    hide Reachable, IsEffectAt, Wrote, Explains, Count, EffectiveAt, EnvLaws, Traced, Accounted;
    Race.RecordConservation(cfg, w, f);
    forall ordinal | 0 <= ordinal < |w.effectors[f].records| ensures IsExplained(cfg, w, f, ordinal) {
      var i, ch := RecordHasChain(cfg, w, f, ordinal);
    }
    forall i: nat | IsEffectAt(cfg, w.log, f, i) ensures HasRecord(cfg, w, f, i) {
      EffectHasRecord(cfg, w, f, i);
    }
    Reached(cfg, w);
    forall ordinal: nat, i: nat, j: nat | Wrote(cfg, w, f, ordinal, i) && Wrote(cfg, w, f, ordinal, j) ensures i == j {
      WriterIsUnique(cfg, w, f, ordinal, i, j);
    }
  }

  /** Different records go back to different capabilities, issued by different calls. */
  lemma RecordsDistinguished(cfg: Config, w: World, f: nat, m: nat, n: nat, i: nat, j: nat, ch: Chain, dh: Chain)
    requires Reachable(cfg, w) && Separated(cfg) && f < |w.effectors| && m != n
    requires Explains(cfg, w, f, m, i, ch) && Explains(cfg, w, f, n, j, dh)
    ensures Distinguished(w.log, ch, dh)
  {
    hide Reachable, Separated, IsChain, Distinguished;
    InjectiveAgreement(cfg, w);
    assert AreChains(cfg, w.log, i, j, ch, dh);
  }
}
