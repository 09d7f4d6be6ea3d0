/** From candidate to effect: what is admitted can be authorized and take effect, in every state that
    normal runs lead to. So the guarantees are not about runs in which nothing happens. */
module EndToEnd {
  import opened Wrappers
  import opened Sorting
  import opened Unicode
  import opened Values
  import opened Canonical
  import opened Models
  import opened Stores
  import opened Binding
  import opened Agreement
  import opened Machine
  import opened Trace
  import opened AtMostOnce
  import opened Stability
  import opened Verdicts
  import opened Completeness
  import opened Solo
  import opened Backing
  import Authority
  import Policy
  import Race
  import opened Guarantees
  import Sink
  import State

  // ---- What the call hashes ----

  /** Evidence and capability for the recorded transition are among what the run hashes. */
  ghost predicate MayCertify(cfg: Config, c: CandidateAct, now: int, t: StateTransition) {
    && MayCommit(cfg.env, cfg.authority, c, now, t)
    && var e := Authority.MakeEvidence(cfg.env, cfg.authority, c, now, t);
    e.Some? ==> MayIssue(cfg.env, cfg.authority, c, now, e.value)
  }

  /** So is all that authorizing `c` in the state `s` hashes. */
  ghost predicate MayComplete(cfg: Config, s: State.Protected, c: CandidateAct, cost: int, now: int) {
    && MayHash(cfg.env, CandidateValue(c)) && MayRecord(cfg.env, s, c, cost)
    && var recorded := State.Authorize(cfg.env, s, c, cost).1;
    recorded.Ok? ==> MayCertify(cfg, c, now, recorded.value)
  }

  /** What the rest of the call hashes. */
  ghost predicate MayGoOn(cfg: Config, w: World, tid: nat)
    requires tid < |w.threads| && w.threads[tid].Authorizing?
  {
    var Authorizing(c, cost, now, progress) := w.threads[tid];
    && MayHash(cfg.env, CandidateValue(c))
    && match progress
       case Called => MayComplete(cfg, w.state, c, cost, now)
       case Admitted => MayComplete(cfg, w.state, c, cost, now)
       case Recorded(t) => MayCertify(cfg, c, now, t)
       case Committed(_, e) => MayIssue(cfg.env, cfg.authority, c, now, e)
       case _ => true
  }

  // ---- The call of `authorize` ----

  lemma AuthorizeIdeal(cfg: Config, w: World, tid: nat)
    requires Wired(cfg, w) && tid < |w.threads| && w.threads[tid].Authorizing? && MayGoOn(cfg, w, tid)
    ensures Enabled(cfg, w, Step(tid))
  {
    hide MayHash, MayRecord, MayCommit, MayIssue, State.Authorize, Authority.MakeEvidence;
  }

  lemma StillMayGoOn(cfg: Config, w: World, tid: nat, w': World)
    requires tid < |w.threads| && w.threads[tid].Authorizing?
    requires MayGoOn(cfg, w, tid) && w' == StepAuthorize(cfg, w, tid)
    ensures tid < |w'.threads| && w'.threads[tid].Authorizing? && MayGoOn(cfg, w', tid)
  {
    hide MayHash, MayComplete, MayCertify, MayIssue, StepAdmit, StepRecord, StepCommit, StepIssue;
    match w.threads[tid].progress {
      case Called => AdmittedMayGoOn(cfg, w, tid, w');
      case Admitted => RecordedMayGoOn(cfg, w, tid, w');
      case Recorded(t) => CommittedMayGoOn(cfg, w, tid, t, w');
      case Committed(t, e) => IssuedMayGoOn(cfg, w, tid, t, e, w');
      case _ =>
    }
  }

  lemma AdmittedMayGoOn(cfg: Config, w: World, tid: nat, w': World)
    requires tid < |w.threads| && w.threads[tid].Authorizing? && MayGoOn(cfg, w, tid)
    requires w.threads[tid].progress == Called && w' == StepAdmit(cfg, w, tid)
    ensures tid < |w'.threads| && w'.threads[tid].Authorizing? && MayGoOn(cfg, w', tid)
  {
    hide MayHash, MayComplete, Authority.Admit;
  }

  lemma RecordedMayGoOn(cfg: Config, w: World, tid: nat, w': World)
    requires tid < |w.threads| && w.threads[tid].Authorizing? && MayGoOn(cfg, w, tid)
    requires w.threads[tid].progress == Admitted && w' == StepRecord(cfg, w, tid)
    ensures tid < |w'.threads| && w'.threads[tid].Authorizing? && MayGoOn(cfg, w', tid)
  {
    hide MayHash, MayRecord, MayCertify, State.Authorize;
  }

  lemma CommittedMayGoOn(cfg: Config, w: World, tid: nat, t: StateTransition, w': World)
    requires tid < |w.threads| && w.threads[tid].Authorizing? && MayGoOn(cfg, w, tid)
    requires w.threads[tid].progress == Recorded(t) && w' == StepCommit(cfg, w, tid, t)
    ensures tid < |w'.threads| && w'.threads[tid].Authorizing? && MayGoOn(cfg, w', tid)
  {
    hide MayHash, MayCommit, MayIssue, Authority.MakeEvidence, TryCommit;
  }

  lemma IssuedMayGoOn(cfg: Config, w: World, tid: nat, t: StateTransition, e: ValidationEvidence, w': World)
    requires tid < |w.threads| && w.threads[tid].Authorizing? && MayGoOn(cfg, w, tid)
    requires w.threads[tid].progress == Committed(t, e) && w' == StepIssue(cfg, w, tid, t, e)
    ensures tid < |w'.threads| && w'.threads[tid].Authorizing? && MayGoOn(cfg, w', tid)
  {
    hide MayHash, MayIssue, Authority.MakeCapability;
  }

  function Repeat(tid: nat, n: nat): (run: seq<Action>)
    ensures |run| == n && forall i :: 0 <= i < n ==> run[i] == Step(tid)
  {
    seq(n, i => Step(tid))
  }

  /** Steps of one authorizing thread can be taken, and are what `Steps` says. */
  lemma {:induction false} AuthorizeRuns(cfg: Config, w: World, tid: nat, n: nat)
    requires Wired(cfg, w) && tid < |w.threads| && w.threads[tid].Authorizing? && MayGoOn(cfg, w, tid)
    ensures CanRun(cfg, w, Repeat(tid, n)) && Run(cfg, w, Repeat(tid, n)) == Steps(cfg, w, tid, n)
    ensures |Steps(cfg, w, tid, n).threads| == |w.threads|
    decreases n
  {
    hide Enabled, StepAuthorize, MayGoOn;
    if n > 0 {
      AuthorizeIdeal(cfg, w, tid);
      StaysWired(cfg, w, Step(tid));
      StillAuthorizing(cfg, w, tid);
      StillMayGoOn(cfg, w, tid, Next(cfg, w, Step(tid)));
      AuthorizeRuns(cfg, Next(cfg, w, Step(tid)), tid, n - 1);
      assert Repeat(tid, n)[1..] == Repeat(tid, n - 1);
    }
  }

  // ---- The call of `effectuate` ----

  /** The capability is signed, and its holder presents it without a proof. */
  ghost predicate Presentable(cfg: Config, w: World, r: Sink.Request) {
    r.proof.None? && Signed(cfg.env, w.log, cfg.authority.auth.key, CapabilityUnsigned(r.cap))
  }

  predicate BeforeCommit(stage: Stage) {
    stage.Presented? || stage.Local? || stage.Evidenced? || stage.Verified? || stage.Claimed?
  }

  /** What the rest of the presentation hashes. */
  predicate MayFinish(cfg: Config, w: World, tid: nat)
    requires IsPresenting(cfg, w, tid)
  {
    var Presenting(sink, r, stage) := w.threads[tid];
    && MayHash(cfg.env, CandidateValue(r.candidate))
    && (BeforeCommit(stage) ==> MayRefer(cfg.env, w.effectors[cfg.sinks[sink].effector], r.candidate))
  }

  lemma PresentIdeal(cfg: Config, w: World, tid: nat)
    requires WellFormed(cfg) && IsPresenting(cfg, w, tid)
    requires Presentable(cfg, w, w.threads[tid].r) && MayFinish(cfg, w, tid)
    ensures Enabled(cfg, w, Step(tid))
  {
    hide MayRefer, MayHash, EnvLaws, Signed, CapabilityUnsigned;
  }

  /** A step of a presenting thread leaves its errand and the log before it alone. */
  lemma PresentKeeps(cfg: Config, w: World, tid: nat, w': World)
    requires IsPresenting(cfg, w, tid) && w' == StepPresent(cfg, w, tid)
    ensures |w'.threads| == |w.threads| && SameErrand(w.threads[tid], w'.threads[tid]) && w.log <= w'.log
  {
    hide Sink.CheckLocal, Sink.CheckEvidence, Sink.CheckTransition, StepClaim, StepEffect;
    match w.threads[tid].stage {
      case Verified => ClaimKeeps(cfg, w, tid, w');
      case Claimed => EffectKeeps(cfg, w, tid, w');
      case _ =>
    }
  }

  lemma ClaimKeeps(cfg: Config, w: World, tid: nat, w': World)
    requires IsPresenting(cfg, w, tid) && w' == StepClaim(cfg, w, tid)
    ensures |w'.threads| == |w.threads| && SameErrand(w.threads[tid], w'.threads[tid]) && w.log <= w'.log
  {
    hide TryClaim;
  }

  lemma EffectKeeps(cfg: Config, w: World, tid: nat, w': World)
    requires IsPresenting(cfg, w, tid) && w' == StepEffect(cfg, w, tid)
    ensures |w'.threads| == |w.threads| && SameErrand(w.threads[tid], w'.threads[tid]) && w.log <= w'.log
  {
    hide TryEffect, Sink.MakeReceipt;
  }

  lemma CheckKeepsEffectors(cfg: Config, w: World, tid: nat, w': World)
    requires IsPresenting(cfg, w, tid) && w' == StepPresent(cfg, w, tid) && w.threads[tid].stage != Claimed
    ensures w'.effectors == w.effectors
  {
    hide Sink.CheckLocal, Sink.CheckEvidence, Sink.CheckTransition, TryClaim, StepEffect;
  }

  lemma CommitIsLast(cfg: Config, w: World, tid: nat, w': World)
    requires IsPresenting(cfg, w, tid) && w' == StepEffect(cfg, w, tid)
    ensures tid < |w'.threads| && w'.threads[tid].Presenting? && !BeforeCommit(w'.threads[tid].stage)
  {
    hide TryEffect, Sink.MakeReceipt;
  }

  lemma StillMayFinish(cfg: Config, w: World, tid: nat, w': World)
    requires IsPresenting(cfg, w, tid) && MayFinish(cfg, w, tid) && w' == StepPresent(cfg, w, tid) && Wired(cfg, w')
    ensures IsPresenting(cfg, w', tid) && MayFinish(cfg, w', tid)
  {
    hide MayRefer, MayHash, StepEffect, StepClaim, Passing;
    PresentKeeps(cfg, w, tid, w');
    if w.threads[tid].stage == Claimed {
      CommitIsLast(cfg, w, tid, w');
    } else {
      CheckKeepsEffectors(cfg, w, tid, w');
      if !BeforeCommit(w.threads[tid].stage) {
        OverIsOver(cfg, w, tid, w');
      }
    }
  }

  lemma OverIsOver(cfg: Config, w: World, tid: nat, w': World)
    requires IsPresenting(cfg, w, tid) && w' == StepPresent(cfg, w, tid) && !BeforeCommit(w.threads[tid].stage)
    ensures w' == w
  {
    hide StepEffect, StepClaim, Passing;
  }

  lemma StillPresentable(cfg: Config, w: World, w': World, r: Sink.Request)
    requires Presentable(cfg, w, r) && w.log <= w'.log
    ensures Presentable(cfg, w', r)
  {
    hide IsSignature, CapabilityUnsigned;
    var e :| e in w.log && IsSignature(cfg.env, e, cfg.authority.auth.key, CapabilityUnsigned(r.cap));
    assert e in w'.log;
  }

  /** Steps of one presenting thread can be taken, and are what `Steps` says. */
  lemma {:induction false} PresentRuns(cfg: Config, w: World, tid: nat, n: nat)
    requires WellFormed(cfg) && IsPresenting(cfg, w, tid)
    requires Presentable(cfg, w, w.threads[tid].r) && MayFinish(cfg, w, tid)
    ensures CanRun(cfg, w, Repeat(tid, n)) && Run(cfg, w, Repeat(tid, n)) == Steps(cfg, w, tid, n)
    decreases n
  {
    hide Enabled, StepPresent, WellFormed, Presentable, MayFinish;
    if n > 0 {
      PresentIdeal(cfg, w, tid);
      StaysWired(cfg, w, Step(tid));
      var w' := Next(cfg, w, Step(tid));
      PresentKeeps(cfg, w, tid, w');
      StillPresentable(cfg, w, w', w.threads[tid].r);
      StillMayFinish(cfg, w, tid, w');
      PresentRuns(cfg, w', tid, n - 1);
      assert Repeat(tid, n)[1..] == Repeat(tid, n - 1);
    }
  }

  // ---- From candidate to effect ----

  /** Four steps after the call, the capability is issued and its signature is on record. */
  lemma IssueSigns(cfg: Config, w: World, tid: nat, w': World, cap: Capability)
    requires Wired(cfg, w) && tid < |w.threads| && w.threads[tid].Authorizing? && w.threads[tid].progress == Called
    requires w' == Steps(cfg, w, tid, 4) && tid < |w'.threads| && w'.threads[tid].Authorizing?
    requires AuthorizeResult(w'.threads[tid].progress) == Some(Ok(cap))
    ensures Signed(cfg.env, w'.log, cfg.authority.auth.key, CapabilityUnsigned(cap))
  {
    hide Canon, CapabilityUnsigned, Steps;
    var x := Steps(cfg, w, tid, 3);
    StepsSnoc(cfg, w, tid, 3);
    ProgressBefore(cfg, w, tid, x);
    IssueIsLast(cfg, x, tid, w');
    var e := WasSigned(cfg.authority.auth.key, CapabilityDocument(cap));
    assert e in w'.log && IsSignature(cfg.env, e, cfg.authority.auth.key, CapabilityUnsigned(cap));
  }

  lemma {:induction false} StepsSnoc(cfg: Config, w: World, tid: nat, n: nat)
    requires Wired(cfg, w)
    ensures Steps(cfg, w, tid, n + 1) == Next(cfg, Steps(cfg, w, tid, n), Step(tid))
    decreases n
  {
    hide Next;
    if n > 0 {
      StaysWired(cfg, w, Step(tid));
      StepsSnoc(cfg, Next(cfg, w, Step(tid)), tid, n - 1);
    }
  }

  /** How many steps a call has behind it. */
  function Rank(progress: Progress): nat {
    match progress
    case Called => 0
    case Admitted => 1
    case Recorded(_) => 2
    case Committed(_, _) => 3
    case _ => 4
  }

  /** After three steps the call is at its last one, or over without a capability. */
  lemma ProgressBefore(cfg: Config, w: World, tid: nat, x: World)
    requires Wired(cfg, w) && tid < |w.threads| && w.threads[tid].Authorizing? && w.threads[tid].progress == Called
    requires x == Steps(cfg, w, tid, 3)
    ensures tid < |x.threads| && x.threads[tid].Authorizing? && !x.threads[tid].progress.Issued?
  {
    RankGrows(cfg, w, tid, 3);
  }

  lemma {:induction false} RankGrows(cfg: Config, w: World, tid: nat, n: nat)
    requires Wired(cfg, w) && tid < |w.threads| && w.threads[tid].Authorizing?
    requires !w.threads[tid].progress.Issued? && Rank(w.threads[tid].progress) + n <= 3
    ensures var x := Steps(cfg, w, tid, n);
      tid < |x.threads| && x.threads[tid].Authorizing? && !x.threads[tid].progress.Issued?
    decreases n
  {
    hide StepAdmit, StepRecord, StepCommit, StepIssue;
    if n > 0 {
      StaysWired(cfg, w, Step(tid));
      var w' := StepAuthorize(cfg, w, tid);
      OneRank(cfg, w, tid, w');
      if w'.threads[tid].progress.Refused? {
        DecidedStays(cfg, w', tid, n - 1);
      } else {
        RankGrows(cfg, w', tid, n - 1);
      }
    }
  }

  lemma OneRank(cfg: Config, w: World, tid: nat, w': World)
    requires tid < |w.threads| && w.threads[tid].Authorizing? && w' == StepAuthorize(cfg, w, tid)
    requires Rank(w.threads[tid].progress) < 3
    ensures tid < |w'.threads| && w'.threads[tid].Authorizing? && !w'.threads[tid].progress.Issued?
    ensures w'.threads[tid].progress.Refused? || Rank(w'.threads[tid].progress) == Rank(w.threads[tid].progress) + 1
  {
    hide Authority.Admit, Authority.MakeEvidence, Authority.MakeCapability, State.Authorize, TryCommit;
  }

  lemma IssueIsLast(cfg: Config, x: World, tid: nat, w': World)
    requires Wired(cfg, x) && tid < |x.threads| && x.threads[tid].Authorizing? && !x.threads[tid].progress.Issued?
    requires w' == Next(cfg, x, Step(tid)) && tid < |w'.threads|
    requires w'.threads[tid].Authorizing? && w'.threads[tid].progress.Issued?
    ensures WasSigned(cfg.authority.auth.key, CapabilityDocument(w'.threads[tid].progress.g.cap)) in w'.log
  {
    hide Authority.Admit, Authority.MakeEvidence, Authority.MakeCapability, State.Authorize, TryCommit;
  }

  // ---- Effect and receipt ----

  ghost predicate ReceiptTexts(nfc: Nfc, r: SinkReceipt) {
    && Scalars(r.capability_id) && Scalars(r.candidate_digest) && Scalars(r.descriptor_digest)
    && Scalars(r.sink_id) && Scalars(r.boundary_id) && Scalars(r.transition_id)
    && Normalize(nfc, List(Texts(r.scope)), false).Some? && Scalars(r.effect_reference) && Scalars(r.key_id)
  }

  lemma ReceiptAccepted(env: Env, r: SinkReceipt)
    requires EnvLaws(env) && ReceiptTexts(env.nfc, r)
    ensures Canon(env, ReceiptCore(r)).Some?
    ensures Scalars(r.receipt_id) ==> Canon(env, ReceiptUnsigned(r)).Some?
  {
    ReceiptNames();
    AcceptedRecord(env, RECEIPT_FIELDS, ReceiptValues(r));
    if Scalars(r.receipt_id) {
      AcceptedRecord(env, ["receipt_id"] + RECEIPT_FIELDS, [Str(r.receipt_id)] + ReceiptValues(r));
    }
  }

  lemma ReceiptExists(env: Env, a: Authority.Settings, k: Sink.Settings, r: Sink.Request, now: int,
                      e: ValidationEvidence, rec: EffectRecord)
    requires EnvLaws(env) && Canonicalizable(env, a, r.candidate)
    requires Matches(a, k, r.candidate) && Scalars(k.receipt_auth.key_id)
    requires IsCapabilityFor(env, a, r.candidate, now, e, r.cap)
    requires IsPlain(r.cap.capability_id) && IsPlain(e.transition_id)
    requires IsPlain(rec.effect_reference)
    ensures Sink.MakeReceipt(env, k, r, rec).Some?
  {
    hide CandidateDigest, DescriptorDigest, Canon, ReceiptValues, CapabilityUnsigned, Normalize;
    DescriptorExists(env, r.candidate);
    CandidateTexts(env, r.candidate);
    CandidateDigestPlain(env, r.candidate);
    var d, h := CandidateDigest(env, r.candidate).value,
        DescriptorDigest(env, r.candidate, k.context.sink_id, k.context.boundary_id).value;
    PlainIsScalars(d);
    PlainIsScalars(h);
    PlainIsScalars(r.cap.capability_id);
    PlainIsScalars(e.transition_id);
    PlainIsScalars(rec.effect_reference);
    var core := SinkReceipt(
      [], r.cap.capability_id, d, h, k.context.sink_id, k.context.boundary_id, r.cap.transition_id, r.cap.scope, r.now,
      rec.effect_reference, k.receipt_auth.key_id, []);
    ReceiptAccepted(env, core);
    DigestIsPlain(env, ReceiptCore(core));
    PlainIsScalars(Digest(env, ReceiptCore(core)).value);
    ReceiptAccepted(env, core.(receipt_id := Digest(env, ReceiptCore(core)).value));
  }

  /** A sink that the candidate names, with a working effector and printable names of its own. */
  ghost predicate Ready(cfg: Config, w: World, k: nat, c: CandidateAct) {
    && Wired(cfg, w) && k < |cfg.sinks| && Matches(cfg.authority, cfg.sinks[k].settings, c)
    && Scalars(cfg.sinks[k].settings.receipt_auth.key_id)
    && !w.effectors[cfg.sinks[k].effector].fail_next && Scalars(w.effectors[cfg.sinks[k].effector].channel)
  }

  /** Once a request verifies, a ready sink that has not seen its capability has the effect and writes
      the receipt. */
  lemma VerifiedTakesEffect(cfg: Config, w: World, k: nat, r: Sink.Request, now: int, e: ValidationEvidence)
    requires EnvLaws(cfg.env) && Ready(cfg, w, k, r.candidate) && Canonicalizable(cfg.env, cfg.authority, r.candidate)
    requires IsCapabilityFor(cfg.env, cfg.authority, r.candidate, now, e, r.cap)
    requires IsPlain(r.cap.capability_id) && IsPlain(e.transition_id)
    requires r.cap.capability_id !in w.stores[cfg.sinks[k].store]
    ensures var SinkAt(settings, s, f) := cfg.sinks[k];
      var (claims, effects, result) := Sink.AfterVerify(cfg.env, settings, r, w.stores[s], w.effectors[f]);
      r.cap.capability_id in claims && |effects.records| == |w.effectors[f].records| + 1 && result.Ok?
  {
    hide TryEffect, Sink.MakeReceipt, Matches, IsCapabilityFor, CandidateDigest, IsPlain, EnvLaws;
    var SinkAt(settings, s, f) := cfg.sinks[k];
    Race.EffectSucceeds(cfg.env, w.effectors[f], r.candidate);
    var rec := TryEffect(cfg.env, w.effectors[f], r.candidate).1.value;
    ReceiptExists(cfg.env, cfg.authority, settings, r, now, e, rec);
  }

  /** The capability is issued in the first four steps of a call that starts here. */
  lemma Issues(cfg: Config, w: World, c: CandidateAct, cost: int, now: int)
    returns (t: StateTransition, e: ValidationEvidence, cap: Capability, w': World)
    requires WellFormed(cfg) && Wired(cfg, w) && MayComplete(cfg, w.state, c, cost, now)
    requires Settled(cfg, w) && Backed(cfg, w) && !w.evidence_fails
    requires Policy.Admits(cfg.authority.policy, c, now)
    requires Canonicalizable(cfg.env, cfg.authority, c) && IsNormal(cfg.env, c)
    requires Affordable(w.state, c, cost)
    ensures IsIssued(cfg.env, cfg.authority, w.state, w.evidence, c, cost, now, t, e, cap) && IsPlain(cap.capability_id)
    ensures var first := [Authorize(c, cost, now)] + Repeat(|w.threads|, 4);
      CanRun(cfg, w, first) && w' == Run(cfg, w, first)
    ensures |w'.threads| == |w.threads| + 1 && w'.stores == w.stores && w'.effectors == w.effectors
    ensures (w'.state, w'.evidence)
            == (State.Authorize(cfg.env, w.state, c, cost).0, w.evidence[e.evidence_id := e])
    ensures Signed(cfg.env, w'.log, cfg.authority.auth.key, CapabilityUnsigned(cap))
  {
    hide EnvLaws, Policy.Admits, Canonicalizable, Affordable, IsIssued, StateOk, EvidenceOk, MayAuthorize, MayComplete;
    hide State.Authorize, Authority.Authorize;
    hide Signed, CapabilityUnsigned, IsPlain, Steps;
    var tid := |w.threads|;
    CompleteMayAuthorize(cfg, w.state, c, cost, now);
    t, e, cap := IssueCompleteness(cfg.env, cfg.authority, w.state, w.evidence, c, cost, now);
    IssuedPlain(cfg.env, cfg.authority, w.state, w.evidence, c, cost, now, t, e, cap);
    var a := Authorize(c, cost, now);
    StaysWired(cfg, w, a);
    var w1 := Next(cfg, w, a);
    AuthorizeRuns(cfg, w1, tid, 4);
    SoloAuthorize(cfg, w1, tid);
    w' := Steps(cfg, w1, tid, 4);
    IssueSigns(cfg, w1, tid, w', cap);
    OneThenMore(cfg, w, a, Repeat(tid, 4));
  }

  lemma OneThenMore(cfg: Config, w: World, a: Action, more: seq<Action>)
    requires Wired(cfg, w) && Enabled(cfg, w, a) && Wired(cfg, Next(cfg, w, a)) && CanRun(cfg, Next(cfg, w, a), more)
    ensures CanRun(cfg, w, [a] + more) && Run(cfg, w, [a] + more) == Run(cfg, Next(cfg, w, a), more)
  {
    hide Enabled, Next;
    StaysWired(cfg, w, a);
    assert ([a] + more)[0] == a && ([a] + more)[1..] == more;
  }

  lemma CompleteMayAuthorize(cfg: Config, s: State.Protected, c: CandidateAct, cost: int, now: int)
    requires MayComplete(cfg, s, c, cost, now)
    ensures MayAuthorize(cfg.env, cfg.authority, s, c, cost, now) && MayHash(cfg.env, CandidateValue(c))
  {
    hide MayHash, MayRecord, MayCommit, MayIssue, State.Authorize, Authority.MakeEvidence;
  }

  lemma IssuedPlain(env: Env, a: Authority.Settings, s: State.Protected, records: Records, c: CandidateAct,
                    cost: int, now: int, t: StateTransition, e: ValidationEvidence, cap: Capability)
    requires EnvLaws(env) && IsIssued(env, a, s, records, c, cost, now, t, e, cap)
    ensures IsPlain(cap.capability_id) && IsPlain(e.transition_id)
    ensures Authority.Authorize(env, a, s, records, false, c, cost, now)
            == (State.Authorize(env, s, c, cost).0, records[e.evidence_id := e], Ok(cap))
    ensures IsCapabilityFor(env, a, c, now, e, cap)
  {
    hide IsCapabilityFor, CapabilityCore, CapabilityUnsigned, Canon, Authority.Admit, TryCommit;
    hide State.Authorize, Authority.MakeEvidence;
    RecordedIsPlain(env, s, c, cost);
    MadeEvidenceHashes(env, a, c, now, t);
    IssuedCapabilityMade(env, a, s, records, c, cost, now, t, e, cap);
  }

  lemma IssuedCapabilityMade(env: Env, a: Authority.Settings, s: State.Protected, records: Records, c: CandidateAct,
                             cost: int, now: int, t: StateTransition, e: ValidationEvidence, cap: Capability)
    requires EnvLaws(env) && IsIssued(env, a, s, records, c, cost, now, t, e, cap)
    ensures IsPlain(cap.capability_id)
  {
    hide IsCapabilityFor, CapabilityCore, CapabilityUnsigned, Canon, Authority.Admit, TryCommit, State.Authorize;
    hide Authority.MakeEvidence;
  }

  /** The presentation that follows takes effect. */
  lemma TakesEffect(cfg: Config, w: World, k: nat, r: Sink.Request, now: int, e: ValidationEvidence) returns (w': World)
    requires WellFormed(cfg) && Ready(cfg, w, k, r.candidate) && Presentable(cfg, w, r)
    requires MayHash(cfg.env, CandidateValue(r.candidate))
    requires MayRefer(cfg.env, w.effectors[cfg.sinks[k].effector], r.candidate)
    requires Canonicalizable(cfg.env, cfg.authority, r.candidate)
    requires IsCapabilityFor(cfg.env, cfg.authority, r.candidate, now, e, r.cap)
    requires IsPlain(r.cap.capability_id) && IsPlain(e.transition_id)
    requires Sink.Verify(cfg.env, cfg.sinks[k].settings, r, w.evidence, w.state) == Ok(())
    requires r.cap.capability_id !in w.stores[cfg.sinks[k].store]
    ensures var second := [Present(k, r)] + Repeat(|w.threads|, 5);
      CanRun(cfg, w, second) && w' == Run(cfg, w, second)
    ensures HasTakenEffect(cfg, w, w', |w.threads|, k, r)
  {
    hide EnvLaws, Canonicalizable, IsCapabilityFor, IsPlain, Matches, Signed, CapabilityUnsigned, Steps;
    hide Sink.Verify, Sink.AfterVerify, MayHash, MayRefer;
    var tid := |w.threads|;
    var a := Present(k, r);
    VerifiedTakesEffect(cfg, w, k, r, now, e);
    StaysWired(cfg, w, a);
    var w1 := Next(cfg, w, a);
    StillPresentable(cfg, w, w1, r);
    PresentRuns(cfg, w1, tid, 5);
    SoloEffectuate(cfg, w1, tid);
    w' := Steps(cfg, w1, tid, 5);
    OneThenMore(cfg, w, a, Repeat(tid, 5));
  }

  /** The thread is over with a receipt, its capability is claimed, and the effector has one record more. */
  predicate HasTakenEffect(cfg: Config, w: World, w': World, tid: nat, k: nat, r: Sink.Request) {
    && k < |cfg.sinks| && Wired(cfg, w) && Wired(cfg, w')
    && tid < |w'.threads| && w'.threads[tid].Presenting?
    && PresentResult(w'.threads[tid].stage).Some? && PresentResult(w'.threads[tid].stage).value.Ok?
    && r.cap.capability_id in w'.stores[cfg.sinks[k].store]
    && |w'.effectors[cfg.sinks[k].effector].records| == |w.effectors[cfg.sinks[k].effector].records| + 1
  }

  // ---- The capability is new ----

  /** Behind every claim in a lasting store there is a grant, for a transition that is still recorded. */
  lemma ClaimIsGranted(cfg: Config, w: World, s: nat, id: Text) returns (g: Grant)
    requires EnvLaws(cfg.env) && Traced(cfg, w) && EventsOk(w) && Race.RowsOk(cfg, w) && Backed(cfg, w)
    requires s in cfg.durable.stores && s < |w.stores| && id in w.stores[s]
    ensures IsGrant(cfg.env, cfg.authority, g) && g.cap.capability_id == id
    ensures g.t.transition_id in w.state.transitions
  {
    hide EnvLaws, Race.RowsOk, EventsOk, IsGrant, EvidenceOk, IssuedFor, ThreadsOk, AllJustified, Race.HoldsRow;
    var i := Race.RowHolder(cfg, w, s, id);
    HolderAccepted(cfg, w, s, id, i);
    var j := AcceptedIsIssued(cfg, w, i);
    g := IssuedGrant(cfg, w, j, cfg.sinks[w.threads[i].sink].settings, w.threads[i].r);
  }

  lemma HolderAccepted(cfg: Config, w: World, s: nat, id: Text, i: nat)
    requires s < |w.stores| && id in w.stores[s] && i < |w.threads|
    requires Race.HoldsRow(cfg, s, id, w.stores[s][id], w.threads[i])
    ensures w.threads[i].Presenting? && Accepted(w.threads[i].stage) && w.threads[i].r.cap.capability_id == id
  {
  }

  lemma IssuedGrant(cfg: Config, w: World, j: nat, k: Sink.Settings, r: Sink.Request) returns (g: Grant)
    requires AllJustified(cfg, w.log) && EventsOk(w) && Backed(cfg, w)
    requires j < |w.log| && IssuedFor(cfg, w.log[j], k, r)
    ensures IsGrant(cfg.env, cfg.authority, g) && g.cap.capability_id == r.cap.capability_id
    ensures g.t.transition_id in w.state.transitions
  {
    hide IsGrant, EvidenceOk, SameAct, SameCapability, SamePlace, InWindow, CandidateDigest, DescriptorDigest;
    assert Justified(cfg, w.log[..j], w.log[j]);
    g := w.log[j].g;
    assert IsMilestone(w.log[j]);
    assert ThreadBacked(w, w.threads[w.log[j].tid]);
  }

  /** What the authorization issued is a grant. */
  lemma IssuedIsGrant(cfg: Config, s: State.Protected, records: Records, c: CandidateAct, cost: int, now: int,
                      t: StateTransition, e: ValidationEvidence, cap: Capability)
    requires EnvLaws(cfg.env) && IsIssued(cfg.env, cfg.authority, s, records, c, cost, now, t, e, cap)
    requires Policy.Admits(cfg.authority.policy, c, now) && MayComplete(cfg, s, c, cost, now)
    ensures IsGrant(cfg.env, cfg.authority, Grant(c, cost, now, t, e, cap))
  {
    hide EnvLaws, Policy.Admits, State.Authorize, Authority.Authorize, Authority.MakeEvidence, Authority.MakeCapability;
    hide IsCapabilityFor, MayHash, CapabilityCore, MayRecord, MayCommit, Authority.Admit, CandidateDigest;
    IssuedMakes(cfg.env, cfg.authority, s, records, c, cost, now, t, e, cap);
    RecordedTransition(cfg.env, s, c, cost);
    RecordedIsPlain(cfg.env, s, c, cost);
    AuthorizedHash(cfg.env, s, c, cost);
    AdmitSucceeds(cfg.env, cfg.authority, c, now);
  }

  /** A new transition gives the capability an id that no lasting store has a claim for. */
  lemma CapabilityIsNew(cfg: Config, w: World, s: nat, c: CandidateAct, cost: int, now: int,
                        t: StateTransition, e: ValidationEvidence, cap: Capability)
    requires EnvLaws(cfg.env) && Traced(cfg, w) && EventsOk(w)
    requires Race.RowsOk(cfg, w) && Settled(cfg, w) && Backed(cfg, w)
    requires IsIssued(cfg.env, cfg.authority, w.state, w.evidence, c, cost, now, t, e, cap) && IsNormal(cfg.env, c)
    requires Policy.Admits(cfg.authority.policy, c, now) && MayComplete(cfg, w.state, c, cost, now)
    requires s in cfg.durable.stores && s < |w.stores|
    ensures cap.capability_id !in w.stores[s]
  {
    hide EnvLaws, Traced, EventsOk, Race.RowsOk, Backed, Policy.Admits, MayComplete, MayRecord, StateOk, IsGrant;
    hide Authority.Authorize, State.Authorize, IsCapabilityFor, Authority.MakeEvidence, SameGrant;
    if cap.capability_id in w.stores[s] {
      var g := ClaimIsGranted(cfg, w, s, cap.capability_id);
      var h := Grant(c, cost, now, t, e, cap);
      IssuedIsGrant(cfg, w.state, w.evidence, c, cost, now, t, e, cap);
      SameTransitionId(cfg.env, cfg.authority, g, h);
      MayRecordIt(cfg, w.state, c, cost, now);
      FreshId(cfg.env, w.state, c, cost);
    }
  }

  lemma MayRecordIt(cfg: Config, s: State.Protected, c: CandidateAct, cost: int, now: int)
    requires MayComplete(cfg, s, c, cost, now)
    ensures MayRecord(cfg.env, s, c, cost)
  {
  }

  lemma SameTransitionId(env: Env, a: Authority.Settings, g: Grant, h: Grant)
    requires EnvLaws(env) && IsGrant(env, a, g) && IsGrant(env, a, h) && g.cap.capability_id == h.cap.capability_id
    ensures g.t.transition_id == h.t.transition_id
  {
    hide EnvLaws, IsGrant;
    SameIdSameGrant(env, a, g, h);
    GrantTransition(env, a, g);
    GrantTransition(env, a, h);
    LawsOfEnv(env);
    PlainEqual(env.nfc, g.t.transition_id, h.t.transition_id);
  }

  lemma LawsOfEnv(env: Env)
    requires EnvLaws(env)
    ensures NfcLaws(env.nfc)
  {
  }

  lemma GrantTransition(env: Env, a: Authority.Settings, g: Grant)
    requires EnvLaws(env) && IsGrant(env, a, g)
    ensures IsPlain(g.t.transition_id) && g.cap.transition_id == g.t.transition_id
  {
    GrantFacts(env, a, g);
  }

  // ---- End to end ----

  /** What normal runs lead to: in particular every claim goes back to a recorded transition. */
  lemma RunLeadsTo(cfg: Config, start: World, run: seq<Action>, w: World)
    requires WellFormed(cfg) && Leads(cfg, start, run, w) && NormalRun(cfg, run) && Lasting(cfg)
    ensures Traced(cfg, w) && EventsOk(w) && Race.RowsOk(cfg, w) && Settled(cfg, w) && Backed(cfg, w) && Wired(cfg, w)
  {
    hide Run, CanRun, EnvLaws, Race.RowsOk, Settled, Backed, Traced, EventsOk, BringsNormal, ClaimsOk, Conserved;
    hide OrdinalsOk, AllReferenced, Fresh;
    assert Reachable(cfg, w);
    Reached(cfg, w);
    Race.ReachedRows(cfg, w);
    FreshIsWired(cfg, start);
    FreshSettled(cfg, start);
    RunSettled(cfg, start, run);
    FreshBacked(cfg, start);
    RunBacked(cfg, start, run);
  }

  /** End to end: in every state that normal runs lead to, a candidate that the policy admits, its source can
      afford and that has canonical bytes can be authorized, presented at any ready sink at any time while
      the capability is valid, and takes effect there with a receipt. */
  lemma AdmittedTakesEffect(cfg: Config, start: World, before: seq<Action>, w: World, c: CandidateAct, cost: int,
                            now: int, k: nat, at: int)
    returns (cap: Capability, run: seq<Action>, w': World)
    requires WellFormed(cfg) && Leads(cfg, start, before, w) && NormalRun(cfg, before) && Lasting(cfg)
    requires !w.evidence_fails && Policy.Admits(cfg.authority.policy, c, now)
    requires Canonicalizable(cfg.env, cfg.authority, c) && IsNormal(cfg.env, c)
    requires Affordable(w.state, c, cost) && Ready(cfg, w, k, c) && cfg.sinks[k].store in cfg.durable.stores
    requires MayComplete(cfg, w.state, c, cost, now) && MayRefer(cfg.env, w.effectors[cfg.sinks[k].effector], c)
    requires WhileValid(cfg.authority, cfg.sinks[k].settings, c, now, at)
    ensures CanRun(cfg, w, run) && w' == Run(cfg, w, run)
    ensures HasTakenEffect(cfg, w, w', |w.threads| + 1, k, Sink.Request(c, cap, at, None))
  {
    hide EnvLaws, Policy.Admits, Canonicalizable, Affordable, IsIssued, Settled, Backed, WhileValid, Traced, EventsOk;
    hide IsCapabilityFor, Matches, MayComplete, MayHash, MayRefer, Leads, NormalRun, Race.RowsOk;
    hide Signed, CapabilityUnsigned, IsPlain, CanRun, Run, Sink.Verify, State.Authorize, Authority.Authorize;
    RunLeadsTo(cfg, start, before, w);
    var t, e, issued, w1 := Issues(cfg, w, c, cost, now);
    cap := issued;
    CapabilityIsNew(cfg, w, cfg.sinks[k].store, c, cost, now, t, e, cap);
    var r := Sink.Request(c, cap, at, None);
    IssuedPlain(cfg.env, cfg.authority, w.state, w.evidence, c, cost, now, t, e, cap);
    VerifyCompleteness(cfg.env, cfg.authority, w.state, w.evidence, c, cost, now, t, e, cap, cfg.sinks[k].settings, at);
    CompleteMayAuthorize(cfg, w.state, c, cost, now);
    w' := TakesEffect(cfg, w1, k, r, now, e);
    var first := [Authorize(c, cost, now)] + Repeat(|w.threads|, 4);
    RunOn(cfg, w, first, [Present(k, r)] + Repeat(|w1.threads|, 5));
    run := first + ([Present(k, r)] + Repeat(|w1.threads|, 5));
  }
}
