/** Everything that happens traces back to an authorization: what every step of every run keeps. */
module Trace {
  import opened Wrappers
  import opened Sorting
  import opened Unicode
  import opened Values
  import opened Canonical
  import opened Models
  import opened Stores
  import opened Binding
  import opened Agreement
  import opened Machine
  import Authority
  import Sink
  import State

  // ---- What justifies an event ----

  /** A transition recorded for an admitted candidate. */
  ghost predicate IsRecorded(cfg: Config, c: CandidateAct, now: int, t: StateTransition) {
    && Authority.Admit(cfg.env, cfg.authority, c, now) == Ok(())
    && t.nonce == c.nonce && t.source == c.source && t.policy_epoch == c.policy_epoch
    && IsPlain(t.transition_id) && MayHash(cfg.env, CandidateValue(c))
  }

  /** The event is the issue of the grant that the request relies on. */
  ghost predicate IssuedFor(cfg: Config, e: Event, k: Sink.Settings, r: Sink.Request) {
    e.WasIssued? && Agrees(cfg.env, cfg.authority, k, r, e.g)
  }

  /** The event is the signing of the proof `p` under `key`. */
  ghost predicate ProvenBy(env: Env, e: Event, key: Bytes, p: PresentationProof) {
    e.WasSigned? && e.key == key && e.document.ProofDocument? && SameProof(env.nfc, e.document.p, p)
  }

  /** The presenter that the act names signed a fresh proof for this request. */
  ghost predicate Proven(env: Env, log: seq<Event>, k: Sink.Settings, r: Sink.Request) {
    && r.proof.Some? && k.presenters.Some?
    && var p := r.proof.value;
    && Get(r.candidate.authority_context, Lit("presenter_key_id")) == Some(Str(p.presenter_key_id))
    && p.capability_id == r.cap.capability_id && Some(p.candidate_digest) == CandidateDigest(env, r.candidate)
    && p.sink_id == k.context.sink_id && p.boundary_id == k.context.boundary_id && p.nonce == r.candidate.nonce
    && Sink.Abs(r.now - p.presented_at_ns) <= k.presentation_freshness_ns
    && p.presenter_key_id in k.presenters.value
    && exists e :: e in log && ProvenBy(env, e, k.presenters.value[p.presenter_key_id].key, p)
  }

  /** The request passed the local checks, on a capability issued for it and with the proof the sink demands. */
  ghost predicate Granted(cfg: Config, log: seq<Event>, k: Sink.Settings, r: Sink.Request) {
    && Sink.CheckLocal(cfg.env, k, r) == Ok(())
    && (exists e :: e in log && IssuedFor(cfg, e, k, r))
    && (k.require_presentation_proof ==> Proven(cfg.env, log, k, r))
  }

  ghost predicate IsIssueOf(e: Event, cap: Capability) { e.WasIssued? && e.g.cap == cap }

  /** What must have happened before `e`. */
  ghost predicate Justified(cfg: Config, before: seq<Event>, e: Event) {
    match e
    case WasRecorded(_, c, _, now, t) => IsRecorded(cfg, c, now, t)
    case WasCommitted(tid, c, cost, now, t, e) =>
      WasRecorded(tid, c, cost, now, t) in before
              && Authority.MakeEvidence(cfg.env, cfg.authority, c, now, t) == Some(e)
    case WasIssued(tid, g) =>
      WasCommitted(tid, g.c, g.cost, g.now, g.t, g.e) in before && IsGrant(cfg.env, cfg.authority, g)
    case WasSigned(_, CapabilityDocument(cap)) => exists i :: i in before && IsIssueOf(i, cap)
    case WasClaimed(_, sink, r) => sink < |cfg.sinks| && Granted(cfg, before, cfg.sinks[sink].settings, r)
    case WasEffected(tid, sink, r, record) =>
      && WasClaimed(tid, sink, r) in before
      && CandidateDigest(cfg.env, r.candidate) == Some(record.candidate_digest) && record.payload == r.candidate.payload
    case _ => true
  }

  ghost predicate AllJustified(cfg: Config, log: seq<Event>) {
    forall i :: 0 <= i < |log| ==> Justified(cfg, log[..i], log[i])
  }

  // ---- How far a thread has come ----

  ghost predicate ThreadOk(cfg: Config, log: seq<Event>, tid: nat, th: Thread) {
    match th
    case Authorizing(c, cost, now, progress) => ProgressOk(cfg, log, tid, c, cost, now, progress)
    case Presenting(sink, r, stage) =>
      && sink < |cfg.sinks|
      && (stage.Local? || stage.Evidenced? || stage.Verified? ==> Granted(cfg, log, cfg.sinks[sink].settings, r))
      && (HasClaimed(stage) ==> WasClaimed(tid, sink, r) in log)
  }

  predicate HasClaimed(stage: Stage) {
    stage.Claimed? || stage.Effective? || stage.Burnt? || stage == Lost(true)
  }

  ghost predicate ProgressOk(cfg: Config, log: seq<Event>, tid: nat, c: CandidateAct, cost: int, now: int,
                             progress: Progress) {
    match progress
    case Admitted => Authority.Admit(cfg.env, cfg.authority, c, now) == Ok(())
    case Recorded(t) => WasRecorded(tid, c, cost, now, t) in log && IsRecorded(cfg, c, now, t)
    case Committed(t, e) =>
      && WasCommitted(tid, c, cost, now, t, e) in log && IsRecorded(cfg, c, now, t)
      && Authority.MakeEvidence(cfg.env, cfg.authority, c, now, t) == Some(e)
    case Issued(g) => WasIssued(tid, g) in log
    case _ => true
  }

  ghost predicate ThreadsOk(cfg: Config, log: seq<Event>, threads: seq<Thread>) {
    forall i :: 0 <= i < |threads| ==> ThreadOk(cfg, log, i, threads[i])
  }

  ghost predicate Traced(cfg: Config, w: World) { AllJustified(cfg, w.log) && ThreadsOk(cfg, w.log, w.threads) }

  // ---- The log only grows ----

  lemma GrantedStays(cfg: Config, log: seq<Event>, more: seq<Event>, k: Sink.Settings, r: Sink.Request)
    requires Granted(cfg, log, k, r)
    ensures Granted(cfg, log + more, k, r)
  {
    hide IssuedFor, ProvenBy, Sink.CheckLocal, CandidateDigest;
    var e :| e in log && IssuedFor(cfg, e, k, r);
    assert e in log + more;
    if k.require_presentation_proof {
      var p := r.proof.value;
      var s :| s in log && ProvenBy(cfg.env, s, k.presenters.value[p.presenter_key_id].key, p);
      assert s in log + more;
    }
  }

  lemma ThreadStaysOk(cfg: Config, log: seq<Event>, more: seq<Event>, tid: nat, th: Thread)
    requires ThreadOk(cfg, log, tid, th)
    ensures ThreadOk(cfg, log + more, tid, th)
  {
    hide Granted, IsRecorded;
    if th.Presenting? && (th.stage.Local? || th.stage.Evidenced? || th.stage.Verified?) {
      GrantedStays(cfg, log, more, cfg.sinks[th.sink].settings, th.r);
    }
  }

  lemma Appended(cfg: Config, log: seq<Event>, e: Event)
    requires AllJustified(cfg, log) && Justified(cfg, log, e)
    ensures AllJustified(cfg, log + [e])
  {
    hide Justified;
    var longer := log + [e];
    forall i | 0 <= i < |longer| ensures Justified(cfg, longer[..i], longer[i]) {
      assert longer[..i] == log[..i];
      assert i == |log| ==> longer[..i] == log;
    }
  }

  /** One thread moved on, and the events it left behind are justified. */
  lemma Moved(cfg: Config, w: World, tid: nat, th: Thread, events: seq<Event>, w': World)
    requires Traced(cfg, w) && tid < |w.threads|
    requires w'.threads == w.threads[tid := th] && w'.log == w.log + events
    requires AllJustified(cfg, w'.log) && ThreadOk(cfg, w'.log, tid, th)
    ensures Traced(cfg, w')
  {
    hide ThreadOk, AllJustified;
    forall i | 0 <= i < |w'.threads| ensures ThreadOk(cfg, w'.log, i, w'.threads[i]) {
      if i != tid {
        ThreadStaysOk(cfg, w.log, events, i, w.threads[i]);
      }
    }
  }

  // ---- Steps of an authorization ----

  lemma AdmitTraced(cfg: Config, w: World, tid: nat)
    requires Traced(cfg, w) && tid < |w.threads| && w.threads[tid].Authorizing?
    ensures Traced(cfg, StepAdmit(cfg, w, tid))
  {
    hide Authority.Admit, AllJustified, Granted, IsRecorded;
    var w' := StepAdmit(cfg, w, tid);
    var verdict := Authority.Admit(cfg.env, cfg.authority, w.threads[tid].c, w.threads[tid].now);
    assert verdict.Ok? ==> verdict.value == ();
    assert w'.log == w.log;
    Moved(cfg, w, tid, w'.threads[tid], [], w');
  }

  /** What the protected state hands out carries the candidate's nonce, source and epoch. */
  lemma RecordedTransition(env: Env, s: State.Protected, c: CandidateAct, cost: int)
    requires EnvLaws(env) && State.Authorize(env, s, c, cost).1.Ok?
    ensures var t := State.Authorize(env, s, c, cost).1.value;
            t.nonce == c.nonce && t.source == c.source && t.policy_epoch == c.policy_epoch && IsPlain(t.transition_id)
  {
    hide CandidateDigest, State.TransitionFrom, TransitionCore, Canon;
    var x := State.SourceOf(s, c.source);
    assert State.TransitionId(env, x, c, cost).Some?;
    assert State.TransitionFrom(x, c, cost).nonce == c.nonce by {
      TransitionFields(x, c, cost);
    }
    TransitionFields(x, c, cost);
  }

  lemma TransitionFields(x: State.SourceState, c: CandidateAct, cost: int)
    ensures var t := State.TransitionFrom(x, c, cost);
            t.nonce == c.nonce && t.source == c.source && t.policy_epoch == c.policy_epoch
  {
  }

  lemma RecordTraced(cfg: Config, w: World, tid: nat)
    requires EnvLaws(cfg.env) && Traced(cfg, w) && tid < |w.threads| && w.threads[tid].Authorizing?
    requires w.threads[tid].progress == Admitted && MayHash(cfg.env, CandidateValue(w.threads[tid].c))
    ensures Traced(cfg, StepRecord(cfg, w, tid))
  {
    hide Authority.Admit, State.Authorize, AllJustified, Granted, MayHash;
    var Authorizing(c, cost, now, _) := w.threads[tid];
    assert ThreadOk(cfg, w.log, tid, w.threads[tid]);
    var w' := StepRecord(cfg, w, tid);
    var result := State.Authorize(cfg.env, w.state, c, cost).1;
    if result.Ok? {
      RecordedTransition(cfg.env, w.state, c, cost);
      var e := WasRecorded(tid, c, cost, now, result.value);
      Appended(cfg, w.log, e);
      Moved(cfg, w, tid, w'.threads[tid], [e], w');
    } else {
      assert w'.log == w.log;
      Moved(cfg, w, tid, w'.threads[tid], [], w');
    }
  }

  lemma CommitTraced(cfg: Config, w: World, tid: nat, t: StateTransition)
    requires Traced(cfg, w) && tid < |w.threads| && w.threads[tid].Authorizing?
    requires w.threads[tid].progress == Recorded(t)
    ensures Traced(cfg, StepCommit(cfg, w, tid, t))
  {
    hide Authority.MakeEvidence, TryCommit, AllJustified, Granted, IsRecorded;
    var Authorizing(c, cost, now, _) := w.threads[tid];
    assert ThreadOk(cfg, w.log, tid, w.threads[tid]);
    var w' := StepCommit(cfg, w, tid, t);
    var made := Authority.MakeEvidence(cfg.env, cfg.authority, c, now, t);
    if made.None? {
      assert w'.log == w.log;
      Moved(cfg, w, tid, w'.threads[tid], [], w');
    } else {
      var e := made.value;
      var signed := WasSigned(cfg.authority.auth.key, EvidenceDocument(e));
      Appended(cfg, w.log, signed);
      if TryCommit(cfg.env, cfg.authority.auth, w.evidence, w.evidence_fails, e).1.Err? {
        Moved(cfg, w, tid, w'.threads[tid], [signed], w');
      } else {
        var committed := WasCommitted(tid, c, cost, now, t, e);
        Appended(cfg, w.log + [signed], committed);
        assert w.log + [signed, committed] == w.log + [signed] + [committed];
        Moved(cfg, w, tid, w'.threads[tid], [signed, committed], w');
      }
    }
  }

  lemma IssueTraced(cfg: Config, w: World, tid: nat, t: StateTransition, e: ValidationEvidence)
    requires Traced(cfg, w) && tid < |w.threads| && w.threads[tid].Authorizing?
    requires w.threads[tid].progress == Committed(t, e)
    requires MayIssue(cfg.env, cfg.authority, w.threads[tid].c, w.threads[tid].now, e)
    ensures Traced(cfg, StepIssue(cfg, w, tid, t, e))
  {
    hide Authority.MakeEvidence, Authority.MakeCapability, Authority.Admit, AllJustified, Granted, MayHash;
    var Authorizing(c, cost, now, _) := w.threads[tid];
    assert ThreadOk(cfg, w.log, tid, w.threads[tid]);
    var w' := StepIssue(cfg, w, tid, t, e);
    var made := Authority.MakeCapability(cfg.env, cfg.authority, c, now, e);
    if made.None? {
      assert w'.log == w.log;
      Moved(cfg, w, tid, w'.threads[tid], [], w');
    } else {
      var g := Grant(c, cost, now, t, e, made.value);
      var issued, signed := WasIssued(tid, g), WasSigned(cfg.authority.auth.key, CapabilityDocument(made.value));
      Appended(cfg, w.log, issued);
      assert IsIssueOf(issued, made.value) && issued in w.log + [issued];
      Appended(cfg, w.log + [issued], signed);
      assert w.log + [issued, signed] == w.log + [issued] + [signed];
      Moved(cfg, w, tid, w'.threads[tid], [issued, signed], w');
    }
  }

  lemma AuthorizeTraced(cfg: Config, w: World, tid: nat)
    requires Wired(cfg, w) && EnvLaws(cfg.env) && Traced(cfg, w) && Ideal(cfg, w, tid)
    requires tid < |w.threads| && w.threads[tid].Authorizing?
    ensures Traced(cfg, StepAuthorize(cfg, w, tid))
  {
    hide StepAdmit, StepRecord, StepCommit, StepIssue, Traced, MayHash, MayRecord, MayIssue;
    match w.threads[tid].progress {
      case Called => AdmitTraced(cfg, w, tid);
      case Admitted => RecordTraced(cfg, w, tid);
      case Recorded(t) => CommitTraced(cfg, w, tid, t);
      case Committed(t, e) => IssueTraced(cfg, w, tid, t, e);
      case _ =>
    }
  }

  // ---- Steps of a presentation ----

  /** Only issuing signs capabilities. */
  lemma SignedCapability(cfg: Config, log: seq<Event>, key: Bytes, cap: Capability) returns (g: Grant)
    requires EnvLaws(cfg.env) && AllJustified(cfg, log)
    requires Signed(cfg.env, log, key, CapabilityUnsigned(cap)) && Canon(cfg.env, CapabilityUnsigned(cap)).Some?
    ensures exists i :: i in log && IsIssueOf(i, g.cap) && i.g == g
    ensures IsGrant(cfg.env, cfg.authority, g)
    ensures Canon(cfg.env, CapabilityUnsigned(cap)) == Canon(cfg.env, CapabilityUnsigned(g.cap))
  {
    hide AllJustified, IsGrant, CapabilityUnsigned, EvidenceUnsigned, ReceiptUnsigned, ProofUnsigned;
    hide CanonicalBytes;
    var e :| e in log && IsSignature(cfg.env, e, key, CapabilityUnsigned(cap));
    match e.document {
      case EvidenceDocument(x) => EvidenceIsNoCapability(cfg.env.nfc, cap, x); assert false;
      case ReceiptDocument(x) => ReceiptIsNoCapability(cfg.env.nfc, cap, x); assert false;
      case ProofDocument(x) => ProofIsNoCapability(cfg.env.nfc, cap, x); assert false;
      case CapabilityDocument(x) =>
        g := IssuedCapability(cfg, log, e);
    }
  }

  lemma IssuedCapability(cfg: Config, log: seq<Event>, e: Event) returns (g: Grant)
    requires AllJustified(cfg, log) && e in log && e.WasSigned? && e.document.CapabilityDocument?
    ensures exists i :: i in log && IsIssueOf(i, g.cap) && i.g == g
    ensures IsGrant(cfg.env, cfg.authority, g) && g.cap == e.document.cap
  {
    hide IsGrant, Granted;
    var j :| 0 <= j < |log| && log[j] == e;
    var i :| i in log[..j] && IsIssueOf(i, e.document.cap);
    g := i.g;
    var l :| 0 <= l < j && log[..j][l] == i;
    assert log[l] == i && Justified(cfg, log[..l], log[l]);
  }

  /** Only presenters sign presentation proofs. */
  lemma SignedProof(env: Env, log: seq<Event>, key: Bytes, p: PresentationProof)
    requires EnvLaws(env)
    requires Signed(env, log, key, ProofUnsigned(p)) && Canon(env, ProofUnsigned(p)).Some?
    ensures exists e :: e in log && ProvenBy(env, e, key, p)
  {
    hide CapabilityUnsigned, EvidenceUnsigned, ReceiptUnsigned, ProofUnsigned, CanonicalBytes, SameProof;
    var e :| e in log && IsSignature(env, e, key, ProofUnsigned(p));
    match e.document {
      case EvidenceDocument(x) => EvidenceIsNoProof(env.nfc, p, x); assert false;
      case ReceiptDocument(x) => ReceiptIsNoProof(env.nfc, p, x); assert false;
      case CapabilityDocument(x) => ProofIsNoCapability(env.nfc, x, p); assert false;
      case ProofDocument(x) =>
        ProofBytesBind(env.nfc, x, p);
        assert ProvenBy(env, e, key, p);
    }
  }

  /** What verifies has canonical bytes. */
  lemma VerifiedHasBytes(env: Env, a: Authenticator, v: Value, signature: Text, keyId: Text)
    requires a.Verify(env, v, signature, keyId) == Ok(true)
    ensures Canon(env, v).Some?
  {
  }

  lemma ProofFacts(env: Env, k: Sink.Settings, r: Sink.Request)
    requires k.require_presentation_proof
    requires Sink.CheckProof(env, k, r, CandidateDigest(env, r.candidate)) == Ok(())
    ensures r.proof.Some? && k.presenters.Some?
    ensures var p := r.proof.value;
      && Get(r.candidate.authority_context, Lit("presenter_key_id")) == Some(Str(p.presenter_key_id))
      && p.capability_id == r.cap.capability_id && Some(p.candidate_digest) == CandidateDigest(env, r.candidate)
      && p.sink_id == k.context.sink_id && p.boundary_id == k.context.boundary_id && p.nonce == r.candidate.nonce
      && Sink.Abs(r.now - p.presented_at_ns) <= k.presentation_freshness_ns
      && p.presenter_key_id in k.presenters.value
      && Sink.VerifyProof(env, k.presenters.value, p) == Ok(true)
  {
    hide CandidateDigest, ProofUnsigned, Get;
  }

  lemma LocallyProven(cfg: Config, w: World, k: Sink.Settings, r: Sink.Request)
    requires EnvLaws(cfg.env) && Unforged(cfg, w, k, r) && k.require_presentation_proof
    requires Sink.CheckProof(cfg.env, k, r, CandidateDigest(cfg.env, r.candidate)) == Ok(())
    ensures Proven(cfg.env, w.log, k, r)
  {
    hide CandidateDigest, Get, Signed, ProvenBy, Canon, ProofUnsigned, EnvLaws;
    ProofFacts(cfg.env, k, r);
    var p := r.proof.value;
    VerifiedHasBytes(cfg.env, k.presenters.value[p.presenter_key_id], ProofUnsigned(p), p.signature,
                     p.presenter_key_id);
    SignedProof(cfg.env, w.log, k.presenters.value[p.presenter_key_id].key, p);
  }

  /** A request that passes the local checks relies on a capability issued for it. */
  lemma LocallyGranted(cfg: Config, w: World, k: Sink.Settings, r: Sink.Request)
    requires EnvLaws(cfg.env) && AllJustified(cfg, w.log) && k.auth == cfg.authority.auth
    requires Unforged(cfg, w, k, r) && MayHash(cfg.env, CandidateValue(r.candidate))
    requires Sink.CheckLocal(cfg.env, k, r) == Ok(())
    ensures Granted(cfg, w.log, k, r)
  {
    hide CandidateDigest, DescriptorDigest, Signed, Canon, AllJustified, IsGrant, Agrees, CapabilityUnsigned;
    hide Sink.CheckLocal, Sink.CheckBindings, Sink.CheckProof, Proven, MayHash, EnvLaws;
    LocalFacts(cfg.env, k, r);
    VerifiedHasBytes(cfg.env, k.auth, CapabilityUnsigned(r.cap), r.cap.signature, r.cap.key_id);
    var g := SignedCapability(cfg, w.log, k.auth.key, r.cap);
    AcceptedAgrees(cfg.env, cfg.authority, k, r, g);
    var i :| i in w.log && IsIssueOf(i, g.cap) && i.g == g;
    assert IssuedFor(cfg, i, k, r);
    if k.require_presentation_proof {
      LocallyProven(cfg, w, k, r);
    }
  }

  /** The steps of `verify`. */
  lemma PassingTraced(cfg: Config, w: World, tid: nat, verdict: Result<(), Error>, next: Stage)
    requires Traced(cfg, w) && IsPresenting(cfg, w, tid) && !HasClaimed(next)
    requires verdict == Ok(()) ==> Granted(cfg, w.log, cfg.sinks[w.threads[tid].sink].settings, w.threads[tid].r)
    ensures Traced(cfg, Passing(w, tid, verdict, next))
  {
    hide AllJustified, Granted;
    var w' := Passing(w, tid, verdict, next);
    assert verdict.Ok? ==> verdict.value == ();
    assert w'.log == w.log;
    Moved(cfg, w, tid, w'.threads[tid], [], w');
  }

  lemma ClaimTraced(cfg: Config, w: World, tid: nat)
    requires Traced(cfg, w) && IsPresenting(cfg, w, tid) && w.threads[tid].stage == Verified
    ensures Traced(cfg, StepClaim(cfg, w, tid))
  {
    hide AllJustified, Granted, TryClaim;
    var Presenting(sink, r, _) := w.threads[tid];
    assert ThreadOk(cfg, w.log, tid, w.threads[tid]);
    var w' := StepClaim(cfg, w, tid);
    var SinkAt(k, s, _) := cfg.sinks[sink];
    if TryClaim(w.stores[s], r.cap.capability_id, Sink.ClaimRow(k, r)).1.Err? {
      assert w'.log == w.log;
      Moved(cfg, w, tid, w'.threads[tid], [], w');
    } else {
      var claimed := WasClaimed(tid, sink, r);
      Appended(cfg, w.log, claimed);
      Moved(cfg, w, tid, w'.threads[tid], [claimed], w');
    }
  }

  lemma EffectFacts(env: Env, s: Effects, c: CandidateAct)
    requires TryEffect(env, s, c).1.Ok?
    ensures var (s', result) := TryEffect(env, s, c);
      && CandidateDigest(env, c) == Some(result.value.candidate_digest) && result.value.payload == c.payload
      && Digest(env, ReferenceCore(s.channel, result.value.candidate_digest, |s.records|))
              == Some(result.value.effect_reference)
      && s'.records == s.records + [result.value] && s'.channel == s.channel == result.value.channel
  {
    hide CandidateDigest, Digest;
  }

  lemma EffectTraced(cfg: Config, w: World, tid: nat)
    requires Traced(cfg, w) && IsPresenting(cfg, w, tid) && w.threads[tid].stage == Claimed
    ensures Traced(cfg, StepEffect(cfg, w, tid))
  {
    hide AllJustified, Granted, TryEffect, CandidateDigest, Sink.MakeReceipt;
    var Presenting(sink, r, _) := w.threads[tid];
    assert ThreadOk(cfg, w.log, tid, w.threads[tid]);
    var w' := StepEffect(cfg, w, tid);
    var SinkAt(k, _, f) := cfg.sinks[sink];
    var result := TryEffect(cfg.env, w.effectors[f], r.candidate).1;
    if result.Err? {
      assert w'.log == w.log;
      Moved(cfg, w, tid, w'.threads[tid], [], w');
    } else {
      EffectFacts(cfg.env, w.effectors[f], r.candidate);
      var effected := WasEffected(tid, sink, r, result.value);
      Appended(cfg, w.log, effected);
      var receipt := Sink.MakeReceipt(cfg.env, k, r, result.value);
      if receipt.None? {
        Moved(cfg, w, tid, w'.threads[tid], [effected], w');
      } else {
        var signed := WasSigned(k.receipt_auth.key, ReceiptDocument(receipt.value));
        Appended(cfg, w.log + [effected], signed);
        assert w.log + [effected, signed] == w.log + [effected] + [signed];
        Moved(cfg, w, tid, w'.threads[tid], [effected, signed], w');
      }
    }
  }

  lemma PresentTraced(cfg: Config, w: World, tid: nat)
    requires WellFormed(cfg) && Wired(cfg, w) && Traced(cfg, w) && Ideal(cfg, w, tid) && IsPresenting(cfg, w, tid)
    ensures Traced(cfg, StepPresent(cfg, w, tid))
  {
    hide Passing, StepClaim, StepEffect, MayHash, MayRefer, Unforged, Granted, AllJustified, EnvLaws;
    hide Sink.CheckLocal, Sink.CheckEvidence, Sink.CheckTransition;
    var Presenting(sink, r, stage) := w.threads[tid];
    var k := cfg.sinks[sink].settings;
    assert ThreadOk(cfg, w.log, tid, w.threads[tid]);
    match stage {
      case Presented =>
        var verdict := Sink.CheckLocal(cfg.env, k, r);
        if verdict == Ok(()) {
          LocallyGranted(cfg, w, k, r);
        }
        PassingTraced(cfg, w, tid, verdict, Local);
      case Local => PassingTraced(cfg, w, tid, Sink.CheckEvidence(cfg.env, k, r, w.evidence), Evidenced);
      case Evidenced => PassingTraced(cfg, w, tid, Sink.CheckTransition(r, w.state), Verified);
      case Verified => ClaimTraced(cfg, w, tid);
      case Claimed => EffectTraced(cfg, w, tid);
      case _ =>
    }
  }

  // ---- The other actions ----

  /** A thread appears, and no events. */
  lemma StartTraced(cfg: Config, w: World, th: Thread)
    requires Traced(cfg, w) && ThreadOk(cfg, w.log, |w.threads|, th)
    ensures Traced(cfg, w.(threads := w.threads + [th]))
  {
    hide ThreadOk, AllJustified;
  }

  /** Events that need no justification, and no progress. */
  lemma LoggedTraced(cfg: Config, w: World, e: Event, w': World)
    requires Traced(cfg, w) && Justified(cfg, w.log, e)
    requires w'.threads == w.threads && w'.log == w.log + [e]
    ensures Traced(cfg, w')
  {
    hide ThreadOk, Justified, AllJustified;
    Appended(cfg, w.log, e);
    forall i | 0 <= i < |w.threads| ensures ThreadOk(cfg, w'.log, i, w'.threads[i]) {
      ThreadStaysOk(cfg, w.log, [e], i, w.threads[i]);
    }
  }

  lemma CrashTraced(cfg: Config, w: World, loss: Loss)
    requires Traced(cfg, w)
    ensures Traced(cfg, Crashed(w, loss))
  {
    hide AllJustified, Granted, IsRecorded;
    var killed := w.(threads := KillAll(w.threads, loss.threads));
    forall i | 0 <= i < |killed.threads| ensures ThreadOk(cfg, w.log, i, killed.threads[i]) {
      assert ThreadOk(cfg, w.log, i, w.threads[i]);
    }
    assert Traced(cfg, killed);
    if loss.state {
      LoggedTraced(cfg, killed, WasForgotten, Crashed(w, loss));
    }
  }

  /** Every action of every thread keeps the trace. */
  lemma NextTraced(cfg: Config, w: World, a: Action)
    requires WellFormed(cfg) && Wired(cfg, w) && Traced(cfg, w) && Enabled(cfg, w, a)
    ensures Traced(cfg, Next(cfg, w, a))
  {
    hide StepAuthorize, StepPresent, Crashed, AllJustified, Granted, IsRecorded, Ideal, Run, ThreadsOk;
    match a {
      case Authorize(c, cost, now) => StartTraced(cfg, w, Authorizing(c, cost, now, Called));
      case Present(sink, r) => StartTraced(cfg, w, Presenting(sink, r, Presented));
      case Step(tid) =>
        if tid < |w.threads| && w.threads[tid].Authorizing? {
          AuthorizeTraced(cfg, w, tid);
        } else if IsPresenting(cfg, w, tid) {
          PresentTraced(cfg, w, tid);
        }
      case Configure(source, quota, budget) =>
        LoggedTraced(cfg, w, WasConfigured(source, quota, budget), Next(cfg, w, a));
      case Prove(presenter, p) =>
        LoggedTraced(cfg, w, WasSigned(presenter.key, ProofDocument(p)), Next(cfg, w, a));
      case Crash(loss) => CrashTraced(cfg, w, loss);
      case _ =>
    }
  }

  lemma {:induction false} RunTraced(cfg: Config, w: World, run: seq<Action>)
    requires WellFormed(cfg) && Wired(cfg, w) && Traced(cfg, w) && CanRun(cfg, w, run)
    ensures Traced(cfg, Run(cfg, w, run))
    decreases |run|
  {
    hide Traced, Enabled, Next, WellFormed;
    if run != [] {
      StaysWired(cfg, w, run[0]);
      NextTraced(cfg, w, run[0]);
      RunTraced(cfg, Next(cfg, w, run[0]), run[1..]);
    }
  }
}
