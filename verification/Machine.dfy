/** The protocol as a step machine: any number of authorizations and presentations, interleaved at
    the points where the code takes its locks, with failures and crashes in between. */
module Machine {
  import opened Wrappers
  import opened Unicode
  import opened Values
  import opened Models
  import opened Stores
  import opened Agreement
  import Authority
  import Sink
  import State

  // ---- Configuration ----

  /** A sink, the claim store it shares with others and the effector it drives. */
  datatype SinkAt = SinkAt(settings: Sink.Settings, store: nat, effector: nat)

  /** What every crash leaves in place: claim stores, record lists, protected state, evidence. */
  datatype Durable = Durable(stores: set<nat>, effectors: set<nat>, state: bool, evidence: bool)

  datatype Config = Config(env: Env, authority: Authority.Settings, sinks: seq<SinkAt>, durable: Durable)

  /** All sinks check capabilities under the key of the authority. */
  ghost predicate WellFormed(cfg: Config) {
    && EnvLaws(cfg.env)
    && forall k :: 0 <= k < |cfg.sinks| ==> cfg.sinks[k].settings.auth == cfg.authority.auth
  }

  // ---- States ----

  datatype Progress =
    | Called
    | Admitted
    | Recorded(t: StateTransition)
    | Committed(t: StateTransition, e: ValidationEvidence)
    | Issued(g: Grant)
    | Refused(error: Error)
    | Killed

  datatype Stage =
    | Presented
    | Local
    | Evidenced
    | Verified
    | Claimed
    | Effective(ordinal: nat, result: Result<SinkReceipt, Error>)
    | Burnt
    | Stopped(error: Error)
    | Lost(claimed: bool)

  /** A call of `authorize` or `effectuate`, and how far it has come. */
  datatype Thread =
    | Authorizing(c: CandidateAct, cost: int, now: int, progress: Progress)
    | Presenting(sink: nat, r: Sink.Request, stage: Stage)

  datatype Document =
    | EvidenceDocument(e: ValidationEvidence)
    | CapabilityDocument(cap: Capability)
    | ReceiptDocument(receipt: SinkReceipt)
    | ProofDocument(p: PresentationProof)

  function Content(d: Document): Value {
    match d
    case EvidenceDocument(e) => EvidenceUnsigned(e)
    case CapabilityDocument(cap) => CapabilityUnsigned(cap)
    case ReceiptDocument(r) => ReceiptUnsigned(r)
    case ProofDocument(p) => ProofUnsigned(p)
  }

  /** What has happened, in order; the code keeps no such record. */
  datatype Event =
    | WasConfigured(source: Text, quota: int, budget: int)
    | WasForgotten
    | WasRecorded(tid: nat, c: CandidateAct, cost: int, now: int, t: StateTransition)
    | WasCommitted(tid: nat, c: CandidateAct, cost: int, now: int, t: StateTransition, e: ValidationEvidence)
    | WasIssued(tid: nat, g: Grant)
    | WasSigned(key: Bytes, document: Document)
    | WasClaimed(tid: nat, sink: nat, r: Sink.Request)
    | WasEffected(tid: nat, sink: nat, r: Sink.Request, record: EffectRecord)

  datatype World = World(
    state: State.Protected, evidence: Records, evidence_fails: bool, stores: seq<Claims>, effectors: seq<Effects>,
    threads: seq<Thread>, log: seq<Event>)

  /** Every sink has its store and its effector. */
  predicate Wired(cfg: Config, w: World) {
    forall k :: 0 <= k < |cfg.sinks| ==> cfg.sinks[k].store < |w.stores| && cfg.sinks[k].effector < |w.effectors|
  }

  /** Nothing has happened yet. */
  predicate Fresh(cfg: Config, w: World) {
    && Wired(cfg, w) && w.threads == [] && w.log == [] && w.evidence == map[]
    && w.state == State.Initial(w.state.default_quota, w.state.default_budget)
    && (forall s :: 0 <= s < |w.stores| ==> w.stores[s] == map[])
    && (forall f :: 0 <= f < |w.effectors| ==> w.effectors[f].records == [])
  }

  // ---- Steps of a call ----

  function Progressed(w: World, tid: nat, progress: Progress, events: seq<Event>): World
    requires tid < |w.threads| && w.threads[tid].Authorizing?
  {
    w.(threads := w.threads[tid := w.threads[tid].(progress := progress)], log := w.log + events)
  }

  function StepAuthorize(cfg: Config, w: World, tid: nat): World
    requires tid < |w.threads| && w.threads[tid].Authorizing?
  {
    var Authorizing(c, cost, now, progress) := w.threads[tid];
    match progress
    case Called => StepAdmit(cfg, w, tid)
    case Admitted => StepRecord(cfg, w, tid)
    case Recorded(t) => StepCommit(cfg, w, tid, t)
    case Committed(t, e) => StepIssue(cfg, w, tid, t, e)
    case _ => w
  }

  /** Descriptor and policy. */
  function StepAdmit(cfg: Config, w: World, tid: nat): World
    requires tid < |w.threads| && w.threads[tid].Authorizing?
  {
    var Authorizing(c, cost, now, _) := w.threads[tid];
    match Authority.Admit(cfg.env, cfg.authority, c, now)
    case Err(x) => Progressed(w, tid, Refused(x), [])
    case Ok(_) => Progressed(w, tid, Admitted, [])
  }

  /** The protected state, under its lock. */
  function StepRecord(cfg: Config, w: World, tid: nat): World
    requires tid < |w.threads| && w.threads[tid].Authorizing?
  {
    var Authorizing(c, cost, now, _) := w.threads[tid];
    var (state, result) := State.Authorize(cfg.env, w.state, c, cost);
    match result
    case Err(x) => Progressed(w.(state := state), tid, Refused(x), [])
    case Ok(t) => Progressed(w.(state := state), tid, Recorded(t), [WasRecorded(tid, c, cost, now, t)])
  }

  /** The evidence store, under its lock. */
  function StepCommit(cfg: Config, w: World, tid: nat, t: StateTransition): World
    requires tid < |w.threads| && w.threads[tid].Authorizing?
  {
    var Authorizing(c, cost, now, _) := w.threads[tid];
    match Authority.MakeEvidence(cfg.env, cfg.authority, c, now, t)
    case None => Progressed(w, tid, Refused(CanonicalizationError), [])
    case Some(e) =>
      var signed := WasSigned(cfg.authority.auth.key, EvidenceDocument(e));
      var (evidence, result) := TryCommit(cfg.env, cfg.authority.auth, w.evidence, w.evidence_fails, e);
      match result
      case Err(x) => Progressed(w, tid, Refused(x), [signed])
      case Ok(_) =>
        Progressed(w.(evidence := evidence), tid, Committed(t, e), [signed, WasCommitted(tid, c, cost, now, t, e)])
  }

  /** The signed capability. */
  function StepIssue(cfg: Config, w: World, tid: nat, t: StateTransition, e: ValidationEvidence): World
    requires tid < |w.threads| && w.threads[tid].Authorizing?
  {
    var Authorizing(c, cost, now, _) := w.threads[tid];
    match Authority.MakeCapability(cfg.env, cfg.authority, c, now, e)
    case None => Progressed(w, tid, Refused(CanonicalizationError), [])
    case Some(cap) =>
      var g := Grant(c, cost, now, t, e, cap);
      Progressed(w, tid, Issued(g), [WasIssued(tid, g), WasSigned(cfg.authority.auth.key, CapabilityDocument(cap))])
  }

  predicate IsPresenting(cfg: Config, w: World, tid: nat) {
    Wired(cfg, w) && tid < |w.threads| && w.threads[tid].Presenting? && w.threads[tid].sink < |cfg.sinks|
  }

  function Staged(w: World, tid: nat, stage: Stage, events: seq<Event>): World
    requires tid < |w.threads| && w.threads[tid].Presenting?
  {
    w.(threads := w.threads[tid := w.threads[tid].(stage := stage)], log := w.log + events)
  }

  function StepPresent(cfg: Config, w: World, tid: nat): World
    requires IsPresenting(cfg, w, tid)
  {
    var Presenting(sink, r, stage) := w.threads[tid];
    var k := cfg.sinks[sink].settings;
    match stage
    case Presented => Passing(w, tid, Sink.CheckLocal(cfg.env, k, r), Local)
    case Local => Passing(w, tid, Sink.CheckEvidence(cfg.env, k, r, w.evidence), Evidenced)
    case Evidenced => Passing(w, tid, Sink.CheckTransition(r, w.state), Verified)
    case Verified => StepClaim(cfg, w, tid)
    case Claimed => StepEffect(cfg, w, tid)
    case _ => w
  }

  function Passing(w: World, tid: nat, verdict: Result<(), Error>, next: Stage): World
    requires tid < |w.threads| && w.threads[tid].Presenting?
  {
    match verdict
    case Err(x) => Staged(w, tid, Stopped(x), [])
    case Ok(_) => Staged(w, tid, next, [])
  }

  /** The claim store, under its lock. */
  function StepClaim(cfg: Config, w: World, tid: nat): World
    requires IsPresenting(cfg, w, tid)
  {
    var Presenting(sink, r, _) := w.threads[tid];
    var SinkAt(k, s, _) := cfg.sinks[sink];
    var (claims, result) := TryClaim(w.stores[s], r.cap.capability_id, Sink.ClaimRow(k, r));
    match result
    case Err(x) => Staged(w, tid, Stopped(x), [])
    case Ok(_) => Staged(w.(stores := w.stores[s := claims]), tid, Claimed, [WasClaimed(tid, sink, r)])
  }

  /** The effector, under its lock, and the receipt. */
  function StepEffect(cfg: Config, w: World, tid: nat): World
    requires IsPresenting(cfg, w, tid)
  {
    var Presenting(sink, r, _) := w.threads[tid];
    var SinkAt(k, _, f) := cfg.sinks[sink];
    var ordinal := |w.effectors[f].records|;
    var (effects, result) := TryEffect(cfg.env, w.effectors[f], r.candidate);
    var w' := w.(effectors := w.effectors[f := effects]);
    match result
    case Err(_) => Staged(w', tid, Burnt, [])
    case Ok(record) =>
      var effected := WasEffected(tid, sink, r, record);
      match Sink.MakeReceipt(cfg.env, k, r, record)
      case None => Staged(w', tid, Effective(ordinal, Err(CanonicalizationError)), [effected])
      case Some(receipt) =>
        Staged(w', tid, Effective(ordinal, Ok(receipt)),
               [effected, WasSigned(k.receipt_auth.key, ReceiptDocument(receipt))])
  }

  // ---- Actions ----

  /** What a crash takes with it. */
  datatype Loss = Loss(threads: set<nat>, stores: set<nat>, effectors: set<nat>, state: bool, evidence: bool)

  datatype Action =
    | Authorize(c: CandidateAct, cost: int, now: int)
    | Present(sink: nat, r: Sink.Request)
    | Step(tid: nat)
    | Configure(source: Text, quota: int, budget: int)
    | Prove(presenter: Authenticator, p: PresentationProof)
    | FailEvidence(fails: bool)
    | FailEffect(effector: nat)
    | Crash(loss: Loss)

  function Kill(th: Thread): Thread {
    match th
    case Authorizing(_, _, _, progress) =>
      if progress.Issued? || progress.Refused? then th else th.(progress := Killed)
    case Presenting(_, _, stage) =>
      if stage.Effective? || stage.Burnt? || stage.Stopped? || stage.Lost? then th
      else th.(stage := Lost(stage.Claimed?))
  }

  function KillAll(threads: seq<Thread>, killed: set<nat>): (r: seq<Thread>)
    ensures |r| == |threads|
    ensures forall i :: 0 <= i < |r| ==> r[i] == if i in killed then Kill(threads[i]) else threads[i]
  {
    seq(|threads|, i requires 0 <= i < |threads| => if i in killed then Kill(threads[i]) else threads[i])
  }

  function LoseStores(stores: seq<Claims>, lost: set<nat>): (r: seq<Claims>)
    ensures |r| == |stores|
    ensures forall i :: 0 <= i < |r| ==> r[i] == if i in lost then map[] else stores[i]
  {
    seq(|stores|, i requires 0 <= i < |stores| => if i in lost then map[] else stores[i])
  }

  function LoseRecords(effectors: seq<Effects>, lost: set<nat>): (r: seq<Effects>)
    ensures |r| == |effectors|
    ensures forall i :: 0 <= i < |r| ==> r[i] == if i in lost then effectors[i].(records := []) else effectors[i]
  {
    seq(|effectors|,
        i requires 0 <= i < |effectors| => if i in lost then effectors[i].(records := []) else effectors[i])
  }

  function Crashed(w: World, loss: Loss): World {
    w.(threads := KillAll(w.threads, loss.threads),
       stores := LoseStores(w.stores, loss.stores),
       effectors := LoseRecords(w.effectors, loss.effectors),
       state := if loss.state then State.Initial(w.state.default_quota, w.state.default_budget) else w.state,
       evidence := if loss.evidence then map[] else w.evidence,
       log := if loss.state then w.log + [WasForgotten] else w.log)
  }

  function Next(cfg: Config, w: World, a: Action): World
    requires Wired(cfg, w)
  {
    match a
    case Authorize(c, cost, now) => w.(threads := w.threads + [Authorizing(c, cost, now, Called)])
    case Present(sink, r) => w.(threads := w.threads + [Presenting(sink, r, Presented)])
    case Step(tid) =>
      if tid < |w.threads| && w.threads[tid].Authorizing? then StepAuthorize(cfg, w, tid)
      else if IsPresenting(cfg, w, tid) then StepPresent(cfg, w, tid)
      else w
    case Configure(source, quota, budget) =>
      w.(state := State.Configure(w.state, source, quota, budget),
         log := w.log + [WasConfigured(source, quota, budget)])
    case Prove(presenter, p) => w.(log := w.log + [WasSigned(presenter.key, ProofDocument(p))])
    case FailEvidence(fails) => w.(evidence_fails := fails)
    case FailEffect(f) =>
      if f < |w.effectors| then w.(effectors := w.effectors[f := w.effectors[f].(fail_next := true)]) else w
    case Crash(loss) => Crashed(w, loss)
  }

  // ---- What the proofs assume of a step ----

  /** The holder of `key` signed a document with the canonical bytes of `v`. */
  ghost predicate Signed(env: Env, log: seq<Event>, key: Bytes, v: Value) {
    exists e :: e in log && IsSignature(env, e, key, v)
  }

  ghost predicate IsSignature(env: Env, e: Event, key: Bytes, v: Value) {
    e.WasSigned? && e.key == key && Canon(env, Content(e.document)) == Canon(env, v)
  }

  /** A signature that verifies under a key was made with that key. */
  ghost predicate Unforged(cfg: Config, w: World, k: Sink.Settings, r: Sink.Request) {
    && (k.auth.Verify(cfg.env, CapabilityUnsigned(r.cap), r.cap.signature, r.cap.key_id) == Ok(true)
        ==> Signed(cfg.env, w.log, k.auth.key, CapabilityUnsigned(r.cap)))
    && (r.proof.Some? && k.presenters.Some? && Sink.VerifyProof(cfg.env, k.presenters.value, r.proof.value) == Ok(true)
        ==> Signed(cfg.env, w.log, k.presenters.value[r.proof.value.presenter_key_id].key,
                   ProofUnsigned(r.proof.value)))
  }

  /** What the record step hashes for the transition id. */
  predicate MayRecord(env: Env, s: State.Protected, c: CandidateAct, cost: int) {
    var d := CandidateDigest(env, c);
    d.Some? ==> MayHash(env, TransitionCore(State.TransitionFrom(State.SourceOf(s, c.source), c, cost), d.value))
  }

  predicate MayCommit(env: Env, a: Authority.Settings, c: CandidateAct, now: int, t: StateTransition) {
    var e := Authority.MakeEvidence(env, a, c, now, t);
    e.Some? ==> MayHash(env, EvidenceCore(e.value))
  }

  predicate MayIssue(env: Env, a: Authority.Settings, c: CandidateAct, now: int, e: ValidationEvidence) {
    var cap := Authority.MakeCapability(env, a, c, now, e);
    cap.Some? ==> MayHash(env, CapabilityCore(cap.value))
  }

  predicate MayRefer(env: Env, effects: Effects, c: CandidateAct) {
    var d := CandidateDigest(env, c);
    d.Some? ==> MayHash(env, ReferenceCore(effects.channel, d.value, |effects.records|))
  }

  /** What the step hashes is among what the run hashes, and what it verifies is not forged. */
  ghost predicate Ideal(cfg: Config, w: World, tid: nat)
    requires Wired(cfg, w)
  {
    if tid < |w.threads| && w.threads[tid].Authorizing? then
      var Authorizing(c, cost, now, progress) := w.threads[tid];
      && MayHash(cfg.env, CandidateValue(c))
      && (progress.Admitted? ==> MayRecord(cfg.env, w.state, c, cost))
      && (progress.Recorded? ==> MayCommit(cfg.env, cfg.authority, c, now, progress.t))
      && (progress.Committed? ==> MayIssue(cfg.env, cfg.authority, c, now, progress.e))
    else if IsPresenting(cfg, w, tid) then
      var Presenting(sink, r, stage) := w.threads[tid];
      && MayHash(cfg.env, CandidateValue(r.candidate))
      && (stage.Presented? ==> Unforged(cfg, w, cfg.sinks[sink].settings, r))
      && (stage.Claimed? ==> MayRefer(cfg.env, w.effectors[cfg.sinks[sink].effector], r.candidate))
    else true
  }

  ghost predicate Spared(durable: Durable, loss: Loss) {
    && loss.stores !! durable.stores && loss.effectors !! durable.effectors
    && (loss.state ==> !durable.state) && (loss.evidence ==> !durable.evidence)
  }

  ghost predicate Enabled(cfg: Config, w: World, a: Action)
    requires Wired(cfg, w)
  {
    match a
    case Present(sink, _) => sink < |cfg.sinks|
    case Step(tid) => Ideal(cfg, w, tid)
    case Prove(presenter, p) =>
      p.presenter_key_id == presenter.key_id && presenter.Sign(cfg.env, ProofUnsigned(p)) == Some(p.signature)
    case Crash(loss) => Spared(cfg.durable, loss)
    case _ => true
  }

  // ---- Runs ----

  lemma StaysWired(cfg: Config, w: World, a: Action)
    requires Wired(cfg, w)
    ensures Wired(cfg, Next(cfg, w, a))
  {
    hide Authority.Admit, State.Authorize, Authority.MakeEvidence, TryCommit, Authority.MakeCapability;
    hide Sink.CheckLocal, Sink.CheckEvidence, Sink.CheckTransition, TryClaim, TryEffect, Sink.MakeReceipt;
  }

  ghost predicate CanRun(cfg: Config, w: World, run: seq<Action>)
    requires Wired(cfg, w)
    decreases |run|
  {
    if run == [] then true
    else
      StaysWired(cfg, w, run[0]);
      Enabled(cfg, w, run[0]) && CanRun(cfg, Next(cfg, w, run[0]), run[1..])
  }

  function Run(cfg: Config, w: World, run: seq<Action>): (w': World)
    requires Wired(cfg, w)
    ensures Wired(cfg, w')
    decreases |run|
  {
    if run == [] then w
    else
      StaysWired(cfg, w, run[0]);
      Run(cfg, Next(cfg, w, run[0]), run[1..])
  }
}
