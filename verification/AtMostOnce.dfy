/** Claims, effects and their records: what every run accounts for, crashes included. */
module AtMostOnce {
  import opened Wrappers
  import opened Unicode
  import opened Values
  import opened Models
  import opened Stores
  import opened Binding
  import opened Counting
  import opened Agreement
  import opened Machine
  import opened Trace
  import Authority
  import Sink
  import State

  predicate HoldsClaim(th: Thread) { th.Presenting? && HasClaimed(th.stage) }

  function CapabilityId(th: Thread): Text
    requires th.Presenting?
  {
    th.r.cap.capability_id
  }

  predicate AtStore(cfg: Config, s: nat, th: Thread) {
    th.Presenting? && th.sink < |cfg.sinks| && cfg.sinks[th.sink].store == s
  }

  predicate AtEffector(cfg: Config, f: nat, th: Thread) {
    th.Presenting? && th.sink < |cfg.sinks| && cfg.sinks[th.sink].effector == f
  }

  // ---- One claim per capability and store ----

  predicate Holder(cfg: Config, s: nat, th: Thread) { HoldsClaim(th) && AtStore(cfg, s, th) }

  /** In a store that crashes spare, every claim that a thread holds is a row of its own. */
  ghost predicate ClaimsOk(cfg: Config, w: World) {
    && (forall i, s :: 0 <= i < |w.threads| && s in cfg.durable.stores && s < |w.stores| && Holder(cfg, s, w.threads[i])
          ==> CapabilityId(w.threads[i]) in w.stores[s])
    && (forall i, j, s :: 0 <= i < j < |w.threads| && s in cfg.durable.stores
          && Holder(cfg, s, w.threads[i]) && Holder(cfg, s, w.threads[j])
          ==> CapabilityId(w.threads[i]) != CapabilityId(w.threads[j]))
  }

  /** The thread is on the same errand, and holds a claim exactly if it did. */
  predicate SameHold(th: Thread, th': Thread) {
    && HoldsClaim(th) == HoldsClaim(th')
    && (th.Presenting? <==> th'.Presenting?)
    && (th.Presenting? ==> th.sink == th'.sink && th.r == th'.r)
  }

  lemma ClaimsMove(cfg: Config, w: World, w': World)
    requires ClaimsOk(cfg, w) && |w'.threads| == |w.threads| && |w'.stores| == |w.stores|
    requires forall i :: 0 <= i < |w.threads| ==> SameHold(w.threads[i], w'.threads[i])
    requires forall s :: s in cfg.durable.stores && s < |w.stores| ==> w'.stores[s] == w.stores[s]
    ensures ClaimsOk(cfg, w')
  {
    forall i, s | 0 <= i < |w.threads| ensures Holder(cfg, s, w'.threads[i]) == Holder(cfg, s, w.threads[i]) {
      assert SameHold(w.threads[i], w'.threads[i]);
    }
  }

  lemma ClaimsStart(cfg: Config, w: World, th: Thread)
    requires ClaimsOk(cfg, w) && !HoldsClaim(th)
    ensures ClaimsOk(cfg, w.(threads := w.threads + [th]))
  {
  }

  lemma ClaimsTaken(cfg: Config, w: World, tid: nat, row: Claim, w': World)
    requires ClaimsOk(cfg, w) && IsPresenting(cfg, w, tid) && !HoldsClaim(w.threads[tid])
    requires var s, id := cfg.sinks[w.threads[tid].sink].store, CapabilityId(w.threads[tid]);
      id !in w.stores[s] && w'.stores == w.stores[s := w.stores[s][id := row]]
    requires w'.threads == w.threads[tid := w.threads[tid].(stage := Claimed)]
    ensures ClaimsOk(cfg, w')
  {
    forall i, s | 0 <= i < |w.threads| && i != tid
      ensures Holder(cfg, s, w'.threads[i]) == Holder(cfg, s, w.threads[i])
    {
    }
  }

  // ---- One event of each kind per thread ----

  predicate SameKind(d: Event, e: Event) {
    (d.WasIssued? && e.WasIssued?) || (d.WasClaimed? && e.WasClaimed?) || (d.WasEffected? && e.WasEffected?)
  }

  predicate IsMilestone(e: Event) { SameKind(e, e) }

  /** The thread has come as far as the event says. */
  predicate Shows(th: Thread, e: Event)
    requires IsMilestone(e)
  {
    match e
    case WasIssued(_, g) => th.Authorizing? && th.progress == Issued(g)
    case WasClaimed(_, sink, r) => HoldsClaim(th) && th.sink == sink && th.r == r
    case WasEffected(_, sink, r, _) => th.Presenting? && th.stage.Effective? && th.sink == sink && th.r == r
  }

  ghost predicate EventsShown(w: World) {
    forall i :: 0 <= i < |w.log| && IsMilestone(w.log[i]) ==>
      w.log[i].tid < |w.threads| && Shows(w.threads[w.log[i].tid], w.log[i])
  }

  ghost predicate EventsOnce(log: seq<Event>) {
    forall i, j :: 0 <= i < j < |log| && SameKind(log[i], log[j]) ==> log[i].tid != log[j].tid
  }

  ghost predicate NoneYet(log: seq<Event>, e: Event)
    requires IsMilestone(e)
  {
    forall i :: 0 <= i < |log| && SameKind(log[i], e) ==> log[i].tid != e.tid
  }

  ghost predicate EventsOk(w: World) { EventsShown(w) && EventsOnce(w.log) }

  lemma EventsMove(w: World, w': World)
    requires EventsOk(w) && w'.log == w.log && |w'.threads| >= |w.threads|
    requires forall i, e :: 0 <= i < |w.threads| && IsMilestone(e) && Shows(w.threads[i], e) ==> Shows(w'.threads[i], e)
    ensures EventsOk(w')
  {
  }

  lemma EventsAppend(w: World, e: Event, w': World)
    requires EventsOk(w) && w'.log == w.log + [e] && w'.threads == w.threads
    requires IsMilestone(e) ==> e.tid < |w.threads| && Shows(w.threads[e.tid], e) && NoneYet(w.log, e)
    ensures EventsOk(w')
  {
  }

  /** A thread passes a milestone that it had not passed before. */
  lemma EventsPass(w: World, tid: nat, th: Thread, e: Event, w': World)
    requires EventsOk(w) && tid < |w.threads| && IsMilestone(e) && e.tid == tid && Shows(th, e)
    requires forall d :: IsMilestone(d) && Shows(w.threads[tid], d) ==> Shows(th, d)
    requires forall d :: SameKind(d, e) ==> !Shows(w.threads[tid], d)
    requires w'.threads == w.threads[tid := th] && w'.log == w.log + [e]
    ensures EventsOk(w')
  {
    hide Shows;
    assert NoneYet(w.log, e);
    var moved := w.(threads := w.threads[tid := th]);
    EventsMove(w, moved);
    EventsAppend(moved, e, w');
  }

  // ---- Counts ----

  predicate IsEffective(cfg: Config, f: nat, th: Thread) { AtEffector(cfg, f, th) && th.stage.Effective? }

  function Holders(cfg: Config, s: nat): Thread -> bool { th => Holder(cfg, s, th) }

  function EffectiveAt(cfg: Config, f: nat): Thread -> bool { th => IsEffective(cfg, f, th) }

  /** Every row is a claim of one thread, every record an effect of one thread. */
  ghost predicate Conserved(cfg: Config, w: World) {
    && (forall s :: s in cfg.durable.stores && s < |w.stores| ==> |w.stores[s]| == Count(w.threads, Holders(cfg, s)))
    && (forall f :: f in cfg.durable.effectors && f < |w.effectors| ==>
          |w.effectors[f].records| == Count(w.threads, EffectiveAt(cfg, f)))
  }

  predicate SameEffect(th: Thread, th': Thread) {
    (th.Presenting? && th.stage.Effective?) == (th'.Presenting? && th'.stage.Effective?)
  }

  lemma ConservedMove(cfg: Config, w: World, w': World)
    requires Conserved(cfg, w) && |w'.threads| == |w.threads|
    requires |w'.stores| == |w.stores| && |w'.effectors| == |w.effectors|
    requires forall i ::
      0 <= i < |w.threads| ==> SameHold(w.threads[i], w'.threads[i]) && SameEffect(w.threads[i], w'.threads[i])
    requires forall s :: s in cfg.durable.stores && s < |w.stores| ==> w'.stores[s] == w.stores[s]
    requires forall f ::
      f in cfg.durable.effectors && f < |w.effectors| ==> w'.effectors[f].records == w.effectors[f].records
    ensures Conserved(cfg, w')
  {
    forall s ensures Count(w'.threads, Holders(cfg, s)) == Count(w.threads, Holders(cfg, s)) {
      forall i | 0 <= i < |w.threads| ensures Holders(cfg, s)(w'.threads[i]) == Holders(cfg, s)(w.threads[i]) {
        assert SameHold(w.threads[i], w'.threads[i]);
      }
      CountSame(w'.threads, w.threads, Holders(cfg, s));
    }
    forall f ensures Count(w'.threads, EffectiveAt(cfg, f)) == Count(w.threads, EffectiveAt(cfg, f)) {
      forall i | 0 <= i < |w.threads| ensures EffectiveAt(cfg, f)(w'.threads[i]) == EffectiveAt(cfg, f)(w.threads[i]) {
        assert SameHold(w.threads[i], w'.threads[i]) && SameEffect(w.threads[i], w'.threads[i]);
      }
      CountSame(w'.threads, w.threads, EffectiveAt(cfg, f));
    }
  }

  lemma ConservedStart(cfg: Config, w: World, th: Thread)
    requires Conserved(cfg, w) && !HoldsClaim(th)
    ensures Conserved(cfg, w.(threads := w.threads + [th]))
  {
    forall s ensures Count(w.threads + [th], Holders(cfg, s)) == Count(w.threads, Holders(cfg, s)) {
      CountSnoc(w.threads, th, Holders(cfg, s));
    }
    forall f ensures Count(w.threads + [th], EffectiveAt(cfg, f)) == Count(w.threads, EffectiveAt(cfg, f)) {
      CountSnoc(w.threads, th, EffectiveAt(cfg, f));
    }
  }

  lemma ConservedTaken(cfg: Config, w: World, tid: nat, row: Claim, w': World)
    requires Conserved(cfg, w) && IsPresenting(cfg, w, tid) && !HoldsClaim(w.threads[tid])
    requires var s, id := cfg.sinks[w.threads[tid].sink].store, CapabilityId(w.threads[tid]);
      id !in w.stores[s] && w'.stores == w.stores[s := w.stores[s][id := row]]
    requires w'.threads == w.threads[tid := w.threads[tid].(stage := Claimed)] && w'.effectors == w.effectors
    ensures Conserved(cfg, w')
  {
    var th := w.threads[tid].(stage := Claimed);
    forall s
      ensures Count(w'.threads, Holders(cfg, s)) == Count(w.threads, Holders(cfg, s)) + One(AtStore(cfg, s, th))
    {
      CountUpdate(w.threads, tid, th, Holders(cfg, s));
    }
    forall f ensures Count(w'.threads, EffectiveAt(cfg, f)) == Count(w.threads, EffectiveAt(cfg, f)) {
      CountUpdate(w.threads, tid, th, EffectiveAt(cfg, f));
    }
  }

  lemma ConservedEffect(cfg: Config, w: World, tid: nat, stage: Stage, record: EffectRecord, w': World)
    requires Conserved(cfg, w) && IsPresenting(cfg, w, tid) && w.threads[tid].stage == Claimed && stage.Effective?
    requires w'.threads == w.threads[tid := w.threads[tid].(stage := stage)] && w'.stores == w.stores
    requires var f := cfg.sinks[w.threads[tid].sink].effector;
      |w'.effectors| == |w.effectors| && w'.effectors[f].records == w.effectors[f].records + [record]
      && forall g :: 0 <= g < |w.effectors| && g != f ==> w'.effectors[g] == w.effectors[g]
    ensures Conserved(cfg, w')
  {
    var th := w.threads[tid].(stage := stage);
    forall s ensures Count(w'.threads, Holders(cfg, s)) == Count(w.threads, Holders(cfg, s)) {
      CountUpdate(w.threads, tid, th, Holders(cfg, s));
    }
    forall f ensures Count(w'.threads, EffectiveAt(cfg, f))
            == Count(w.threads, EffectiveAt(cfg, f)) + One(AtEffector(cfg, f, th)) {
      CountUpdate(w.threads, tid, th, EffectiveAt(cfg, f));
    }
  }

  // ---- Records ----

  /** The thread's effect is the record at its ordinal, and its receipt names that record. */
  predicate RecordOf(th: Thread, records: seq<EffectRecord>)
    requires th.Presenting? && th.stage.Effective?
  {
    && th.stage.ordinal < |records|
    && (th.stage.result.Ok? ==> th.stage.result.value.effect_reference == records[th.stage.ordinal].effect_reference)
  }

  ghost predicate OrdinalsOk(cfg: Config, w: World) {
    && (forall i, f ::
          0 <= i < |w.threads| && f in cfg.durable.effectors && f < |w.effectors| && IsEffective(cfg, f, w.threads[i])
          ==> RecordOf(w.threads[i], w.effectors[f].records))
    && (forall i, j, f :: 0 <= i < j < |w.threads| && f in cfg.durable.effectors
          && IsEffective(cfg, f, w.threads[i]) && IsEffective(cfg, f, w.threads[j])
          ==> w.threads[i].stage.ordinal != w.threads[j].stage.ordinal)
  }

  /** The reference of the record at `ordinal` is the hash of its place. */
  ghost predicate IsReferenced(env: Env, effects: Effects, ordinal: nat)
    requires ordinal < |effects.records|
  {
    var record := effects.records[ordinal];
    var core := ReferenceCore(effects.channel, record.candidate_digest, ordinal);
    Digest(env, core) == Some(record.effect_reference) && MayHash(env, core)
  }

  ghost predicate ReferencesOk(env: Env, effects: Effects) {
    forall ordinal :: 0 <= ordinal < |effects.records| ==> IsReferenced(env, effects, ordinal)
  }

  ghost predicate AllReferenced(env: Env, w: World) {
    forall f :: 0 <= f < |w.effectors| ==> ReferencesOk(env, w.effectors[f])
  }

  lemma OrdinalsEffect(cfg: Config, w: World, tid: nat, stage: Stage, record: EffectRecord, w': World)
    requires OrdinalsOk(cfg, w) && IsPresenting(cfg, w, tid) && w.threads[tid].stage == Claimed && stage.Effective?
    requires w'.threads == w.threads[tid := w.threads[tid].(stage := stage)]
    requires var f := cfg.sinks[w.threads[tid].sink].effector;
      && |w'.effectors| == |w.effectors| && w'.effectors[f].records == w.effectors[f].records + [record]
      && (forall g :: 0 <= g < |w.effectors| && g != f ==> w'.effectors[g] == w.effectors[g])
      && stage.ordinal == |w.effectors[f].records|
      && (stage.result.Ok? ==> stage.result.value.effect_reference == record.effect_reference)
    ensures OrdinalsOk(cfg, w')
  {
    forall i, f | 0 <= i < |w.threads| && i != tid
      ensures IsEffective(cfg, f, w'.threads[i]) == IsEffective(cfg, f, w.threads[i])
    {
    }
  }

  lemma ReferencesGrow(env: Env, s: Effects, c: CandidateAct)
    requires ReferencesOk(env, s) && TryEffect(env, s, c).1.Ok? && MayRefer(env, s, c)
    ensures ReferencesOk(env, TryEffect(env, s, c).0)
  {
    hide CandidateDigest, Digest, TryEffect, ReferenceCore, MayHash;
    EffectFacts(env, s, c);
    var s', n := TryEffect(env, s, c).0, |s.records|;
    forall i | 0 <= i < |s'.records| ensures IsReferenced(env, s', i) {
      assert i < n ==> IsReferenced(env, s, i) && s'.records[i] == s.records[i];
    }
  }

  // ---- All of it ----

  ghost predicate Accounted(cfg: Config, w: World) {
    ClaimsOk(cfg, w) && EventsOk(w) && Conserved(cfg, w) && OrdinalsOk(cfg, w) && AllReferenced(cfg.env, w)
  }

  /** A change of one thread by which it neither issues nor claims nor has effect. */
  predicate Keeps(th: Thread, th': Thread) {
    && SameHold(th, th') && SameEffect(th, th')
    && (th.Presenting? && th.stage.Effective? ==> th' == th)
    && (th.Authorizing? && th.progress.Issued? ==> th' == th)
  }

  /** Records stay, unless a crash takes them. */
  ghost predicate RecordsKept(cfg: Config, w: World, w': World) {
    && |w'.effectors| == |w.effectors|
    && forall f :: 0 <= f < |w.effectors| ==>
      && w'.effectors[f].channel == w.effectors[f].channel
      && (w'.effectors[f].records == w.effectors[f].records
          || (f !in cfg.durable.effectors && w'.effectors[f].records == []))
  }

  ghost predicate StoresKept(cfg: Config, w: World, w': World) {
    |w'.stores| == |w.stores| && forall s :: s in cfg.durable.stores && s < |w.stores| ==> w'.stores[s] == w.stores[s]
  }

  /** Nothing that counts has happened. */
  ghost predicate Quiet(cfg: Config, w: World, w': World) {
    && |w'.threads| == |w.threads| && (forall i :: 0 <= i < |w.threads| ==> Keeps(w.threads[i], w'.threads[i]))
    && StoresKept(cfg, w, w') && RecordsKept(cfg, w, w')
    && w.log <= w'.log && forall i :: |w.log| <= i < |w'.log| ==> !IsMilestone(w'.log[i])
  }

  lemma EventsQuiet(cfg: Config, w: World, w': World)
    requires EventsOk(w) && Quiet(cfg, w, w')
    ensures EventsOk(w')
  {
    forall i | 0 <= i < |w'.log| && IsMilestone(w'.log[i])
      ensures w'.log[i].tid < |w'.threads| && Shows(w'.threads[w'.log[i].tid], w'.log[i])
    {
      assert w'.log[i] == w.log[i];
      assert Keeps(w.threads[w.log[i].tid], w'.threads[w.log[i].tid]);
    }
    forall i, j | 0 <= i < j < |w'.log| && SameKind(w'.log[i], w'.log[j]) ensures w'.log[i].tid != w'.log[j].tid {
      assert IsMilestone(w'.log[i]) && IsMilestone(w'.log[j]);
      assert w'.log[i] == w.log[i] && w'.log[j] == w.log[j];
    }
  }

  lemma OrdinalsQuiet(cfg: Config, w: World, w': World)
    requires OrdinalsOk(cfg, w) && Quiet(cfg, w, w')
    ensures OrdinalsOk(cfg, w')
  {
    forall i, f | 0 <= i < |w.threads| && IsEffective(cfg, f, w'.threads[i])
      ensures IsEffective(cfg, f, w.threads[i]) && w'.threads[i] == w.threads[i]
    {
      assert Keeps(w.threads[i], w'.threads[i]);
    }
  }

  lemma ReferencesQuiet(cfg: Config, w: World, w': World)
    requires AllReferenced(cfg.env, w) && RecordsKept(cfg, w, w')
    ensures AllReferenced(cfg.env, w')
  {
    hide MayHash, Digest, ReferenceCore;
    forall f | 0 <= f < |w'.effectors| ensures ReferencesOk(cfg.env, w'.effectors[f]) {
      if w'.effectors[f].records == w.effectors[f].records {
        assert ReferencesOk(cfg.env, w.effectors[f]);
        forall i | 0 <= i < |w'.effectors[f].records| ensures IsReferenced(cfg.env, w'.effectors[f], i) {
          assert IsReferenced(cfg.env, w.effectors[f], i);
        }
      }
    }
  }

  lemma AccountedQuiet(cfg: Config, w: World, w': World)
    requires Accounted(cfg, w) && Quiet(cfg, w, w')
    ensures Accounted(cfg, w')
  {
    hide EventsOk, OrdinalsOk, AllReferenced, ClaimsOk, Conserved;
    assert forall i ::
      0 <= i < |w.threads| ==> SameHold(w.threads[i], w'.threads[i]) && SameEffect(w.threads[i], w'.threads[i]) by {
      assert forall i :: 0 <= i < |w.threads| ==> Keeps(w.threads[i], w'.threads[i]);
    }
    ClaimsMove(cfg, w, w');
    EventsQuiet(cfg, w, w');
    ConservedMove(cfg, w, w');
    OrdinalsQuiet(cfg, w, w');
    ReferencesQuiet(cfg, w, w');
  }

  lemma AccountedStart(cfg: Config, w: World, th: Thread)
    requires Accounted(cfg, w) && !HoldsClaim(th)
    ensures Accounted(cfg, w.(threads := w.threads + [th]))
  {
    hide ClaimsOk, Conserved;
    ClaimsStart(cfg, w, th);
    ConservedStart(cfg, w, th);
    EventsMove(w, w.(threads := w.threads + [th]));
  }

  lemma IssueAccounted(cfg: Config, w: World, tid: nat, t: StateTransition, e: ValidationEvidence)
    requires Accounted(cfg, w) && tid < |w.threads| && w.threads[tid].Authorizing?
    requires w.threads[tid].progress == Committed(t, e)
    ensures Accounted(cfg, StepIssue(cfg, w, tid, t, e))
  {
    hide Authority.MakeCapability, ClaimsOk, EventsOk, Conserved, OrdinalsOk, AllReferenced;
    var Authorizing(c, cost, now, _) := w.threads[tid];
    var w' := StepIssue(cfg, w, tid, t, e);
    var made := Authority.MakeCapability(cfg.env, cfg.authority, c, now, e);
    if made.None? {
      assert w'.log == w.log;
      AccountedQuiet(cfg, w, w');
    } else {
      var g := Grant(c, cost, now, t, e, made.value);
      var issued, signed := WasIssued(tid, g), WasSigned(cfg.authority.auth.key, CapabilityDocument(made.value));
      ClaimsMove(cfg, w, w');
      ConservedMove(cfg, w, w');
      var middle := w'.(log := w.log + [issued]);
      EventsPass(w, tid, w'.threads[tid], issued, middle);
      assert w'.log == middle.log + [signed];
      EventsAppend(middle, signed, w');
      assert OrdinalsOk(cfg, w') by {
        OrdinalsMove(cfg, w, w');
      }
      ReferencesQuiet(cfg, w, w');
    }
  }

  lemma OrdinalsMove(cfg: Config, w: World, w': World)
    requires OrdinalsOk(cfg, w) && w'.effectors == w.effectors && |w'.threads| == |w.threads|
    requires forall i :: 0 <= i < |w.threads| && w'.threads[i] != w.threads[i] ==>
      !(w'.threads[i].Presenting? && w'.threads[i].stage.Effective?)
    ensures OrdinalsOk(cfg, w')
  {
  }

  lemma AuthorizeAccounted(cfg: Config, w: World, tid: nat)
    requires Accounted(cfg, w) && tid < |w.threads| && w.threads[tid].Authorizing?
    ensures Accounted(cfg, StepAuthorize(cfg, w, tid))
  {
    hide Accounted, Authority.Admit, Authority.MakeEvidence, Authority.MakeCapability, State.Authorize, TryCommit;
    hide StepIssue;
    var w' := StepAuthorize(cfg, w, tid);
    match w.threads[tid].progress {
      case Committed(t, e) => IssueAccounted(cfg, w, tid, t, e);
      case _ => AccountedQuiet(cfg, w, w');
    }
  }

  lemma ClaimAccounted(cfg: Config, w: World, tid: nat)
    requires Accounted(cfg, w) && IsPresenting(cfg, w, tid) && w.threads[tid].stage == Verified
    ensures Accounted(cfg, StepClaim(cfg, w, tid))
  {
    hide ClaimsOk, EventsOk, Conserved, OrdinalsOk, AllReferenced;
    var Presenting(sink, r, _) := w.threads[tid];
    var SinkAt(k, s, _) := cfg.sinks[sink];
    var w' := StepClaim(cfg, w, tid);
    if r.cap.capability_id in w.stores[s] {
      assert w'.log == w.log;
      AccountedQuiet(cfg, w, w');
    } else {
      var row := Sink.ClaimRow(k, r);
      ClaimsTaken(cfg, w, tid, row, w');
      ConservedTaken(cfg, w, tid, row, w');
      EventsPass(w, tid, w'.threads[tid], WasClaimed(tid, sink, r), w');
      OrdinalsMove(cfg, w, w');
      ReferencesQuiet(cfg, w, w');
    }
  }

  lemma EffectAccounted(cfg: Config, w: World, tid: nat)
    requires Accounted(cfg, w) && IsPresenting(cfg, w, tid) && w.threads[tid].stage == Claimed
    requires MayRefer(cfg.env, w.effectors[cfg.sinks[w.threads[tid].sink].effector], w.threads[tid].r.candidate)
    ensures Accounted(cfg, StepEffect(cfg, w, tid))
  {
    hide ClaimsOk, EventsOk, Conserved, OrdinalsOk, MayRefer, CandidateDigest, Digest, Sink.MakeReceipt, ReferencesOk;
    var Presenting(sink, r, _) := w.threads[tid];
    var SinkAt(k, _, f) := cfg.sinks[sink];
    var w' := StepEffect(cfg, w, tid);
    var (effects, result) := TryEffect(cfg.env, w.effectors[f], r.candidate);
    if result.Err? {
      assert w'.log == w.log;
      AccountedQuiet(cfg, w, w');
    } else {
      EffectAdds(cfg, w, tid, result.value);
      ReferencesGrow(cfg.env, w.effectors[f], r.candidate);
    }
  }

  lemma EffectAdds(cfg: Config, w: World, tid: nat, record: EffectRecord)
    requires Accounted(cfg, w) && IsPresenting(cfg, w, tid) && w.threads[tid].stage == Claimed
    requires TryEffect(cfg.env, w.effectors[cfg.sinks[w.threads[tid].sink].effector], w.threads[tid].r.candidate).1
            == Ok(record)
    ensures var w' := StepEffect(cfg, w, tid);
      ClaimsOk(cfg, w') && EventsOk(w') && Conserved(cfg, w') && OrdinalsOk(cfg, w')
  {
    hide ClaimsOk, EventsOk, Conserved, OrdinalsOk, CandidateDigest, DescriptorDigest, Digest, Sink.MakeReceipt;
    hide TryEffect;
    hide ReceiptCore, ReceiptUnsigned;
    var Presenting(sink, r, _) := w.threads[tid];
    var SinkAt(k, _, f) := cfg.sinks[sink];
    var w' := StepEffect(cfg, w, tid);
    EffectFacts(cfg.env, w.effectors[f], r.candidate);
    if Sink.MakeReceipt(cfg.env, k, r, record).Some? {
      Sink.ReceiptReference(cfg.env, k, r, record);
    }
    var stage := w'.threads[tid].stage;
    ClaimsMove(cfg, w, w');
    ConservedEffect(cfg, w, tid, stage, record, w');
    OrdinalsEffect(cfg, w, tid, stage, record, w');
    var effected := WasEffected(tid, sink, r, record);
    var middle := w'.(log := w.log + [effected]);
    EventsPass(w, tid, w'.threads[tid], effected, middle);
    if w'.log == middle.log {
      assert w' == middle;
    } else {
      assert w'.log == middle.log + [w'.log[|w.log| + 1]];
      EventsAppend(middle, w'.log[|w.log| + 1], w');
    }
  }

  lemma PresentAccounted(cfg: Config, w: World, tid: nat)
    requires Accounted(cfg, w) && IsPresenting(cfg, w, tid) && Ideal(cfg, w, tid)
    ensures Accounted(cfg, StepPresent(cfg, w, tid))
  {
    hide Accounted, MayRefer, Unforged, MayHash, StepClaim, StepEffect, Passing;
    hide Sink.CheckLocal, Sink.CheckEvidence, Sink.CheckTransition;
    var Presenting(sink, r, stage) := w.threads[tid];
    var k := cfg.sinks[sink].settings;
    match stage {
      case Verified => ClaimAccounted(cfg, w, tid);
      case Claimed => EffectAccounted(cfg, w, tid);
      case Presented => PassAccounted(cfg, w, tid, Sink.CheckLocal(cfg.env, k, r), Local);
      case Local => PassAccounted(cfg, w, tid, Sink.CheckEvidence(cfg.env, k, r, w.evidence), Evidenced);
      case Evidenced => PassAccounted(cfg, w, tid, Sink.CheckTransition(r, w.state), Verified);
      case _ =>
    }
  }

  lemma PassAccounted(cfg: Config, w: World, tid: nat, verdict: Result<(), Error>, next: Stage)
    requires Accounted(cfg, w) && tid < |w.threads| && w.threads[tid].Presenting?
    requires !HasClaimed(w.threads[tid].stage) && !HasClaimed(next)
    ensures Accounted(cfg, Passing(w, tid, verdict, next))
  {
    hide Accounted;
    var w' := Passing(w, tid, verdict, next);
    assert w'.log == w.log;
    AccountedQuiet(cfg, w, w');
  }

  lemma CrashAccounted(cfg: Config, w: World, loss: Loss)
    requires Accounted(cfg, w) && Spared(cfg.durable, loss)
    ensures Accounted(cfg, Crashed(w, loss))
  {
    hide Accounted;
    var w' := Crashed(w, loss);
    forall i | 0 <= i < |w.threads| ensures Keeps(w.threads[i], w'.threads[i]) {
    }
    assert StoresKept(cfg, w, w') && RecordsKept(cfg, w, w');
    AccountedQuiet(cfg, w, w');
  }

  /** Every action of every thread keeps the accounts. */
  lemma NextAccounted(cfg: Config, w: World, a: Action)
    requires Wired(cfg, w) && Accounted(cfg, w) && Enabled(cfg, w, a)
    ensures Accounted(cfg, Next(cfg, w, a))
  {
    hide Accounted, StepAuthorize, StepPresent, Crashed, Ideal, Spared;
    match a {
      case Authorize(c, cost, now) => AccountedStart(cfg, w, Authorizing(c, cost, now, Called));
      case Present(sink, r) => AccountedStart(cfg, w, Presenting(sink, r, Presented));
      case Step(tid) =>
        if tid < |w.threads| && w.threads[tid].Authorizing? {
          AuthorizeAccounted(cfg, w, tid);
        } else if IsPresenting(cfg, w, tid) {
          PresentAccounted(cfg, w, tid);
        }
      case Crash(loss) => CrashAccounted(cfg, w, loss);
      case _ => AccountedQuiet(cfg, w, Next(cfg, w, a));
    }
  }

  lemma {:induction false} RunAccounted(cfg: Config, w: World, run: seq<Action>)
    requires Wired(cfg, w) && Accounted(cfg, w) && CanRun(cfg, w, run)
    ensures Accounted(cfg, Run(cfg, w, run))
    decreases |run|
  {
    hide Accounted, Enabled, Next;
    if run != [] {
      StaysWired(cfg, w, run[0]);
      NextAccounted(cfg, w, run[0]);
      RunAccounted(cfg, Next(cfg, w, run[0]), run[1..]);
    }
  }
}
