/** What goes wrong around the calls: crashes, a failing evidence store, a failing effector, and what each
    leaves of a run. */
module Faults {
  import opened Wrappers
  import opened Unicode
  import opened Models
  import opened Stores
  import opened Machine
  import Authority
  import Sink
  import State

  predicate IsOver(th: Thread) {
    match th
    case Authorizing(_, _, _, progress) => progress.Issued? || progress.Refused? || progress.Killed?
    case Presenting(_, _, stage) => stage.Effective? || stage.Burnt? || stage.Stopped? || stage.Lost?
  }

  /** A call whose thread a crash has killed never goes on, and has no result unless it had one before. */
  lemma KilledNeverMoves(cfg: Config, w: World, loss: Loss, tid: nat)
    requires Wired(cfg, w) && tid in loss.threads && tid < |w.threads|
    ensures var w' := Next(cfg, w, Crash(loss));
      && Wired(cfg, w') && Next(cfg, w', Step(tid)) == w' && IsOver(w'.threads[tid])
      && (IsOver(w.threads[tid]) ==> w'.threads[tid] == w.threads[tid])
      && (w.threads[tid].Authorizing? && !IsOver(w.threads[tid]) ==> w'.threads[tid].progress == Killed)
      && (w.threads[tid].Presenting? && !IsOver(w.threads[tid]) ==>
            w'.threads[tid].stage == Lost(w.threads[tid].stage == Claimed))
  {
    hide Authority.Admit, State.Authorize, Authority.MakeEvidence, TryCommit, Authority.MakeCapability;
    hide Sink.CheckLocal, Sink.CheckEvidence, Sink.CheckTransition, TryClaim, TryEffect, Sink.MakeReceipt;
    StaysWired(cfg, w, Crash(loss));
  }

  /** What a crash takes and what it leaves. */
  lemma CrashTakes(cfg: Config, w: World, loss: Loss)
    requires Wired(cfg, w)
    ensures var w' := Next(cfg, w, Crash(loss));
      && |w'.threads| == |w.threads| && |w'.stores| == |w.stores| && |w'.effectors| == |w.effectors|
      && (forall tid :: 0 <= tid < |w.threads| && tid !in loss.threads ==> w'.threads[tid] == w.threads[tid])
      && (forall s :: 0 <= s < |w.stores| ==> w'.stores[s] == if s in loss.stores then map[] else w.stores[s])
      && (forall f :: 0 <= f < |w.effectors| ==>
            && w'.effectors[f].records == (if f in loss.effectors then [] else w.effectors[f].records)
            && w'.effectors[f].channel == w.effectors[f].channel
            && w'.effectors[f].fail_next == w.effectors[f].fail_next)
      && (if loss.state then
            && w'.state.sources == map[] && w'.state.nonces == map[] && w'.state.transitions == map[]
            && w'.state.default_quota == w.state.default_quota && w'.state.default_budget == w.state.default_budget
          else w'.state == w.state)
      && w'.evidence == (if loss.evidence then map[] else w.evidence) && w'.evidence_fails == w.evidence_fails
  {
  }

  /** While the evidence store fails, a call that has spent its transition is refused and commits nothing. */
  lemma FailingStoreRefuses(cfg: Config, w: World, tid: nat)
    requires Wired(cfg, w) && tid < |w.threads| && w.threads[tid].Authorizing? && w.threads[tid].progress.Recorded?
    requires var Authorizing(c, _, now, progress) := w.threads[tid];
      Authority.MakeEvidence(cfg.env, cfg.authority, c, now, progress.t).Some?
    ensures var failing := Next(cfg, w, FailEvidence(true));
      var w' := Next(cfg, failing, Step(tid));
      && w'.threads[tid].progress == Refused(EvidenceCommitFailure)
      && w'.evidence == w.evidence && w'.state == w.state
      && Next(cfg, failing, FailEvidence(false)).evidence_fails == false
  {
    hide Authority.MakeEvidence;
  }

  /** An injected failure of an effector is met by the next effect: the claim stays, nothing is recorded, and
      the effector works again. */
  lemma FailingEffectBurns(cfg: Config, w: World, tid: nat)
    requires IsPresenting(cfg, w, tid) && w.threads[tid].stage == Claimed
    ensures var f := cfg.sinks[w.threads[tid].sink].effector;
      var failing := Next(cfg, w, FailEffect(f));
      var w' := Next(cfg, failing, Step(tid));
      && w'.threads[tid].stage == Burnt && w'.stores == w.stores
      && w'.effectors[f].records == w.effectors[f].records && !w'.effectors[f].fail_next
  {
    hide CandidateDigest;
  }
}
