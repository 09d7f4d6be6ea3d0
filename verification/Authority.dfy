/** The ordered issue path (src/finality_ref/authority.py). */
module Authority {
  import opened Wrappers
  import opened Unicode
  import opened Values
  import opened Models
  import opened Stores
  import Policy
  import State

  datatype Settings = Settings(authority_id: Text, policy: Policy.Rules, auth: Authenticator, capability_ttl_ns: int)

  /** The steps before the protected state is touched: descriptor, then policy. */
  function Admit(env: Env, a: Settings, c: CandidateAct, now: int): Result<(), Error> {
    if Digest(env, c.payload).None? then Err(CanonicalizationError)
    else
      var reasons := Policy.Reasons(a.policy, c, now);
      if reasons == [] then Ok(()) else Err(ValidationDenied(reasons))
  }

  /** The evidence of an admitted candidate whose transition was recorded. */
  function MakeEvidence(env: Env, a: Settings, c: CandidateAct, now: int,
                        t: StateTransition): Option<ValidationEvidence> {
    var h :- DescriptorDigest(env, c, c.sink_id, c.boundary_id);
    var d :- CandidateDigest(env, c);
    var core := ValidationEvidence(
      [], a.authority_id, h, d, t.transition_id, c.policy_epoch, ALLOW, [], now, a.auth.key_id, []);
    var id :- Digest(env, EvidenceCore(core));
    var e := core.(evidence_id := id);
    var signature :- a.auth.Sign(env, EvidenceUnsigned(e));
    Some(e.(signature := signature))
  }

  function Expiry(a: Settings, c: CandidateAct, now: int): int {
    if c.issued_at_ns + c.freshness_ns <= now + a.capability_ttl_ns then c.issued_at_ns + c.freshness_ns
    else now + a.capability_ttl_ns
  }

  /** `end` is the earlier end of the candidate's freshness and the capability's lifetime. */
  predicate IsEarlierEnd(a: Settings, c: CandidateAct, now: int, end: int) {
    && end <= c.issued_at_ns + c.freshness_ns && end <= now + a.capability_ttl_ns
    && (end == c.issued_at_ns + c.freshness_ns || end == now + a.capability_ttl_ns)
  }

  /** The capability issued on committed evidence. */
  function MakeCapability(env: Env, a: Settings, c: CandidateAct, now: int, e: ValidationEvidence): Option<Capability> {
    var core := Capability(
      [], a.authority_id, e.candidate_digest, e.descriptor_digest, c.sink_id, c.boundary_id, c.nonce, c.scope,
      c.policy_epoch, e.evidence_id, e.transition_id, now, Expiry(a, c, now), a.auth.key_id, []);
    var id :- Digest(env, CapabilityCore(core));
    var cap := core.(capability_id := id);
    var signature :- a.auth.Sign(env, CapabilityUnsigned(cap));
    Some(cap.(signature := signature))
  }

  /** The capability, once the evidence is committed. */
  function AfterCommit(env: Env, a: Settings, c: CandidateAct, now: int, e: ValidationEvidence)
    : Result<Capability, Error>
  {
    match MakeCapability(env, a, c, now, e)
    case None => Err(CanonicalizationError)
    case Some(cap) => Ok(cap)
  }

  /** Evidence and capability, once the transition is recorded. */
  function AfterRecord(env: Env, a: Settings, records: Records, fails: bool, c: CandidateAct, now: int,
                       t: StateTransition)
    : (Records, Result<Capability, Error>)
  {
    match MakeEvidence(env, a, c, now, t)
    case None => (records, Err(CanonicalizationError))
    case Some(e) =>
      var (records', committed) := TryCommit(env, a.auth, records, fails, e);
      if committed.Err? then (records', Err(committed.error)) else (records', AfterCommit(env, a, c, now, e))
  }

  /** Transition, evidence and capability of an admitted candidate. */
  function AfterAdmit(env: Env, a: Settings, s: State.Protected, records: Records, fails: bool, c: CandidateAct,
                      cost: int, now: int)
    : (State.Protected, Records, Result<Capability, Error>)
  {
    var (s', transition) := State.Authorize(env, s, c, cost);
    match transition
    case Err(x) => (s', records, Err(x))
    case Ok(t) =>
      var (records', result) := AfterRecord(env, a, records, fails, c, now, t);
      (s', records', result)
  }

  /** `authorize` run without interruption: the new state and records, and what it returns. */
  function Authorize(env: Env, a: Settings, s: State.Protected, records: Records, fails: bool, c: CandidateAct,
                     cost: int, now: int)
    : (State.Protected, Records, Result<Capability, Error>)
  {
    match Admit(env, a, c, now)
    case Err(x) => (s, records, Err(x))
    case Ok(_) => AfterAdmit(env, a, s, records, fails, c, cost, now)
  }

  class ProtectedAuthority {
    const settings: Settings
    const state: State.ProtectedState
    const evidence_store: EvidenceStore

    constructor (settings: Settings, state: State.ProtectedState, evidence_store: EvidenceStore)
      ensures this.settings == settings && this.state == state && this.evidence_store == evidence_store
    {
      this.settings, this.state, this.evidence_store := settings, state, evidence_store;
    }

    method AuthorizeAct(env: Env, c: CandidateAct, cost: int, now: int) returns (r: Result<Capability, Error>)
      requires state.Valid() && evidence_store.authenticator == settings.auth
      modifies state, state.sources.Values, evidence_store
      ensures state.Valid()
      ensures (state.Contents(), evidence_store.records, r)
              == Authorize(env, settings, old(state.Contents()), old(evidence_store.records),
                           old(evidence_store.fail_commits), c, cost, now)
    {
      hide CandidateDigest, Digest, State.TransitionId, MakeEvidence, MakeCapability, Policy.Reasons, Policy.Admits;
      if Digest(env, c.payload).None? {
        return Err(CanonicalizationError);
      }
      var allowed, reasons := Policy.Validate(settings.policy, c, now);
      Policy.NoReasonIffAdmitted(settings.policy, c, now);
      if !allowed {
        return Err(ValidationDenied(reasons));
      }
      var transition := state.TransitionForAuthorization(env, c, cost);
      if transition.Err? {
        return Err(transition.error);
      }
      var evidence := MakeEvidence(env, settings, c, now, transition.value);
      if evidence.None? {
        return Err(CanonicalizationError);
      }
      var committed := evidence_store.Commit(env, evidence.value);
      if committed.Err? {
        return Err(committed.error);
      }
      var cap := MakeCapability(env, settings, c, now, evidence.value);
      if cap.None? {
        return Err(CanonicalizationError);
      }
      r := Ok(cap.value);
    }
  }
}
