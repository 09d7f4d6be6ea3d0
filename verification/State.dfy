/** Protected authority state (`ProtectedState` in src/finality_ref/state.py). */
module State {
  import opened Wrappers
  import opened Unicode
  import opened Values
  import opened Models

  datatype SourceState = SourceState(version: int, quota: int, budget: int)

  /** The contents of a `ProtectedState`. */
  datatype Protected = Protected(
    default_quota: int, default_budget: int,
    sources: map<Text, SourceState>, nonces: map<Text, Text>, transitions: map<Text, StateTransition>)

  function Initial(quota: int, budget: int): Protected { Protected(quota, budget, map[], map[], map[]) }

  /** `_get_source`, without its insertion. */
  function SourceOf(s: Protected, source: Text): SourceState {
    if source in s.sources then s.sources[source] else SourceState(0, s.default_quota, s.default_budget)
  }

  function WithSource(s: Protected, source: Text, x: SourceState): Protected { s.(sources := s.sources[source := x]) }

  function Configure(s: Protected, source: Text, quota: int, budget: int): Protected {
    WithSource(s, source, SourceState(0, quota, budget))
  }

  /** The transition that authorizes `c` from the state `x` of its source, before it has an id. */
  function TransitionFrom(x: SourceState, c: CandidateAct, cost: int): StateTransition {
    StateTransition([], c.nonce, c.source, x.version, x.version + 1, x.quota, x.quota - 1,
                    x.budget, x.budget - cost, c.policy_epoch)
  }

  /** The id of that transition, which needs the digest of the candidate. */
  function TransitionId(env: Env, x: SourceState, c: CandidateAct, cost: int): Option<Text> {
    var d :- CandidateDigest(env, c);
    Digest(env, TransitionCore(TransitionFrom(x, c, cost), d))
  }

  function Recorded(s: Protected, t: StateTransition): Protected {
    s.(sources := s.sources[t.source := SourceState(t.after_version, t.quota_after, t.budget_after)],
       nonces := s.nonces[t.nonce := t.transition_id],
       transitions := s.transitions[t.transition_id := t])
  }

  /** `transition_for_authorization`: the new state, and the transition or the error raised. Looking
      a source up creates it, whatever happens next. */
  function Authorize(env: Env, s: Protected, c: CandidateAct, cost: int): (Protected, Result<StateTransition, Error>) {
    if cost <= 0 then (s, Err(ValueError))
    else if c.nonce in s.nonces then (s, Err(ReplayDetected))
    else
      var x := SourceOf(s, c.source);
      var s' := WithSource(s, c.source, x);
      if x.quota < 1 then (s', Err(ValidationDenied([QuotaExhausted])))
      else if x.budget < cost then (s', Err(ValidationDenied([BudgetExhausted])))
      else
        match TransitionId(env, x, c, cost)
        case None => (s', Err(CanonicalizationError))
        case Some(id) =>
          var t := TransitionFrom(x, c, cost).(transition_id := id);
          (Recorded(s', t), Ok(t))
  }

  /** `verify_transition`. */
  predicate VerifyTransition(s: Protected, id: Text, c: CandidateAct) {
    && id in s.transitions
    && var t := s.transitions[id];
    && t.nonce == c.nonce && t.source == c.source && t.policy_epoch == c.policy_epoch
    && t.after_version == t.before_version + 1 && t.quota_after == t.quota_before - 1
    && t.budget_after < t.budget_before
    && c.nonce in s.nonces && s.nonces[c.nonce] == id
  }

  // ---- The code ----

  class SourceCell {
    var version: int
    var quota: int
    var budget: int

    constructor (version: int, quota: int, budget: int)
      ensures Value() == SourceState(version, quota, budget)
    {
      this.version, this.quota, this.budget := version, quota, budget;
    }

    function Value(): SourceState
      reads this
    {
      SourceState(version, quota, budget)
    }
  }

  class ProtectedState {
    const default_quota: int
    const default_budget: int
    var sources: map<Text, SourceCell>
    var nonces: map<Text, Text>
    var transitions: map<Text, StateTransition>

    /** No two sources share a cell. */
    ghost predicate Valid()
      reads this
    {
      forall k, l :: k in sources && l in sources && sources[k] == sources[l] ==> k == l
    }

    ghost function Contents(): Protected
      reads this, sources.Values
    {
      Protected(default_quota, default_budget, map k | k in sources :: sources[k].Value(), nonces, transitions)
    }

    constructor (default_quota: int, default_budget: int)
      ensures Valid() && sources == map[]
      ensures Contents() == Initial(default_quota, default_budget)
    {
      this.default_quota, this.default_budget := default_quota, default_budget;
      sources, nonces, transitions := map[], map[], map[];
    }

    method ConfigureSource(source: Text, quota: int, budget: int)
      requires Valid()
      modifies this
      ensures Valid() && fresh(sources.Values - old(sources.Values))
      ensures Contents() == Configure(old(Contents()), source, quota, budget)
    {
      ghost var before := Contents().sources;
      var cell := new SourceCell(0, quota, budget);
      sources := sources[source := cell];
      assert Contents().sources == before[source := cell.Value()];
    }

    method GetSource(source: Text) returns (cell: SourceCell)
      requires Valid()
      modifies this
      ensures Valid() && source in sources && sources[source] == cell
      ensures fresh(sources.Values - old(sources.Values))
      ensures cell.Value() == SourceOf(old(Contents()), source)
      ensures Contents() == WithSource(old(Contents()), source, SourceOf(old(Contents()), source))
    {
      if source in sources {
        cell := sources[source];
      } else {
        ghost var before := Contents().sources;
        cell := new SourceCell(0, default_quota, default_budget);
        sources := sources[source := cell];
        assert Contents().sources == before[source := cell.Value()];
      }
    }

    method Advance(state: SourceCell, t: StateTransition)
      requires Valid() && t.source in sources && sources[t.source] == state
      modifies this`nonces, this`transitions, state
      ensures Contents() == Recorded(old(Contents()), t)
    {
      ghost var want := Recorded(Contents(), t).sources;
      state.version, state.quota, state.budget := t.after_version, t.quota_after, t.budget_after;
      nonces := nonces[t.nonce := t.transition_id];
      transitions := transitions[t.transition_id := t];
      forall k | k in sources ensures sources[k].Value() == want[k] {
        assert k != t.source ==> sources[k] != state;
      }
      assert Contents().sources == want;
    }

    method TransitionForAuthorization(env: Env, c: CandidateAct, cost: int) returns (r: Result<StateTransition, Error>)
      requires Valid()
      modifies this, sources.Values
      ensures Valid() && fresh(sources.Values - old(sources.Values))
      ensures (Contents(), r) == Authorize(env, old(Contents()), c, cost)
    {
      if cost <= 0 {
        return Err(ValueError);
      }
      if c.nonce in nonces {
        return Err(ReplayDetected);
      }
      var state := GetSource(c.source);
      if state.quota < 1 {
        return Err(ValidationDenied([QuotaExhausted]));
      }
      if state.budget < cost {
        return Err(ValidationDenied([BudgetExhausted]));
      }
      var before := state.Value();
      var id := TransitionId(env, before, c, cost);
      if id.None? {
        return Err(CanonicalizationError);
      }
      var t := TransitionFrom(before, c, cost).(transition_id := id.value);
      Advance(state, t);
      r := Ok(t);
    }

    method Verify(id: Text, c: CandidateAct) returns (ok: bool)
      ensures ok == VerifyTransition(Contents(), id, c)
    {
      if id !in transitions {
        return false;
      }
      var t := transitions[id];
      ok := t.nonce == c.nonce && t.source == c.source && t.policy_epoch == c.policy_epoch
        && t.after_version == t.before_version + 1 && t.quota_after == t.quota_before - 1
        && t.budget_after < t.budget_before && c.nonce in nonces && nonces[c.nonce] == id;
    }
  }
}
