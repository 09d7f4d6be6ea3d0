/** The admission predicate (src/finality_ref/policy.py). */
module Policy {
  import opened Wrappers
  import opened Unicode
  import opened Models

  datatype Rules = Rules(
    policy_epoch: int, allowed_purposes: set<Text>, allowed_jurisdictions: set<Text>, allowed_sinks: set<Text>,
    allowed_boundaries: set<Text>, allowed_effect_classes: set<Text>, allowed_scopes: set<Text>,
    revoked_sources: set<Text>, required_runtime_evidence_digest: Option<Text>, max_future_skew_ns: int)

  predicate Distinct(ts: seq<Text>) { forall i, j :: 0 <= i < j < |ts| ==> ts[i] != ts[j] }

  function Members(ts: seq<Text>): set<Text> { set i | 0 <= i < |ts| :: ts[i] }

  /** What it takes to be admitted at time `now`. */
  predicate Admits(p: Rules, c: CandidateAct, now: int) {
    && c.status == NON_EFFECTIVE && c.policy_epoch == p.policy_epoch
    && c.purpose in p.allowed_purposes && c.jurisdiction in p.allowed_jurisdictions
    && c.sink_id in p.allowed_sinks && c.boundary_id in p.allowed_boundaries
    && c.effect_class in p.allowed_effect_classes
    && c.scope != [] && Distinct(c.scope) && (forall i :: 0 <= i < |c.scope| ==> c.scope[i] in p.allowed_scopes)
    && c.source !in p.revoked_sources
    && c.freshness_ns > 0
    && c.issued_at_ns - p.max_future_skew_ns <= now <= c.issued_at_ns + c.freshness_ns
    && (p.required_runtime_evidence_digest.Some? ==>
          c.runtime_evidence_digest == p.required_runtime_evidence_digest.value)
  }

  function When(violated: bool, reason: Reason): seq<Reason> { if violated then [reason] else [] }

  function BindingReasons(p: Rules, c: CandidateAct): seq<Reason> {
    When(c.status != NON_EFFECTIVE, CandidateNotNonEffective)
    + When(c.policy_epoch != p.policy_epoch, PolicyEpochMismatch)
    + When(c.purpose !in p.allowed_purposes, PurposeNotAllowed)
    + When(c.jurisdiction !in p.allowed_jurisdictions, JurisdictionNotAllowed)
  }

  function PlaceReasons(p: Rules, c: CandidateAct): seq<Reason> {
    When(c.sink_id !in p.allowed_sinks, SinkNotAllowed)
    + When(c.boundary_id !in p.allowed_boundaries, BoundaryNotAllowed)
    + When(c.effect_class !in p.allowed_effect_classes, EffectClassNotAllowed)
  }

  function ScopeReasons(p: Rules, c: CandidateAct): seq<Reason> {
    When(c.scope == [], EmptyScope)
    + When(!(Members(c.scope) <= p.allowed_scopes), ScopeNotAllowed)
    + When(|Members(c.scope)| != |c.scope|, DuplicateScope)
    + When(c.source in p.revoked_sources, SourceRevoked)
  }

  function TimeReasons(p: Rules, c: CandidateAct, now: int): seq<Reason> {
    When(c.freshness_ns <= 0, InvalidFreshness)
    + When(now < c.issued_at_ns - p.max_future_skew_ns, CandidateFromFuture)
    + When(now > c.issued_at_ns + c.freshness_ns, CandidateStale)
    + When(p.required_runtime_evidence_digest.Some?
           && c.runtime_evidence_digest != p.required_runtime_evidence_digest.value,
           RuntimeEvidenceMismatch)
  }

  /** The reasons for refusal, in the order in which they are listed. */
  function Reasons(p: Rules, c: CandidateAct, now: int): seq<Reason> {
    BindingReasons(p, c) + PlaceReasons(p, c) + ScopeReasons(p, c) + TimeReasons(p, c, now)
  }

  lemma {:induction false} MembersSize(ts: seq<Text>)
    ensures |Members(ts)| <= |ts|
    ensures |Members(ts)| == |ts| <==> Distinct(ts)
  {
    if ts != [] {
      var n := |ts| - 1;
      var front := ts[..n];
      MembersSize(front);
      assert Members(ts) == Members(front) + {ts[n]};
      if Distinct(ts) {
        assert ts[n] !in Members(front);
      } else if Distinct(front) {
        var i, j :| 0 <= i < j < |ts| && ts[i] == ts[j];
        assert ts[i] == front[i] && j == n;
      }
    }
  }

  lemma MembersAllowed(ts: seq<Text>, allowed: set<Text>)
    ensures Members(ts) <= allowed <==> forall i :: 0 <= i < |ts| ==> ts[i] in allowed
  {
    if Members(ts) <= allowed {
      forall i | 0 <= i < |ts| ensures ts[i] in allowed {
        assert ts[i] in Members(ts);
      }
    }
  }

  /** No reason is listed exactly for the candidates that the policy admits. */
  lemma NoReasonIffAdmitted(p: Rules, c: CandidateAct, now: int)
    ensures Reasons(p, c, now) == [] <==> Admits(p, c, now)
  {
    MembersSize(c.scope);
    MembersAllowed(c.scope, p.allowed_scopes);
  }

  // ---- Which reasons, and in which order ----

  /** The rule that a reason says is broken. */
  predicate Breaks(p: Rules, c: CandidateAct, now: int, reason: Reason) {
    match reason
    case CandidateNotNonEffective => c.status == EFFECTIVE
    case PolicyEpochMismatch => c.policy_epoch != p.policy_epoch
    case PurposeNotAllowed => c.purpose !in p.allowed_purposes
    case JurisdictionNotAllowed => c.jurisdiction !in p.allowed_jurisdictions
    case SinkNotAllowed => c.sink_id !in p.allowed_sinks
    case BoundaryNotAllowed => c.boundary_id !in p.allowed_boundaries
    case EffectClassNotAllowed => c.effect_class !in p.allowed_effect_classes
    case EmptyScope => |c.scope| == 0
    case ScopeNotAllowed => exists t :: t in c.scope && t !in p.allowed_scopes
    case DuplicateScope => exists i, j :: 0 <= i < j < |c.scope| && c.scope[i] == c.scope[j]
    case SourceRevoked => c.source in p.revoked_sources
    case InvalidFreshness => c.freshness_ns < 1
    case CandidateFromFuture => now + p.max_future_skew_ns < c.issued_at_ns
    case CandidateStale => c.issued_at_ns + c.freshness_ns < now
    case RuntimeEvidenceMismatch =>
      p.required_runtime_evidence_digest != None
      && p.required_runtime_evidence_digest != Some(c.runtime_evidence_digest)
    case _ => false
  }

  /** The place of a reason in the list. */
  function Place(reason: Reason): nat {
    match reason
    case CandidateNotNonEffective => 0
    case PolicyEpochMismatch => 1
    case PurposeNotAllowed => 2
    case JurisdictionNotAllowed => 3
    case SinkNotAllowed => 4
    case BoundaryNotAllowed => 5
    case EffectClassNotAllowed => 6
    case EmptyScope => 7
    case ScopeNotAllowed => 8
    case DuplicateScope => 9
    case SourceRevoked => 10
    case InvalidFreshness => 11
    case CandidateFromFuture => 12
    case CandidateStale => 13
    case RuntimeEvidenceMismatch => 14
    case _ => 15
  }

  /** The list ascends, between these places. */
  predicate Ascends(rs: seq<Reason>, low: nat, high: nat) {
    && (forall i :: 0 <= i < |rs| ==> low <= Place(rs[i]) < high)
    && (forall i, j :: 0 <= i < j < |rs| ==> Place(rs[i]) < Place(rs[j]))
  }

  lemma AppendAscends(a: seq<Reason>, b: seq<Reason>, low: nat, middle: nat, high: nat)
    requires low <= middle <= high && Ascends(a, low, middle) && Ascends(b, middle, high)
    ensures Ascends(a + b, low, high)
  {
    hide Place;
  }

  lemma OneAscends(p: bool, a: Reason)
    ensures Ascends(When(p, a), Place(a), Place(a) + 1)
    ensures forall x :: x in When(p, a) <==> p && x == a
  {
    hide Place;
  }

  lemma ThreeAscend(p: bool, a: Reason, q: bool, b: Reason, r: bool, c: Reason)
    requires Place(b) == Place(a) + 1 && Place(c) == Place(a) + 2
    ensures var rs := When(p, a) + When(q, b) + When(r, c);
      && Ascends(rs, Place(a), Place(a) + 3)
      && forall x :: x in rs <==> (p && x == a) || (q && x == b) || (r && x == c)
  {
    hide Place, When, Ascends;
    OneAscends(p, a);
    OneAscends(q, b);
    OneAscends(r, c);
    AppendAscends(When(p, a), When(q, b), Place(a), Place(b), Place(c));
    AppendAscends(When(p, a) + When(q, b), When(r, c), Place(a), Place(c), Place(c) + 1);
  }

  lemma FourAscend(p: bool, a: Reason, q: bool, b: Reason, r: bool, c: Reason, s: bool, d: Reason)
    requires Place(b) == Place(a) + 1 && Place(c) == Place(a) + 2 && Place(d) == Place(a) + 3
    ensures var rs := When(p, a) + When(q, b) + When(r, c) + When(s, d);
      && Ascends(rs, Place(a), Place(a) + 4)
      && forall x :: x in rs <==> (p && x == a) || (q && x == b) || (r && x == c) || (s && x == d)
  {
    hide Place, When, Ascends;
    ThreeAscend(p, a, q, b, r, c);
    OneAscends(s, d);
    AppendAscends(When(p, a) + When(q, b) + When(r, c), When(s, d), Place(a), Place(d), Place(d) + 1);
  }

  lemma BindingsAscend(p: Rules, c: CandidateAct)
    ensures Ascends(BindingReasons(p, c), 0, 4)
    ensures forall r :: r in BindingReasons(p, c) <==> Place(r) < 4 && Breaks(p, c, 0, r)
  {
    hide When, Ascends;
    FourAscend(c.status != NON_EFFECTIVE, CandidateNotNonEffective,
               c.policy_epoch != p.policy_epoch, PolicyEpochMismatch,
               c.purpose !in p.allowed_purposes, PurposeNotAllowed,
               c.jurisdiction !in p.allowed_jurisdictions, JurisdictionNotAllowed);
  }

  lemma PlacesAscend(p: Rules, c: CandidateAct)
    ensures Ascends(PlaceReasons(p, c), 4, 7)
    ensures forall r :: r in PlaceReasons(p, c) <==> 4 <= Place(r) < 7 && Breaks(p, c, 0, r)
  {
    hide When, Ascends;
    ThreeAscend(c.sink_id !in p.allowed_sinks, SinkNotAllowed,
                c.boundary_id !in p.allowed_boundaries, BoundaryNotAllowed,
                c.effect_class !in p.allowed_effect_classes, EffectClassNotAllowed);
  }

  lemma ScopesAscend(p: Rules, c: CandidateAct)
    ensures Ascends(ScopeReasons(p, c), 7, 11)
    ensures forall r :: r in ScopeReasons(p, c) <==> 7 <= Place(r) < 11 && Breaks(p, c, 0, r)
  {
    hide When, Ascends;
    MembersSize(c.scope);
    MembersAllowed(c.scope, p.allowed_scopes);
    FourAscend(c.scope == [], EmptyScope, !(Members(c.scope) <= p.allowed_scopes), ScopeNotAllowed,
               |Members(c.scope)| != |c.scope|, DuplicateScope, c.source in p.revoked_sources, SourceRevoked);
  }

  lemma TimesAscend(p: Rules, c: CandidateAct, now: int)
    ensures Ascends(TimeReasons(p, c, now), 11, 15)
    ensures forall r :: r in TimeReasons(p, c, now) <==> 11 <= Place(r) < 15 && Breaks(p, c, now, r)
  {
    hide When, Ascends;
    var required := p.required_runtime_evidence_digest;
    FourAscend(c.freshness_ns <= 0, InvalidFreshness, now < c.issued_at_ns - p.max_future_skew_ns, CandidateFromFuture,
               now > c.issued_at_ns + c.freshness_ns, CandidateStale,
               required.Some? && c.runtime_evidence_digest != required.value, RuntimeEvidenceMismatch);
  }

  /** A reason is listed exactly if its rule is broken, once, and in the order of the rules. */
  lemma ReasonsExact(p: Rules, c: CandidateAct, now: int)
    ensures forall r :: r in Reasons(p, c, now) <==> Breaks(p, c, now, r)
    ensures forall i, j :: 0 <= i < j < |Reasons(p, c, now)| ==>
      Place(Reasons(p, c, now)[i]) < Place(Reasons(p, c, now)[j])
  {
    BindingsAscend(p, c);
    PlacesAscend(p, c);
    ScopesAscend(p, c);
    TimesAscend(p, c, now);
    hide BindingReasons, PlaceReasons, ScopeReasons, TimeReasons;
    var front := BindingReasons(p, c) + PlaceReasons(p, c);
    var middle := front + ScopeReasons(p, c);
    AppendAscends(BindingReasons(p, c), PlaceReasons(p, c), 0, 4, 7);
    AppendAscends(front, ScopeReasons(p, c), 0, 7, 11);
    AppendAscends(middle, TimeReasons(p, c, now), 0, 11, 15);
  }

  method AddIf(reasons: seq<Reason>, violated: bool, reason: Reason) returns (r: seq<Reason>)
    ensures r == reasons + When(violated, reason)
    ensures reasons == [] ==> r == When(violated, reason)
  {
    r := reasons;
    if violated {
      r := r + [reason];
    }
  }

  method CheckBindings(p: Rules, c: CandidateAct) returns (reasons: seq<Reason>)
    ensures reasons == BindingReasons(p, c)
  {
    reasons := AddIf([], c.status != NON_EFFECTIVE, CandidateNotNonEffective);
    reasons := AddIf(reasons, c.policy_epoch != p.policy_epoch, PolicyEpochMismatch);
    reasons := AddIf(reasons, c.purpose !in p.allowed_purposes, PurposeNotAllowed);
    reasons := AddIf(reasons, c.jurisdiction !in p.allowed_jurisdictions, JurisdictionNotAllowed);
  }

  method CheckPlace(p: Rules, c: CandidateAct) returns (reasons: seq<Reason>)
    ensures reasons == PlaceReasons(p, c)
  {
    reasons := AddIf([], c.sink_id !in p.allowed_sinks, SinkNotAllowed);
    reasons := AddIf(reasons, c.boundary_id !in p.allowed_boundaries, BoundaryNotAllowed);
    reasons := AddIf(reasons, c.effect_class !in p.allowed_effect_classes, EffectClassNotAllowed);
  }

  method CheckScope(p: Rules, c: CandidateAct) returns (reasons: seq<Reason>)
    ensures reasons == ScopeReasons(p, c)
  {
    reasons := AddIf([], c.scope == [], EmptyScope);
    reasons := AddIf(reasons, !(Members(c.scope) <= p.allowed_scopes), ScopeNotAllowed);
    reasons := AddIf(reasons, |Members(c.scope)| != |c.scope|, DuplicateScope);
    reasons := AddIf(reasons, c.source in p.revoked_sources, SourceRevoked);
  }

  method CheckTime(p: Rules, c: CandidateAct, now: int) returns (reasons: seq<Reason>)
    ensures reasons == TimeReasons(p, c, now)
  {
    reasons := AddIf([], c.freshness_ns <= 0, InvalidFreshness);
    reasons := AddIf(reasons, now < c.issued_at_ns - p.max_future_skew_ns, CandidateFromFuture);
    reasons := AddIf(reasons, now > c.issued_at_ns + c.freshness_ns, CandidateStale);
    var required := p.required_runtime_evidence_digest;
    reasons := AddIf(reasons, required.Some? && c.runtime_evidence_digest != required.value, RuntimeEvidenceMismatch);
  }

  /** `Policy.validate`. */
  method Validate(p: Rules, c: CandidateAct, now: int) returns (allowed: bool, reasons: seq<Reason>)
    ensures allowed == Admits(p, c, now)
    ensures reasons == Reasons(p, c, now)
  {
    var bindings := CheckBindings(p, c);
    var places := CheckPlace(p, c);
    var scope := CheckScope(p, c);
    var times := CheckTime(p, c, now);
    reasons := bindings + places + scope + times;
    NoReasonIffAdmitted(p, c, now);
    allowed := reasons == [];
  }
}
