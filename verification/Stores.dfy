/** Consumption stores, evidence store and effector: `InMemoryConsumptionStore` and
    `SQLiteConsumptionStore` in src/finality_ref/state.py, evidence.py and effectors.py. */
module Stores {
  import opened Wrappers
  import opened Unicode
  import opened Values
  import opened Models

  // ---- Claims ----

  datatype Claim = Claim(sink_id: Text, boundary_id: Text, nonce: Text, claimed_at_ns: int)

  type Claims = map<Text, Claim>

  /** `claim`: at most one per capability id. */
  function TryClaim(claims: Claims, id: Text, row: Claim): (Claims, Result<(), Error>) {
    if id in claims then (claims, Err(ReplayDetected)) else (claims[id := row], Ok(()))
  }

  class InMemoryConsumptionStore {
    var claims: Claims

    constructor ()
      ensures claims == map[]
    {
      claims := map[];
    }

    method Claim(id: Text, row: Claim) returns (r: Result<(), Error>)
      modifies this
      ensures (claims, r) == TryClaim(old(claims), id, row)
    {
      if id in claims {
        return Err(ReplayDetected);
      }
      claims := claims[id := row];
      r := Ok(());
    }
  }

  /** A database file with the one table `consumed`: what is committed, and what the open write
      transaction would commit. */
  class ConsumedTable {
    var committed: Claims
    var working: Option<Claims>

    constructor ()
      ensures committed == map[] && working == None
    {
      committed, working := map[], None;
    }

    /** `BEGIN IMMEDIATE`. */
    method Begin()
      requires working.None?
      modifies this`working
      ensures working == Some(committed)
    {
      working := Some(committed);
    }

    /** `INSERT`, which violates the primary key when the id is there already. */
    method Insert(id: Text, row: Claim) returns (violation: bool)
      requires working.Some?
      modifies this`working
      ensures violation <==> id in old(working).value
      ensures working == if violation then old(working) else Some(old(working).value[id := row])
    {
      violation := id in working.value;
      if !violation {
        working := Some(working.value[id := row]);
      }
    }

    method Commit()
      requires working.Some?
      modifies this
      ensures committed == old(working).value && working == None
    {
      committed, working := working.value, None;
    }

    method Rollback()
      requires working.Some?
      modifies this`working
      ensures working == None
    {
      working := None;
    }

    /** `SQLiteConsumptionStore.claim`: the transaction refines the in-memory claim. */
    method Claim(id: Text, row: Claim) returns (r: Result<(), Error>)
      requires working.None?
      modifies this
      ensures working.None? && (committed, r) == TryClaim(old(committed), id, row)
    {
      Begin();
      var violation := Insert(id, row);
      if violation {
        Rollback();
        return Err(ReplayDetected);
      }
      Commit();
      r := Ok(());
    }
  }

  // ---- Evidence ----

  type Records = map<Text, ValidationEvidence>

  /** `commit`, where `fails` is the injected failure. */
  function TryCommit(env: Env, auth: Authenticator, records: Records, fails: bool, e: ValidationEvidence)
    : (Records, Result<(), Error>)
  {
    if fails then (records, Err(EvidenceCommitFailure))
    else
      match auth.Verify(env, EvidenceUnsigned(e), e.signature, e.key_id)
      case Err(x) => (records, Err(x))
      case Ok(false) => (records, Err(EvidenceSignatureInvalid))
      case Ok(true) =>
        if e.evidence_id in records then (records, Err(DuplicateEvidence))
        else (records[e.evidence_id := e], Ok(()))
  }

  class EvidenceStore {
    const authenticator: Authenticator
    var records: Records
    var fail_commits: bool

    constructor (authenticator: Authenticator)
      ensures this.authenticator == authenticator && records == map[] && !fail_commits
    {
      this.authenticator := authenticator;
      records, fail_commits := map[], false;
    }

    method Commit(env: Env, e: ValidationEvidence) returns (r: Result<(), Error>)
      modifies this`records
      ensures (records, r) == TryCommit(env, authenticator, old(records), fail_commits, e)
    {
      if fail_commits {
        return Err(EvidenceCommitFailure);
      }
      var verdict := authenticator.Verify(env, EvidenceUnsigned(e), e.signature, e.key_id);
      if verdict.Err? {
        return Err(verdict.error);
      }
      if !verdict.value {
        return Err(EvidenceSignatureInvalid);
      }
      if e.evidence_id in records {
        return Err(DuplicateEvidence);
      }
      records := records[e.evidence_id := e];
      r := Ok(());
    }

    method Lookup(id: Text) returns (r: Option<ValidationEvidence>)
      ensures r == if id in records then Some(records[id]) else None
    {
      r := if id in records then Some(records[id]) else None;
    }
  }

  // ---- Effects ----

  datatype EffectRecord = EffectRecord(channel: Text, candidate_digest: Text, effect_reference: Text, payload: Value)

  datatype Effects = Effects(channel: Text, records: seq<EffectRecord>, fail_next: bool)

  const REFERENCE_FIELDS: seq<string> := ["channel", "candidate_digest", "ordinal"]

  function ReferenceValues(channel: Text, candidateDigest: Text, ordinal: nat): (r: seq<Value>)
    ensures |r| == |REFERENCE_FIELDS|
  {
    [Str(channel), Str(candidateDigest), Int(ordinal)]
  }

  /** What an effect reference is the digest of. */
  function ReferenceCore(channel: Text, candidateDigest: Text, ordinal: nat): Value {
    Dict(FieldsOf(REFERENCE_FIELDS, ReferenceValues(channel, candidateDigest, ordinal)))
  }

  /** `_commit` with the right marker. */
  function TryEffect(env: Env, s: Effects, c: CandidateAct): (Effects, Result<EffectRecord, Error>) {
    if s.fail_next then (s.(fail_next := false), Err(EffectDenied))
    else
      match CandidateDigest(env, c)
      case None => (s, Err(CanonicalizationError))
      case Some(d) =>
        match Digest(env, ReferenceCore(s.channel, d, |s.records|))
        case None => (s, Err(CanonicalizationError))
        case Some(ref) =>
          var rec := EffectRecord(s.channel, d, ref, c.payload);
          (s.(records := s.records + [rec]), Ok(rec))
  }

  class Marker {
    constructor () {}
  }

  class GuardedEffector {
    const channel: Text
    const marker: Marker
    var records: seq<EffectRecord>
    var fail_next: bool

    ghost function Contents(): Effects
      reads this
    {
      Effects(channel, records, fail_next)
    }

    constructor (channel: Text)
      ensures Contents() == Effects(channel, [], false) && fresh(marker)
    {
      this.channel := channel;
      marker := new Marker();
      records, fail_next := [], false;
    }

    /** `_commit`, which only the holder of the marker can make take effect. */
    method Commit(env: Env, c: CandidateAct, presented: Marker) returns (r: Result<EffectRecord, Error>)
      modifies this
      ensures presented == marker ==> (Contents(), r) == TryEffect(env, old(Contents()), c)
      ensures presented != marker ==> r == Err(EffectDenied) && Contents() == old(Contents())
    {
      if presented != marker {
        return Err(EffectDenied);
      }
      if fail_next {
        fail_next := false;
        return Err(EffectDenied);
      }
      var d := CandidateDigest(env, c);
      if d.None? {
        return Err(CanonicalizationError);
      }
      var ref := Digest(env, ReferenceCore(channel, d.value, |records|));
      if ref.None? {
        return Err(CanonicalizationError);
      }
      var rec := EffectRecord(channel, d.value, ref.value, c.payload);
      records := records + [rec];
      r := Ok(rec);
    }
  }
}
