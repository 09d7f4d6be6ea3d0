/** What the hashed and the signed documents contain, name by name. */
module Documents {
  import opened Wrappers
  import opened Sorting
  import opened Unicode
  import opened Values
  import opened Models
  import opened Stores

  /** The entry `name: v`. */
  function F(name: string, v: Value): Pair<Key, Value> { Pair(StrKey(Lit(name)), v) }

  /** What `CandidateAct.digest` hashes. */
  lemma CandidateDocument(c: CandidateAct)
    ensures CandidateValue(c) == Record([
        F("act_id", Str(c.act_id)), F("act_class", Str(c.act_class)), F("effect_class", Str(c.effect_class)),
        F("source", Str(c.source)), F("destination", Str(c.destination)), F("purpose", Str(c.purpose)),
        F("jurisdiction", Str(c.jurisdiction)), F("policy_epoch", Int(c.policy_epoch)),
        F("nonce", Str(c.nonce)), F("issued_at_ns", Int(c.issued_at_ns)),
        F("freshness_ns", Int(c.freshness_ns)), F("sink_id", Str(c.sink_id)),
        F("boundary_id", Str(c.boundary_id)), F("scope", Tuple(Texts(c.scope))), F("payload", c.payload),
        F("runtime_evidence_digest", Str(c.runtime_evidence_digest)),
        F("authority_context", Dict(c.authority_context)),
        F("status", Str(Lit(if c.status == NON_EFFECTIVE then "NON_EFFECTIVE" else "EFFECTIVE")))])
  {
    hide Texts;
  }

  /** What a descriptor is, built for the sink `sink` and the boundary `boundary`. */
  lemma DescriptorDocument(c: CandidateAct, sink: Text, boundary: Text, payloadDigest: Text)
    ensures HCADValue(HCAD(c, sink, boundary, payloadDigest)) == Record([
        F("schema", Str(Lit("finality-hcad/v1"))), F("act_id", Str(c.act_id)),
        F("act_class", Str(c.act_class)), F("effect_class", Str(c.effect_class)), F("source", Str(c.source)),
        F("destination", Str(c.destination)), F("purpose", Str(c.purpose)),
        F("jurisdiction", Str(c.jurisdiction)), F("policy_epoch", Int(c.policy_epoch)),
        F("nonce", Str(c.nonce)), F("issued_at_ns", Int(c.issued_at_ns)),
        F("freshness_ns", Int(c.freshness_ns)), F("sink_id", Str(sink)), F("boundary_id", Str(boundary)),
        F("scope", Tuple(Texts(c.scope))), F("payload_digest", Str(payloadDigest)),
        F("runtime_evidence_digest", Str(c.runtime_evidence_digest))])
  {
    hide Lit, Texts;
  }

  /** What a transition id is the hash of. */
  lemma TransitionDocument(t: StateTransition, d: Text)
    ensures TransitionCore(t, d) == Dict([
        F("nonce", Str(t.nonce)), F("source", Str(t.source)), F("before_version", Int(t.before_version)),
        F("after_version", Int(t.after_version)), F("quota_before", Int(t.quota_before)),
        F("quota_after", Int(t.quota_after)), F("budget_before", Int(t.budget_before)),
        F("budget_after", Int(t.budget_after)), F("policy_epoch", Int(t.policy_epoch)),
        F("candidate_digest", Str(d))])
  {
    hide Lit, Texts;
  }

  /** What an evidence id is the hash of. */
  lemma EvidenceDocument(e: ValidationEvidence)
    ensures EvidenceCore(e) == Dict([
        F("authority_id", Str(e.authority_id)), F("descriptor_digest", Str(e.descriptor_digest)),
        F("candidate_digest", Str(e.candidate_digest)), F("transition_id", Str(e.transition_id)),
        F("policy_epoch", Int(e.policy_epoch)),
        F("decision", Str(Lit(if e.decision == ALLOW then "ALLOW" else "DENY"))),
        F("reasons", List(Texts(e.reasons))), F("committed_at_ns", Int(e.committed_at_ns)),
        F("key_id", Str(e.key_id))])
  {
    hide Texts;
  }

  /** What the authority signs as evidence. */
  lemma SignedEvidenceDocument(e: ValidationEvidence)
    ensures EvidenceUnsigned(e) == Dict([
        F("evidence_id", Str(e.evidence_id)), F("authority_id", Str(e.authority_id)),
        F("descriptor_digest", Str(e.descriptor_digest)), F("candidate_digest", Str(e.candidate_digest)),
        F("transition_id", Str(e.transition_id)), F("policy_epoch", Int(e.policy_epoch)),
        F("decision", Str(Lit(if e.decision == ALLOW then "ALLOW" else "DENY"))),
        F("reasons", List(Texts(e.reasons))), F("committed_at_ns", Int(e.committed_at_ns)),
        F("key_id", Str(e.key_id))])
  {
    hide Texts;
  }

  /** What a capability id is the hash of. */
  lemma CapabilityDocument(c: Capability)
    ensures CapabilityCore(c) == Dict([
        F("authority_id", Str(c.authority_id)), F("candidate_digest", Str(c.candidate_digest)),
        F("descriptor_digest", Str(c.descriptor_digest)), F("sink_id", Str(c.sink_id)),
        F("boundary_id", Str(c.boundary_id)), F("nonce", Str(c.nonce)), F("scope", List(Texts(c.scope))),
        F("policy_epoch", Int(c.policy_epoch)), F("evidence_id", Str(c.evidence_id)),
        F("transition_id", Str(c.transition_id)), F("issued_at_ns", Int(c.issued_at_ns)),
        F("expires_at_ns", Int(c.expires_at_ns)), F("key_id", Str(c.key_id))])
  {
    hide Lit, Texts;
  }

  /** What the authority signs as a capability. */
  lemma SignedCapabilityDocument(c: Capability)
    ensures CapabilityUnsigned(c) == Dict([
        F("capability_id", Str(c.capability_id)), F("authority_id", Str(c.authority_id)),
        F("candidate_digest", Str(c.candidate_digest)), F("descriptor_digest", Str(c.descriptor_digest)),
        F("sink_id", Str(c.sink_id)), F("boundary_id", Str(c.boundary_id)), F("nonce", Str(c.nonce)),
        F("scope", List(Texts(c.scope))), F("policy_epoch", Int(c.policy_epoch)),
        F("evidence_id", Str(c.evidence_id)), F("transition_id", Str(c.transition_id)),
        F("issued_at_ns", Int(c.issued_at_ns)), F("expires_at_ns", Int(c.expires_at_ns)),
        F("key_id", Str(c.key_id))])
  {
    hide Lit, Texts;
  }

  /** What a receipt id is the hash of. */
  lemma ReceiptDocument(r: SinkReceipt)
    ensures ReceiptCore(r) == Dict([
        F("capability_id", Str(r.capability_id)), F("candidate_digest", Str(r.candidate_digest)),
        F("descriptor_digest", Str(r.descriptor_digest)), F("sink_id", Str(r.sink_id)),
        F("boundary_id", Str(r.boundary_id)), F("transition_id", Str(r.transition_id)),
        F("scope", List(Texts(r.scope))), F("effect_status", Str(Lit("EFFECTIVE"))),
        F("committed_at_ns", Int(r.committed_at_ns)), F("effect_reference", Str(r.effect_reference)),
        F("key_id", Str(r.key_id))])
  {
    hide Lit, Texts;
  }

  /** What a sink signs as a receipt: that the effect happened. */
  lemma SignedReceiptDocument(r: SinkReceipt)
    ensures ReceiptUnsigned(r) == Dict([
        F("receipt_id", Str(r.receipt_id)), F("capability_id", Str(r.capability_id)),
        F("candidate_digest", Str(r.candidate_digest)), F("descriptor_digest", Str(r.descriptor_digest)),
        F("sink_id", Str(r.sink_id)), F("boundary_id", Str(r.boundary_id)),
        F("transition_id", Str(r.transition_id)), F("scope", List(Texts(r.scope))),
        F("effect_status", Str(Lit("EFFECTIVE"))), F("committed_at_ns", Int(r.committed_at_ns)),
        F("effect_reference", Str(r.effect_reference)), F("key_id", Str(r.key_id))])
  {
    hide Lit, Texts;
  }

  /** What a presenter signs. */
  lemma ProofDocument(p: PresentationProof)
    ensures ProofUnsigned(p) == Dict([
        F("capability_id", Str(p.capability_id)), F("candidate_digest", Str(p.candidate_digest)),
        F("sink_id", Str(p.sink_id)), F("boundary_id", Str(p.boundary_id)), F("nonce", Str(p.nonce)),
        F("presented_at_ns", Int(p.presented_at_ns)), F("presenter_key_id", Str(p.presenter_key_id))])
  {
    hide Lit, Texts;
  }

  /** What an effect reference is the hash of. */
  lemma ReferenceDocument(channel: Text, digest: Text, ordinal: nat)
    ensures ReferenceCore(channel, digest, ordinal) == Dict([
        F("channel", Str(channel)), F("candidate_digest", Str(digest)), F("ordinal", Int(ordinal))])
  {
    hide Lit, Texts;
  }
}
