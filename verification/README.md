# Formal model of the execution-finality reference

The repository implements an authority that issues single-use capabilities for acts, sinks that check
and consume them before an effect, and three implementations of the canonical encoding whose digests
tie the two together. This project models both in Dafny and proves what the repository claims of them.

## What is modelled

**The canonical encoder.** `Canonical` is the Python form (normalize to a tree, then dump), `GoCanonical`
the Go form (one buffer, one pass), `NodeCanonical` the Node form (normalize, sort, enumerate, re-sort,
encode UTF-16). `Parsing` is a parser that exists only to show that canonical bytes determine what was
encoded, and that strings are written in their shortest spelling; `Laws` and `Equivalence` say exactly
which values are refused and which share their bytes; `ThreeWay` and `NodeAgreement` compare the three, and
`Surrogates` Python and Node on texts that Go cannot hold. `Unicode`, `Sorting` and `Values` carry what they
share.

**The records.** `Models` has the dataclasses with their unsigned forms and digests; `Documents` says name by
name what each hashed or signed form contains; `Binding` shows that equal bytes, hence equal signatures and
digests, mean equal records, and that no other signed document has the bytes of a capability or of a
presentation proof.

**The code.** `Policy`, `State`, `Stores`, `Authority` and `Sink` hold the classes, whose methods update
their fields as the source does and are proved against specification functions. `Outcomes` states
outright what each operation does, and what it leaves behind when it fails; `Refusals` says for which requests
a sink gives which reason.

**The protocol.** `Machine` is a step machine over those functions: any number of calls of `authorize`
and `effectuate`, interleaved at the points where the source takes a lock, with configuration, presenter
proofs, injected failures and crashes in between. A crash kills any set of threads and takes any claim
stores, effect records, protected state and evidence that the configuration does not call durable; with
everything durable there is no crash but the death of threads. `Solo` shows that a call without
interference does what the sequential code does, `Faults` what crashes and injected failures do. `Trace` and
`AtMostOnce` are the inductive invariants; `Guarantees`, `Race`, `EffectRecords`, `Stability`, `Undone`,
`Verdicts`, `Ledger`, `Completeness`, `Backing` and `EndToEnd` draw the conclusions. `Transactions` is the
SQLite claim as a step machine of its own, `SharedClaims` shows that its runs are claim steps of the machine,
and `SplitClaims` puts its steps into the machine, between the steps of all other threads.

**The portable verifiers.** `Bundles` has the Go and the Node verifier of a whole case, `Objections` what they
object to, and `BundleVerdicts` and `PortableAcceptance` what their verdicts have to do with each other and
with the sink's.

## What is taken as given

- NFC, SHA-256 and HMAC are parameters (`Models.Env`). `Values.NfcLaws` lists the facts about NFC that are
  used, and one NFC function stands for all three runtimes: docs/CANONICALIZATION_PROFILE.md records
  three Unicode versions, and what the comparisons say holds where their tables agree. `Models.EnvLaws` says
  that digests and signatures are lower-case hexadecimal and that no two byte strings that the run hashes
  collide. There are no axioms, and `Binding.LawsAreConsistent` shows that all of this can hold at once.
- A step may run only if what it hashes is among what the run hashes, and if every signature it finds valid
  was made by a holder of the key (`Machine.Ideal`). Who signs with which key is recorded in the log, and
  that only an issue signs a capability is proved, not assumed: evidence, receipts and presentation proofs
  under the same key are shown to have other bytes.
- The sink does not recompute the capability id from its contents; at-most-once rests on the claim table and
  on the signature.
- Digests see NFC forms while the state and the sink compare raw strings. "The same act" is therefore
  canonical equivalence in every field, and stability and completeness ask for nonces in normal form;
  `Stability.UndoneIffSameTransition` and `Undone.StepUndoes` say exactly when a verdict is undone otherwise,
  and `Stability.AliasUndoesVerdict` gives a run that undoes one.
- One effect per authorization across sinks needs sinks that share a claim store or differ in sink id or
  boundary id (`Guarantees.Separated`).
- `configure_source` restarts a source at version 0, so the ledger is since the last configuration.
- docs/IMPLEMENTATION_DETAILS.md (line 86) calls the verification of whole cases complete. The portable verifiers
  have no stores and no clock, and do not compare everything that they are shown, such as the evidence id of
  the capability with that of the evidence: what they leave to a sink, and a sink to them, is exactly
  `PortableAcceptance.SinkAsks` and `PortableAcceptance.VerifiersAsk`.
- docs/CANONICALIZATION_PROFILE.md says that floats are rejected and that the canonicalizers take typed values.
  Node cannot tell the float `1.0` from the integer 1 and accepts it: the exact condition for agreement is
  in `NodeAgreement.ThreeWayAgreement`, and that for the portable verifiers in
  `BundleVerdicts.PortableVerifiersAgree`. Go writes number literals verbatim, so typed integers are given to
  it as canonical decimals; `ThreeWay.GoEchoesLiterals` says which literals that leaves out.

## How values are represented

- A Python dataclass is a record of named fields; `asdict` and the dictionary built from it have the same
  entries. Fields have the declared types; payload and authority context are arbitrary values.
- The strings with which failures are reported are the constructors of `Models.Reason` and `Models.Error`,
  one to one for reasons; an exception while a value is canonicalized is `CanonicalizationError`, and that of
  comparing a signature that is not ASCII is `TypeError`.
- A map that Go visits in random order is a list of entries in the order of that visit.
- JavaScript numbers are doubles: an integer or something else; conversions and sums of integers are rounded
  by a function that is exact up to 2^53 and monotone, as IEEE 754 rounding is.
- Time is an argument of each call.

## Model

| member | source | states |
|---|---|---|
| `Unicode.CodePointOrderIsUtf8Order` | go/internal/canonical/canonical.go:130-133 | For all texts, code-point lexical order is the lexical order of the UTF-8 bytes (RFC 3629, sections 1 and 3), and on both sides it is this one: at the first difference a text that ends there comes first, otherwise the one with the smaller element. |
| `Unicode.LexLessExact` | src/finality_ref/canonical.py:52 | The order of keys: one text is before another if and only if, for some common prefix, it ends there and the other does not, or both go on and its next element is smaller. |
| `Unicode.DecodeUtf8Exact` | go/internal/canonical/canonical.go:45-47 | The UTF-8 decoder accepts exactly the encodings of scalar sequences and inverts the encoder. |
| `Unicode.DecodeUtf16Exact` | node/canonical.mjs:5-17 | The UTF-16 decoder accepts exactly the encodings of scalar sequences and inverts the encoder (RFC 2781, section 2). |
| `Canonical.NormalizeValue` | src/finality_ref/canonical.py:17-53 | The recursive normalization, dictionary loop included, computes the normal form or raises, as the specification says. |
| `Canonical.NormalizeDict` | src/finality_ref/canonical.py:41-52 | The loop that fills the result dictionary raises on a bad key, a normalized collision or a bad value, and otherwise yields the fields sorted by key. |
| `Laws.DictExact` | src/finality_ref/canonical.py:41-52 | A dictionary's normal form lists exactly the normalized entries, each key before the next in the order of code points, a key before every longer one that it begins. |
| `Laws.RefusedExact` | src/finality_ref/canonical.py:17-53 | In either profile a value is refused if and only if somewhere in it there is a float, an object of another type, a key that is no string, an unpaired surrogate, or an object with two keys of one normal form; in the portable profile also `bytes` or an integer beyond 2^53 - 1. |
| `Laws.BytesForm` | src/finality_ref/canonical.py:35-38 | The canonical bytes of `bytes` are an object with the one field `$bytes_hex`, holding the digits that `Parsing.HexExact` describes. |
| `Parsing.HexExact` | src/finality_ref/canonical.py:38 | There are two hexadecimal digits for each byte, the high one first. |
| `Parsing.EscapesShortest` | src/finality_ref/canonical.py:56-63 | A string is written in its shortest JSON spelling: every text that a JSON reader (RFC 8259, section 7) takes for the string is longer, or is the canonical one. |
| `Parsing.ParseInvertsPrint` | src/finality_ref/canonical.py:56-63 | A parser recovers every printable normal form from its canonical bytes, at every nesting, with escapes and integers. |
| `Parsing.PrintInjective` | src/finality_ref/canonical.py:56-63 | Different normal forms have different canonical bytes. |
| `Laws.NormalizeIsNormal` | src/finality_ref/canonical.py:17-53 | What normalization returns is printable, fixed under NFC, and within the safe range in the portable profile. |
| `Laws.NormalizeIdempotent` | src/finality_ref/canonical.py:17-53 | Normalizing what normalization returned changes nothing, in either profile. |
| `Laws.KeyOrderIrrelevant` | src/finality_ref/canonical.py:17-53 | Verdict and result ignore the insertion order of keys, at every depth, inside lists, tuples and dataclasses too. |
| `Binding.DigestsIgnoreKeyOrder` | src/finality_ref/models.py:44-45 | Neither the digest of a candidate nor that of its descriptor, nor whether there is one, depends on the order in which payload and context list their keys, at any depth. |
| `Laws.PortableBytesAgree` | src/finality_ref/canonical.py:66-82 | Whenever the portable profile accepts a value, both profiles give the same bytes. |
| `Equivalence.BytesDetermineValue` | src/finality_ref/canonical.py:17-73 | Two accepted values have equal canonical bytes exactly when they are equivalent: leafwise NFC, key permutation, list against tuple, dataclass against dictionary, bytes against the tagged object. |
| `Equivalence.Kernel` | src/finality_ref/canonical.py:17-53 | The same for normal forms: equality is equivalence of the inputs. |
| `GoCanonical.AppendJSONString` | go/internal/canonical/canonical.go:44-76 | Appends the quoted NFC form of a valid UTF-8 string, rune by rune with its own switch, and fails on any other. |
| `GoCanonical.AppendCanonical` | go/internal/canonical/canonical.go:88-152 | The single-pass encoder appends what the specification says, and fails exactly where it says. |
| `GoCanonical.CollectKeys` | go/internal/canonical/canonical.go:117-129 | The collecting loop fails exactly on an invalid key or a normalized collision. |
| `GoCanonical.SortKeys` | go/internal/canonical/canonical.go:133 | Sorting the key strings puts the members in the order of the specification. |
| `GoCanonical.Canonical` | go/internal/canonical/canonical.go:80-86 | The buffer's bytes are the encoding, or there is an error where there is none. |
| `GoCanonical.VisitOrderIrrelevant` | go/internal/canonical/canonical.go:119-129 | The random order in which a map is visited does not show in the result. |
| `NodeCanonical.IsUnicodeScalarString` | node/canonical.mjs:5-17 | The skipping scan accepts a code-unit sequence exactly when it is the UTF-16 encoding of some scalar sequence. |
| `NodeCanonical.UnitsOrder` | node/canonical.mjs:19-21 | The byte comparison orders strings by code points. |
| `NodeCanonical.NormalizeCanonical` | node/canonical.mjs:23-47 | The normalizer computes the specified value or throws, property enumeration order included. |
| `ThreeWay.GoAgrees` | docs/CANONICALIZATION_PROFILE.md:5 | On every typed portable value Go writes Python's portable bytes, and fails exactly where Python raises. |
| `ThreeWay.GoEchoesLiterals` | go/internal/canonical/canonical.go:98-102 | Go writes number literals verbatim: for every JSON integer literal its bytes are those of the integer if and only if the literal is not `-0`. |
| `NodeAgreement.NodeIntegerizes` | node/canonical.mjs:23-66 | On every typed portable value Node writes the portable bytes of the value with all safe integral floats read as integers, and throws exactly where Python raises on that. |
| `NodeAgreement.RejectedIffDefective` | src/finality_ref/canonical.py:17-53 | The portable profile rejects a typed value if and only if somewhere in it there is a float, an unsafe integer, or an object with two keys of one normal form. |
| `NodeAgreement.ThreeWayAgreement` | docs/CANONICALIZATION_PROFILE.md:12-30 | Go always agrees with Python. Node agrees if and only if no float is a safe integer, or the value would be rejected even with such floats read as integers: for another float, an unsafe integer, or colliding keys. |
| `Surrogates.TwoWayAgreement` | node/canonical.mjs:5-17 | On typed values whose texts may have unpaired surrogates, which Python and Node can both hold: Node agrees with Python if and only if some text has one, no float is a safe integer, or the value has a defect even with such floats read as integers. |
| `NodeAgreement.IntegralFloatDisagrees` | node/canonical.mjs:25-27 | The smallest disagreement: the float 1.0. |
| `NodeAgreement.EnumerationDefeatsFirstSort` | node/canonical.mjs:41-44 | Enumeration puts array-index names first whatever the first sort did, so the second sort in the encoder is needed. |
| `Binding.CandidateBytesBind` | src/finality_ref/models.py:20-45 | Candidates with equal canonical bytes agree in all 18 fields, nested payload and context included, up to canonical equivalence. |
| `Binding.CapabilityBytesBind` | src/finality_ref/models.py:133-149 | A signature on one capability is a signature on another only if they agree in every field up to NFC. |
| `Binding.CapabilityCoreBinds` | src/finality_ref/authority.py:81-97 | Capabilities with the same id core grant the same thing. |
| `Binding.TransitionCoreBinds` | src/finality_ref/state.py:62-74 | Transitions with the same id core agree in all ten hashed fields up to NFC, the candidate's digest included. |
| `Binding.EvidenceCoreBinds` | src/finality_ref/authority.py:51-62 | Evidence with the same id core agrees in all nine hashed fields up to NFC. |
| `Binding.ProofBytesBind` | src/finality_ref/pop.py:20-29 | A signature on one presentation proof is a signature on another only if they agree in every field up to NFC. |
| `Binding.EvidenceIsNoCapability` | src/finality_ref/models.py:100-149 | No signature on evidence is one on a capability, even under the same key. |
| `Binding.ReceiptIsNoCapability` | src/finality_ref/models.py:133-191 | No signature on a receipt is one on a capability, even under the same key. |
| `Binding.ProofIsNoCapability` | src/finality_ref/pop.py:20-29 | No signature on a presentation proof is one on a capability, even under the same key. |
| `Documents.CandidateDocument` | src/finality_ref/models.py:20-45 | A candidate is hashed as an object of 18 fields, each listed here by name with what it holds. |
| `Documents.DescriptorDocument` | src/finality_ref/models.py:194-218 | A descriptor is hashed as 17 named fields: those of the candidate, the schema, the payload digest, and the sink and boundary it is built for. |
| `Documents.TransitionDocument` | src/finality_ref/state.py:62-73 | A transition id is the hash of these ten named fields. |
| `Documents.EvidenceDocument` | src/finality_ref/authority.py:51-62 | An evidence id is the hash of these nine named fields. |
| `Documents.SignedEvidenceDocument` | src/finality_ref/models.py:100-112 | What is signed as evidence is these ten named fields. |
| `Documents.CapabilityDocument` | src/finality_ref/authority.py:81-95 | A capability id is the hash of these 13 named fields. |
| `Documents.SignedCapabilityDocument` | src/finality_ref/models.py:133-149 | What is signed as a capability is these 14 named fields. |
| `Documents.ReceiptDocument` | src/finality_ref/sink.py:161-173 | A receipt id is the hash of these eleven named fields, among them `effect_status` with the value `EFFECTIVE`. |
| `Documents.SignedReceiptDocument` | src/finality_ref/models.py:177-191 | What is signed as a receipt is these twelve named fields, with the status `EFFECTIVE`. |
| `Documents.ProofDocument` | src/finality_ref/pop.py:20-29 | What a presenter signs is these seven named fields. |
| `Documents.ReferenceDocument` | src/finality_ref/effectors.py:59-63 | An effect reference is the hash of channel, candidate digest and ordinal. |
| `Outcomes.VerifyExact` | src/finality_ref/crypto.py:27-34 | A signature verifies if and only if it is the MAC of the canonical bytes under the key, presented under the name of that key. |
| `Outcomes.VerifyProofExact` | src/finality_ref/pop.py:54-56 | A proof verifies if and only if its presenter is registered, under a verifier of that name, and the signature is that verifier's MAC of the proof. |
| `Policy.NoReasonIffAdmitted` | src/finality_ref/policy.py:21-54 | No reason is listed exactly for the candidates that meet every admission rule and the time window. |
| `Policy.ReasonsExact` | src/finality_ref/policy.py:21-54 | A reason is listed if and only if the rule that it names is broken, once, and in the order of the rules. |
| `Policy.Validate` | src/finality_ref/policy.py:21-54 | Returns the verdict and all reasons, in their order. |
| `State.ProtectedState.ConfigureSource` | src/finality_ref/state.py:40-42 | The source restarts at version 0 with the given quota and budget; nothing else changes. |
| `State.ProtectedState.GetSource` | src/finality_ref/state.py:44-48 | Looking a source up creates it with the defaults. |
| `State.ProtectedState.TransitionForAuthorization` | src/finality_ref/state.py:50-91 | New state and result, errors and their side effects included, are those of the specification on which the ledger and the stability results rest. |
| `Outcomes.TransitionOutcome` | src/finality_ref/state.py:50-91 | Which transition is made, with each number, and what state it leaves; or which error is raised, and that a bad cost and a used nonce change nothing while a missing quota or budget only creates the source. |
| `Outcomes.TransitionGranted` | src/finality_ref/state.py:50-91 | A new nonce, quota and budget enough and a digest of the candidate are all that it takes. |
| `Outcomes.CommitOutcome` | src/finality_ref/evidence.py:17-25 | Evidence is committed if and only if the store works, the signature verifies and the id is new; otherwise the records are unchanged and the error says which of these was not so, in this order. |
| `Outcomes.EffectOutcome` | src/finality_ref/effectors.py:52-66 | A record is appended for the candidate's digest and payload, under the hash of channel, digest and place; an injected failure is spent and nothing else changes. |
| `Stores.InMemoryConsumptionStore.Claim` | src/finality_ref/state.py:122-126 | At most one row per capability id; a second claim reports a replay and changes nothing. |
| `Stores.ConsumedTable.Claim` | src/finality_ref/state.py:153-168 | The begin/insert/commit-or-rollback sequence, run alone, is the in-memory claim. |
| `Stores.EvidenceStore.Commit` | src/finality_ref/evidence.py:17-25 | Appends under a new id, or raises and changes nothing. |
| `Stores.GuardedEffector.Commit` | src/finality_ref/effectors.py:52-66 | Only the holder of the marker has effect; an injected failure is spent; a record is appended with the reference of its place. |
| `Transactions.TransactionsRefineClaims` | src/finality_ref/state.py:153-168 | Interleaved transactions of any number of processes, any of which may die anywhere, leave the table and the results that atomic claims in the order of their ends would. |
| `SharedClaims.TransactionsAreSteps` | src/finality_ref/state.py:142-168 | However the transactions of verified presentations interleave and whichever processes die, the machine can take the claim steps of those that end, in that order, with the same table and results. |
| `SplitClaims.MoveRefines` | src/finality_ref/state.py:153-168 | With the claim split into begin, insert and commit or rollback, and any other steps of any threads, failures and crashes in between, every move is a step of the machine or none, and every open transaction is still over what its store holds. |
| `SplitClaims.SplitReaches` | src/finality_ref/state.py:153-168 | So the machine with split claims is always in a state that the machine reaches, and all that holds of reachable states holds of it, while transactions are open too. |
| `Transactions.OneWinner` | src/finality_ref/state.py:142-168 | If a process has claimed a capability, every other process that finished with it was told of a replay. |
| `Authority.ProtectedAuthority.AuthorizeAct` | src/finality_ref/authority.py:39-112 | Descriptor, policy, transition, evidence, capability, in this order: final state, records and result are those of the specification. |
| `Outcomes.IssueOutcome` | src/finality_ref/authority.py:39-112 | What a successful call has done: admitted the candidate, recorded its transition, committed new signed evidence for it, and issued a capability field by field for it, which ends with the candidate's freshness or the capability's lifetime, whichever is earlier. |
| `Outcomes.RefusalOutcome` | src/finality_ref/authority.py:39-112 | What a failed call leaves: nothing before the transition, with exactly the broken rules as the reasons of a denial; after it the transition stays spent, and evidence stays only if it was committed. |
| `Sink.FinalitySink.VerifyRequest` | src/finality_ref/sink.py:59-134 | The verdict, with the first failing check as its reason. |
| `Refusals.VerifyExact` | src/finality_ref/sink.py:59-134 | Verification succeeds exactly when none of the reasons for refusal holds of the request, evidence and state, and a reason it fails with does hold. |
| `Refusals.VerifyFirst` | src/finality_ref/sink.py:59-134 | The reason given is the first one that holds, in the order in which the source looks, for any request and whatever else is wrong with it. |
| `Sink.FinalitySink.EffectuateRequest` | src/finality_ref/sink.py:136-189 | Verify, claim, effect, receipt, in this order: final claims, effects and result are those of the specification. |
| `Outcomes.EffectuateOutcome` | src/finality_ref/sink.py:136-189 | Nothing happens after an adverse verdict or a replay; otherwise the claim is made, with its row, and stays, the effector is asked once, and a receipt, signed and field by field, tells of the record made. |
| `Sink.ReceiptTells` | src/finality_ref/sink.py:161-189 | A receipt names the request and the record it is for, under the hash of itself, and verifies under the receipt key. |
| `Agreement.AcceptedAgrees` | src/finality_ref/sink.py:59-113 | A request whose capability carries the signature of a grant, and which passes the local checks, is for the granted act, sink, boundary, epoch and window. |
| `Agreement.SameIdSameGrant` | src/finality_ref/authority.py:81-97 | Grants with equal capability ids grant the same thing. |
| `Solo.SoloEffectuate` | src/finality_ref/sink.py:136-189 | A presentation whose steps nobody interleaves with ends as `effectuate` does, so the machine's steps are the code's. |
| `Solo.SoloAuthorize` | src/finality_ref/authority.py:39-112 | An authorization whose steps nobody interleaves with ends as `authorize` does. |
| `Faults.FailingStoreRefuses` | src/finality_ref/evidence.py:17-19 | While the evidence store fails, a call that has spent its transition is refused and commits nothing. |
| `Faults.FailingEffectBurns` | src/finality_ref/sink.py:150-158 | An injected failure is met by the next effect: the claim stays, nothing is recorded, and the effector works again. |
| `Faults.KilledNeverMoves` | src/finality_ref/state.py:142-168 | A call that a crash has killed never goes on, and has a result only if it had one before. |
| `Trace.NextTraced` | src/finality_ref/sink.py:59-158 | Every action of every thread keeps the trace: each event is justified by earlier ones. |
| `AtMostOnce.NextAccounted` | src/finality_ref/sink.py:136-158 | Every action of every thread keeps the accounts of claims, effects and records. |
| `Guarantees.InjectiveAgreement` | src/finality_ref/sink.py:59-158 | In every reachable state each effect has an earlier claim, issue, evidence commit and recorded transition of an admitted candidate that agree with it, and different effects have different issues by different calls. |
| `Guarantees.CrashTolerantAtMostOnce` | src/finality_ref/state.py:153-168 | Two effects through one store that crashes spare used different capability ids, whatever else crashes took. |
| `Guarantees.ExactActBinding` | src/finality_ref/sink.py:103-113 | A request that a sink accepts is for the act that was authorized, in all 18 fields up to canonical equivalence. |
| `Guarantees.TimeBound` | src/finality_ref/sink.py:77-102 | When an effect can happen relative to its authorization; in strict mode also after a fresh proof signed by the presenter that the authorized act names. |
| `Race.RaceOutcome` | src/finality_ref/sink.py:136-158 | Once one thread is done with a verified capability, exactly one thread holds the claim, whose row names its place, nonce and time, and all others that are done got the replay error. |
| `Race.ValidRace` | src/finality_ref/sink.py:136-158 | Threads that present one valid capability, with anything else in between: when all are done exactly one has claimed it and the others got the replay error; if nobody else presented it the one is among them, and it has its effect unless a failure of its effector was due or injected. |
| `Race.ClaimConservation` | src/finality_ref/sink.py:140-158 | Claims in a store are effects, failed commits, threads between claim and commit, and threads lost there. |
| `EffectRecords.RecordsAreEffects` | src/finality_ref/effectors.py:52-66 | The records of an effector are exactly the effects at it: as many, each written by one effect with a complete authorization behind it, for the digest its capability binds and with its payload, under distinct references. |
| `EffectRecords.RecordHasChain` | src/finality_ref/effectors.py:52-66 | Behind each record there is exactly one effect, with its claim, issue, evidence commit and recorded transition. |
| `EffectRecords.EffectHasRecord` | src/finality_ref/effectors.py:52-66 | Each effect is in its effector's list, as the record at the ordinal of its thread. |
| `EffectRecords.RecordsDistinguished` | src/finality_ref/effectors.py:52-66 | Different records go back to different capabilities, issued by different calls. |
| `EffectRecords.NextLinked` | src/finality_ref/sink.py:140-158 | Every action of every thread keeps records and effects linked. |
| `Race.ReceiptsNameRecords` | src/finality_ref/effectors.py:52-66 | Each receipt names a record of its own. |
| `Race.ForgottenClaimRepeats` | src/finality_ref/state.py:113-126 | At-most-once needs the shared, lasting store: a sink of the same identity whose claims do not hold the capability has the effect again. |
| `Stability.UndoneIffSameTransition` | src/finality_ref/state.py:50-105 | The exact condition: an authorization undoes a verified transition if and only if the transition it makes of its source's state agrees with the recorded one in every hashed field up to NFC; the nonces are then different texts with one normal form. |
| `Undone.StepUndoes` | src/finality_ref/state.py:50-105 | In every state of every run, whatever the nonces: a step ends the verification of a transition if and only if it is a crash that takes the protected state, or records a transition that agrees with that one in every hashed field up to NFC. |
| `Stability.FreshId` | src/finality_ref/state.py:50-91 | With normal nonces every authorization gets a transition id that was not there before. |
| `Stability.AliasUndoesVerdict` | src/finality_ref/state.py:40-105 | With an alias of the nonce, a reconfigured source and the same act, the first transition stops verifying. |
| `Verdicts.VerdictStability` | src/finality_ref/state.py:93-105 | A verification that succeeds at a given time succeeds at that time after any further steps, provided nonces are normal and state is not lost. |
| `Verdicts.AtomicVerdict` | src/finality_ref/sink.py:115-134 | A thread that got through the separately locked reads would get through one atomic `verify`, then and later. |
| `Ledger.LedgerChain` | src/finality_ref/state.py:50-91 | Since its last configuration a source's transitions are one contiguous chain; version plus quota and budget plus costs are constant; nothing is overdrawn; authorizations are at most the quota and the budget. |
| `Completeness.IssueCompleteness` | src/finality_ref/authority.py:39-112 | What the policy admits, the source can afford and has canonical bytes is issued, if the evidence store works. |
| `Completeness.TransitionSucceeds` | src/finality_ref/state.py:50-105 | What `transition_for_authorization` has just recorded, `verify_transition` accepts for the same candidate. |
| `Completeness.VerifyCompleteness` | src/finality_ref/sink.py:59-134 | The issued capability verifies at every matching sink, at every time from issue less skew until the candidate's freshness or the lifetime after issue ends. |
| `Completeness.StrictCompleteness` | src/finality_ref/sink.py:82-102 | With a fresh proof by the presenter that the act names and the sink knows, which that presenter can always make, the capability verifies at sinks that demand a proof too. |
| `Backing.AlwaysIssues` | src/finality_ref/authority.py:39-112 | Issue completeness in every state that a run with normal nonces and lasting state reaches. |
| `EndToEnd.AdmittedTakesEffect` | src/finality_ref/sink.py:136-189 | From every state that runs with normal nonces and lasting state lead to: an admitted, affordable candidate can be authorized, presented at a ready sink with a lasting store at any valid time, and takes effect with a receipt. What this call hashes must be among what the run hashes. |
| `EndToEnd.CapabilityIsNew` | src/finality_ref/state.py:113-126 | The capability of a new transition has an id that no lasting store holds a claim for. |
| `Bundles.Without` | go/cmd/finalityverify/main.go:44-60 | The map-building loop copies all fields but one. |
| `Bundles.UnsignedEntries` | go/cmd/finalityverify/main.go:44-60 | What is left without the signature is what was signed, and without the id what was hashed. |
| `Bundles.CheckScopes` | go/cmd/finalityverify/main.go:130-148 | The nested scope loop passes exactly if the scopes are equal and all are supported. |
| `Bundles.GoMain` | go/cmd/finalityverify/main.go:63-153 | The comparisons of `main`, made one after the other in its order, pass exactly on the specified cases, for which see `Objections.GoPassesExact`. |
| `Bundles.SumAgrees` | node/finality_verify.mjs:42 | Node's rounding of `issued + freshness` never changes the expiry comparison of safe integers. |
| `Objections.GoPassesExact` | go/cmd/finalityverify/main.go:88-151 | On every readable typed case, tampered or not, the Go verifier passes if and only if there is none of 25 objections, which cover its messages: they are stated over the records and the authority's own portable hashes, with unbounded integers. |
| `Objections.NodePassesExact` | node/finality_verify.mjs:12-42 | The Node verifier passes if and only if there is no objection to the case with safe integral floats written as integers. |
| `BundleVerdicts.PortableVerifiersAgree` | node/finality_verify.mjs:12-42 | On every readable typed case, tampered or not, Node's verdict is Go's verdict on the case with safe integral floats written as integers; so the two agree if and only if `payload` and `context` have no such float, or Go rejects that case too. |
| `BundleVerdicts.RewrittenPayload` | node/finality_verify.mjs:12-42 | A passing case with payload `1`, rewritten as `1.0`: Node still passes it, Go rejects it. |
| `BundleVerdicts.PortableVerifiersMatchSink` | go/cmd/finalityverify/main.go:88-151 | On honest cases in range, with time, stores and presenter proof satisfied, Go and Node give the verdict of the sink. |
| `PortableAcceptance.PassingAccepted` | go/cmd/finalityverify/main.go:88-151 | Every case that the Go verifier passes, honest or not, is accepted by a sink of its key and context if and only if the sink's further conditions hold, which are listed: time, key names, the candidate's own place and epoch, the stores, and whose transition it is. |
| `PortableAcceptance.AcceptedPasses` | src/finality_ref/sink.py:59-134 | Every case that a sink accepts passes the Go verifier if and only if the verifiers' further conditions hold: the range of the portable profile, the descriptor shown, and the ids of transition, evidence and capability. |

## Left out

- SHA-256, HMAC and Ed25519 internals, hexadecimal printing of digests, and the Unicode tables of NFC: parameters, as described above.
- SQLite itself, WAL and the file system: a table with a unique key, a write lock, begin, insert, commit, rollback and the death of a process.
- `json.loads`, Go's decoder and `JSON.parse`: the encoders take typed values, and the portable verifiers typed cases with all fields present.
- Wall clocks: time is an argument.
- `EvidenceStore.replace_for_adversarial_test`, and effects through a bound handle outside a sink: not steps of the protocol.
- `EvidenceStore.verify_allow`, `snapshot`, `get_transition` and `is_claimed`: reads that the protocol does not use.
- `surface.py`, `profiles.py`, the effector subclasses, benchmark, examples, vector generators and vector runners: easy members, data or input and output.
- A claim that gives up waiting for SQLite's write lock: it raises before any effect; in `Transactions` such a process waits or dies.
- The messages of exceptions, and which exception a failing effect raised before `effectuate` turned it into `EffectDenied`.
- `Sink.FinalitySink.EffectuateRequest`: uses the in-memory store; the transactional one is covered by `Stores.ConsumedTable.Claim`, `Transactions`, `SharedClaims` and `SplitClaims`.
- `Bundles.Bundle`: a case whose records have other fields than the declared ones, whose descriptor has another schema, or whose status or decision is another string than the declared ones, is not represented; the verifiers are compared on all others.
- `State.ProtectedState`, `Stores.EvidenceStore`, `Stores.GuardedEffector`: locks are not fields; the machine's steps are the locked regions, and `fail_commits` is read in the same step as the commit it guards.
- Liveness: that every thread gets to take its steps is not modelled, only what holds when it has.
