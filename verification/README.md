# Proof of Generation: a verified model

This project models the Proof of Generation service of Res ex Machina in Dafny and proves what its
users rely on: that a batch root commits to its batch, that the canonical metadata text is a canonical
form, that an anchor binds one signed declaration, that whatever the service accepts and anchors can be
verified from chain data alone, and what the anchoring, quota, spending and payment protocols guarantee
under any interleaving of their steps. Run `dafny verify dfyconfig.toml`.

## How it is built

**Hash functions are arbitrary.** keccak-256 and SHA-256 are any functions from byte strings to 32-byte
words, and signer recovery is any partial function. Nothing assumes that a hash is injective: a
commitment says "equal, or here are two different byte strings, one hashed by each of the two
computations, with one hash". The inputs are the ones those computations hash, so the alternative is a
real collision and not one that merely exists.

**Batches** (`Merkle`, `MerkleAlgorithms`). The bottom-up loops are methods over sequences of level
hashes. They are proved equal to a recursive top-down tree, which the soundness, commitment, completeness
and size results are about.

**Canonical JSON** (`Text`, `Json`, `JsonSpelling`, `CanonicalJson`, `Metadata`). Strings are sequences of UTF-16 code
units with the escapes of `JSON.stringify`; a number is the text the platform prints for it. The printer
follows RFC 8785, section 3.2. An independent parser is proved to invert it,
and its strings to be the shortest that this parser reads so; keys are ordered by their first difference.

**Declarations and verification** (`Eip712`, `TypedData`, `Erc8263`, `Verifier`, `Receipts`, `EndToEnd`). The typed-data
encoding is concrete: eleven fields in 32-byte words, as the "Definition of encodeData" and "Definition of
hashStruct" sections of EIP-712 prescribe; `TypedData` checks it, type text included, against the list of
members. Addresses, hashes and signatures of these declarations are byte
strings; the code that handles them lowercases or compares their hexadecimal text without regard to case,
which is equality of bytes. Version 1 does not do so for the fee transaction, whose hash is modelled as
the text that it is.

**Accepting declarations** (`Submissions`, `Store`, `Accept`, `AcceptRace`, `AcceptOutcomes`,
`AcceptQuota`, `AcceptRacers`, `AcceptCall`). `acceptDeclaration` appears twice: as
the sequential method it is, on a table and a queue that it changes, and as a state machine in which any
number of submissions interleave at every await; a call of the method is proved to be a run of the machine.
SQL statements are atomic steps and enforce the unique constraints of the schema.

**Anchoring** (`AnchorProtocol`, `AnchorSafety`, `AnchorTally`, `AnchorOnce`, `AnchorBound`,
`AnchorBudget`, `AnchorRuns`, `AnchorReleases`, `AnchorTight`, `AnchorWorker`, `Reconciler`). The protocol is a step relation
over the table, the calls of `anchorDeclaration` and the chain, with crashes, expired leases, stale calls, lost replies, a relayer pause and time. A transaction
has a fate that is fixed when it is sent and that a reader may learn late or never. The sequential method
`AnchorDeclaration` is proved to be a run of that machine.

**Budgets** (`RollingBudget`). A rolling window that is checked before and charged after, with several
clients between check and charge. The declaration quotas and the daily limits of the MCP server are both
projected onto it.

**Spending** (`SpendingLedger`, `ConfirmTools`, `SpendRace`, `SpendRacers`). The in-memory ledger and the two-phase tools
as classes, and their confirmations as a state machine.

**Version 1** (`Payments`, `PaymentSafety`, `PaymentRuns`, `PaymentFunds`, `PaymentTrails`,
`PaymentAnswers`, `PaymentService`, `LegacyAnchor`). Payment attempts, records and the older anchoring
without a lease, as state machines; a request and an anchoring call are also methods, proved to be runs of
them.

Times are milliseconds. The clock of the application and the clock of the database are taken to be one
clock that never goes back.

## Where the code and its description differ

- `src/db/schema.ts:279` and the header of `src/v2/anchor.ts` say that a retry never anchors twice. It
  can: `src/v2/anchor.ts:51` turns any error of the lookup of the earlier transaction into another send.
  `AnchorsAreBounded` is the statement that holds in every run. It cannot be improved for any of its three
  kinds of incidents: `EveryFailedLookupCanCostAnAnchor`, `EveryLostHashCanCostAnAnchor` and
  `EveryOverlapCanCostAnAnchor`.
- The header of `src/v2/anchor.ts` says that two workers never anchor the same row at once. A worker that
  outlives its lease can; the updates test only the state of the row. So can, within all leases, a worker
  that gives its claim back and loses the reply: its catch block then fails a row that another worker has
  claimed (`LostReleaseAnchorsTwice`). When neither happens they do not (`OrderlyAnchorsOnce`).
- `anchorDeclaration` ignores the result of `markAnchored`, so a call can answer "anchored" although its row
  is failed (`ReportedAnchoredButFailed`). Its answer is true exactly if the row is still anchoring when the
  mark takes effect, or already said the same (`ReportTrueExactlyIfStillAnchoring`); so it always is when no
  call outlives its lease and no reply to giving a claim back is lost (`OrderlyReportsAreTrue`), and need not
  be when only the leases are kept (`LostReleaseReportsFalsely`).
- The quotas of `src/v2/accept.ts:106-113` are exact for one submission at a time. `QuotaHolds` and
  `RacersAllPass` give the excess under concurrency, which is reached for every quota. It is the same with
  the daily caps of the MCP server, in `DailyCapHolds` and `RacersAllPay`.
- A declaration whose model or runtime name holds a lone surrogate is accepted, and shares its digest with
  the one that has U+FFFD in its place (`LoneSurrogatesShareDigest`). A declaration is the only acceptable
  one with its bytes exactly if its names hold neither (`BytesDetermineExactlyCleanNames`), and the only one
  with well-formed names exactly if its own are (`BytesDetermineExactlyWellFormedNames`).
  `SingleAnchorBinds` therefore speaks of names as their UTF-8 bytes.
- The batch tool enters items by content hash, so a hash given twice shows only its last attempt
  (`ChargedButShownFailed`). Every charge shows, whatever the registry replies, exactly if no hash occurs
  twice among the new items (`ChargesShowExactlyIfDistinct`).
- `checkBatchGuardrails` leaves out the cap on the total cost of one transaction that `checkGuardrails`
  has; `BatchIsIteratedSingle` states the equivalence with that cap added.
- `src/db/schema.ts:90` calls the fee transaction 1:1 with its record. It is so for its text only: the
  schema accepts the hash in either case (`src/routes/schemas/index.ts:8`), nothing lowercases it, and the
  chain does not mind, so one transaction can pay for two records (`SpelledTwicePaysTwice`). Nor does
  anything tie the identifier of an x402 payment to its signature (`src/routes/records.ts:138-143`); whether
  one signature can be settled twice is left to the facilitator (`SignedOncePaysTwice`). The same money pays
  for one record at most exactly if it is accepted under one identifier only
  (`MoneyPaysOnceExactlyIfIdentifiersAreCanonical`), as it would be with lowercased hashes
  (`LowercaseTransactionsPayOnce`).
- `src/routes/records.ts:184-194` marks the payment of a failed creation as failed. A stored and paid record
  can be marked failed with it (`StoredRecordReportedFailed`); `StoredPaymentSettledExactly` says when. A
  payment can also be settled for nothing (`RacerPaysForNothing`); `RecordExactlyIfNothingBlocks` says when a
  payment ends with a record, and `LostPaymentSettledExactly` when one without a record stands as settled.
  An attempt that failed for a passing reason uses its identifier up for good (`FailedPaymentIsUsedUp`),
  and an identifier belongs to whichever request enters it first, whether or not its payment verifies
  (`FirstUseTakesIdentifier`).
- `src/routes/schemas/index.ts:34` lets a nonce have 128 characters and line 71 a content type 127, but
  their columns take 64 (`src/db/schema.ts:45` and `:55`). The insert comes after the payment, so such an
  order pays for nothing (`OversizePaysForNothing`). An order with a payment can end with a record exactly
  if it fits its columns (`CanBeStoredExactlyIfItFits`).
- `src/services/anchor.ts` does not look at the status of the receipt, so a version 1 record can be
  anchored by a reverted transaction (`RevertedCountsAsAnchored`); what it says is true exactly if that
  status was success (`AnchoredIsTrueExactlyIfReceiptSucceeded`). `src/workers/anchor.worker.ts` counts on the
  job of a dead process being queued again, but a record whose claimant died before storing a hash is never
  anchored by any retry (`DeadClaimIsFinal`), and these are exactly the records that no retry can return
  (`RetryReturnsExactlyIfNotOrphaned`).

## Model

| member | source | states |
|---|---|---|
| Merkle.TreeOf | packages/pog/src/merkle.ts:9-18 | the tree of a batch, full on the left, has exactly the digests of the batch as its leaves, in order |
| Merkle.NodePreimageInjective | packages/pog/src/merkle.ts:6-7 | equal node preimages combine the same two children, in some order, for siblings of any length |
| Merkle.TagsDiffer | packages/pog/src/merkle.ts:4-7 | no leaf preimage is a node preimage |
| Merkle.NodePreimageSorted | packages/pog/src/merkle.ts:6-7 | a node hashes the byte 1 and its two children, the one first whose byte is smaller where they first differ |
| Merkle.NodePreimageByValue | packages/pog/src/merkle.ts:6-7 | siblings of any length stand in the order of their numbers, one of equal value before the running hash |
| Merkle.LeafPreimageIsTagged | packages/pog/src/merkle.ts:5-5 | a leaf hashes the byte 0 and the digest |
| Merkle.SiblingsReachRoot | packages/pog/src/merkle.ts:20-41 | for every batch and index, the proof leads from that leaf to the root |
| Merkle.Culprits | packages/pog/src/merkle.ts:37-41 | from any proof of a digest outside the tree, two colliding byte strings hashed by the two runs are computed |
| Merkle.ProofMeansMember | packages/pog/src/merkle.ts:9-41 | a proof of any length that checks against the root of a batch is of a member, or the two runs contain a collision |
| Merkle.SwapsKeepLeaves | packages/pog/src/merkle.ts:6-7 | trees equal up to swapped children hold the same digests with the same multiplicities |
| Merkle.RootCommits | packages/pog/src/merkle.ts:9-18 | equal roots mean batches of equal length and equal multisets of digests, with trees equal up to swaps, or a collision; such trees always have equal roots |
| MerkleAlgorithms.BuildSplits | packages/pog/src/merkle.ts:12-16 | pairing level by level from the bottom splits where the top-down tree splits, with promoted odd nodes |
| MerkleAlgorithms.PathGrows | packages/pog/src/merkle.ts:26-33 | one round of the proof loop adds exactly the sibling that the path of the leaf gains in the level above |
| MerkleAlgorithms.ProofIsShort | packages/pog/src/merkle.ts:20-35 | a proof has at most ceil(log2 n) siblings |
| MerkleAlgorithms.MerkleRoot | packages/pog/src/merkle.ts:9-18 | the loop computes the hash of the tree of the batch; exactly the empty batch is refused |
| MerkleAlgorithms.MerkleProof | packages/pog/src/merkle.ts:20-35 | the loop returns the siblings of the leaf in the tree, short and leading to the root; exactly an index out of range is refused |
| MerkleAlgorithms.VerifyMerkleProof | packages/pog/src/merkle.ts:37-41 | the verdict is whether climbing from the leaf over the siblings ends at the root; only an empty sibling is an error |
| Text.Utf8Injective | packages/pog/src/validate.ts:6-6 | on strings without lone surrogates the UTF-8 encoding loses nothing |
| Text.Utf8Concat | packages/pog/src/content.ts:6-8 | text is encoded from left to right, complete parts by themselves |
| Text.EncodesShortest | packages/pog/src/content.ts:6-8 | of all UTF-8 forms that decode to a code point the encoder takes the shortest |
| Text.PairsCount | packages/pog/src/content.ts:6-8 | surrogate pairs stand for the supplementary code points in their own order |
| Text.DecimalRoundTrip | src/v2/accept.ts:117-117 | the decimal text of a number is digits only and reads back as the number |
| Text.FirstDigitCountsMost | src/v2/accept.ts:117-117 | a numeral is read with its first digit counting most |
| Text.NoLeadingZero | src/v2/accept.ts:117-117 | the decimal text of a number has no leading zero |
| Json.StringRoundTrip | packages/pog/src/content.ts:22-22 | a quoted string reads back as the string, up to its closing quote, whatever follows |
| JsonSpelling.StringifyIsShortest | packages/pog/src/content.ts:22-22 | of all JSON spellings of a string, the text between the quotes is the only shortest one |
| CanonicalJson.BeforeByFirstDifference | packages/pog/src/content.ts:24-24 | the order of keys is that of the first UTF-16 unit in which they differ, a proper prefix first |
| CanonicalJson.KeysInUtf16Order | packages/pog/src/content.ts:24-24 | no key is lost and none added, and of two different keys the earlier one has the smaller unit where they first differ, or is a prefix |
| CanonicalJson.RenderIsPlain | packages/pog/src/content.ts:16-26 | the canonical text of a value is the plain text of the value with members sorted at every depth |
| CanonicalJson.CanonicalTextParses | packages/pog/src/content.ts:12-26 | a parser reads back from the canonical text, with any text after it, the same value with members sorted and exactly the rest |
| CanonicalJson.CanonicalForm | packages/pog/src/content.ts:12-26 | two values have one canonical text exactly when they are equal up to member order at every depth |
| Metadata.MetadataBytesCanonical | packages/pog/src/content.ts:28-32 | the bytes hashed for metadata are equal exactly when the metadata is equal up to member order |
| Metadata.MetadataHashCommits | packages/pog/src/content.ts:28-32 | reordered metadata keeps its hash and absent or empty metadata has the zero hash; equal hashes of anything else come with a SHA-256 collision or a preimage of zero |
| Eip712.ValidateDeclaration | packages/pog/src/validate.ts:13-30 | the list of problems names exactly the broken rules, and is empty exactly for acceptable declarations |
| Eip712.WordsInjective | packages/pog/src/eip712.ts:5-19 | within the field ranges, equal encoded words mean equal fields and equal name hashes |
| TypedData.DeclarationTypeText | packages/pog/src/eip712.ts:5-19 | the type text is encodeType of the list of members, each as type and name |
| TypedData.WordsFollowType | packages/pog/src/eip712.ts:5-24 | the words are the hash of that type text and then encodeData of each member by its type, in the order of the list |
| TypedData.DomainWordsFollowType | packages/pog/src/eip712.ts:21-28 | the domain separator likewise, with the fixed name and version, the chain and the contract |
| TypedData.DigestLayout | packages/pog/src/eip712.ts:26-28 | the digest hashes 0x19 0x01, the hash of the domain words and the hash of the declaration words, in this order |
| Eip712.DigestCommits | packages/pog/src/eip712.ts:21-28 | equal digests mean one chain, one contract and declarations equal as bytes, or a collision between the two computations; and the digest depends on nothing else |
| Eip712.BytesDetermineExactlyCleanNames | packages/pog/src/validate.ts:13-30 | an acceptable declaration shares its bytes with no other acceptable one if and only if neither name holds a lone surrogate or U+FFFD |
| Eip712.BytesDetermineExactlyWellFormedNames | packages/pog/src/validate.ts:13-30 | an acceptable declaration shares its bytes with no other one that has well-formed names if and only if its own names hold no lone surrogate |
| Eip712.LoneSurrogatesShareDigest | packages/pog/src/validate.ts:21-24 | every acceptable declaration with a lone surrogate in a name shares its digest, under every hash function, with another acceptable declaration |
| Eip712.TwinIsRefused | packages/pog/src/eip712.ts:38-45 | of a signature and its twin with the complementary s value at most one is canonical |
| Eip712.Caip10Reads | packages/pog/src/identity.ts:6-13 | an agent id is the hash of the account id, which names the chain in decimal and the address in lowercase hexadecimal, digit by digit |
| Erc8263.AuxRoundTrip | packages/pog/src/bindings/erc8263.ts:27-42 | exactly the encoded payloads decode, each to the signature or the bundle hash it was made of |
| Erc8263.LogRoundTrip | packages/pog/src/bindings/erc8263.ts:57-72 | exactly the logs of AnchorProof events decode, each to its event |
| Verifier.ReadAnchor | packages/pog/src/verify.ts:53-62 | passes exactly an AnchorProof log of the expected contract with a payload of the profile |
| Verifier.CheckDigest | packages/pog/src/verify.ts:67-75 | passes exactly when the anchored hash and signature are those of the declaration, or its proof reaches the anchored root |
| Verifier.CheckAgentId | packages/pog/src/verify.ts:82-94 | passes exactly the account hash of the signer and registry records; a registry lookup only warns |
| Verifier.CheckSigner | packages/pog/src/verify.ts:77-100 | valid exactly when the declared agent signed, under that agent id, and the content given is the declared one |
| Verifier.VerifyDeclaration | packages/pog/src/verify.ts:41-109 | valid exactly when every condition of the profile holds; the checks reported are those of the profile in its order, each telling whether its own condition holds, up to the first that fails; each warning of a valid verdict is given exactly in its case |
| Verifier.VerifiesIsEveryCheck | packages/pog/src/verify.ts:41-109 | on a proper domain, what a valid verdict means is that the condition of every named check holds |
| Verifier.SingleAnchorBinds | packages/pog/src/verify.ts:64-80 | two declarations that verify against one single anchor carry the same canonical signature and are equal, or the digest computations collide |
| Verifier.BatchAnchorBinds | packages/pog/src/verify.ts:72-75 | a declaration that verifies against the anchored root of a batch has its digest in the batch, or there is a collision |
| Verifier.VerifiedAloneExactlyWithCleanNames | packages/pog/src/verify.ts:64-80 | what verifies against an anchor also verifies there with another declaration of the same bytes, unless its names are clean |
| Verifier.BatchMembersVerify | packages/pog/src/verify.ts:72-100 | every signed member of an anchored batch verifies with the proof for its position, with the declared content or without it |
| Receipts.VerifyFromChain | packages/pog/src/verify.ts:111-127 | valid exactly when the located log is in a successful transaction of the domain's chain and verifies with the proof, the content and the resolver given |
| Receipts.VerifiedIsAnchored | packages/pog/src/verify.ts:112-128 | what verifies from the chain has a successful transaction of its chain with an event of its contract that anchors its digest, alone with its signature or in a batch, and was signed by its agent |
| Receipts.BatchMemberVerifiesFromChain | packages/pog/src/verify.ts:111-127 | a member of a batch verifies from the chain alone, from the location of the anchor and the proof for its position |
| Receipts.VerifyReceipt | packages/pog/src/receipt.ts:36-53 | valid exactly when what the receipt parses to holds on the chain; a malformed receipt throws, one without anchor is invalid |
| Receipts.ParsesExactly | packages/pog/src/receipt.ts:21-34 | exactly the receipts of the profile parse, to what their declaration, signature, domain and locator say; nothing else in them matters |
| EndToEnd.EmittedLogVerifies | packages/pog/src/verify.ts:45-109 | a log emitted for the call of a signed acceptable declaration verifies |
| EndToEnd.ReceiptGivesBack | src/v2/receipt.ts:8-34 | the receipt of an anchored row parses back to the declaration that was submitted, its signature, its domain and where it was anchored |
| EndToEnd.ReceiptPointsAtEvent | src/v2/anchor.ts:31-41 | in every run over a faithful chain, the receipt of an anchored row points at an event emitted for that row |
| EndToEnd.AcceptedAndAnchoredVerifies | src/v2/accept.ts:72-126 | every admissible submission that was stored and is anchored after any run has a receipt that verifies from chain data alone, with or without its content |
| EndToEnd.ReceiptTellsTruth | src/v2/receipt.ts:8-34 | over a faithful chain, the receipt of an admissible submission carries the signed digest, the state and the metadata, and once anchored the place, block, time, contract and agent id of the event itself |
| EndToEnd.ReceiptMetadataStillMatches | src/v2/receipt.ts:17-17 | the metadata in a receipt, its members reordered in storage or not, still hashes to what was signed |
| Submissions.StoredRoundTrip | src/v2/accept.ts:55-65 | reading the stored form of a submission back gives the declaration that was signed |
| Submissions.WrittenRoundTrip | src/v2/accept.ts:55-65 | a declaration is read back from its written form field by field, and what is stored is the signed declaration, written |
| Store.Table.InsertDeclaration | src/v2/store.ts:18-25 | a row is created exactly when neither constraint forbids it; otherwise the table is unchanged and the answer is the row with that digest, or a reused nonce when there is none |
| Store.Table.CountSince | src/v2/store.ts:37-43 | counts exactly the rows created since then, of one agent or of all |
| Store.Table.ClaimForAnchoring | src/v2/store.ts:45-65 | takes exactly a pending row or one whose lease has expired, changes only that row, and leaves it unclaimable for that instant |
| Store.Table.RecordSentTx | src/v2/store.ts:67-71 | stores the hash on an anchoring row and changes nothing else |
| Store.Table.MarkAnchored | src/v2/store.ts:73-86 | anchors exactly an anchoring row and reports whether it did |
| Store.Table.MarkAttemptFailed | src/v2/store.ts:88-98 | an anchoring row goes back to pending, or to failed once its attempts are used up; other rows stay |
| Store.Table.ReleaseClaim | src/v2/store.ts:111-116 | an anchoring row goes back to pending with its attempt given back; other rows stay |
| Store.Table.ListToReconcile | src/v2/store.ts:100-109 | lists different rows that a claim would take now, and all of them when there is room |
| Store.ReleaseUndoesClaim | src/v2/store.ts:111-116 | giving a fresh claim back leaves the row as it was, apart from the reason noted |
| Store.InsertKeepsUnique | src/db/schema.ts:286-316 | digests and (agent, nonce) pairs stay unique under an insert exactly when no other row conflicts |
| Accept.CheckBody | src/v2/accept.ts:78-85 | passes exactly well-formed bodies in range with a canonical signature; a refusal names something that is wrong |
| Accept.CheckSubmission | src/v2/accept.ts:75-101 | passes exactly the admissible submissions; a refusal gives the first reason that holds, in the order of the checks |
| Accept.TooLateInMillis | src/v2/accept.ts:98-101 | a declaration is refused exactly when its time is more than five minutes after now, to the millisecond |
| AcceptCall.AcceptDeclaration | src/v2/accept.ts:72-126 | a row is added exactly for an admissible new declaration within both quotas and with an unused nonce; it is queued unless the queue is down; a stored digest is answered with its row and leaves no trace; a table within its quotas in every 24 hours stays so, and a quota is refused only when its last 24 hours are full; the call is a run of the machine of racing submissions |
| AcceptCall.CallIsRun | src/v2/accept.ts:103-126 | the lookup, the two counts, the insert and the enqueue of an undisturbed call are steps of that machine, to the same table, queue and answer |
| Accept.AddsKeepsQuotas | src/v2/accept.ts:106-113 | a row added with room in the last 24 hours keeps every 24 hours within both quotas |
| Accept.NonceUsedOnce | src/db/schema.ts:282-316 | two rows whose declarations have one agent and nonce, or one digest, are one row |
| AcceptOutcomes.AnswersAreTrue | src/v2/accept.ts:103-125 | under any race digests and nonces stay unique and every answer is true: accepted rows are stored and queued once, others stored and queued nothing, and a quota refusal met a quota full of rows of the last day |
| AcceptOutcomes.EveryRowHasOneMaker | src/v2/store.ts:18-25 | every row was stored by exactly one submission |
| AcceptOutcomes.ResubmissionIsIdempotent | src/v2/accept.ts:103-104 | once a digest is stored, later submissions of it are only answered with that row, reach no quota, store nothing and queue nothing |
| AcceptQuota.CountedIsSpent | src/v2/store.ts:37-43 | counting rows since an instant is adding up the charges of a rolling budget |
| AcceptQuota.StepIsMove | src/v2/accept.ts:106-120 | each step of racing submissions is an allowed move on the budget of an agent or of the service |
| AcceptQuota.QuotaHolds | src/v2/accept.ts:106-120 | with at most k submissions between count and insert, no 24 hours hold more than the quota plus k - 1 rows, per agent and in total |
| AcceptQuota.SerialQuotaHolds | src/v2/accept.ts:106-120 | with one submission at a time the quotas are never exceeded |
| AcceptRacers.RacersAllPass | src/v2/accept.ts:106-120 | for every quota and every k, quota plus k - 1 declarations of one agent can all be stored at one instant with at most k in flight, so the bound is reached per agent and in total |
| RollingBudget.OthersHold | packages/mcp-server/src/ledger/MemoryLedger.ts:46-74 | of at most k holders, all but one together hold at most k - 1 times the largest holding |
| RollingBudget.MoveWithin | packages/mcp-server/src/ledger/MemoryLedger.ts:30-74 | every check, charge, release and passage of time keeps charged plus held within the cap plus k - 1 times the largest holding, in the current window and every past one |
| AnchorProtocol.FirstAnchorLog | src/v2/anchor.ts:34-37 | finds a log of the contract with the event topic and the digest whenever there is one |
| AnchorSafety.StepSound | src/v2/store.ts:49-116 | every step of any call, stale or not, keeps the table, the calls and the chain in agreement |
| AnchorSafety.AnchoredRowsAreTrue | src/v2/anchor.ts:31-41 | after any run, an anchored row names a successful transaction that was sent for it with its arguments, and the place in it of an AnchorProof log for its contract and digest |
| AnchorSafety.TerminalForever | src/v2/store.ts:67-98 | anchored and failed rows never change again, whatever stale calls still do |
| AnchorBound.AnchorsAreBounded | src/v2/anchor.ts:43-84 | in every run, the transactions that anchor a declaration number at most one plus lost hashes, failed lookups of the recorded transaction and claims made while another call was running |
| AnchorRuns.OrderlyAnchorsOnce | src/v2/anchor.ts:43-84 | when no call outlives its lease and no reply to giving a claim back is lost, no two calls hold one row, and without lost hashes and failed lookups a declaration is anchored at most once |
| AnchorRuns.ReportTrueExactlyIfStillAnchoring | src/v2/anchor.ts:75-79 | in any run, a reported anchor is what the row says exactly if the row is still anchoring when the mark takes effect or already said the same; it then stays true, and never becomes true of a failed row |
| AnchorRuns.OrderlyReportsAreTrue | src/v2/anchor.ts:43-84 | when no call outlives its lease and no reply to giving a claim back is lost, every call that reports an anchor has its row anchored by that transaction at that place |
| AnchorReleases.LostReleaseAnchorsTwice | src/v2/anchor.ts:58-82 | a run within all leases, with no lost hash and no failed lookup, that anchors a declaration twice because the reply to giving a claim back is lost |
| AnchorReleases.LostReleaseReportsFalsely | src/v2/anchor.ts:58-82 | such a run in which a call answers anchored and its row is failed |
| AnchorRuns.EveryFailedLookupCanCostAnAnchor | src/v2/anchor.ts:50-56 | for every n there is a run with n failed lookups that anchors one declaration n + 1 times |
| AnchorTight.EveryLostHashCanCostAnAnchor | src/v2/anchor.ts:67-73 | for every n there is a run whose incidents are n lost hashes and that anchors one declaration n + 1 times |
| AnchorTight.EveryOverlapCanCostAnAnchor | src/v2/store.ts:56-62 | for every n there is a run whose incidents are n overlapping claims and that anchors one declaration n + 1 times |
| AnchorRuns.NoRowIsStuck | src/v2/store.ts:45-65 | an unfinished row is claimable now or once its recorded lease has passed, whether or not it was queued, and one call from there can anchor it |
| AnchorRuns.ReportedAnchoredButFailed | src/v2/anchor.ts:75-79 | a run in which a call answers anchored and its row is failed |
| AnchorBudget.AttemptsAreAccounted | src/v2/store.ts:49-116 | attempts are the claims minus the claims given back, sends are at most the attempts, attempts at most the maximum plus takeovers, and the floor at zero is never used |
| AnchorBudget.RowsFinish | src/v2/store.ts:88-98 | without takeovers and pauses a row is claimed at most the maximum number of times and is then anchored or failed |
| AnchorWorker.AnchorDeclaration | src/v2/anchor.ts:43-84 | one call is a run of the protocol; its answer is true of the row, it sends at most once and not at all when the recorded transaction is found, and it anchors when the world cooperates |
| AnchorWorker.CheckEarlier | src/v2/anchor.ts:49-56 | the recorded transaction is looked up before anything is sent, and anchors the row when it is found |
| Reconciler.AnchorQueue.Tick | src/workers/anchorV2.worker.ts:43-47 | a tick adds jobs only for claimable rows, never two for one, and leaves none without a job unless it lists as many as it may |
| Reconciler.AnchorQueue.AfterCall | src/workers/anchorV2.worker.ts:32-40 | a paused or retried row is queued again with its delay, whatever became of it; when the answer is true, exactly the unfinished rows are |
| SpendingLedger.MemoryLedger.GetDailyStats | packages/mcp-server/src/ledger/MemoryLedger.ts:30-44 | the loop adds up what was spent and counts the records of the last 24 hours |
| SpendingLedger.MemoryLedger.CheckGuardrails | packages/mcp-server/src/ledger/MemoryLedger.ts:46-74 | clears exactly a record that breaks no rule, and names a broken rule otherwise |
| SpendingLedger.MemoryLedger.CheckBatchGuardrails | packages/mcp-server/src/ledger/MemoryLedger.ts:76-99 | clears exactly a batch that breaks none of the rules for batches, and names a broken rule otherwise |
| SpendingLedger.MemoryLedger.AddBatchItem | packages/mcp-server/src/ledger/MemoryLedger.ts:127-136 | the item replaces the one with its content hash or comes last; other batches stay |
| SpendingLedger.PutItemKeeps | packages/mcp-server/src/ledger/MemoryLedger.ts:127-136 | a batch keeps one item for each content hash, the last one given |
| SpendingLedger.BatchIsIteratedSingle | packages/mcp-server/src/ledger/MemoryLedger.ts:46-99 | for n >= 1 the batch guardrail together with the per-transaction cap clears exactly when n checks and records in a row are all cleared |
| SpendingLedger.BatchKeepsCaps | packages/mcp-server/src/ledger/MemoryLedger.ts:76-99 | payments that a check had room for, however much later they are logged, keep every 24 hours within both daily caps |
| ConfirmTools.RecordTool.Prepare | packages/mcp-server/src/tools/write.ts:58-119 | exactly a named, unrecorded content within all limits and the number of pending confirmations gets an id, good for five minutes |
| ConfirmTools.RecordTool.Confirm | packages/mcp-server/src/tools/write.ts:132-178 | an id is consumed whatever happens; the registry is asked only within the limits, for the hash given and computed; the log grows by the prepared cost exactly when it recorded, and stays within the daily caps |
| ConfirmTools.BatchTool.Prepare | packages/mcp-server/src/tools/batch.ts:61-135 | exactly a batch of named items within its size that holds something new and may be paid for gets an id, good for ten minutes; a blocked one is logged as a failed attempt |
| ConfirmTools.SplitKeepsAll | packages/mcp-server/src/tools/batch.ts:70-92 | new and known contents together are the contents of the batch, none lost and none added |
| ConfirmTools.SelectedExactly | packages/mcp-server/src/tools/batch.ts:70-92 | a content is a duplicate exactly if duplicates are looked for and the registry knows it |
| ConfirmTools.SelectedInOrder | packages/mcp-server/src/tools/batch.ts:70-92 | both lists keep the order of the batch |
| ConfirmTools.BatchTool.Confirm | packages/mcp-server/src/tools/batch.ts:146-199 | a batch is confirmed once; its actual cost is the successes times the cost of an item and is what the log grew by; it fails only when nothing was recorded; the log stays within the daily caps |
| ConfirmTools.ChargeOfEach | packages/mcp-server/src/tools/batch.ts:174-192 | each success is logged in its place, under its record id, for the cost of one item, at the time of its reply |
| ConfirmTools.TotalOfCharges | packages/mcp-server/src/tools/batch.ts:174-192 | the log grows by the cost of one item for each success |
| ConfirmTools.TableShowsLastAttempt | packages/mcp-server/src/tools/batch.ts:167-192 | the items table holds one item a hash: a success with its record id or a failure without, as the last attempt for that hash went, and a duplicate for the others |
| ConfirmTools.ChargesShowExactlyIfDistinct | packages/mcp-server/src/tools/batch.ts:172-194 | every record charged for shows as a success, whatever the registry replies, if and only if no hash occurs twice among the new items |
| ConfirmTools.ShownAreCharged | packages/mcp-server/src/tools/batch.ts:167-192 | with distinct hashes as many items show as successes as were charged for |
| ConfirmTools.ChargedButShownFailed | packages/mcp-server/src/tools/batch.ts:176-192 | a batch with one hash twice that charges for a record and shows it as failed |
| SpendRace.ConfirmedOnce | packages/mcp-server/src/tools/write.ts:134-143 | however confirmations race, no id is paid for twice |
| SpendRace.DailyCapHolds | packages/mcp-server/src/tools/write.ts:132-178 | with at most k confirmations between check and log, recorded plus awaited spend exceeds the cap in no 24 hours by more than k - 1 times the largest checked cost; likewise the record count |
| SpendRacers.RacersAllPay | packages/mcp-server/src/tools/batch.ts:146-199 | for every cap, cost and k there is a run with at most k confirmations between check and log, none for more than that cost, that logs the cap plus k - 1 times the cost at one instant, whenever records that are no dearer can use the cap up to one cost less; for the money and for the record count |
| SpendRace.SerialCapHolds | packages/mcp-server/src/tools/batch.ts:146-199 | with one confirmation at a time neither cap is ever exceeded |
| Payments.StepSound | src/services/paymentVerifier.ts:51-148 | every step keeps the unique constraints, settled evidence behind every record, and payments that may still create a record unspent |
| PaymentSafety.RecordNeedsSettledAttempt | src/routes/records.ts:172-183 | a record is stored only against an attempt that is settled at that moment and paid for no other record |
| PaymentSafety.OnePaymentOneRecord | src/services/recordsService.ts:119-168 | under any interleaving of single and batch requests, records that share the text of a payment identifier or fee transaction, a content, or wallet and nonce are one record, with an attempt settled for the amount it states |
| PaymentSafety.EveryRecordHasOnePayer | src/services/paymentVerifier.ts:51-141 | exactly one request paid for each record |
| PaymentFunds.MoneyPaysOnceExactlyIfIdentifiersAreCanonical | src/services/paymentVerifier.ts:51-81 | under a rule for accepted payments, no run stores two records for one transaction or one signature if and only if the rule accepts the same money under one identifier only, among those that fit their column |
| PaymentFunds.SpelledTwicePaysTwice | src/routes/schemas/index.ts:8-8 | every transaction whose hash has a letter digit can pay for two records, spelled in two ways |
| PaymentFunds.LowercaseTransactionsPayOnce | src/services/recordsService.ts:83-98 | with transaction hashes accepted in lowercase only, each transaction pays for one record at most in every run |
| PaymentFunds.SignedOncePaysTwice | src/routes/records.ts:138-143 | one signed payment sent under two identifiers that fit their column can pay for two records |
| PaymentSafety.FailedPaymentIsUsedUp | src/services/paymentVerifier.ts:59-81 | an attempt that ended without a record uses its payment identifier up for good |
| PaymentFunds.FirstUseTakesIdentifier | src/services/paymentVerifier.ts:59-141 | from every state a request can enter its identifier without its payment verifying, after which no continuation stores a record under that identifier |
| PaymentTrails.RecordExactlyIfNothingBlocks | src/services/recordsService.ts:135-168 | in every run a payment ends with a record exactly if its nonce and content type fit their columns, it settled in time, its insert was not lost, and no record of another payment has its content, fee transaction, or wallet and nonce |
| PaymentTrails.CanBeStoredExactlyIfItFits | src/db/schema.ts:45-55 | some run of an order with a payment ends with its record if and only if its nonce, content type and payment identifier fit their columns |
| PaymentTrails.OversizePaysForNothing | src/routes/records.ts:164-195 | every order whose nonce or content type has no room in its column can settle its payment, and has no record |
| PaymentTrails.StoredPaymentSettledExactly | src/routes/records.ts:178-195 | in every run the payment of a stored record is settled exactly if its request is a batch item, or the replies to storing and linking it both arrived, or marking it failed had no effect; else it is failed |
| PaymentTrails.LostPaymentSettledExactly | src/services/paymentVerifier.ts:83-140 | in every run a payment without a record stands as settled exactly if it was entered so and no handler has marked it failed |
| PaymentRuns.StoredRecordReportedFailed | src/routes/records.ts:178-195 | a run that stores a paid record, marks its payment failed and answers with an error |
| PaymentRuns.RacerPaysForNothing | src/routes/records.ts:286-324 | a run in which two requests for one content both pay and one record is stored |
| PaymentService.Database.InsertAttempt | src/services/paymentVerifier.ts:55-81 | a pending attempt is added exactly when its payment identifier fits its column and is not taken |
| PaymentService.Database.InsertRecord | src/services/recordsService.ts:135-168 | a record is added exactly when its columns have room for it and no unique constraint forbids it |
| PaymentService.Database.VerifyAndSettle | src/services/paymentVerifier.ts:51-141 | an attempt is settled for the verified amount, or marked failed unless that update throws, or refused when the identifier is taken or too long, as steps of the protocol |
| PaymentService.Database.PostRecord | src/routes/records.ts:124-195 | a request from start to end, however each of its awaits ends, is a run of the protocol |
| PaymentAnswers.AnswersAreTrue | src/routes/records.ts:124-195 | in every run, duplicate content, duplicate nonce, a reused payment and a cached record are answered only when that record or attempt is there, the cached one paid for under the identifier sent; a created record is the one ordered and paid for; a payment reported unsettled has no record |
| LegacyAnchor.StepBudget | src/services/anchor.ts:72-89 | a claim takes the only chance of a record to be sent, and no step gives it back |
| LegacyAnchor.AtMostOneTransaction | src/services/anchor.ts:37-161 | over any workers, retries, crashes and late failure marks a record gets at most one transaction, and anchored records and returning calls name a transaction sent for the record |
| LegacyAnchor.DeadClaimIsFinal | src/services/anchor.ts:72-89 | a claimed record whose claimant is gone without a stored hash is never anchored and never sent again, and every retry throws |
| LegacyAnchor.RetryReturnsExactlyIfNotOrphaned | src/services/anchor.ts:60-89 | a later call can still return a transaction of a record if and only if it is pending, has a stored hash, or a call that claimed it is under way |
| LegacyAnchor.RevertedIsFinal | src/services/anchor.ts:102-123 | once the transaction of a record has reverted, no continuation gives the record a successful one, whether or not it says anchored |
| LegacyAnchor.AnchoredIsTrueExactlyIfReceiptSucceeded | src/services/anchor.ts:102-123 | some successful transaction was sent for an anchored record if and only if the one it names succeeded |
| LegacyAnchor.RevertedCountsAsAnchored | src/services/anchor.ts:102-123 | a run that anchors a record by a reverted transaction |
| LegacyAnchor.Records.AnchorRecord | src/services/anchor.ts:37-123 | one call, however its awaits end, is a run of the protocol; an unknown record throws and changes nothing |

## Left out

- Text forms of bytes: hexadecimal strings, their case and malformed ones; the schema and the validator see byte strings of any length instead.
- Numbers: ECMAScript number-to-text is an opaque text per number, assumed to be made of digits, signs, the point and the exponent letter; numeric fields are integers, so the tests that reject fractions are not modelled.
- RFC 8785 asks for strings with lone surrogates to be rejected; the code escapes them, and the model does as the code does.
- Storage of text in the database: what `jsonb` refuses (the null character) or rewrites beyond the order of members. The columns of a paid record that its schema keeps within their size always fit.
- EndToEnd.AcceptedAndAnchoredVerifies: assumes that AnchorProof events of the called contract carry the arguments of the call and that log indexes are unique in a transaction; the contract itself and chain reorganisations are not modelled.
- Eip712.DigestCommits: the curve arithmetic behind signer recovery is an arbitrary function, so nothing is said about who can sign.
- Verifier.CheckAgentId: the registry behind scheme 0x01 is an arbitrary function; the code, too, lets it only warn.
- Store.Table.InsertDeclaration: the insert and the lookup after a conflict are one step here; they are two in the state machine of racing submissions.
- PaymentFunds.SignedOncePaysTwice: the facilitator of x402 payments is a parameter and may settle a signature twice; real ones may refuse.
- AcceptOutcomes.AnswersAreTrue: row ids are assumed fresh, and an enqueue whose reply is lost counts as one that took place.
- AcceptCall.AcceptDeclaration: failures of the database between its statements appear only in the state machine.
- AnchorProtocol: block timestamps and balances are parameters; a transaction keeps the fate it is sent with.
- Reconciler.AnchorQueue.Tick: a job is taken to block another of the same key only while it waits; what the queue library keeps of finished jobs is not modelled.
- SpendRace.DailyCapHolds: wei amounts are naturals, and a negative cap counts as zero.
- The SQLite ledger, audit events and job queries of the MCP server; they add no rule of their own.
- PaymentService.Database.PostRecord: the two duplicate checks, which only read, run one after the other, and verification of the fee or of the x402 payment is a parameter.
- Payments: query parameters, the terms offered to a request without payment, waiting for the anchor, and how batch results are listed; they change neither table.
- LegacyAnchor: webhooks, alerts and the job queue; a job may be delivered, retried or given up at any time.
- HTTP, rate limits, logging, clients, formatters and administration routes: plumbing without state of interest here.
