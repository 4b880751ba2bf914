# A Dafny model of the shared-history venue and its readers

The project models the parts of the repository whose correctness spans many calls, and proves what they
promise over every input and every run:

- the shared-history authority: adversarial operators sign checkpoints of any content, a venue orders them, and
  finality rests on one transition over notes, nullifiers, locks and totals (`Pool*`);
- replayed verdicts, the no-commitment clock and receipt silence (`Fault*`, `RecoverySilence`);
- two readers of one byte grammar, a table machine over a prime field and a cursor parser, and the writer whose
  bytes they read (`Ergo*`, `Scan*`);
- the authenticated index over those readings: section trees, the subject map, its readers, its server and the
  schedule of a proved period (`Merkle*`, `Subject*`, `Disagreement`, `SuccinctRead`, `Exhaustion*`);
- the header store and its journal overlay (`Header*`, `JournalRows`);
- a crash-safe file pool and the locks of its database files (`PoolDisk`, `FilePool`, `FileMount`, `FileLocks`);
- record readings and streamed frames (`ReplacementWalk`, `HeldRecord`, `FrameStream`).

Objects that the source updates in place are classes, loops are loops with invariants, and each such method is
tied to a specification function about which the lemmas speak. Values and expressions are datatypes and functions.

## Main results

- `PoolSafety.RunsAreSafe`: no double spend, conservation and authorised outputs in every run of an adversarial
  world; `PoolRevocation.RevocationsCutIssuance`: revocation is one irrevocable cutoff.
- `FaultEvaluation.Evaluation.Evaluate`: memoised verdicts over nested views are plain recursion's, without cycles.
- `RecoverySilence.ReceiptSilence` with `SilenceIsFirst` and `SilenceStands`: record indices alone give the first
  silence, which then stands.
- `ScanAgreement.ScanAgrees`: the table machine reads what the framer reads; `ScanSpacing.SlotEndsFour`.
- `ErgoPublication.PublicationReads`: publishing then reading is the identity; `ErgoCapacity.CarriedRecordBuilds`.
- `MerkleStack.TreeOps` and `MerkleTree.AcceptedPathNamesTransaction`: the stack machine and the paths of the tree.
- `SuccinctRead.AcceptedReadIsNative` and `TrueAnswersAreTaken`: a subject read through a fold is the native reading,
  whatever a supplier sends, and a truthful supplier is never refused;
  `ExhaustionServer.ExhaustionServer.AnswersAreTaken`: what an unbroken server answers is taken.
- `ExhaustionLeaves.LeavesOf`: every authenticated period ends where a fold requires, whatever the leaf sizes.
- `HeaderStore.HeaderStore.Audit`: the audit passes after any additions and prunings.
- `FileMount.CrashMountsWhole`: every crash point mounts to the names before or after.
- `ReplacementWalk.PastStands`, `HeldRecord.RangesJoin` and `FrameStream.ChunksDoNotMatter`.

## Assumptions

Digests and sponges are arbitrary functions. What rests on them is stated where they do not collide (and, for
the sponge, do not give zero) on finitely many strings: those of the tree or map and of the path or list that is
read, or of two trees compared, which `Binds` and `Separates` name. `ReadWitness` gives a digest and a sponge that
meet these. Statement proofs are an ideal registry, as in the source's own model; note and checkpoint identities are
serial and tags are injective in nullifiers. Blake2b is a fold of an arbitrary compression over 128-byte blocks.
Header parsing and proof of work, record decoding and signature checks, verification of folds and publication proofs
are parameters.

## Where the code and what is said of it differ

- `src/ergo-publisher.ts:374-384` checks that change reaches the minimum of a box holding that minimum; a larger
  value may be longer by a byte, and then change can fall short of its own box. `OutputsAdmitted` gives the exact
  condition, a gap just past a VLQ boundary, `ChangeFallsShort` an instance, and `DefaultRateAdmits` that at the
  default rate there is none.
- `src/ergo-store.ts:207-214` and `src/ergo-headers.ts:417-422` differ on an empty run and on a run from below the
  first height: `SetBestAgrees` gives the exact condition. The store makes neither call: `HeaderStore.Promote` says
  what it sets, and `StoreRowsAgree` that over every run of a store the two agree.
- `src/browser/files.ts:323-339` refuses a name too long for a header only after taking a free member, which is
  then neither free nor named until the next mount. `FilePool.Create` says exactly when, `LosesMember` is an instance.
- `model/pool-authority.ts:275-282` finds a supply out of bounds after spending and creating notes. `History.Apply`
  gives the exact condition and `PoolOverrun.IssueRunsOver` an instance. Merging and replaying drop a history that
  refuses (`World.Merge`, `World.Replay` return none of it); `model/pool-recovery.ts:207` keeps it, but only for kinds
  that move no supply, where a refusal changes nothing.

## Model

| member | source | states |
|---|---|---|
| PoolOracle.SoundBalances | model/pool-authority.ts:173-206 | A statement the proof system accepts balances every backing: what it makes less what it takes is what it issues less what it burns, kind by kind. |
| PoolOracle.ProveKeeps | model/pool-authority.ts:134-157 | Proving interns by public content: one statement identity is one body, and no earlier statement, note or witness changes. |
| PoolState.ConservedAfter | model/pool-authority.ts:275-282 | Spending and creating move a backing's unspent value by exactly what the statement issues less what it burns. |
| PoolState.ApplyKeeps | model/pool-authority.ts:246-292 | Every transition over a history keeps its invariant (events disjoint, inputs of value made before, outputs distinct, unspent value equal to the totals and to issued less burned, totals in bounds) and adds exactly its own event. |
| PoolState.History.Apply | model/pool-authority.ts:246-292 | The transition in place is the specified one; a refusal leaves the history as it was exactly but for an admitted issue or burn whose supply goes out of bounds, which leaves the notes spent and created. |
| PoolState.OutOfBoundsLeaves | model/pool-authority.ts:274-282 | What such a refusal leaves is the history before it exactly where the event spends and creates nothing. |
| PoolOverrun.IssueVerifies | model/pool-authority.ts:157-184 | A new note issued and proved is accepted by the proof system under any roots, then and in every later registry. |
| PoolOverrun.IssueRunsOver | model/pool-authority.ts:274-282 | A concrete one: two issues made and proved, of all units but none to spare and of one more, both accepted by the proof system; the first is applied, the second refused with its note listed among the outputs. |
| PoolHistory.KeysDetermineOutputs | model/pool-authority.ts:595-605 | The named events of a history fix its outputs, whichever proofs they carry. |
| PoolHistory.MergeAllKeeps | model/pool-authority.ts:458-468 | Merging imported histories keeps the invariant, holds exactly the parents' events and takes only final parents. |
| PoolHistory.ReplayKeeps | model/pool-authority.ts:593-605 | Replaying a checkpoint over a merged history keeps the invariant and holds the merged events and the checkpoint's own, nothing else. |
| PoolSafety.InForceOperator | model/pool-authority.ts:385-390 | Where every scoped term is in force, the signer is the operator of every backing the scope names. |
| PoolSafety.LatestWithin | model/pool-authority.ts:571-613 | Key invariant: a checkpoint judged final holds every final event that spends a note of any backing it opens. |
| PoolSafety.SharedNullifier | model/pool-authority.ts:246-256 | Two events of one history with a nullifier in common are one event. |
| PoolSafety.NewAgainstOld | model/pool-authority.ts:571-613 | A newly final event and an earlier final event with a common nullifier are one event. |
| PoolSafety.IncludeKeeps | model/pool-authority.ts:555-568 | Including any signed checkpoint, of any content and any verdict, keeps the world's invariant. |
| PoolSafety.NextKeeps | model/pool-authority.ts:325-568 | Every step (tick, register, revoke, replace, new notes and proofs, signing an arbitrary checkpoint, including) keeps the invariant. |
| PoolSafety.RunsAreSafe | model/pool-authority.ts:819-837 | In every run no nullifier is in two different final events, every final history conserves value backing by backing and spends only what it made before, and outputs are only of backings whose term in force was the signer's. |
| PoolRevocation.IncludeCuts | model/pool-authority.ts:362-378 | Including any checkpoint keeps each revocation's cutoff: what becomes final holds no cut-off issue that was not final before. |
| PoolRevocation.RevocationsCutIssuance | model/pool-authority.ts:360-378 | In every run a history final after an obligor's revocation holds no issue of theirs but those that were final before it. |
| PoolWorld.World.Merge | model/pool-authority.ts:458-468 | The loop over distinct parents and their events is the specified merge, refusals included. |
| PoolWorld.World.Replay | model/pool-authority.ts:593-605 | The replay loop is the specified replay, with its first refusal. |
| PoolSafety.SegmentsNest | model/pool-authority.ts:571-592 | What the checks before replay are for: in every run the final checkpoints of a segment have one header, and each begins with the statements of every earlier one. |
| PoolWorld.World.ValidateCheckpoint | model/pool-authority.ts:571-613 | A verdict is final, lapsed or invalid exactly as specified, with its state or its refusal. |
| PoolWorld.World.Include | model/pool-authority.ts:555-568 | A record is kept whatever the verdict, the latest checkpoints move as specified, the invariant holds after, and a refusal changes nothing. |
| PoolWorld.World.Replace | model/pool-authority.ts:380-384 | A replacement below the lead floor, or not later than the last term, is refused and changes nothing; otherwise it is the next term. |
| PoolWorld.World.Revoke | model/pool-authority.ts:361-361 | The first revocation of an obligor stands; a second changes nothing. |
| PoolWorld.World.Sign | model/pool-authority.ts:535-554 | An operator's own signer numbers the draft after its highest and signs only while none of its checkpoints is in flight. |
| PoolWorld.World.Violations | model/pool-authority.ts:819-837 | The observer of double spends and unauthorised outputs finds nothing in any world that a run reaches. |
| FaultEvaluation.PrefixOfPrefix | model/pool-fault.ts:141-145 | What is strictly before a checkpoint is the same whichever view it is read in. |
| FaultEvaluation.VerdictStands | model/pool-fault.ts:141-157 | Records witnessed since, none of them before a checkpoint, leave its verdict as it was. |
| FaultEvaluation.Evaluation.Evaluate | model/pool-fault.ts:146-157 | The memoised evaluation through a shared session gives the verdict of plain recursion over the strict prefix, for any validation; the dependency-cycle refusal is never reached and the session is left sound. |
| FaultEvaluation.Evaluation.ValidateInView | model/pool-fault.ts:158-163 | A validation run in a view, its questions answered through the session, ends as it does over plain recursion. |
| FaultEvaluation.FaultWorld.Record | model/pool-fault.ts:172-172 | A query opens a session, gives the plain verdict and leaves no session behind. |
| FaultEvaluation.VerdictsAgree | model/pool-fault.ts:146-163 | Two validations that read the same facts for a checkpoint and for those before it give it one verdict, whatever else they read. |
| FaultEvaluation.EarlierStand | model/pool-fault.ts:141-163 | What is learnt for an index and later ones changes no verdict of an earlier index. |
| FaultRevocation.RevokingMeans | model/pool-authority.ts:362-378 | Replayed over the strict prefix, a checkpoint passes the revocation check exactly where every issue in it that is cut off was in a final checkpoint from before its cutoff. |
| FaultRevocation.RevocationTurns | model/pool-authority.ts:362-378 | A revocation learnt after a checkpoint was decided changes no verdict of an earlier index; at its own index or later it refuses an issue of that obligor that no final checkpoint from before it had. |
| FaultEvaluation.FaultWorld.Learn | model/pool-fault.ts:55-59 | What a reader learns later leaves every verdict that rests on none of it. |
| FaultEvaluation.FaultWorld.ObservedRecords | model/pool-fault.ts:131-140 | All verdicts of a view with nothing withheld, read through one session, are each the plain one there, and this reader's own wherever it has the same facts. |
| FaultEvaluation.FaultWorld.Include | model/pool-fault.ts:169-171 | What is decided of a checkpoint at inclusion is what a reading of the longer record decides with the facts of then, of it and of all before it; a sequence already passed is refused. |
| RecoverySilence.ClockIsLatest | model/pool-recovery.ts:91-101 | A clock that reads is the latest commitment of the party in force strictly before the index, other than a lapse, and zero where there is none. |
| RecoverySilence.Closing | model/pool-recovery.ts:91-101 | The loop reads that clock, and fails where the evidence of a commitment it would take is missing. |
| RecoverySilence.CrossingIsSilence | model/pool-recovery.ts:124-136 | Between neighbouring points a gap opens first at the least crossing of the clocks read at the later one, and nowhere where there is none. |
| RecoverySilence.SilenceIsFirst | model/pool-recovery.ts:102-137 | The silence found is the least index of the span at which a scoped gap is open; none is found exactly where there is none. |
| RecoverySilence.SilenceStands | model/pool-recovery.ts:106-138 | Once found, a silence is the same for every later reading and every later record; where none was found, none appears in the span already read. |
| RecoverySilence.ReceiptSilence | model/pool-recovery.ts:109-138 | Looking at the span's ends and at record indices only gives, refusals included, what looking at every index gives. |
| ReplacementWalk.FirstIs | src/record-range.ts:334-341 | The entry read for an identity is one of its entries and no other of them is earlier. |
| ReplacementWalk.ChoiceIsOne | src/record-range.ts:346-358 | From one link the candidates choose one successor at most, in force strictly after the incumbent. |
| ReplacementWalk.LaterKeepsChoice | src/record-range.ts:352-358 | Records witnessed after an index move no choice in force by it, and choose nothing in force by it. |
| ReplacementWalk.PastStands | src/record-range.ts:310-368 | Later reading never rewrites the past: whichever answers the records came from, the later chain's links in force by an index are the chain read at that index, force strictly rises, and the link in force at each earlier index is the same. |
| ReplacementWalk.ReplacementChain | src/record-range.ts:320-368 | The walk over first entries above the lead floor, as it loops, ends and gives the specified chain and pending link. |
| ReplacementWalk.InForceIsLast | src/record-range.ts:370-376 | The link in force at an index has arrived by it and no link after it has. |
| ReplacementWalk.LinkInForce | src/record-range.ts:371-376 | The loop gives that link. |
| HeldRecord.HighestCovers | src/record-range.ts:223-255 | The highest sequence passed on is at least every sequence that counts and the prior one, and is one of them. |
| HeldRecord.HoldsJoined | src/record-range.ts:236-252 | Later indices read from the highest of the earlier hold exactly what both read together hold. |
| HeldRecord.RangesJoin | src/record-range.ts:196-255 | A range derived, and then the next from the prior it passes on, give the held list and the prior that one derivation over both gives, and where the records lie in their ranges neither is refused unless that one is. |
| HeldRecord.HeldCommitments | src/record-range.ts:223-255 | Refused exactly where the frame is out of order or the prior is not established for the first index; otherwise the ascending list of exactly the commitments above all that count at earlier indices, the lesser record standing for twins. |
| FrameStream.HandedInOrder | src/bytes.ts:356-370 | The bytes handed to the reader and those still held are the bytes fed, in order. |
| FrameStream.ChunksDoNotMatter | src/bytes.ts:333-404 | A reader of exact requests gives the same result or refusal however its bytes are cut into chunks. |
| FrameStream.InexactDepends | src/bytes.ts:325-331 | A reader that asks for at least one byte can tell: a concrete reader and two cuttings of the same bytes that end differently. |
| FrameStream.FrameFeed.MakeRoom | src/bytes.ts:379-392 | Compacting or doubling keeps the held bytes and leaves room for the new ones. |
| FrameStream.FrameFeed.Hold | src/bytes.ts:379-392 | Appending after the held bytes, whatever the buffer had to do. |
| FrameStream.FrameFeed.Resume | src/bytes.ts:394-403 | The reader is resumed through its requests for nothing to its next request, its end or its failure. |
| FrameStream.FrameFeed.Feed | src/bytes.ts:356-370 | Feeding a chunk is what the byte queue gives: the same request outstanding and the same bytes held, or the same refusal. |
| FrameStream.FeedChunks | src/bytes.ts:351-376 | Creating a feed, feeding chunks and ending gives the specified outcome of the whole run. |
| ErgoScan.KeyReads | src/ergo-scan.ts:135-150 | The packed tables give, for every mode, class and register test, exactly the rule's action. |
| ErgoScan.BuildTables | src/ergo-scan.ts:137-150 | The loops that fill the tables fill them with the rule. |
| ErgoScan.ScanStep | src/ergo-scan.ts:167-188 | One step by table look-up and the coefficients' field arithmetic is one step of the rule. |
| ErgoScan.ScanTransaction | src/ergo-scan.ts:198-215 | The scan's list is every shaped output in order; stopping at the error mode loses nothing. |
| ErgoScan.ErrAbsorbs | src/ergo-scan.ts:198-215 | The error mode is never left and emits nothing. |
| ScanSpacing.StepNears | src/ergo-scan.ts:92-130 | Each byte brings the next shaped end at most one byte nearer, and an end puts the next one at least 42 bytes away. |
| ScanSpacing.SlotEndsFour | src/ergo-exhaustion-prover.ts:23-23 | From any state at all, 128 bytes end at most four shaped outputs. |
| ErgoProfile.Cursor.Vlq | src/ergo-profile.ts:204-213 | The cursor's VLQ: at most ten bytes, minimal, no larger than the bound, else nothing. |
| ErgoProfile.Cursor.Tree | src/ergo-profile.ts:231-244 | A tree read in place is exactly the bytes the grammar frames, or nothing. |
| ErgoProfile.Cursor.Coll | src/ergo-profile.ts:253-258 | A byte collection read in place is exactly the bytes the grammar frames, or nothing. |
| ErgoProfile.Cursor.NextOutput | src/ergo-profile.ts:288-304 | An output read past the cursor is the grammar's output and end. |
| ErgoProfile.FrameTransaction | src/ergo-profile.ts:270-306 | The parser accepts exactly the grammar's transactions and gives their outputs. |
| ErgoProfile.ShapedOutputs | src/ergo-profile.ts:312-322 | The framed outputs with the shape, their indices and subjects in order; nothing for an unframed transaction. |
| ScanAgreement.ScanVlq | src/ergo-scan.ts:92-130 | Over a VLQ of the grammar the machine's registers end with exactly its value. |
| ScanAgreement.ScanTree | src/ergo-scan.ts:92-130 | Over a framed tree the machine passes exactly its bytes. |
| ScanAgreement.ScanOutput | src/ergo-scan.ts:92-130 | Over a framed output the machine emits exactly its shape, counts it and stands at the next. |
| ScanAgreement.ScanAgrees | src/ergo-scan.ts:198-215 | For every byte string the framer accepts, the table machine over the prime field finds exactly the framer's shaped outputs, with indices, subjects and order. |
| ErgoAttribution.CollectRun | src/ergo-profile.ts:375-381 | A run of publication pieces is read to its end and joined. |
| ErgoAttribution.AttributeInto | src/ergo-profile.ts:361-389 | The objects of a transaction in output order, runs joined, records of a wrong length left out. |
| ErgoWriter.WriteVlq | src/ergo-publisher.ts:120-124 | The loop writes the minimal VLQ. |
| ErgoWriter.VlqReads | src/ergo-publisher.ts:120-124 | An integer of at most 64 bits written is read back, wherever it stands. |
| ErgoWriter.TreeReads | src/ergo-profile.ts:231-249 | A whole tree reads as itself wherever it stands. |
| ErgoWriter.CandidateReads | src/ergo-publisher.ts:237-240 | A written output reads back as its tree and registers and ends where it was written to end. |
| ErgoWriter.UnsignedReads | src/ergo-publisher.ts:384-385 | A written transaction frames to exactly the outputs it was written from. |
| ErgoMinimum.AmpleCovers | src/ergo-publisher.ts:245-252 | Some value always covers its own box, so the loop has an end. |
| ErgoMinimum.MinimumValue | src/ergo-publisher.ts:245-252 | The loop ends at the least value that covers a box holding that value. |
| ErgoMinimum.LeastMonotone | src/ergo-publisher.ts:245-252 | The least value grows with the box and with the rate. |
| ErgoRecords.FindChunkSize | src/ergo-publisher.ts:286-293 | The binary search gives the longest piece that fits its box. |
| ErgoRecords.PiecesJoin | src/ergo-publisher.ts:299-308 | A record's pieces join to the record. |
| ErgoRecords.CountRounds | src/ergo-publisher.ts:294-297 | The number of pieces is the length over the piece size rounded up, and at least one. |
| ErgoRecords.PieceFits | src/ergo-publisher.ts:279-309 | Every piece of an admitted run fits its box, at an index of seven bits. |
| ErgoRecords.RecordOutputs | src/ergo-publisher.ts:279-309 | The outputs of a record, each at its own least value, or a refusal exactly where a record does not fit. |
| ErgoPublication.BuildPublication | src/ergo-publisher.ts:366-406 | Built exactly where the specification allows; its outputs, unsigned and signed bytes are the specified ones, within 98,304 bytes, and input value equals output value. |
| ErgoPublication.AllSpent | src/ergo-publisher.ts:366-406 | Whether the rest goes to change or to the fee, outputs together hold what the inputs held. |
| ErgoPublication.SignedWhole | src/ergo-publisher.ts:386-396 | Signing adds exactly the proofs' bytes. |
| ErgoMinimum.CoversOutsideGap | src/ergo-publisher.ts:245-252 | A value no less than the least covers its own box if and only if it is not past the next VLQ boundary and below what the box of one byte more needs. |
| ErgoPublication.OutputsAdmitted | src/ergo-publisher.ts:366-390 | Every output covers its own box if and only if neither the change nor the fee lies in that gap above its minimum. |
| ErgoPublication.DefaultRateAdmits | src/ergo-publisher.ts:78-80 | At the default rate every output of every publication covers its own box. |
| ErgoPublication.ChangeFallsShort | src/ergo-publisher.ts:374-383 | Change that reaches the checked minimum can still fall short of its own box: a concrete record, box, fee, rate and height at which a publication is built. |
| ErgoPublication.PublicationReads | src/ergo-publisher.ts:366-406 | Publishing then reading is the identity: attributing the built bytes gives exactly one object of that kind, subject and record, and none where the record has no length of its kind, whatever change and fee follow. |
| ErgoCapacity.InputRoom | src/ergo-publisher.ts:322-326 | The number of signed inputs that there is space for, or a refusal where the record does not fit. |
| ErgoCapacity.RoomSuffices | src/ergo-publisher.ts:322-326 | Any number of inputs within the room keeps the signed transaction within its bound. |
| ErgoCapacity.ErgoRunCarries | src/ergo-publisher.ts:335-346 | Whether a run of a length is carried under the greatest options, and a refusal for a length out of range. |
| ErgoCapacity.CarriesMonotone | src/ergo-publisher.ts:335-346 | A shorter record is carried where a longer one is. |
| ErgoCapacity.RunCarriesMonotone | src/ergo-publisher.ts:335-346 | What the greatest height, fee and rate carry, every accepted height, fee and rate carries. |
| ErgoCapacity.ErgoRunCapacity | src/ergo-publisher.ts:351-360 | The binary search gives the exact threshold: a length is carried if and only if it is no larger. |
| ErgoCapacity.CarriedRecordBuilds | src/ergo-publisher.ts:328-360 | A carried record builds in one transaction at every accepted height, fee and rate, with any number of inputs within the room that pays for it. |
| MerkleTree.MerkleRoot | src/ergo-profile.ts:119-128 | The level-by-level loop gives the tree's root, and refuses no leaves. |
| MerkleTree.InclusionRoot | src/ergo-exhaustion.ts:211-225 | The root a path gives, or nothing exactly for a path, position or id that no reader takes. |
| MerkleTree.InclusionPath | src/ergo-exhaustion.ts:179-192 | The loop gives the steps from a position to the root. |
| MerkleTree.PathGivesRoot | src/ergo-exhaustion.ts:179-225 | For up to 2^32 leaves the path of any leaf is well formed and gives the root. |
| MerkleTree.AcceptedPathNamesLeaf | src/ergo-exhaustion.ts:211-225 | Where the digest does not collide on what was hashed, a path at a position that gives the root proves that position's leaf. |
| MerkleTree.RootBindsLeaves | src/ergo-profile.ts:119-128 | Equal roots are of equal lists, their lengths included. |
| MerkleTree.RulesDoNotMix | src/ergo-profile.ts:131-162 | Sections of one root hold the same ids under the same rule, and the same witness ids where the rule commits to them. |
| MerkleTree.AcceptedPathNamesTransaction | src/ergo-exhaustion.ts:206-225 | Under either rule an accepted path proves a transaction id of the section; a witness id is never taken for one. |
| MerkleTree.SectionMatchesRoot | src/ergo-profile.ts:158-162 | Whether a section reproduces a root under either rule. |
| MerkleTree.SectionInclusionPath | src/ergo-exhaustion.ts:195-205 | A path is returned for every matching section, and what is returned a reader takes. |
| MerkleStack.TreeOps | src/ergo-exhaustion-prover.ts:137-145 | The loops give the eager-merge, lone-lift program, which pushes the leaves in order and leaves the level-by-level root, with at most floor(log2 n) + 1 live entries. |
| MerkleStack.StackSuffices | src/ergo-exhaustion-prover.ts:21-21 | The stack of 18 holds every section of fewer than 2^18 leaves. |
| SubjectIndex.PathRoot | src/ergo-exhaustion.ts:78-87 | The root a path gives for a key, or nothing exactly for a malformed path. |
| SubjectIndex.PathGivesMapRoot | src/ergo-exhaustion.ts:78-87 | A key's leaf climbed over its siblings is the map's root. |
| SubjectIndex.AppendMovesPath | src/ergo-exhaustion.ts:136-151 | An entry moves only the nodes over its key. |
| SubjectMapStore.SubjectMap.Append | src/ergo-exhaustion.ts:136-151 | The node store updated in place is the full 2^32-leaf tree of the longer history. |
| SubjectMapStore.SubjectMap.AppendBlock | src/ergo-exhaustion.ts:120-135 | A block's scanned outputs are appended in order, each with the path that its key had until then; a block past the last height, or with an id of another width, changes nothing. |
| SubjectMapStore.SubjectMap.Path | src/ergo-exhaustion.ts:153-158 | The path given is the key's own: its count, chain and siblings. |
| SubjectMapStore.SubjectMap.Root | src/ergo-exhaustion.ts:114-115 | The root given is the full tree's. |
| SubjectMapStore.SubjectMap.Entries | src/ergo-exhaustion.ts:160-163 | The key's entries after the first given number. |
| SubjectReading.AcceptedPathIsTrue | src/ergo-exhaustion.ts:403-411 | Where the sponge does not collide on what was hashed, a path at the map's root is the key's true path. |
| SubjectReading.ChainsBind | src/ergo-exhaustion.ts:54-57 | Chains of one length from one value end alike only over the same entries. |
| SubjectReading.AcceptedEntriesAreTrue | src/ergo-exhaustion.ts:424-438 | Entries that carry the chain from a true prefix to the leaf are exactly the key's others. |
| SubjectRead.ReadKey | src/ergo-exhaustion.ts:403-439 | The checks of path, kept tuple and entries in their order, and exactly what each refusal means. |
| SubjectRead.CheckedReadIsTrue | src/ergo-exhaustion.ts:403-439 | A checked read, from nothing or from a true kept tuple, took exactly the key's true entries since, and what it keeps is true. |
| SubjectRead.TrueAnswerIsTaken | src/ergo-exhaustion.ts:403-439 | A true answer passes the checks exactly where the count and the fields fit their widths. |
| Disagreement.Disagrees | src/ergo-exhaustion.ts:487-507 | The indexed look-up finds a key that disagrees exactly where one does. |
| Disagreement.TruthfulMapNeverDisagrees | src/ergo-exhaustion.ts:487-507 | Against a map built from the blocks no transaction at its place is ever evidence. |
| Disagreement.FalseMapDisagrees | src/ergo-exhaustion.ts:487-507 | Against any other list, a framed transaction is evidence exactly where the list names other entries at its place than the true map does. |
| SuccinctRead.AcceptedReadIsNative | src/ergo-exhaustion.ts:400-461 | Whatever path, entries and transactions a supplier sends, an accepted read over a true fold gives exactly the objects that attributing every transaction of every block of the window gives, in order, and keeps a true tuple. |
| ReadWitness.AcceptedReadHappens | src/ergo-exhaustion.ts:400-461 | A digest, a sponge, a block and an answer with one transaction fetched that meet every hypothesis of the accepted read. |
| ReadWitness.PathsHappen | src/ergo-exhaustion.ts:179-225 | Two leaves, one path and one digest that meet every hypothesis of what an accepted path proves. |
| SuccinctRead.TrueAnswersAreTaken | src/ergo-exhaustion.ts:449-456 | No true transaction whose path gives the root is refused, as evidence or otherwise. |
| SuccinctRead.ObjectHasEntry | src/ergo-exhaustion.ts:441-447 | Every transaction that gives an object of the subject has an entry of it in the map. |
| SuccinctRead.FetchedIsTrue | src/ergo-exhaustion.ts:449-455 | A transaction taken at a place is the section's own transaction there. |
| SuccinctRead.ReadSubject | src/ergo-exhaustion.ts:400-461 | The read gives objects exactly where the key's checks pass and every wanted place is answered; then each wanted transaction once, in order of height and position, with its objects. |
| ExhaustionServer.ExhaustionServer.Keep | src/ergo-exhaustion-server.ts:121-139 | Blocks go to the map ahead and are kept, in order. |
| ExhaustionServer.ExhaustionServer.Cut | src/ergo-exhaustion-server.ts:121-139 | A broken server refuses; a pending period is given again; otherwise exactly well-formed blocks within the last height become the pending period. |
| MapBinding.RootBindsEntries | src/ergo-exhaustion.ts:136-151 | Where the sponge separates what two maps hashed, they have one root if and only if every key has the same entries in both. |
| MapBinding.SameEarlier | src/ergo-exhaustion.ts:120-135 | Maps of blocks that have the same entries for every key had them at every earlier block. |
| ExhaustionServer.ExhaustionServer.Seal | src/ergo-exhaustion-server.ts:230-243 | The proved period becomes the latest fold and is appended to the served map, which ends as the fold does where nothing collides. |
| ExhaustionServer.ExhaustionServer.ServedIsAhead | src/ergo-exhaustion-server.ts:206-220 | Unbroken, the server answers from a map that has for every key, at every block of the latest fold, what the map ahead has: where nothing collides equal roots at an adoption are enough, and every period sealed since keeps it. |
| ExhaustionServer.ExhaustionServer.ServedEnds | src/ergo-exhaustion-server.ts:206-243 | Unbroken, the served map ends as the latest fold does, after an adoption, and where nothing collides after every period sealed. |
| ExhaustionServer.ExhaustionServer.CheckFold | src/ergo-exhaustion-server.ts:170-192 | The checks before adoption, together, are exactly that the fold is adoptable. |
| ExhaustionServer.ExhaustionServer.Adopt | src/ergo-exhaustion-server.ts:170-222 | An adoptable fold is taken exactly where a second and a third reading of its blocks each give its root: a block lost at either breaks the server, so does another root, a disagreement at the second and a failed reading at the third; anything else changes nothing. |
| ExhaustionServer.ExhaustionServer.FoldBelow | src/ergo-exhaustion-server.ts:245-248 | The latest fold at or below a height, whose inputs end the blocks of the map ahead there. |
| ExhaustionServer.ExhaustionServer.Key | src/ergo-exhaustion-server.ts:250-254 | An unbroken server answers its latest fold at every moment, a period pending or not, with the key's true path and entries in the blocks it served. |
| ExhaustionServer.ExhaustionServer.AnswersAreTaken | src/ergo-exhaustion-server.ts:250-254 | Where nothing collides such an answer of an unbroken server is taken by a reader holding nothing, or a tuple true of the map at an earlier block, exactly where counts and fields fit their widths. |
| ExhaustionServer.ExhaustionServer.Transaction | src/ergo-exhaustion-server.ts:256-263 | A kept block's transaction comes with a path a reader takes, for every section that reproduces its root. |
| ScanLimbs.RawsAreFound | src/ergo-scan.ts:159-188 | From a reachable state every emitted subject's limbs are below 2^128 and are what the scan finds. |
| ScanLimbs.ShapeLimbs | src/ergo-scan.ts:190-194 | The two limbs are the two halves of the subject's bytes. |
| ExhaustionPeriod.PeriodStreams | src/ergo-exhaustion-prover.ts:148-165 | The slots and operations of a period, given exactly where every block authenticates. |
| ExhaustionPeriod.CutTree | src/ergo-exhaustion-prover.ts:152-161 | A section's operations under the rule that gives its root, nothing where neither does. |
| ExhaustionEnds.TransactionStreamRuns | src/ergo-exhaustion-prover.ts:193-227 | The transaction stream over any sections ends between transactions, every id chained and every shaped output emitted. |
| ExhaustionEnds.HeaderStreamRuns | src/ergo-exhaustion-prover.ts:231-266 | The tree-and-header stream of authenticated blocks applies throughout and ends between blocks at the last header. |
| ExhaustionEnds.PeriodCarries | src/ergo-exhaustion-prover.ts:193-227 | The circuits' scan and the map agree on a period's entries one for one. |
| ExhaustionEnds.MapStreamRuns | src/ergo-exhaustion-prover.ts:269-288 | The map stream ends at the root of the longer history with the chain over its entries. |
| ExhaustionEnds.PeriodEnds | src/ergo-exhaustion-prover.ts:341-343 | Every authenticated period, whatever bytes it holds, reaches the state that a fold takes, at the last header and at the root over every entry. |
| ExhaustionLeaves.EmitsBounded | src/ergo-exhaustion-prover.ts:205-215 | A leaf's slots emit at most four entries each. |
| ExhaustionLeaves.TransactionLeaf | src/ergo-exhaustion-prover.ts:193-227 | The leaf's end state and emitted list, refused exactly where the list overflows, which its own list never does. |
| ExhaustionLeaves.TreeLeaf | src/ergo-exhaustion-prover.ts:231-266 | The operations one by one in place are the stream's run. |
| ExhaustionLeaves.MapUpdateLeaf | src/ergo-exhaustion-prover.ts:269-288 | Climbing each update's path in place is the stream's run. |
| ExhaustionLeaves.LeavesOf | src/ergo-exhaustion-prover.ts:311-333 | For all leaf sizes of at least one the schedule ends; its leaves join end to start; its end state is a period's end and is a function of the start, the blocks and the updates alone, so neither the sizes nor the interleaving matter. |
| HeaderTree.ForkIsHighest | src/ergo-headers.ts:518-523 | The fork lies on the header's path and no header of the best chain on that path is higher. |
| HeaderStore.HeaderStore.AncestorAt | src/ergo-headers.ts:507-516 | The walk that jumps by height on the best chain gives the ancestor by parent links, and nothing out of range. |
| HeaderStore.HeaderStore.ForkOf | src/ergo-headers.ts:518-523 | The walk down gives the fork. |
| HeaderStore.HeaderStore.RequiredAfter | src/ergo-headers.ts:524-537 | The difficulty required after a header; the context always holds the ancestors it reads. |
| HeaderStore.HeaderStore.Add | src/ergo-headers.ts:580-600 | A header is accepted exactly by the rules or refused with nothing changed; the best tip moves only to strictly more score, by at most one run set in the rows. |
| HeaderStore.HeaderStore.Promote | src/ergo-headers.ts:540-550 | The path above the fork replaces the old top, whose headers become side headers; the run set is not empty, leaves no gap and begins no lower than the first height. |
| HeaderStore.HeaderStore.Prune | src/ergo-headers.ts:636-674 | Kept are exactly the best chain, the protected paths and what descends from the final header; refused with nothing changed otherwise. |
| HeaderStore.StaysWithParent | src/ergo-headers.ts:645-673 | What stays stays with its ancestors. |
| HeaderStore.HeaderStore.Audit | src/ergo-headers.ts:564-579 | After any sequence of additions and prunings the audit passes and counts every header. |
| JournalRows.SetBestAgrees | src/ergo-store.ts:207-214 | The journal's best-chain change is memory's if and only if the run is not empty and not below the first height, or is empty and refused by both. |
| JournalRows.SetBestDiffers | src/ergo-store.ts:207-214 | Both ways they differ, on a chain of two: an empty run that memory takes, and a run from below that memory refuses. |
| JournalRows.PromotionsAgree | src/ergo-store.ts:207-214 | Over any runs that each fit the chain so far, memory and the journal set the same rows and refuse nothing. |
| JournalRows.StoreRowsAgree | src/ergo-store.ts:207-214 | After any additions and prunings of a store, the runs it set give the same rows through the journal and in memory, none refused, and the best chain there is the store's. |
| JournalRows.JournalHeaderRows.Get | src/ergo-store.ts:181-189 | A row read through the overlay is the simple map's. |
| JournalRows.JournalHeaderRows.Put | src/ergo-store.ts:190-193 | Putting through the overlay is putting into the simple map. |
| JournalRows.JournalHeaderRows.Delete | src/ergo-store.ts:194-197 | Deleting through the overlay is deleting from the simple map. |
| JournalRows.JournalHeaderRows.BestAt | src/ergo-store.ts:198-203 | The best chain read by height is the simple list's. |
| JournalRows.JournalHeaderRows.SetBest | src/ergo-store.ts:207-214 | The changed tail over the database is the specified best chain, refused just where the specification is. |
| JournalRows.JournalHeaderRows.Sides | src/ergo-store.ts:215-215 | The side ids are the simple set's. |
| JournalRows.JournalHeaderRows.Write | src/ergo-store.ts:220-233 | After the write the database holds what is read, and no read has changed. |
| JournalRows.JournalHeaderRows.Written | src/ergo-store.ts:235-238 | After the commit the overlay is empty, and no read has changed. |
| JournalRows.ChangesJoin | src/ergo-store.ts:207-214 | One change over another is one change. |
| PoolDisk.TornKeeps | src/browser/files.ts:156-168 | A torn write of the older copy leaves every claim as it was. |
| PoolDisk.WriteRecovers | src/browser/files.ts:158-168 | One header write: untouched or torn, the names before; whole, the names after, even where another member still claims a name it takes. |
| PoolDisk.KeptNamesKeepOwners | src/browser/files.ts:257-264 | Writing a member the names it owns changes no name's owner. |
| FilePool.FilePool.WriteHeader | src/browser/files.ts:158-168 | The older copy is written and flushed before the names are taken; a header too long is refused with nothing written; a failed write fails the pool. |
| FilePool.FilePool.Release | src/browser/files.ts:171-175 | A member emptied and free again, or the pool failed. |
| FilePool.FilePool.Create | src/browser/files.ts:323-339 | Made, or refused with the error of the first check that fails; every crash point before or after; and the member taken is free again or named, or the pool failed, exactly unless a name too long for a header is refused. |
| FilePool.LosesMember | src/browser/files.ts:323-339 | A concrete loss: a pool of one free member refuses a name of two thousand letters as invalid, and the member is neither free nor named, with the pool not failed. |
| FilePool.FilePool.Unlink | src/browser/files.ts:378-385 | The name goes, the file with its last one once no opening holds it; every crash point before or after. |
| FilePool.FilePool.Link | src/browser/files.ts:388-395 | A second name, or the error of the first check that fails; every crash point before or after. |
| FilePool.FilePool.Rename | src/browser/files.ts:398-415 | Renamed, or the error of the first check that fails; the moved file's header and then the replaced one's, and every crash point, the one between the two writes included, is before or after. |
| FilePool.FilePool.Closed | src/browser/files.ts:351-355 | A nameless member is freed at its last close and no name changes its owner. |
| FilePool.FilePool.MountAgrees | src/browser/files.ts:255-264 | Between operations the newest headers' claims are the names in memory, no two members claim one, and a mount recovers them. |
| FileMount.MountIsOne | src/browser/files.ts:257-264 | A disk mounts to one map of names only. |
| FileMount.Mount | src/browser/files.ts:219-277 | Names by sequence number, emptied and rewritten headers included: the mounted names are the disk's, and every crash of the mount's own repair mounts to the same. |
| FileMount.CrashMountsWhole | src/browser/files.ts:240-264 | A crash at any point of an operation mounts to the names before it or the names after it. |
| FileLocks.LockExcludes | src/browser/sqlite-files.ts:111-124 | However locks are asked for, at most one connection of a file is at reserved or above and an exclusive one is alone. |
| FileLocks.PendingGetsIt | src/browser/sqlite-files.ts:111-124 | While one connection waits at pending no other is granted any lock, and it is granted the exclusive one when the others have let go. |
| FileLocks.Files.Lock | src/browser/sqlite-files.ts:111-124 | The answer by the lock record is the answer by the connections' levels, and the record stays what the levels say. |
| FileLocks.Files.Unlock | src/browser/sqlite-files.ts:125-134 | The level falls, the record with it. |
| FileLocks.Files.CheckReservedLock | src/browser/sqlite-files.ts:135-139 | Whether some connection of the file is at reserved or above. |
| FileLocks.SlotsLockedExclude | src/browser/sqlite-files.ts:170-193 | A slot's writer excludes every other reader and writer. |
| FileLocks.Files.ShmLock | src/browser/sqlite-files.ts:170-193 | An error exactly where no connection mapped the memory; busy exactly where another connection holds what excludes it; otherwise the range is held, and the counts are the numbers of holders. |
| FileLocks.Files.ShmUnlock | src/browser/sqlite-files.ts:170-181 | Exactly the range's bits of that kind are let go, or the same error. |
| FileLocks.Files.ShmUnmap | src/browser/sqlite-files.ts:195-207 | All bits are let go, and the last connection drops the memory; the records then agree exactly where nobody else holds a bit, as always where bits are held by mapping connections only. |
| FileLocks.Files.Close | src/browser/sqlite-files.ts:64-83 | A connection's file lock goes with it and no other's changes; the records still agree exactly where it held no shared-memory bit. |

## Left out

- The departures of the authority, recovery and fault models, their random explorer and `model/pool-fault-historical.ts`: they exist to break the properties.
- The rest of `model/pool-recovery.ts` and `model/pool-fault.ts` beyond the clock, receipt silence and the evaluation session: publications with force, adoption of a gap's block, non-service counts, receipt classification.
- The honest `Service` of `model/pool-authority.ts`: an operator that signs anything is stronger; evidence bytes beside statements are not part of the model.
- `import`'s visited set (`model/pool-authority.ts:447-457`): a parent's own parents are checked each time it is met, which changes no verdict.
- `model/sequencing.ts`, whose checks depend on inclusion delays.
- FaultEvaluation.FaultWorld.Include: signatures, the lag and one-in-flight are the caller's; identities are distinct, as the source's serial names are.
- The cryptography: SHA-256, Blake2b rounds, Poseidon2, Schnorr proofs of the publisher, Autolykos, circuits. Publication proofs are given by width.
- Key generation, supplier walks, the outbox and its persistence in `src/ergo-publisher.ts`, and `ErgoVenue.sync`.
- Asynchrony of `src/ergo-exhaustion-server.ts`: the queue's turns are the methods, and a caller's block source is read as one function of the height for each of the three readings an adoption makes.
- SuccinctRead.ReadSubject: the supplier's answers are a function of the place, and JavaScript type checks on them are not part of the model.
- Leaf inputs, challenges and the fold's public inputs of `src/ergo-exhaustion-prover.ts`: the state each leaf ends in is modelled, not the circuit's encoding of it.
- ExhaustionLeaves.LeavesOf: how the two streams' progress is compared in floating point is an arbitrary choice, which only makes the statement stronger.
- The entry cache and row parsing of `src/ergo-headers.ts`, and difficulty as exact arithmetic: it is an arbitrary positive function of the ancestors an epoch apart.
- SQL, paths and their normalisation, UTF-8 lengths of names (a name's length is given), the refill's asynchrony, file contents beyond what a header write leaves alone.
- FilePool.FilePool.Rename: a torn header copy is one that does not decode; that a torn copy never decodes rests on its checksum.
- FileLocks.Files.Lock: callers take shared before anything stronger and unlock to shared or none, as the library does.
- FileLocks: shared-memory regions and a failing removal at close are not part of the model; held bits are a set.
- FrameStream.FrameFeed.Feed: a feed that has refused or thrown is not fed again; a reader asks for nothing only finitely often before it asks for something or ends.
- HeldRecord.HeldCommitments: record bytes are numbers in their order, and the record lengths of the frame are not checked.
- ReplacementWalk.ReplacementChain: admission of records and type checks of the arguments are the caller's.
- The other codecs of `src/bytes.ts`, `src/record-range.ts`, `src/venue-records.ts` and `src/ergo-exhaustion-wire.ts`, and everything that runs over a network, a process or a browser: they would add only easy members.
