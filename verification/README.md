# BinaryCoin in Dafny

A model of the BinaryCoin proof-of-work node and proofs about it: what its ledger conserves, what its chain object keeps
over every run, what two nodes agree on after they synchronise, what a disk holds after a commit is cut short, what a
mempool and a wallet may rely on, and that its encodings undo each other. `dafny verify dfyconfig.toml` checks it all.

## How it is put together

Objects that the program updates in place are classes with the same fields (`UtxoSet`, `TestnetChain`,
`SideBranchStore`, `CandidateSync`, `DurableChainStore`, `TestnetMempool`, `HdWalletBackend`, the readers and writers,
the JSON `Parser`). Loops are loops. A method is proved against a specification function that gives its result, its
exact failure and the state it leaves behind, also where that is a half-finished one, and lemmas then say what the
function means in terms that do not mention its body. Exceptions are `Result` values.

| files | what they hold |
|---|---|
| `Arithmetic`, `Orders`, `Errors`, `Amounts`, `Transactions`, `Scripts`, `Blocks` | values, orders, constants, signatures, proof of work |
| `Utxo`, `UtxoRules`, `Merkle`, `Validation` | applying a transaction, roots, validating a chain |
| `Ledger`, `BlockRules`, `History`, `Identity` | conservation, what extends a chain, signed and single spends, header hashes as names |
| `Mining`, `ChainState`, `TestnetChains`, `Reorganisation`, `Reindexing` | the chain object and its runs |
| `Locator`, `Headers`, `BranchStore`, `Sync` | headers-first synchronisation with one peer |
| `CandidateSteps`, `CandidateHopes`, `Retention`, `Candidate`, `Completion` | the candidate chain of a long session |
| `Serialize`, `TransactionCodec`, `BlockCodec`, `Wire`, `Texts`, `StoreFormats` | byte and text forms |
| `RecordLog`, `Storage`, `Durability` | the record log, interrupted commits, restarting |
| `Mempool`, `Fees`, `Payments`, `Wallet`, `Sending` | unconfirmed transactions and payments |
| `Checksums`, `BitGroups`, `Addresses` | Bech32 addresses |
| `JsonText`, `JsonRoundTrip`, `JsonStrings` | JSON |

## What is assumed

Hashes and the elliptic curve are uninterpreted constants, so everything is proved for whatever they compute. Where a
result needs them to be ideal, it says so in a hypothesis about the values at hand, never about all values:

- `CollisionFree` and `DistinctCoinbases` (`History`): identifiers do not collide on the chain's transactions, and
  coinbases from height 1 on have different identifiers. Validation does not look at the height inside a coinbase, so
  this is a real condition; `Mining.CoinbasesDiffer` shows that the node's own coinbases are different transactions.
- `HeadersApart`, `SameBodies`, `NoClash` (`Identity`, `Sync`): header hashes do not collide on the two chains, a header
  names one body. `Identity.HeaderIdentifiesBlock` derives the second, genesis included, from ideal hashing and the
  absence of double spends.
- `Separated` (`Merkle`): no collisions among the leaves and pairs of the two trees, and no pair hash is a leaf.
- `SignerWorks` (`Scripts`): a signature made for a key and digest verifies and is at most 72 bytes long.
- `NoImpostor` (`Storage`): the record filed under a committed block's header hash is that block.
  `Durability.CleanLogHasNoImpostor` derives it for logs that consist of records, and `ReadableHasNoImpostor` for any log,
  torn records and all, whose readable records are the blocks that their hashes name (`NamesBlocks`).

Hash texts are modelled as the 256-bit numbers that their 64 digits denote, except in index entries and manifests, where
they stay text. Clock readings, the outcome of a save, what a store hands back, and a peer's messages are parameters.

## Things that turned out differently than one might expect

- README.md:104-106 of the repository describes dynamic difficulty; the code enforces one fixed value (src/chain.cpp:217),
  and so does the model. Work of verified chains is therefore their length (`Ledger.WorkComparesAsLength`).
- A failed `apply_transaction` leaves the map alone except after a colliding output: then the inputs are gone and earlier
  outputs stay (`UtxoRules.FailedApply`). `revalidate` catches exactly such failures, so a pool whose identifiers are not
  fresh can end up keeping a transaction that cannot be applied (`Mempool.StaleOutputKeepsOrphan`). It cannot happen
  when no coin bears the identifier of an unconfirmed transaction of the pool (`Mempool.RevalidatedReplays`), which a
  settled chain guarantees (`Mempool.SettledCoinsConfirmed`). No call in the program does otherwise: all pass the coins
  and identifiers of one chain (src/net.cpp:1498, 1869, 2212).
- An active candidate can be lost for the rest of the session, because nothing but a successful activation ends it. What
  it is like then shows in its own fields (`Lost`): its headers came to the announced height without the announced tip or
  above it (`Missed`); or they are at the tip, but the bodies were never asked for, because the batch that brought the tip
  broke behind it or a load failed (`Stranded`); or activation was attempted and failed, be it only for a failed save
  (`Stalled`); or the announced work is not that of any chain of the announced height (`FalseWork`). `OnStatus`,
  `OnHeaders` and `OnBlock` say exactly when a message brings this about, and `Session` that it is final.
- A candidate can also be hopeless without showing it: no verified chain as announced has its prefix, headers and filed
  bodies, for instance because the side store held another body under a header hash, or the peer made up the headers.
  That is final as well (`CandidateHopes.HopelessStays`, `Session`). Conversely, a candidate that is not lost is completed
  by the remaining headers and bodies of any such chain, if what chain and side store will contribute are that chain's
  blocks and loading, saving and refreshing work (`Completion.Finish`); once bodies have been requested, such a chain
  exists for every candidate that is not hopeless (`Completion.RequestedCanFinish`).
- A commit that is stopped within the first sixteen bytes of a record leaves a store that can take in no new block any
  more: over any run of further commits, finished or stopped, the scan never gets past those bytes
  (`Durability.ShortTailBlocksCommits`), and a commit succeeds only if the scan finds all of its blocks
  (`Storage.DurableChainStore.Commit`). What was committed stays readable.
- An odd list of transactions and the same list with its end doubled have one Merkle root, whatever the hash
  (`Merkle.OddListDoubled`); lists without repeats are identified by their roots (`Merkle.RootIdentifiesList`).
- `generate` does not roll back. A failed one leaves a settled chain settled exactly if its first round fails or only its
  save; otherwise the blocks mined so far stand beside a map that is not theirs (`ChainState.GeneratedFailure`).

## Model

| member | source | states |
|---|---|---|
| Amounts.IssuedByBound | src/amount.hpp:10-30 | for every height, all subsidies up to it together stay strictly below MAX_MONEY, truncation included |
| Amounts.SubsidyMeaning | src/amount.hpp:20-30 | at every height the initial subsidy divided by two to the number of completed intervals, rounded down; nothing exactly from the 33rd halving on |
| Transactions.ValidateStructure | src/transaction.cpp:184-202 | a transaction passes exactly when its item counts, script sizes, values and total lie within the limits |
| Transactions.SumOutputs | src/utxo.cpp:15-24 | the total of the outputs, refused exactly when a value or the total leaves the money range |
| Scripts.P2pkRoundTrip | src/script.cpp:10-31 | a script yields a key exactly when it is the script made for that valid key |
| Scripts.PreimageCommits | src/script.cpp:33-45 | two inputs have one signing preimage exactly if their place, the script they spend, and everything in their transactions but the script signatures agree |
| Scripts.SignatureHashIgnoresScriptSigs | src/script.cpp:33-45 | rewriting the script signature of any input changes no input's signature hash |
| Scripts.SigningKeepsOtherInputs | src/script.cpp:47-78 | signing one input never changes whether another input's signature is accepted |
| Scripts.SignedInputVerifies | src/script.cpp:47-78 | an input signed with the key of the script it spends is accepted, in at most 74 bytes, if the signer works |
| Scripts.VerifyMeaning | src/script.cpp:62-78 | an input is accepted exactly if its script signature pushes a DER signature with the SIGHASH_ALL suffix that the curve accepts for this transaction's digest and the key of the script it spends |
| Utxo.SumCheckedInputs | src/utxo.cpp:34-50 | the running total of the inputs, or the failure of the first input that fails, in the order of its checks |
| Utxo.ApplyTransaction | src/utxo.cpp:26-68 | the fee or the exact failure, and the exact map left behind in either case |
| Utxo.AddCoinbaseOutputs | src/chain.cpp:52-66 | the map with the coinbase's outputs, and what is left of it after a collision |
| UtxoRules.CheckInputsMeaning | src/utxo.cpp:34-50 | the input checks succeed exactly when all inputs are different, unspent, mature, signed, and worth at most MAX_MONEY |
| UtxoRules.ApplyMeaning | src/utxo.cpp:26-68 | a transaction is applied exactly when it is acceptable; then the fee is inputs minus outputs and the map loses the spent coins and gains the created ones |
| UtxoRules.FailedApply | src/utxo.cpp:56-66 | a failure leaves the map untouched, or, after the k-th output collides, without the inputs and with the first k outputs |
| UtxoRules.ApplyConserves | src/utxo.cpp:26-68 | the value that leaves the map is exactly the fee, between 0 and MAX_MONEY |
| UtxoRules.InputTotalNeverOverflows | src/utxo.cpp:48 | on a map worth at most MAX_MONEY the input-total guard never fires, whatever the transaction |
| Merkle.MerkleRootRaw | src/merkle.cpp:7-29 | the loop computes the root by padded levels; it fails for no transactions and for the first one of invalid structure |
| Merkle.EqualRoots | src/merkle.cpp:14-28 | under separated hashing, of two lists with one root the longer extends the shorter and, if longer, repeats an element of it |
| Merkle.RootIdentifiesList | src/merkle.cpp:7-29 | under separated hashing, lists without repeats that have one root are equal |
| Merkle.OddListDoubled | src/merkle.cpp:15 | doubling the end of an odd list keeps its root, for every hash function |
| Merkle.RootSplits | src/merkle.cpp:14-28 | a tree pairs the root of its largest full left half with the top of the rest, raised by pairing its last hash with itself |
| Blocks.CalculateChainwork | src/chain.cpp:258-262 | the sum of the block proofs, or the failure of the first invalid difficulty |
| Blocks.HarderIsMoreWork | src/pow.cpp:18-47 | a smaller target is never worth less, and every valid difficulty is worth at least one hash |
| Blocks.TargetMeaning | src/pow.cpp:18-41 | for every 32-bit difficulty, coefficient times a power of 256, rounded down, refused exactly with the sign bit set or outside 1 to 2^256 - 1 |
| Blocks.ProofMeaning | src/pow.cpp:43-47 | the proof is 2^256 divided by the number of digests up to the target, rounded up |
| Blocks.WorkMeaning | src/pow.cpp:49-57 | a hash shows the testnet's work exactly if it does not exceed the target |
| Blocks.UniformChainWork | src/chain.cpp:258-262 | a chain of one difficulty above genesis is worth its length times the block proof |
| Validation.VerifyBlocks | src/chain.cpp:193-254 | the verdict on a chain: which block fails which check first, or the map that the pass folds |
| Validation.BuildUtxoSet | src/utxo.cpp:70-93 | the map rebuilt from a chain's blocks, or the first failure |
| Ledger.Conservation | src/chain.cpp:209-253 | the coins of every verified chain are worth exactly the subsidies of heights 1 to n, below MAX_MONEY |
| Ledger.OverflowGuardsNeverFire | src/chain.cpp:239-252 | on a verified chain of any height, for any next block, neither the input, the block-fee nor the reward guard fires |
| Ledger.RebuildAgrees | src/utxo.cpp:70-93 | rebuilding the map of a verified chain gives the map that validation folded |
| Ledger.VerifiedHeaders | src/chain.cpp:210-226 | heights, proof of work, fixed difficulty, links and strictly increasing times of every block of a verified chain |
| Ledger.VerifiedShowsWork | src/chain.cpp:210-216 | no block of a verified chain has a header hash above the target |
| Ledger.PrefixOfVerified | src/chain.cpp:193-254 | every non-empty prefix of a verified chain is verified, with the map folded so far |
| Ledger.WorkFits | src/pow.cpp:59-66 | the work of every verified chain fits the 256-bit text in which it is announced |
| Ledger.WorkComparesAsLength | src/chain.cpp:258-262 | verified chains compare by work exactly as they compare by length |
| BlockRules.ConnectMeaning | src/chain.cpp:239-253 | transactions connect to a map exactly if they lead to it by the ledger's rules, one after the other, and the coinbase claims at most subsidy and fees and creates new outputs |
| BlockRules.NextBlock | src/chain.cpp:209-253 | a block extends a verified chain exactly if its header follows, its transactions are in shape and they connect, and the map is then the one they lead to |
| History.NoDoubleSpend | src/utxo.cpp:26-68 | in a verified chain with distinct coinbases all identifiers differ, every outpoint is created at most once and spent at most once after that, and no coinbase output before its height plus 100 |
| History.EverySpendSigned | src/utxo.cpp:34-50 | in every verified chain each input of each transaction but the coinbases spends an output of an earlier transaction and carries a signature of the whole transaction by the key of that output's script |
| Identity.SamePlace | src/chain.cpp:220-226 | a header hash shared by two verified chains stands at one height, and so does everything below it |
| Identity.NothingSharedBeyondFork | src/chain.cpp:346-351 | beyond the fork no block of one verified chain occurs anywhere in the other |
| Identity.BlockIdsDistinct | src/chain.cpp:239-252 | a chain without double spends lists no transaction twice in a block |
| Identity.HeaderIdentifiesBlock | src/chain.cpp:235-237 | two blocks of verified chains without double spends that share a header hash are one block |
| Mining.EncodeScriptNumber | src/transaction.cpp:114-134 | the loop writes the sign-and-magnitude bytes of any 64-bit number |
| Mining.ScriptNumberRoundTrip | src/transaction.cpp:114-134 | every 64-bit number is read back from its script bytes |
| Mining.CoinbaseWellFormed | src/transaction.cpp:147-182 | a coinbase is made exactly for rewards in range and scripts of legal size, and is then a valid coinbase paying the reward |
| Mining.CoinbaseContents | src/transaction.cpp:147-182 | a coinbase pushes its height and one byte of the marker, and has one output of the reward to the script |
| Mining.CoinbasesDiffer | src/transaction.cpp:147-182 | coinbases made for different heights are different transactions, whatever their rewards and scripts |
| Mining.GenesisMeaning | src/block.cpp:65-89 | genesis can be made exactly if the locked key is valid and the hash functions agree with the two locked hashes; then it passes validation: root, work and coinbase are right for every hash function |
| Mining.Search | src/block.cpp:124-135 | the nonce and time loop ends; it returns the first solution in time-then-nonce order, and fails exactly if there is none |
| Mining.FirstTryTime | src/block.cpp:117-124 | the search starts with nonce 0 at the later of the clock reading and the time after the previous block's |
| Mining.SearchIsFirst | src/block.cpp:124-135 | nothing tried before what the search finds is a solution |
| Mining.MineTestnetBlock | src/block.cpp:95-136 | the specified block, or the exact refusal, for all arguments and clock readings |
| Mining.MinedBlockMeaning | src/block.cpp:95-136 | a mined block links back, commits to coinbase and transactions by their root, claims exactly subsidy plus fees, has version 1 and a later time that is not before the clock reading, and carries the work |
| Mining.MinesExactly | src/block.cpp:95-136 | mining succeeds exactly for fees and reward in range, a payable script, well-formed transactions, a valid difficulty and a header that a remaining time and nonce solve |
| ChainState.MinedBlockVerifies | src/chain.cpp:384-423 | a block mined on a verified chain, while unsigned time has room, extends it to a verified chain with the mined map |
| ChainState.RoundExactly | src/chain.cpp:393-419 | on a settled chain a round succeeds exactly if the pending transactions apply, the script can be paid, a remaining time and nonce carry the work and the coinbase's output is new |
| ChainState.GeneratedSettles | src/chain.cpp:384-423 | from a settled chain, a successful generate extends it by count blocks and leaves it settled; a failure keeps the old map unless only the store failed; validation refuses nothing while time has room |
| ChainState.GeneratedFailure | src/chain.cpp:384-423 | a failed generate leaves a settled chain settled exactly if its first round fails, or if everything but the save succeeds |
| ChainState.GeneratedContents | src/chain.cpp:393-419 | the first generated block carries exactly the pending transactions, the others none, and every coinbase pays the subsidy of its height and the fees to the script |
| ChainState.StartSettles | src/chain.cpp:100-126 | any start that succeeds ends with a settled chain; without a store only the making of genesis or the save can fail, never its validation |
| ChainState.LoadExactly | src/chain.cpp:165-187 | a load succeeds exactly with a verified chain whose snapshot is the folded map, or is empty and can be replaced by it |
| ChainState.AppendExactly | src/chain.cpp:312-335 | given a store that saves, blocks are appended exactly if the longer chain is verified; then the state is that chain with its folded map, and otherwise what it was |
| TestnetChains.TestnetChain.Load | src/chain.cpp:165-187 | the whole new state for anything the store hands back; a load that succeeds leaves a verified chain with its folded map |
| TestnetChains.TestnetChain.Initialize | src/chain.cpp:100-126 | the whole new state of a first start, from genesis or from the store; success leaves a settled chain |
| TestnetChains.TestnetChain.AppendBlocks | src/chain.cpp:312-335 | the whole new state, after starting a chain that has no blocks; on a chain with blocks and a store that saves it succeeds exactly if the longer chain is verified; every failure, of linking, verdict or saving, restores both fields exactly |
| TestnetChains.TestnetChain.ActivateIfMoreWork | src/chain.cpp:337-382 | the report and the whole new state, and exact restoration when saving fails |
| TestnetChains.TestnetChain.Generate | src/chain.cpp:384-423 | the whole new state, also of a failure: the blocks mined so far stay, the map is only replaced by a validated one |
| TestnetChains.TestnetChain.Reindex | src/chain.cpp:267-310 | installs a settled chain of scanned records that no verified chain of those records exceeds in work; refuses, leaving everything alone, exactly without genesis or without any verified chain |
| TestnetChains.TestnetChain.IssuedSupply | src/chain.cpp:434-442 | on a settled chain the sum never overflows and equals the value of the coins |
| Reorganisation.RunKeeps | src/chain.cpp:312-423 | over any run of appends, activations and successful generations the chain stays settled and work never decreases |
| Reorganisation.ActivatesExactlyLonger | src/chain.cpp:337-382 | a candidate replaces a settled chain exactly when it is verified and longer, and otherwise nothing changes |
| Reorganisation.ForkHeightIsTrue | src/chain.cpp:346-355 | the reported fork is the longest shared prefix, and no block above it occurs in the other chain |
| Reorganisation.DisconnectedExactly | src/chain.cpp:358-366 | a transaction is handed back exactly when it was confirmed above the fork, is no coinbase and is nowhere in the new chain, in the order of confirmation |
| Reorganisation.ReportedWork | src/chain.cpp:337-382 | the report names the work of both chains, and a chain that is not replaced loses nothing |
| Reindexing.WalkToGenesis | src/chain.cpp:279-294 | the parent walk ends for any graph of parents, cycles included, with the chain from genesis or nothing |
| Reindexing.WalkRetraces | src/chain.cpp:279-294 | walking down from the tip of a verified chain made of records retraces the whole chain |
| Reindexing.FirstRecordCounts | src/chain.cpp:269-273 | of several records with one header hash the first counts |
| Reindexing.BestChain | src/chain.cpp:275-306 | the chosen chain is verified and has at least the work of every verified chain of the records; it fails exactly when there is none |
| Locator.LocatorShape | src/net.cpp:854-869 | for any chain that 64-bit indices address: starts at the tip, strictly descends, ends at genesis, at most 101 entries |
| Locator.LocatorEntries | src/net.cpp:854-869 | the k-th entry in closed form: ten steps of one, then doubling steps, down to genesis |
| Locator.MakeBlockLocator | src/net.cpp:854-869 | the loop lists exactly the hashes at those indices |
| Locator.LocateForkIndex | src/net.cpp:634-644 | the highest place of the first known hash, or genesis |
| Locator.LocatorQuality | src/net.cpp:634-644 | the located block is shared, never above the true fork, and at most twice as far below the tip |
| Headers.HeadersAfterLocator | src/net.cpp:646-661 | the loop's answer: blocks after the fork, at most 2000, up to the stop hash |
| Headers.AnswerIsNextBlocks | src/net.cpp:646-661 | without a stop hash it is exactly the next 2000 blocks, or all that are left |
| Headers.AnswerStops | src/net.cpp:650-658 | with a stop hash it ends with the first block of that hash, or at the limit or the tip if none comes before |
| BranchStore.SideBranchStore.PutMany | src/branch_store.cpp:53-64 | blocks are added in order unless their hash is taken |
| BranchStore.SideBranchStore.RemoveActive | src/branch_store.cpp:66-77 | the store without the active blocks, in the same order |
| BranchStore.PutKeeps | src/branch_store.cpp:53-59 | putting keeps hashes unique and what was there, and makes the block findable unless its hash was taken |
| BranchStore.PutAllMeaning | src/branch_store.cpp:53-64 | putting many keeps what was there, adds given blocks in their order, never a hash twice, and makes every one findable |
| BranchStore.WithoutMembers | src/branch_store.cpp:66-77 | exactly the inactive blocks stay |
| BranchStore.WithoutInOrder | src/branch_store.cpp:66-77 | in the order they had |
| Sync.AppendBatch | src/net.cpp:2115-2127 | a batch is taken in exactly when all of it continues what is there |
| Sync.CollectHeaders | src/net.cpp:2088-2140 | the loop ends for any peer; the headers lead from a fork to the announced tip; an honest peer yields all of its headers above the located fork |
| Sync.FetchBodies | src/net.cpp:2160-2188 | bodies are filed under their own hashes; an honest peer supplies every missing one |
| Sync.Assemble | src/net.cpp:2190-2194 | bodies in header order; with an honest peer's bodies, exactly its blocks above the fork |
| Sync.DownloadCandidate | src/net.cpp:2079-2198 | in a fair meeting no error: nothing to do if the client has more work or the same chain, else the server's chain |
| Sync.SyncFromPeer | src/net.cpp:2079-2209 | whatever the peer does and the store answers, the chain stays settled and loses no work, no block on the chain or in the side store is forgotten, and none is in both after a switch; a fair meeting ends with the server's chain if it has strictly more work and the client's own otherwise, and with all blocks of a server's chain of at least equal work known |
| Candidate.CandidateSync.StartSync | src/net.cpp:1434-1455 | a candidate begins with the active chain as prefix, within the height limit |
| Candidate.CandidateSync.OnStatus | src/net.cpp:1730-1746 | starts exactly when none is active and another tip with strictly more work is announced; the candidate is lost from the start exactly if the work is false |
| Candidate.CandidateSync.Attach | src/net.cpp:1606-1620 | the prefix is cut where the first header connects, or nothing changes |
| Candidate.CandidateSync.Push | src/net.cpp:1628-1640 | headers before the first that does not follow are kept, and exactly those |
| Candidate.CandidateSync.OnHeaders | src/net.cpp:1596-1655 | the whole effect of any batch: nothing if it does not connect, otherwise exactly the headers that follow are taken in, and a batch that follows as a whole is answered with a request for headers or bodies, with activation, or with a failure; and exactly when the candidate is lost by it |
| Candidate.CandidateSync.RequestedOversteps | src/net.cpp:1621-1645 | once bodies are requested, a connecting batch oversteps the announced tip exactly when its first header is later than the last one |
| Candidate.CandidateSync.FileKnown | src/net.cpp:1519-1531 | each header's body is taken from the chain, else from the side store, else noted as pending |
| Candidate.CandidateSync.OnBlock | src/net.cpp:1829-1886 | a requested body is refused, without effect, unless it has the header and height announced for its hash, and is filed otherwise, the last one leading to activation; any other block is ignored if known, offered to the chain if it extends the tip, or kept aside; and exactly when the candidate is lost by it |
| Candidate.CandidateSync.ActivateCandidate | src/net.cpp:1457-1510 | succeeds exactly when the assembled chain is as announced, chain and side store load, the chain accepts it and the mempool is refreshed; a failure keeps the candidate |
| Candidate.CandidateSync.Session | src/net.cpp:1569-1990 | over any messages the candidate stays well formed, the chain settled and never shorter; a candidate that is lost or hopeless stays so to the end and is never activated; no block of chain or side store is forgotten, if the candidate at the start, if any, begins with a part of the chain |
| Candidate.CandidateIsRun | src/net.cpp:1413-1455 | prefix and headers of a well-formed candidate are one hash-linked run from genesis with consecutive heights and increasing times |
| CandidateSteps.FalseWorkFails | src/net.cpp:1474-1481 | whatever headers and bodies come, no chain of the announced height fulfils an announcement of false work |
| CandidateSteps.AttemptForgets | src/net.cpp:1485-1495 | exactly which blocks an attempted switch loses from chain and side store together: none as long as the candidate's prefix is still part of the chain |
| Retention.MessageRetains | src/net.cpp:1457-1886 | while the candidate's prefix is a part of the chain it stays one, no message loses a block of chain or side store, and every block taken in without failure is in one of them |
| CandidateHopes.HopelessStays | src/net.cpp:1457-1886 | a candidate that no verified chain can complete stays so whatever message comes, and is not activated |
| CandidateHopes.NoHope | src/net.cpp:1474-1481 | a candidate whose headers miss the announced tip, or whose work is false, can be completed by no verified chain |
| Completion.Finish | src/net.cpp:1457-1886 | from an active candidate that is not lost and begins a verified chain as announced, the remaining headers and bodies of that chain lead to its activation |
| Completion.RequestedCanFinish | src/net.cpp:1457-1886 | once bodies are requested, a candidate that is not hopeless has a chain that completes it |
| Serialize.Output.AppendCompactSize | src/serialize.cpp:41-55 | appends the canonical form |
| Serialize.Reader.ReadCompact | src/serialize.cpp:83-109 | reads a canonical value and advances, or fails as truncated or non-canonical |
| Serialize.CompactSizeReads | src/serialize.cpp:41-109 | a value is read exactly where its one canonical form was written |
| Serialize.CompactSizeCanonical | src/serialize.cpp:83-109 | whatever is read was written canonically |
| Serialize.LittleEndianPlaces | src/serialize.cpp:21-39 | each byte is the number's digit of that weight in base 256 |
| TransactionCodec.SerializeTransaction | src/transaction.cpp:24-49 | the layout of every transaction of valid structure, and a refusal of all others |
| TransactionCodec.DeserializeTransaction | src/transaction.cpp:71-112 | the reading of any bytes, with the exact failure |
| TransactionCodec.TransactionCodecExact | src/transaction.cpp:24-112 | bytes decode to a transaction exactly when it serialises to these bytes |
| TransactionCodec.SerializationInjective | src/transaction.cpp:51-58 | different valid transactions have different bytes, so equal identifiers are a collision of the hash |
| BlockCodec.HeaderCodecExact | src/block.cpp:17-63 | headers and strings of 80 bytes correspond one to one |
| BlockCodec.SerializeStoredBlock | src/storage.cpp:666-678 | the record payload of a block whose transactions are all valid |
| BlockCodec.DeserializeStoredBlock | src/storage.cpp:680-699 | the reading of any payload, with the exact failure |
| BlockCodec.StoredBlockCodecExact | src/storage.cpp:666-699 | a payload decodes to a block exactly when the block is within the count and size limits and this is its payload |
| Wire.FrameExact | src/net.cpp:137-191 | a frame decodes to a message exactly when it is the message's frame |
| Wire.HeadersExact | src/net.cpp:598-632 | a payload reads as header records exactly when it is their payload and each shows its work |
| Texts.TextOrderIsNumberOrder | src/pow.cpp:59-66 | comparing fixed-width hexadecimal texts is comparing the numbers |
| Texts.BytesHexRoundTrip | src/hash.cpp:57-77 | bytes come back from their hexadecimal text |
| StoreFormats.IndexRoundTrip | src/storage.cpp:319-348 | an index with one entry per height reads back as written |
| StoreFormats.UtxoRoundTrip | src/storage.cpp:350-410 | a snapshot reads back as the map it was written from |
| StoreFormats.ManifestRoundTrip | src/storage.cpp:412-452 | a manifest reads back as written |
| StoreFormats.NamesApart | src/storage.cpp:313-317 | files of different generations, of different kinds, and the manifest never share a name |
| RecordLog.MakeRecord | src/storage.cpp:498-510 | the record of a block, refused exactly when it cannot be serialised or is too long |
| RecordLog.ReadRecordAt | src/storage.cpp:512-537 | the recorded block, or a failure for any flaw of header, size, checksum or payload |
| RecordLog.ScanCatalog | src/storage.cpp:563-600 | the loop ends and yields the catalogue of the plausible records up to the first implausible header |
| RecordLog.ScanFindsFirsts | src/storage.cpp:563-600 | scanning any run of records, also with a torn one behind it, finds exactly the first occurrence of each hash |
| RecordLog.FirstOffsetsMeaning | src/storage.cpp:571-593 | a hash is catalogued exactly if a block bears it, at the offset of the first such block |
| RecordLog.RecordStays | src/storage.cpp:512-537 | appending changes nothing about a readable record |
| Storage.DurableChainStore.Load | src/storage.cpp:714-769 | the manifest's generation if it loads; else the newest generation whose chain loads, with an empty snapshot; else a failure |
| Storage.DurableChainStore.AppendMissing | src/storage.cpp:777-802 | the log with exactly the missing records and the catalogue with their offsets; an interruption leaves a torn record behind whole ones |
| Storage.DurableChainStore.NextGeneration | src/storage.cpp:807-819 | the new generation differs from the manifest's |
| Storage.DurableChainStore.WriteGeneration | src/storage.cpp:602-639 | only the two files of the new generation are touched, and they describe the chain and its coins |
| Storage.DurableChainStore.CleanUp | src/storage.cpp:482-490 | files only disappear, never the manifest, the current generation nor the one before; once done, no listed generation but it and the one before has its files |
| Storage.DurableChainStore.Commit | src/storage.cpp:771-835 | stopped after any step, the disk loads as exactly the old state before the manifest write and exactly the new one from it on, with the log grown by exactly the missing records; it fails only when stopped, for a block that makes no record, or when a torn tail hides a record; on an empty store nothing but the new chain can load |
| Storage.DurableChainStore.CommitAndRestart | src/storage.cpp:714-835 | stopping and loading yields exactly the old or exactly the new state, the new one exactly if the manifest changed |
| Durability.IncrementalIsScan | src/storage.cpp:777-798 | on a log of records, the offsets that a commit computes are those that a scan of the grown log finds |
| Durability.CleanAppendCatalogues | src/storage.cpp:777-802 | on a log of records the appended chain is catalogued as a whole, so that only an interruption can make a commit of it fail |
| Durability.CleanLogHasNoImpostor | src/storage.cpp:602-639 | on a log of records in which hashes name blocks, the records catalogued for a chain are its blocks |
| Durability.ReadableHasNoImpostor | src/storage.cpp:563-600 | on any log, torn or not, in which readable records are the blocks that their hashes name, a scan catalogues no impostor |
| Durability.TornLogScans | src/storage.cpp:563-600 | a torn append is read as if it had not begun |
| Durability.ShortTailBlocksCommits | src/storage.cpp:563-600 | behind a record torn within its first sixteen bytes, over any run of further commits, finished or stopped anywhere, exactly the blocks recorded before are catalogued, so a chain is committed only if all of it was recorded before |
| Durability.SettledIsCommittable | src/chain.cpp:189-191 | what a settled chain hands to the store satisfies what a commit needs |
| Durability.SaveStopRestart | src/chain.cpp:165-191 | a node stopped anywhere in a save comes back settled with exactly the old or exactly the new chain and map |
| Durability.SavesAndRestarts | src/chain.cpp:165-191 | over any number of saves, each stopped anywhere, the store always holds one of the states, the new one or the one before |
| Mempool.TestnetMempool.EffectiveUtxos | src/mempool.cpp:50-56 | the map after the whole list, or the first failure |
| Mempool.TestnetMempool.TotalFees | src/mempool.cpp:58-67 | the sum of the fees; on coins worth at most MAX_MONEY the guard never fires |
| Mempool.TestnetMempool.Add | src/mempool.cpp:69-82 | the exact reason of a refusal; an admitted transaction is appended, also if saving fails, and the list then applies in order |
| Mempool.TestnetMempool.Revalidate | src/mempool.cpp:85-103 | exactly what is kept; replayable with distinct identifiers when no coin bears the identifier of an unconfirmed transaction of the pool |
| Mempool.ReplayConserves | src/mempool.cpp:50-67 | the value of the effective coins plus the fees is the value of the chain's coins |
| Mempool.RevalidatedReplays | src/mempool.cpp:85-103 | under the same freshness, what is kept replays to exactly the map that the loop ended with |
| Mempool.RevalidatedMeaning | src/mempool.cpp:85-103 | what is kept comes in its order, unconfirmed, and an unconfirmed transaction is left out only if the ledger does not accept it on what is kept before it |
| Mempool.SettledCoinsConfirmed | src/chain.cpp:68-74 | every coin of a settled chain belongs to one of its transactions |
| Mempool.Refresh | src/net.cpp:2211-2221 | after a switch of chains the pool is what revalidation keeps, then disconnected transactions in their order; each of these is in the pool unless its identifier is taken there or the ledger does not accept it at its turn; the pool is replayable on the new chain |
| Mempool.PoolIsMineable | src/chain.cpp:399-405 | a replayable pool never makes the first round of mining fail, and mining claims its fees |
| Mempool.AcceptableIsAdmitted | src/mempool.cpp:69-82 | what the ledger accepts on the effective coins is admitted |
| Mempool.AdmissionExactly | src/mempool.cpp:69-82 | a transaction is admitted exactly if the pool replays, its identifier is new there and the ledger accepts it on the effective coins |
| Mempool.OfferedMeaning | src/net.cpp:2214-2221 | offers come behind the pool in their order; each one ends up in the pool unless its identifier is taken there or the ledger does not accept it at its turn |
| Mempool.StaleOutputKeepsOrphan | src/mempool.cpp:90-100 | without fresh identifiers a dropped transaction's output can keep a transaction that does not apply |
| Fees.FeeNeverWraps | src/fees.cpp:13-18 | behind the guard the 64-bit product does not wrap |
| Fees.FeeIsCeiling | src/fees.cpp:9-23 | a fee is the exact price rounded up, within the money range |
| Fees.FeeExactly | src/fees.cpp:9-23 | a size is priced exactly if the rate is not negative and the rounded-up price is within the money range |
| Fees.FeeMonotone | src/fees.cpp:9-23 | a smaller size is priced if a larger one is, and not higher |
| Payments.SignAll | src/hd_wallet_backend.cpp:316-319 | after signing in turn every input is accepted, if the signer works |
| Payments.NeverUnderestimated | src/hd_wallet_backend.cpp:24-30 | the fee of the signed transaction never exceeds the one reserved by the estimate |
| Payments.EstimateExactly | src/hd_wallet_backend.cpp:24-30 | with key scripts of 35 bytes and fewer than 253 inputs, the fee of 98 bytes and 116 for each input |
| Payments.BuildPayment | src/hd_wallet_backend.cpp:286-325 | a payment pays the amount and exactly the fee estimated for the fewest coins of the list that suffice, and its own size warrants no more; it is acceptable to the ledger if the signer works, and the last check never fails then; lack of funds is reported only if no number of the coins suffices |
| Wallet.HdWalletBackend.RebuildOwnedCache | src/hd_wallet_backend.cpp:211-231 | the cache lists the scripts of exactly the used keys, twenty more of each branch and the legacy key; it is refused exactly when one of these keys makes no script |
| Wallet.HdWalletBackend.KeyForScript | src/hd_wallet_backend.cpp:233-242 | the key of the first cached entry with the script |
| Wallet.OwnsExactly | src/hd_wallet_backend.cpp:233-242 | a coin is owned exactly if its script is made for one of the wallet's keys |
| Wallet.HdWalletBackend.ChangeIsOwn | src/hd_wallet_backend.cpp:211-231 | the key that takes the change is one the wallet looks for, unless the counter of change keys is about to wrap round |
| Wallet.HdWalletBackend.GetNewAddress | src/hd_wallet_backend.cpp:192-200 | the address decodes to the next receive key; counter and cache have moved on even if saving fails, and the key is among those looked for afterwards |
| Wallet.HdWalletBackend.GetBalance | src/hd_wallet_backend.cpp:248-259 | the balance is the value of the owned coins, split into spendable and immature; it overflows only if all coins exceed MAX_MONEY |
| Wallet.HdWalletBackend.ListAvailable | src/hd_wallet_backend.cpp:273-284 | exactly the owned mature coins, by value and then by outpoint, each with the key of its script |
| Wallet.HdWalletBackend.CreatePayment | src/hd_wallet_backend.cpp:261-325 | what is returned is accepted by the ledger on the same coins and height, takes the cheapest coins first and no more than needed, and its second output, if any, is one the wallet then owns, unless the counter of change keys is about to wrap round; lack of funds is reported only if the spendable coins do not suffice |
| Sending.SendToAddress | src/rpc_commands.cpp:438-449 | on a settled chain the pool admits whatever payment the wallet makes of its effective coins, if the signer works and the identifier is new; only saving can fail then |
| Sending.EffectiveCoinsSpendable | src/mempool.cpp:50-56 | the effective coins of a replayable pool on a settled chain are in range and none sits at the null outpoint |
| Checksums.Polymod | src/bech32.cpp:17-30 | the loops compute the fold of the polynomial step |
| Checksums.ValidVector | src/bech32.cpp:17-30 | the valid string "a12uel5l" of BIP 173 has polynomial 1 |
| Checksums.StepLinear | src/bech32.cpp:22-28 | a step is linear over GF(2) in state and value |
| Checksums.ChecksumCompletes | src/bech32.cpp:41-51 | with the appended checksum the polynomial is 1, for every data |
| Checksums.ChecksumUnique | src/bech32.cpp:41-51 | no other six groups make it 1 |
| Checksums.SubstitutionChanges | src/bech32.cpp:17-30 | changing any single value changes the polynomial |
| BitGroups.ConvertBits | src/bech32.cpp:53-79 | the masked accumulator loses no bit: the result regroups the bit stream, padded, or refused for bad values and padding |
| BitGroups.ConversionRoundTrip | src/bech32.cpp:53-79 | bytes of any number come back from their padded quintets |
| BitGroups.ConversionCanonical | src/bech32.cpp:53-79 | accepted quintets are the padded quintets of their bytes |
| Addresses.EncodeTestnetAddress | src/bech32.cpp:83-94 | the text of prefix, version, key and checksum |
| Addresses.DecodeTestnetAddress | src/bech32.cpp:96-131 | the reading of any text, with the exact failure |
| Addresses.AddressExact | src/bech32.cpp:83-131 | a text decodes to a key exactly when it is not of mixed case and its lower-case form is the key's encoding |
| Addresses.SubstitutionRejected | src/bech32.cpp:96-131 | replacing one character behind the separator by another of the set is always rejected |
| JsonText.ParseDocument | src/json.cpp:17-23 | the parser object computes the specified reading of any text, and ends |
| JsonText.Parser.TakeNumber | src/json.cpp:184-226 | integers that fit 64 bits are integers, everything else well formed is a double |
| JsonText.JsonEscape | src/json.cpp:244-266 | the loop writes the escaped text |
| JsonRoundTrip.RoundTrip | src/json.cpp:17-306 | every value without doubles is read back from its text, compact or pretty, at every indentation |
| JsonRoundTrip.DumpInjective | src/json.cpp:268-306 | different values without doubles never share a text |
| JsonStrings.StringExact | src/json.cpp:108-150 | a string is read exactly where quoted pieces of the grammar stand, and as what they denote: characters, short escapes, and code points in the hexadecimal digits of their UTF-16 units |
| JsonStrings.Utf8Exact | src/json.cpp:73-91 | the bytes written for a code point are the one sequence that decodes to it |
| JsonStrings.Hex4Exact | src/json.cpp:93-106 | four characters are read as a number exactly if they spell it, in either case |
| JsonStrings.Surrounded | src/json.cpp:17-23 | spaces around a document are ignored, and anything else behind it is refused |

## Left out

- Sockets, threads, DNS, HTTP, RPC, CLI, logging, daemon, file permissions and Windows code: plumbing around the modelled parts.
- SHA-256, HMAC, PBKDF2, secp256k1, key derivation and random numbers: foreign calls, kept as uninterpreted constants.
- Hash texts that are not 64 lower-case digits: a hash is the number it denotes, so malformed ones cannot be written down.
- The reason why genesis is refused: all disagreements are one error.
- Legacy chain files, the migration marker, data directories and store statistics: outside the state that is proved about.
- Saving: its outcome is a parameter of the chain and mempool methods; how it comes about is modelled separately in `Storage`.
- Interference by other threads within one handler: a handler sees one chain and one side store; between handlers any settled chain may be there.
- Refreshing the mempool inside a session: whether it succeeds is a parameter of the candidate's activation; what it does is `Mempool.Refresh`.
- Loading chain and side store for each message: whether it succeeds is a parameter where bodies are gathered and where a candidate is activated; a load that fails elsewhere leaves everything as it was.
- Lists of addresses, inventories, transactions and blocks on the wire, versions, pings, bans and timers: the same shapes as the modelled codecs, or bookkeeping.
- Storage.DurableChainStore.Commit: steps happen in program order and a file replacement is one step; lost or reordered disk writes and the temporary files are not modelled. Whether a scan gets past a longer torn record depends on the bytes behind it; that a later commit succeeds is only stated for logs of records.
- Mining.MineTestnetBlock: the wall clock is a parameter, the same for the whole search.
- Wallet.HdWalletBackend.GetNewAddress: the outcome of saving the wallet file is a parameter.
- JsonText.Parser.TakeNumber: which tokens are finite doubles, and how doubles are written, is uninterpreted.
- Payments.BuildPayment: coins are tried in the order of the list, as the code does; that some other choice of coins might suffice where no beginning of the list does is not excluded.
- Fee estimation modes, decimal amounts, mnemonics and wallet files: small, or bound to the foreign cryptography.
