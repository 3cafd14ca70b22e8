# A verified model of the EdgeX node and wallet core

This project models the consensus core of EdgeX, the components of the node that live around it, and the two parts of
the wallet that must agree with it, and proves what they promise. It stands beside the repository and shares no code
with it.

The state of the system is modelled at two levels. A *path* is the list of blocks from genesis to some block; the
modules `Paths` and `History` say what consensus demands of a path and what its replay is. Classes with mutable fields
(`UtxoState`, `ConsensusChain`, `TransactionMempool`, `ChainService`, `P2PNetwork`, `ChainStore`, `ByteWriter`) carry
the operations as the source performs them, and each operation is proved to have the effect of a function on
snapshots; the results about whole runs are then lemmas about these functions.

| area | modules |
|---|---|
| numbers and texts | `Prelude`, `Positional`, `Text`, `Amount`, `Base58` |
| transactions, headers, commitments | `Types`, `SigningText`, `HeaderCodec`, `Merkle`, `Commitment`, `Pow` |
| emission, difficulty, schedule | `Reward`, `Difficulty`, `Schedule` |
| unspent outputs and their history | `Sums`, `State`, `History`, `Conservation`, `Ownership` |
| the block tree | `Paths`, `Growth`, `Chain`, `Order` |
| the node | `Mempool`, `Branches`, `Mining`, `PendingJobs`, `Service`, `Locate`, `Sync` |
| the rules restated independently of the code | `Rules` |
| the wallet | `WalletTables`, `WalletIndex`, `WalletStore`, `WalletRollback`, `WalletRuns`, `WalletFiling`, `Planner` |
| concrete chains and runs | `SmallChain`, `StrandedRun`, `LostSpender`, `LongChain`, `CutOff` |

## Assumptions

SHA-256, double SHA-256, Hash160, signature verification and the proof-of-work verifier are the fields of `Types.Env`:
functions of which nothing else is known. Where a result needs digests not to collide, it says so for the finitely
many texts that the chain at hand hashes (`History.NoCollisions`, `Branches.NoCollisionsBetween`,
`Commitment.BodiesApart`), never for all texts. Clocks, job identifiers and the locale's order of identifiers are
parameters. Exceptions are `Result` values; an operation that throws in the source leaves the state as the source
leaves it. JavaScript numbers are integers with the source's safe range and 32-bit operators written out.

## Main results

* **Tree.** Along every run of offered blocks, each stored entry holds a valid path as deep as its height, the replay
  of that path and its accumulated work; the tip has maximal work, entries are only added, the best work never falls,
  and a refused block changes nothing (`Chain.AddKeepsInv`, `Chain.Run`, `Chain.RunsOnlyGrow`, refined by
  `Chain.ConsensusChain.AddBlock`). The order in which two nodes learn the same blocks does not matter
  (`Order.OrderIndependence`), and a restart from the block table rebuilds the tree (`Order.RestartRestoresTree`,
  `Service.ChainService.LoadPersistedBlocks`).
* **Rules.** `Rules` states in one place, with every constant as a number and every sum as a total, what a transaction
  and a block must satisfy. A tree takes a block exactly by these rules (`Rules.AddedByRules`), so in every run each
  stored block but genesis satisfied them when it was offered (`Rules.StoredByRules`): it carries a proof of work for
  its own header under the seed that its height demands (`Rules.StoredHasWork`). The tip moves exactly to more work
  (`Rules.TipByRules`), the pool takes a transaction exactly by the rules at the tip (`Rules.SubmitByRules`), and a
  job is made exactly when payee, clock and next difficulty allow it (`Rules.JobIsMade`). Whatever leaves the unspent
  outputs of a chain was consumed by a transaction signed for its address, and a reward not before six blocks
  (`Ownership.OnlyOwnersConsume`).
* **Money.** The emission schedule stays in whole EDX and reaches the cap exactly (`Reward.EmissionLandsOnCap`); every
  stored state has issued what the schedule says (`Order.StoredSupply`). Outputs plus burned fees equal what was
  issued if and only if no block consumes an output twice (`Conservation.ConservationOverChains`). No output is
  created twice or comes back (`History.NoIdTwice`, `History.NeverReborn`).
* **Difficulty.** From height 240 on the difficulty at least doubles every twelve blocks on every chain, whatever its
  timestamps (`Growth.DifficultyDoubles`), so every chain that consensus accepts ends by height 1535
  (`Growth.ChainsEndEarly`).
* **Node loop.** A run of submissions, jobs, shares and blocks of peers keeps the pool valid and disjoint at every tip
  and every job fitting its parent exactly when no block offered in it strands a pending transaction, which can be
  read off block, parent and pool before the call (`Mining.MiningLoopSafeExactly`); in such runs no share fails on a
  transaction (`Mining.SharesPassTransactionChecks`). It rests on the exact condition under which a pool moves to
  another chain, longer or on another branch (`Branches.PoolMovesExactly`).
* **Synchronization.** The fork anchor is found exactly when the first question reaches low enough, and then it is the
  greatest common height (`Locate.ForkAnchorBound`, `Sync.AnchorIsExact`); one pass against an honest peer of more
  work that finds an anchor catches up completely (`Sync.OnePassCatchesUp`). A node that answers as this one does is
  such a peer (`Sync.ServingIsHonest`).
* **Wallet.** Rolling back a batch of appended blocks restores every table exactly when the batch spends nothing that
  the index notes as spent already (`WalletRollback.RollbackUndoesBatch`); over whole runs of appends and rollbacks
  the index is that of the followed chain exactly when every rollback meets that condition (`WalletRuns.RunIndexes`),
  which it does on chains that consensus applies, and there the wallet reports the balances and spendable outputs of
  consensus (`WalletRuns.WalletRefinesConsensus`), and files every reward and transfer with height and time of its
  block under exactly the addresses of its sender and its outputs (`WalletFiling.RunIsFiled`).
* **Payments.** Every split plan is balanced, settles every payment exactly and in order, uses no output twice, and
  takes no input more than it needs (`Planner.PlanIsRight`, `Planner.TransferIsRight`, `Planner.LeanChange`); there is
  a plan exactly when some number of full chunks covers the payments and each of them but the last exceeds its fee
  (`Planner.TransferExists`).
* **Encodings.** Signing texts, identifiers, headers, commitments, Base58Check and amounts are decodable.

## Where the code decides otherwise than one might expect

* `applyBlock` checks every transaction against the state before the block, so two transactions of one block may
  consume the same output. Consensus accepts a chain of nine blocks, genesis included, on which outputs and burned
  fees exceed what was issued (`SmallChain.ConservationFails`). Conservation holds exactly for blocks with disjoint
  inputs.
* The retarget sums the window without dividing by its length: a window of equal difficulties triples, whatever its
  timestamps, so block 240 of every chain has exactly three times the initial difficulty
  (`Difficulty.EqualWindowTriples`, `Paths.FirstRetargetTriples`), and difficulty keeps growing until it no longer
  fits the 128 bits of the header: no block at height 1536 or above is ever accepted (`Growth.ChainsEndEarly`), and at
  most 614,000 EDX are ever issued (`Growth.EmissionEndsEarly`). The code comment calls the average front-weighted;
  the later blocks of the window weigh more.
* The emission schedule by itself ends at one height below 21,024,000, and the cap check ends the chain with it
  (`Reward.EmissionLandsOnCap`, `Paths.PathIsShort`): the perpetual tail emission that the repository's readme
  describes as phase 3 is never paid.
* A higher difficulty counts as no more work than a lower one (`Difficulty.WorkFalls`).
* Transaction identifiers leave the public key open (`SigningText.PayloadDeterminesAllButKey`).
* A share whose nonce has its highest bit set decodes to a negative number and is never accepted as a new block
  (`Mining.HighNoncesAreRefused`).
* A share of the current job that repeats the hash of a stored block is answered as known, leaves the chain and the
  job alone, and drops the job's transactions from the pool (`PendingJobs.PurgingShareBreaks`); a block of a peer that
  only forks drops its transactions although they are not on the best chain (`PendingJobs.ForkPurges`). The pool stays
  valid, but a conflicting transaction is then admitted, and when the job is mined that transaction stays pending
  without its input: `StrandedRun.SafetyFails` is such a run from genesis. After a block on the tip the rest of the
  pool is valid exactly when the block consumed none of its inputs (`Mining.PoolAfterBlock`); after a branch overtook,
  exactly when every input is unspent and mature there (`Branches.PoolMovesExactly`). Careful runs never get there
  (`PendingJobs.CarefulRunsAreSafe`), and a new job heals a purge (`PendingJobs.CreateJobTies`).
* The first question of a fork search may have 65 hashes, of which the peer reads 64; at height 127 chains that part
  right after genesis never find their fork (`Locate.GenesisIsCutOff`). `CutOff.CutOffForGood` has two such nodes: the
  pass of the shorter one downloads nothing from an honest one of more work.
* Funds that suffice do not make a split plan: a chunk that does not exceed its fee blocks those behind it
  (`Planner.DustBlocks`).
* The limit of 3,000 blocks for one synchronization pass never binds, because no chain is that long
  (`Growth.ChainsEndEarly`, `Sync.OnePassCatchesUp`). A pass that the peer cuts short moves our tip exactly when the
  part that arrived outweighs it; otherwise the next pass starts over from the fork (`Sync.FeedMovesTipExactly`,
  `Sync.CutShortPass`).
* The branch of a synchronization pass for a peer tip that is already stored is never taken with an honest peer of
  more work (`Sync.SameAncestorIsDead`).
* The wallet's full index notes the last spender of an output. appendBlocks takes a chain that spends an output twice,
  and rolling back the second spend clears the note of the first (`LostSpender.RollbackLosesSpend`); only consensus
  keeps such chains away.

## Model

| member | source | states |
|---|---|---|
| Amount.ParseOfFormat | packages/shared/src/amount.ts:13-30 | formatting any non-negative amount and parsing it gives the amount back |
| Amount.FormatOfParse | packages/shared/src/amount.ts:10-30 | a parsable text survives parsing and formatting exactly when it is canonical: no superfluous leading or trailing zeros |
| Amount.ParseMeans | packages/shared/src/amount.ts:10-19 | an amount is digits, or digits, a dot and one to eight digits; its value counts a hundred million for the number before the dot and the fraction by its decimal places |
| Amount.TrailingZero | packages/shared/src/amount.ts:13-19 | a zero behind a fraction of less than eight digits changes nothing |
| Base58.Encode | packages/shared/src/crypto/base58.ts:12-25 | the big-number loops compute the positional conversion with one letter per leading zero byte |
| Base58.Decode | packages/shared/src/crypto/base58.ts:27-49 | accepts exactly the texts over the alphabet, and inverts the conversion |
| Base58.DecodeOfEncode | packages/shared/src/crypto/base58.ts:12-49 | decoding the encoding of any bytes gives the bytes |
| Base58.EncodeOfDecode | packages/shared/src/crypto/base58.ts:12-49 | encoding what a valid text decodes to gives the text |
| Base58.AlphabetSpelled | packages/shared/src/crypto/base58.ts:10 | the arithmetic letter lookup is the 58-letter alphabet of the source |
| Base58.CheckEncode | packages/shared/src/crypto/base58.ts:56-62 | the text is the Base58 encoding of the payload with its checksum |
| Base58.CheckDecode | packages/shared/src/crypto/base58.ts:64-77 | accepts exactly the valid texts with a right checksum and a version byte |
| Base58.CheckDecodeOfEncode | packages/shared/src/crypto/base58.ts:56-77 | a payload comes back as version and rest exactly when it is not empty |
| Base58.CheckEncodeOfDecode | packages/shared/src/crypto/base58.ts:56-77 | every accepted text is the encoding of what it decodes to |
| SigningText.ValidateAddress | packages/shared/src/crypto/keys.ts:54-61 | accepts exactly the checked texts with the address version and a 20-byte hash |
| SigningText.AddressFromPublicKey | packages/shared/src/crypto/keys.ts:48-52 | the address is the checked encoding of version and key hash |
| SigningText.AddressOfKey | packages/shared/src/crypto/keys.ts:48-61 | the address of any key is the Base58 text of 0x21, the key hash and its checksum; it is valid, and two keys share it only when their hashes agree |
| SigningText.AddressMeans | packages/shared/src/crypto/keys.ts:54-61 | an address is valid exactly when it is the Base58 text of the byte 0x21, some twenty bytes and the first four bytes of their digest |
| SigningText.MessageOfOne | packages/shared/src/crypto/keys.ts:28-100 | signing text and identifier payload of a transaction of one input and one output, letter by letter |
| SigningText.ValidateSignedTransactionShape | packages/shared/src/transaction.ts:42-95 | succeeds exactly for well-shaped signed transactions, with the sum of outputs and fee |
| SigningText.MessageDeterminesContent | packages/shared/src/crypto/keys.ts:28-42 | two well-shaped transactions have the same signing text exactly when inputs, outputs and fee agree |
| SigningText.PayloadDeterminesAllButKey | packages/shared/src/crypto/keys.ts:97-100 | identifier payloads agree exactly when the transactions agree in everything but the public key |
| SigningText.OutpointKeyInjective | packages/core/src/state.ts:155-157 | the text key of an output determines identifier and index |
| HeaderCodec.ByteWriter.Push | packages/core/src/encoding.ts:95-98 | appends the chunk to the contents and keeps the length |
| HeaderCodec.ByteWriter.U8 | packages/core/src/encoding.ts:13-19 | appends the byte, or refuses a number out of range and changes nothing |
| HeaderCodec.ByteWriter.WriteU32 | packages/core/src/encoding.ts:21-31 | the shift-and-mask loop appends the four big-endian bytes of a number in range |
| HeaderCodec.ByteWriter.WriteU32Little | packages/core/src/encoding.ts:34-44 | the same, lowest byte first |
| HeaderCodec.ByteWriter.WriteU128 | packages/core/src/encoding.ts:58-68 | the remainder loop appends the sixteen big-endian bytes of a number in range |
| HeaderCodec.ByteWriter.WriteAscii | packages/core/src/encoding.ts:75-83 | appends length and characters of an ASCII text of at most 255 characters, else refuses |
| HeaderCodec.ByteWriter.ToBytes | packages/core/src/encoding.ts:85-93 | the copy loop yields the concatenation of all chunks |
| HeaderCodec.SerializeHeader | packages/core/src/block.ts:26-62 | succeeds exactly for version one, numbers within their fields, hexadecimal hashes and a short ASCII address, with the layout that `BlobBytes` and `DecodeOfBlob` describe |
| HeaderCodec.WriteNonce | packages/core/src/block.ts:64-69 | replaces the four nonce bytes and nothing else; fails on blobs that are too short |
| HeaderCodec.NonceField | packages/core/src/block.ts:64-75 | reading the nonce of a blob returns it, and rewriting it yields the blob of the other nonce |
| HeaderCodec.DecodeOfBlob | packages/core/src/block.ts:26-62 | a decoder recovers every encodable header and its nonce from the blob |
| HeaderCodec.BlobBytes | packages/core/src/block.ts:26-62 | the fixed bytes and the length of the blob, and which of its numbers begin with their lowest byte |
| HeaderCodec.SeedSlice | apps/node/src/randomx.ts:49 | bytes 95 to 126 of the blob are the seed that keys the proof of work |
| Merkle.CalculateMerkleRoot | packages/core/src/block.ts:77-94 | fails exactly on a coinbase with an amount that does not parse; otherwise the loop hashes height, count and leaves, the coinbase leaf first |
| Merkle.PayloadDeterminesLeaves | packages/core/src/block.ts:86-94 | the hashed text determines the height and every leaf |
| Merkle.RewardText | packages/core/src/block.ts:77-80 | the identifier of a coinbase with one output is the digest of domain, height, address and photons as text |
| Merkle.RootOfTwo | packages/core/src/block.ts:82-94 | the root of a reward and one transfer is the digest of domain, height, the count two in four bytes and both leaves |
| Commitment.HeaderCommitsToBody | packages/core/src/chain.ts:120-132 | mined blocks with one header have the same coinbase identifier and the same transactions up to public keys |
| Pow.HashMeetsTarget | packages/core/src/pow.ts:21-31 | the byte loops compare the little-endian value of the hash with the target; malformed hashes never meet it |
| Pow.MeetsMeans | packages/core/src/pow.ts:14-30 | a hash meets a difficulty exactly if its product with the difficulty is below 2^256 |
| Pow.LowByteFirst | packages/core/src/pow.ts:20-28 | the first two digits of a hash are its lowest byte |
| Pow.EasierTargets | packages/core/src/pow.ts:14-31 | a hash that meets a target meets every easier one, and difficulty one admits every hash |
| Reward.RewardIsPositive | packages/shared/src/reward.ts:27-39 | every reward that is defined is positive |
| Reward.PhaseOne | packages/shared/src/reward.ts:27-43 | up to the end of phase one issuance is the height times the phase-one reward |
| Reward.PhaseTwo | packages/shared/src/reward.ts:34-39 | in phase two what remains follows the whole-EDX decay recurrence |
| Reward.AllBands | packages/shared/src/reward.ts:34-39 | after 17,762,104 blocks of phase two at most 2,097,152 EDX remain to be issued |
| Reward.EmissionLandsOnCap | packages/shared/src/reward.ts:27-43 | there is a height inside phase two at which issuance is exactly the cap; before it stays in whole EDX below the cap, and no later block can mint |
| Reward.FinalHeightUnique | packages/core/src/state.ts:76-84 | that height is unique |
| Difficulty.NextLwmaDifficulty | packages/core/src/difficulty.ts:29-52 | the loop computes what `NextInNumbers` states, and throws exactly on timestamps of the window that do not increase |
| Difficulty.NextInNumbers | packages/core/src/difficulty.ts:29-52 | one million without blocks, the parent below 240 blocks; from there on the sum of the last 239 difficulties times 433,800 by the gaps, each cut to 1 to 90 seconds and weighted by its position, kept within a third and three times the parent and at least one |
| Difficulty.EvenWindowRetarget | packages/core/src/difficulty.ts:17-51 | with blocks s seconds apart, s from 1 to 90, the quotient is the sum of the difficulties times 433,800 by 28,680 s |
| Difficulty.OneOtherGap | packages/core/src/difficulty.ts:36-42 | one gap of another length in an even window counts with its position |
| Difficulty.TargetIsQuotient | packages/core/src/pow.ts:14-49 | the target is the greatest number whose product with the difficulty is below 2^256, and the work is one more |
| Difficulty.NextStaysInRange | packages/core/src/difficulty.ts:46-51 | the result lies within a third and three times the parent's difficulty, and is at least one |
| Difficulty.SlowerNeverHarder | packages/core/src/difficulty.ts:17-51 | pointwise longer solve times at equal difficulties never raise the result |
| Difficulty.EqualWindowTriples | packages/core/src/difficulty.ts:33-51 | a full window of equal difficulties always triples, so the rule has no fixed point at the target time |
| Difficulty.WorkFalls | packages/core/src/pow.ts:14-49 | work is positive and does not grow with difficulty, and neither does the target |
| Schedule.SeedIsBuried | packages/core/src/schedule.ts:3-18 | the seed height is an ancestor's, constant over an epoch, and past the first epoch buried by more than the delay |
| Schedule.MedianStep | packages/core/src/chain.ts:167-169 | a timestamp above the median of the last eleven never lowers that median, in filling and sliding windows of any parity |
| State.UtxoState.Copy | packages/core/src/state.ts:32-40 | a copy equals its original |
| State.UtxoState.CheckTransaction | packages/core/src/state.ts:91-118 | succeeds exactly for transactions that satisfy the rules (`Rules.TransactionByRules`): inputs unspent, owned by the signer and mature, sums that match; the result is the fee |
| State.UtxoState.CheckCoinbase | packages/core/src/state.ts:73-85 | succeeds exactly for one valid output of the scheduled reward within the cap, committed to by the header |
| State.UtxoState.ApplyBlock | packages/core/src/state.ts:69-148 | succeeds exactly for acceptable blocks (`Rules.BodyByRules`), with the specified successor state, fees and reward; a refused block leaves the state as it was |
| State.UtxoState.Balance | packages/core/src/state.ts:50-56 | the sum over all entries of the address |
| State.UtxoState.Spendable | packages/core/src/state.ts:58-63 | exactly the mature entries of the address, each once, oldest first |
| History.DomainsApart | packages/core/src/block.ts:77-80 | texts hashed to transaction and coinbase identifiers never coincide, nor do coinbase texts of different heights |
| History.HistoryInvariant | packages/core/src/state.ts:120-148 | on every applied chain, entries bear identifiers of the chain, amounts are positive, and consumed outputs are gone |
| History.LastBlockEffect | packages/core/src/state.ts:120-146 | a block removes exactly its inputs, leaves all other entries alone, and adds only under new identifiers |
| History.NoIdTwice | packages/core/src/state.ts:120-146 | no two blocks of a chain file outputs under the same identifier |
| History.NeverReborn | packages/core/src/state.ts:120-146 | an output that left the state was consumed and never comes back |
| Conservation.ValueAfterTransactions | packages/core/src/state.ts:120-135 | value plus fees does not fall over a block's transactions, and is kept exactly when their inputs are disjoint |
| Conservation.BlockConserves | packages/core/src/state.ts:69-148 | over a block, value plus fees grows by the reward exactly when its inputs are disjoint |
| Conservation.ConservationOverChains | packages/core/src/state.ts:69-148 | issued coins are the minted rewards; outputs plus burned fees equal them if and only if every block's inputs are disjoint |
| Conservation.IssuanceFollowsSchedule | packages/core/src/state.ts:78-82 | the state at a height has issued what the schedule says, at most the cap, and no block stands above the final height |
| Ownership.OnlyOwnersConsume | packages/core/src/state.ts:91-118 | an output that a chain held and a longer part of it does not was consumed in between by a transaction with that input, whose key hashes to the address of the output and whose signature of its signing text verifies, and if the output is a reward at least six blocks after it |
| Rules.TransactionByRules | packages/core/src/state.ts:91-118 | the checks amount to: 1 to 1,000 distinct inputs, each an unspent output of the signer and a reward only six blocks on; 1 to 100 outputs of positive amounts to valid addresses; a verified signature; inputs equal to outputs and a positive fee in total |
| Rules.RewardByRules | packages/core/src/state.ts:73-85 | the coinbase checks amount to: one output, to the address of the header, of exactly the subsidy of the height in numbers, within a total of 2.1 billion EDX |
| Rules.BodyBytesAre | packages/core/src/block.ts:96-107 | the body length is four, and 142 a transaction, 36 an input, 9 and its address an output |
| Rules.MedianByRule | packages/core/src/chain.ts:167-169 | a time exceeds the median exactly if it exceeds the middle of some ascending arrangement of the times |
| Rules.DifficultyByRule | packages/core/src/chain.ts:156-160 | on accepted chains the next difficulty is one million below height 240 and the retarget of the last 240 headers, whose times increase, from there on |
| Rules.BodyByRules | packages/core/src/chain.ts:111-140 | size, commitments, reward and transactions of a block are checked exactly by the rules |
| Rules.BlockByRules | packages/core/src/chain.ts:108-173 | on an accepted chain all checks of a block together amount to the rules of header and body: encoding, proof of work, version, height, difficulty, seed, median and future time, size, reward, transactions, distinct identifiers and Merkle root |
| Rules.AddedByRules | packages/core/src/chain.ts:108-149 | a tree takes a block, as new or as known, exactly if it has it or the rules allow it on its stored parent |
| Rules.StoredByRules | packages/core/src/chain.ts:108-149 | in every run each stored block but genesis stands on its stored parent and satisfied the rules there at the time of its offer |
| Rules.StoredHasWork | packages/core/src/chain.ts:134-166 | in every run each stored block but genesis has an encodable header, a proof of work for it that the verifier accepts, and as seed the hash of the block at the height that its own demands |
| Rules.TipByRules | packages/core/src/chain.ts:141-148 | a new block moves the tip exactly if the total work of its chain is greater, so among equals the first stays |
| Rules.BestIsHeaviest | packages/core/src/chain.ts:144-147 | in every run no stored chain has more total work than the best one |
| Rules.GenesisIs | packages/core/src/genesis.ts:9-29 | in every run the tree holds the genesis block, field by field, with nothing issued |
| SmallChain.ConservationFails | packages/core/src/state.ts:91-148 | a concrete chain without colliding digests that consensus accepts, two transactions of whose last block consume the same output, so that outputs and burned fees exceed what was issued |
| Paths.CollectIds | packages/core/src/chain.ts:120-127 | yields the identifiers of all transactions, or fails when one is malformed |
| Paths.ShapeOfValidPath | packages/core/src/chain.ts:108-158 | heights count positions, the version never changes, and every accepted path is an applied chain |
| Paths.InitialDifficulty | packages/core/src/chain.ts:156-160 | every accepted block up to height 239 has the initial difficulty |
| Paths.FirstRetargetTriples | packages/core/src/chain.ts:156-160 | every chain that gets there has three times the initial difficulty at height 240 |
| Paths.DifficultyControlled | packages/core/src/chain.ts:156-160 | from block to block the difficulty stays within a third and three times, and never below one |
| Paths.MedianNeverFalls | packages/core/src/chain.ts:167-169 | the median time is non-decreasing along every accepted path, whatever the window's length |
| Paths.PathIsShort | packages/core/src/state.ts:76-84 | no accepted path outgrows the emission schedule |
| Paths.SeedAlwaysExists | packages/core/src/chain.ts:161-166 | the seed ancestor of the next block exists on every accepted path |
| Paths.WorkGrows | packages/core/src/chain.ts:141 | every block adds work |
| Growth.RetargetDoubles | packages/core/src/difficulty.ts:33-51 | whatever the timestamps are, twelve blocks of at least some difficulty make the next one at least twice as hard |
| Growth.DifficultyDoubles | packages/core/src/chain.ts:156-160 | on every accepted path the difficulty at height 228 + 12 k or above is at least 2^k times the initial one |
| Growth.ChainsEndEarly | packages/core/src/chain.ts:134-137 | every accepted path ends by height 1535, where the difficulty outgrows the header's 128 bits |
| Growth.EmissionEndsEarly | packages/core/src/state.ts:76-84 | every accepted path has issued its height times the phase-one reward, at most 614,000 EDX |
| Growth.DifficultyAtMostTriples | packages/core/src/chain.ts:156-160 | on every accepted path the difficulty past height 239 is at most the initial one tripled for every block |
| LongChain.ChainExists | packages/core/src/chain.ts:108-173 | accepted chains of every height up to 307, on 255 branches that share genesis only |
| LongChain.RetargetIsReached | packages/core/src/difficulty.ts:33-51 | an accepted chain past the first retarget, at whose end the difficulty is at least 32 times the initial one |
| Chain.GenesisInv | packages/core/src/chain.ts:36-49 | a new chain satisfies the tree invariant |
| Chain.AddKeepsInv | packages/core/src/chain.ts:108-149 | every offered block keeps the tree invariant and all entries, and the tip changes only for strictly more work |
| Chain.Run | packages/core/src/chain.ts:108-149 | the tree invariant holds after every run of offers |
| Chain.RunsOnlyGrow | packages/core/src/chain.ts:108-149 | along every run entries are only added and the best work never falls |
| Chain.ConsensusChain.constructor | packages/core/src/chain.ts:41-49 | starts from the genesis entry alone |
| Chain.ConsensusChain.Ancestry | packages/core/src/chain.ts:175-186 | the loop collects the path of a stored block, genesis first |
| Chain.ConsensusChain.Ancestor | packages/core/src/chain.ts:204-213 | finds the block of that height on the path, and fails exactly above the start |
| Chain.ConsensusChain.RecentSummaries | packages/core/src/chain.ts:215-223 | the summaries of the last 240 blocks of the path |
| Chain.ConsensusChain.ValidateLink | packages/core/src/chain.ts:151-173 | succeeds exactly when version, height, difficulty, seed and both time rules hold on the parent's path |
| Chain.ConsensusChain.AddBlock | packages/core/src/chain.ts:108-149 | refines the step of the tree: succeeds exactly by the checks that `Rules.BlockByRules` restates, stores the block with its state and work, moves the tip to more work, says extended exactly when the tip moved and fork exactly when a new block left it; a refused block changes nothing |
| Chain.VerdictMeans | packages/core/src/chain.ts:108-149 | known exactly if it was stored before, extended exactly if the tip moved, and then to this block, fork exactly if it is new and the tip stayed |
| Chain.ConsensusChain.NextConsensusData | packages/core/src/chain.ts:96-106 | height, difficulty and seed of the next block on the best path, or failure where they do not exist |
| Chain.OnlyRetargetFails | packages/core/src/chain.ts:96-106 | on an accepted path only the retarget can fail |
| Chain.ConsensusChain.ChainAtHeight | packages/core/src/chain.ts:83-87 | the block of that height on the best path, if any |
| Chain.SerializedBlockBodyLength | packages/core/src/block.ts:96-107 | the loops add up the length of the body |
| Chain.ValidateBody | packages/core/src/chain.ts:120-132 | succeeds exactly when transactions are well shaped, the amounts of the coinbase parse, and root and payout match the header |
| Order.OrderIndependence | packages/core/src/chain.ts:108-149 | the same blocks, each parents first under one clock, lead to equal entries, states and works, and tips of equal work |
| Order.Rebuild | packages/core/src/chain.ts:108-149 | every covered offer of a stored block leaves it stored behind the same path |
| Order.RestartRestoresTree | apps/node/src/service.ts:199-208 | replaying the stored blocks by height rebuilds every entry and a tip of the same work |
| Order.StoredSupply | packages/core/src/state.ts:78-82 | every state that any run stores has issued what the schedule says, at most the cap, at or below the final height |
| Mempool.TransactionMempool.Accept | apps/node/src/mempool.ts:33-63 | admits exactly the valid transactions without a conflict, evicting the oldest at the limit; a refused one changes nothing |
| Mempool.TransactionMempool.RemoveCommitted | apps/node/src/mempool.ts:66-68 | removes exactly the entries with these identifiers and keeps the order of the rest |
| Mempool.AcceptKeepsPool | apps/node/src/mempool.ts:33-63 | acceptance keeps entries valid and pairwise disjoint, also when it evicts; below the limit it keeps every entry |
| Mempool.NewestLast | apps/node/src/mempool.ts:60-62 | an admitted transaction becomes the last entry, and a pool of 10,000 loses its oldest one and no other |
| Mempool.RemoveInOrder | apps/node/src/mempool.ts:66-68 | what is left after a removal keeps its order |
| Mempool.OldestListed | apps/node/src/mempool.ts:29-31 | the list is the oldest entries, in order, up to the limit |
| Rules.SubmitByRules | apps/node/src/service.ts:118-124 | a submission changes nothing but the pool, and a transaction that is not pending gets in exactly if the rules allow it at the tip and it shares no input with a pending one |
| Rules.JobIsMade | apps/node/src/service.ts:135-173 | whatever is pending, a safe node makes a job exactly if the payee is valid and fits, the clock fits 32 bits, and the rules give a next difficulty of 128 bits |
| Mempool.PoolSurvives | apps/node/src/mempool.ts:33-63 | entries whose inputs survive a block stay valid at the greater height |
| Mempool.ListedTransactionsOk | apps/node/src/mempool.ts:29-31 | a listed prefix of the pool passes every transaction check of a block |
| Branches.EntryOrigin | packages/core/src/state.ts:120-146 | every unspent output of a chain is the reward of one of its blocks or an output of one of its transactions, with that address and amount |
| Branches.SameOutput | packages/core/src/state.ts:120-146 | an output that two chains hold unspent has the same address, amount and maturity on both |
| Branches.PoolMovesExactly | apps/node/src/service.ts:126-133 | a pool valid at one tip is valid at the tip of another chain, longer or on another branch, exactly when every input is unspent and mature there |
| Mining.DecodeNonce | apps/node/src/service.ts:186-189 | the loop yields the four little-endian bytes as a signed 32-bit number |
| Mining.NonceSpelled | apps/node/src/service.ts:184-195 | the byte spelled first is the lowest, in digits of either case, and hashes are taken in lower case |
| Mining.HighNoncesAreRefused | apps/node/src/service.ts:186-195 | nonces below 2^31 decode to themselves, and a share with a greater one is never accepted as a new block |
| Mining.TemplateFits | apps/node/src/service.ts:135-173 | a job over valid disjoint transactions satisfies every rule but size, time, work and cap |
| Mining.CreatedJob | apps/node/src/service.ts:135-173 | the only job left names the best block, the next height, the time and the payee of the whole scheduled reward, with no nonce and no hash |
| Mining.JobTakesOldest | apps/node/src/service.ts:139-141 | a job of a safe node takes the oldest pending transactions, in order, up to 1,000 |
| Mining.ShareChecks | apps/node/src/service.ts:179-197 | a share of a fitting job is accepted exactly on size, median time, proof of work and the cap |
| Mining.SubmitKeeps | apps/node/src/service.ts:118-124 | a submitted transaction keeps the node safe, whether refused, added or evicting another |
| Mining.CreateJobKeeps | apps/node/src/service.ts:135-173 | creating a job keeps the node safe |
| Mining.PoolAfterBlock | apps/node/src/service.ts:126-133 | after any acceptable block on the tip, whoever made it, the rest of the pool is valid and disjoint at the new tip exactly when the block consumed none of its inputs |
| Mining.BlockKeepsExactly | apps/node/src/service.ts:126-133 | any block that is offered, by a miner or a peer, keeps the node safe exactly unless it overtakes the tip while some input of an entry that it does not commit is spent, unknown or immature after it |
| Mining.MiningLoopSafeExactly | apps/node/src/service.ts:118-197 | a run of submissions, jobs, shares and blocks of peers is safe at every moment (pending transactions disjoint and valid at the tip, every job fitting its parent) exactly when no block offered in it strands a pending transaction |
| Mining.SharesPassTransactionChecks | apps/node/src/service.ts:179-197 | in such runs no share of a job still held fails a transaction check |
| PendingJobs.TiedIsHarmless | apps/node/src/service.ts:126-197 | while the transactions of a job on the tip are pending and jobs elsewhere are outpaced, no share strands anything |
| PendingJobs.CreateJobTies | apps/node/src/service.ts:135-173 | a job that is created has only pending transactions, whatever happened before |
| PendingJobs.PurgingShareBreaks | apps/node/src/service.ts:126-133 | a share that repeats a stored hash leaves chain and job alone and the node safe, but none of the job's transactions is pending any more |
| PendingJobs.ForkPurges | apps/node/src/service.ts:126-133 | a block that is stored without overtaking leaves the best chain as it is, and none of its transactions is pending any more |
| PendingJobs.CarefulRunsAreSafe | apps/node/src/service.ts:118-197 | runs without purging shares, with the pool below its limit at submissions, and with blocks of peers that are refused or extend the tip without stranding anything, are safe and strand nothing |
| StrandedRun.SafetyFails | apps/node/src/service.ts:118-197 | a concrete run from genesis, without colliding digests, after which a pending transaction is invalid at the tip |
| Service.AllBlocksByHeight | apps/node/src/storage.ts:67-70 | returns exactly the stored blocks in ascending height |
| Service.ChainService.constructor | apps/node/src/service.ts:73-85 | an empty store receives genesis, and whatever tree the store persists is restored |
| Service.ChainService.LoadPersistedBlocks | apps/node/src/service.ts:199-208 | the replay loop restores the persisted tree, with a tip of the same work |
| Service.ChainService.AcceptTransaction | apps/node/src/service.ts:118-124 | refines the submission step of the node |
| Service.ChainService.AcceptBlock | apps/node/src/service.ts:126-133 | refines the block step of the node, and keeps the table equal to the tree |
| Service.ChainService.CreateJob | apps/node/src/service.ts:135-173 | refines the job step of the node and forgets the job before |
| Service.ChainService.SubmitShare | apps/node/src/service.ts:179-197 | refines the share step of the node, and keeps the table equal to the tree |
| Locate.DownToSpaced | apps/node/src/p2p.ts:718-721 | the sampled heights are evenly spaced down to the bound |
| Locate.SamplesSpaced | apps/node/src/p2p.ts:714-727 | the first question has at most 65 heights, falling from the tip to genesis by at most the step |
| Locate.LowestAskedIsLast | apps/node/src/p2p.ts:490-494 | the least height among the 64 that the peer reads |
| Locate.KnownBelow | apps/node/src/p2p.ts:490-503 | a peer that stores one of our blocks stores everything below it |
| Locate.RefinedBound | apps/node/src/p2p.ts:738-755 | the second question closes in to within its step |
| Locate.ForkAnchorBound | apps/node/src/p2p.ts:714-757 | an anchor is found exactly when the greatest common height is not below the last height asked; it is known to the peer and less than a refined step below that height, and equal to it up to height 4095 |
| Locate.GenesisIsCutOff | apps/node/src/p2p.ts:490-505 | at height 127, chains that part right after genesis find no anchor |
| Sync.P2PNetwork.ServeBlocks | apps/node/src/p2p.ts:474-488 | the blocks of the best chain from the requested height on, from 0 if it is negative: as many as there are up to the limit if that is from 1 to 200, up to 200 if it is 0 or more than 200, one if it is negative |
| Sync.P2PNetwork.ServeTip | apps/node/src/p2p.ts:447-472 | height and hash of the best block, and the work of the whole chain |
| Sync.P2PNetwork.ServeLocate | apps/node/src/p2p.ts:490-505 | the position of the first stored hash, on any branch, among the first 64 well-formed ones; of at most 64 well-formed hashes the first that is stored |
| Sync.ServingIsHonest | apps/node/src/p2p.ts:447-505 | a peer whose answers are those of `ServeTip`, `ServeLocate` and `ServeBlocks` with limit 200 is honest in the sense of the results below |
| Locate.OddAnswers | apps/node/src/p2p.ts:728-757 | a peer that never gives an index yields no anchor, and after the first round the anchor of the first round |
| Sync.P2PNetwork.LocateForkAnchor | apps/node/src/p2p.ts:714-757 | the sampling loops and both rounds compute the fork anchor of the given answers |
| Sync.P2PNetwork.HandlePeerBlock | apps/node/src/p2p.ts:704-711 | offers the block to the service and counts a refusal |
| Sync.P2PNetwork.DownloadFrom | apps/node/src/p2p.ts:667-695 | against any peer, exactly the blocks that arrive in height order are offered, page by page within the limit |
| Sync.HaulInOrder | apps/node/src/p2p.ts:639-696 | against any peer: nothing is asked of one that is not higher, or tells its work and has no more; from any other come blocks of consecutive heights, from our next height on if we store its tip, else from the anchor on, and nothing without an anchor |
| Sync.PagesCount | apps/node/src/p2p.ts:667-695 | every item of a page counts as fetched, and a page that begins out of order ends the download |
| Rules.RefusedByRules | apps/node/src/p2p.ts:704-711 | a block of a peer counts as refused unless the rules allow it on its stored parent, or it is stored and its body well shaped |
| Sync.P2PNetwork.SyncWithSocket | apps/node/src/p2p.ts:639-696 | against any peer, one pass offers exactly the specified haul and counts fetched and refused blocks |
| Sync.FeedOnlyGrows | apps/node/src/p2p.ts:698-711 | whatever a peer sends, entries are only added and the best work never falls |
| Sync.SameAncestorIsDead | apps/node/src/p2p.ts:651-661 | an honest peer of more work never announces a tip that we store |
| Sync.AnchorIsExact | apps/node/src/p2p.ts:714-757 | on accepted chains an anchor that is found is the greatest common height |
| Sync.DownloadIsPrefix | apps/node/src/p2p.ts:667-695 | from a peer that serves a path of any length the loop gets its blocks from the start height on, in order, up to 3,000 of them |
| Sync.OnePassCatchesUp | apps/node/src/p2p.ts:639-696 | with an honest, static peer ahead of us, if an anchor is found, nothing is refused, the peer's whole best chain is stored with its states and works, and our best work is at least the peer's |
| Sync.FeedMovesTipExactly | apps/node/src/p2p.ts:698-711 | offered a stretch of the peer's best chain, the node keeps its tip exactly when the peer's chain up to there does not outweigh it |
| Sync.CutShortPass | apps/node/src/p2p.ts:639-696 | a pass that is cut short moves the tip exactly when what arrived outweighs it; otherwise the next pass downloads the same blocks again |
| CutOff.CutOffForGood | apps/node/src/p2p.ts:639-757 | two nodes at heights 127 and 200 whose chains part right after genesis: the longer is honest and has more work, and a pass of the shorter against it downloads nothing |
| WalletStore.ChainStore.LocalHeight | apps/wallet/src/core/walletDatabase.ts:410-414 | the greatest stored height, or -1 |
| WalletStore.ChainStore.UpsertTxIndex | apps/wallet/src/core/walletDatabase.ts:573-695 | all six index tables after one transaction; fails exactly on an unreadable amount |
| WalletStore.ChainStore.IndexTransactionsOf | apps/wallet/src/core/walletDatabase.ts:517-570 | the reward first, then every transfer with its inputs looked up in what is indexed by then |
| WalletStore.ChainStore.AppendBlocks | apps/wallet/src/core/walletDatabase.ts:455-514 | the first block of every height above the tip (`WalletRuns.BatchTakesFirst`): all are linked and indexed, and genesis hash and newest positive block time are stored, or nothing changes |
| WalletStore.ChainStore.Truncate | apps/wallet/src/core/walletDatabase.ts:697-730 | spends by rolled-back transactions are cleared and their rows deleted in every table; tells how many blocks went, and stores the time of the new tip |
| WalletStore.ChainStore.AddressBalance | apps/wallet/src/core/walletDatabase.ts:979-1001 | the sum of the unspent rows of an address, from the own view or from the full index less the references |
| WalletStore.ChainStore.AddressUtxos | apps/wallet/src/core/walletDatabase.ts:1035-1063 | exactly the mature unspent rows of an address, each once, by creation time and then position; the time is that of the block (`WalletFiling.RunIsFiled`) |
| WalletIndex.MarkSpentAt | apps/wallet/src/core/walletDatabase.ts:585-606 | marking changes only who spent the consumed outputs |
| WalletIndex.LastSpenderNoted | apps/wallet/src/core/walletDatabase.ts:585-603 | the full index notes the last input that consumes an output, with its position |
| WalletIndex.FirstSpenderNoted | apps/wallet/src/core/walletDatabase.ts:665-671 | the own view notes the first and never replaces it |
| WalletIndex.FilingKeepsSpender | apps/wallet/src/core/walletDatabase.ts:607-627 | filing outputs again leaves alone who spent them, and other transactions |
| WalletIndex.TransferAgrees | apps/wallet/src/core/walletDatabase.ts:541-568 | indexing a transfer mirrors its effect on the unspent outputs, in both views and in the references |
| WalletIndex.CoinbaseFirst | apps/wallet/src/core/walletDatabase.ts:517-540 | indexing the reward before the transfers reaches the same state as consensus, which adds it last |
| WalletIndex.IndexAgrees | apps/wallet/src/core/walletDatabase.ts:517-695 | on every applied chain the unspent rows are the unspent outputs, the own view is their restriction to own addresses, and references name only spent outputs |
| WalletIndex.IndexRefinesState | apps/wallet/src/core/walletDatabase.ts:979-1063 | for own and foreign addresses the index reports the balance and the spendable outputs of the consensus state |
| WalletRollback.UndoTx | apps/wallet/src/core/walletDatabase.ts:697-718 | erasing a transaction together with earlier victims leaves what erasing these alone leaves, also when outputs were spent twice |
| WalletRollback.TruncateTwice | apps/wallet/src/core/walletDatabase.ts:697-730 | a deep rollback may go by way of a shallower one, on any tables |
| WalletRollback.RollbackUndoesBatch | apps/wallet/src/core/walletDatabase.ts:455-730 | on tables of any contents, rolling back a batch of blocks with new identifiers restores every table exactly when the batch consumes no output noted as spent |
| WalletRollback.RollbackUndoesBlock | apps/wallet/src/core/walletDatabase.ts:517-730 | the same for a single block |
| WalletRollback.RollbackUndoesAppend | apps/wallet/src/core/walletDatabase.ts:455-730 | rolling back the index of any chain with distinct identifiers to a height gives the index of its prefix exactly when nothing above spends an output noted as spent below |
| WalletRollback.AppliedRollsBack | apps/wallet/src/core/walletDatabase.ts:455-730 | on every chain that consensus applies it does, in every table and to every height |
| LostSpender.RollbackLosesSpend | apps/wallet/src/core/walletDatabase.ts:582-718 | a concrete chain with distinct identifiers that appendBlocks takes and that rolling back its last block does not restore |
| WalletRuns.AppendableMeans | apps/wallet/src/core/walletDatabase.ts:466-493 | the link check accepts exactly the batches that continue the chain without a gap |
| WalletRuns.BatchTakesFirst | apps/wallet/src/core/walletDatabase.ts:455-466 | of the blocks of a height above the tip a batch takes the first one, of lower heights none |
| WalletRuns.RunBlocks | apps/wallet/src/core/walletDatabase.ts:455-730 | after any appends and rollbacks the block table holds the followed chain with hashes, links, times and coinbases, without the transactions; its heights count from zero |
| WalletRuns.RunIndexes | apps/wallet/src/core/walletDatabase.ts:455-730 | over appends and rollbacks that keep identifiers distinct, all tables are at every moment those of the followed chain, as if indexed from scratch, exactly when no rollback meets a transaction that spends an output noted as spent below |
| WalletRuns.WalletRefinesConsensus | apps/wallet/src/core/walletDatabase.ts:455-1063 | on runs over chains that consensus applies, the wallet reports at every moment the balances and spendable outputs of the consensus state |
| WalletRuns.RunsTime | apps/wallet/src/core/walletDatabase.ts:455-730 | after any appends and rollbacks the stored time is that of the last block of the followed chain, if that is positive |
| WalletFiling.ChainIsFiled | apps/wallet/src/core/walletDatabase.ts:517-695 | on applied chains every reward and transfer is filed with height, kind, fee and time of its block, with exactly its outputs and inputs, outputs to the sender as change, and under exactly the addresses of its sender and its outputs; among the own transactions exactly if one of these is own |
| WalletFiling.RunIsFiled | apps/wallet/src/core/walletDatabase.ts:455-1063 | the same after every run over chains that consensus applies, and every row reported for an address carries height and time of the block that created the output |
| WalletRuns.ChainLinkageError | apps/wallet/src/core/walletDatabase.ts:50-74 | reports an error exactly when heights have a gap, links break, or genesis is not the expected one |
| WalletRuns.RunsLink | apps/wallet/src/core/walletDatabase.ts:1253-1263 | after any appends and rollbacks the followed chain passes the linkage check against the stored genesis hash |
| Planner.NormalizePayments | apps/wallet/src/core/transactionPlanner.ts:21-32 | succeeds exactly for payments of positive amounts to valid addresses other than the sender's |
| Planner.SelectInputs | apps/wallet/src/core/transactionPlanner.ts:184-193 | the loop takes the specified run of outputs and its sum; `Planner.PlanIsRight` states where it ends |
| Planner.FillOutputs | apps/wallet/src/core/transactionPlanner.ts:206-218 | the queue loop pays from the front, splitting the last payment it reaches |
| Planner.PlanAddressChunks | apps/wallet/src/core/transactionPlanner.ts:154-222 | computes the plan that never mixes addresses, of which `PlanIsRight` and `TransferExists` speak |
| Planner.PlanSplitTransfer | apps/wallet/src/core/transactionPlanner.ts:51-116 | computes the plan over its outputs sorted oldest first (`OldestFirstSorts`), of which `PlanIsRight` and `TransferExists` speak |
| Planner.PlanIsRight | apps/wallet/src/core/transactionPlanner.ts:51-222 | chunks of one address and bounded size, balanced to the photon, change only at the end; the last one does not cover its payments without its last input, every earlier one ends at the cap or at a change of address; payments settled exactly and in order; the queue never runs out |
| Planner.LeanChange | apps/wallet/src/core/transactionPlanner.ts:184-193 | so the change is less than the last input |
| Planner.TransferIsRight | apps/wallet/src/core/transactionPlanner.ts:51-222 | for positive payments every plan returned is right, and inputs equal outputs, change and one fee per chunk |
| Planner.FundsSuffice | apps/wallet/src/core/transactionPlanner.ts:169-221 | there is a plan whenever every output exceeds the fee and the funds cover one fee per output |
| Planner.PlanExists | apps/wallet/src/core/transactionPlanner.ts:169-221 | from any output on there is a plan exactly when some number of full chunks, less one fee each, covers the payments and each of them but the last exceeds its fee |
| Planner.TransferExists | apps/wallet/src/core/transactionPlanner.ts:51-222 | either planner succeeds exactly on sound parameters and payments that are affordable in that sense, which implies the check of the funds |
| Planner.PlanErrors | apps/wallet/src/core/transactionPlanner.ts:57-75 | unsound parameters are reported first, then funds below payments and one fee; later failures name the fee or the funds |
| Planner.DustBlocks | apps/wallet/src/core/transactionPlanner.ts:85-90 | concrete outputs of one address whose sum covers the payments and one fee each, for which planning fails |
| Planner.OneAddressPlannersAgree | apps/wallet/src/core/transactionPlanner.ts:51-222 | on outputs of one address, in any order, grouping and planning by address returns what the planner for a single address returns: the same chunks or the same error |
| Planner.SettledPerAddress | apps/wallet/src/core/transactionPlanner.ts:94-107 | outputs that settle the queue pay every address what it is owed |
| Planner.NoOutputTwice | apps/wallet/src/core/transactionPlanner.ts:176-193 | a plan over distinct outputs uses none of them twice |
| Planner.OrderUtxosByAddress | apps/wallet/src/core/transactionPlanner.ts:126-144 | every output in exactly one group, one group per address, each oldest first, the richest group first, and among equally rich ones the one whose address occurs first |
| Planner.OldestFirstSorts | apps/wallet/src/core/transactionPlanner.ts:38-44 | the order of spending is by birth height, then identifier in the order of the locale, then position |
| Planner.SumsAre | apps/wallet/src/core/transactionPlanner.ts:46-48 | the sums that planning compares are the totals of the amounts |

## Left out

- Locate.ForkAnchorBound: speaks of peers that answer from one unchanging tree; answers of other peers are covered by the contracts of `LocateForkAnchor` and `SyncWithSocket` only.
- Sync.OnePassCatchesUp: assumes that hashes name the same block on both sides and that the peer does not change during the pass.
- Service.ChainService.LoadPersistedBlocks: restores the tree when every reading of the clock admits every stored block; which tip of equal work becomes the best one depends on the order of rows of equal height.
- Growth.ChainsEndEarly: 1535 bounds the greatest height from above; chains are shown to reach height 307, so the greatest height lies between.
- WalletRuns.RunIndexes: does not model segment archival or pending outbox rows; index agreement does not hold across archival as the code stands.
- WalletStore.ChainStore.AddressUtxos: oldest first is by block time, which need not follow heights; creation times are numbers of seconds, whose order is that of their ISO texts in the years these cover.
- SigningText.PayloadDeterminesAllButKey: equal identifiers force equal payloads only where digests do not collide.
- Sockets, reconnects, timers, timeouts of requests, HTTP, JSON-RPC, Stratum framing and gossip: a frame that cannot be read is None, a request that times out is not modelled.
- JSON encoding of blocks on the wire and in the tables: values pass unchanged.
- The RandomX library, secp256k1, SHA-256 and RIPEMD-160 themselves, scrypt, AES-GCM, ECIES and key derivation.
- SQLite: tables are maps, a database transaction is atomic, and the meta table is two fields of the store.
- `info`, `canonicalBlocks`, `history`, `findTransaction` and the display of hash rate: read-only queries without an invariant.
- Job blobs and little-endian targets sent to miners, and the callbacks on accepted blocks and transactions.
- The terminal interface, configuration, onboarding, update, clipboard, game gateway and wallet RPC surface.
- Locale-dependent comparison of identifiers: any total preorder, as a parameter of the sorts.
