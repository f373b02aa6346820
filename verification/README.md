# Paritr Protocol 9: verified model of the consensus core

This project models the deterministic core of the Paritr node in Dafny and proves what the protocol
relies on. The source is Rust; everything here follows the code, branch by branch, with its constants
and error cases.

- **Ledger and tree** (`State`, `LedgerState`, `SparseMerkle`, `KeyBits`, `Snapshot`): accounts and
  pending rewards above a cached 256-level sparse Merkle tree.
- **Validation and chains** (`Types`, `Merkle`, `Validation`, `Execution`, `Accounting`, `ChainSpec`,
  `BlockRules`, `Chain`, `ChainAccounts`): the state transition, header rules, workshare checks, what acceptance
  guarantees of every block, replay and append.
- **Fork choice** (`ForkChoice`, `ForkLiveness`, `Node`, `Binding`): the block store, branch assembly and submission as a
  state machine whose runs are block arrivals.
- **Rewards** (`Params`, `Sorting`, `Rewards`, `RewardRules`, `RewardHistory`): largest-remainder apportionment over the
  sliding window, and the shortcut recomputation of the same numbers.
- **Difficulty** (`Difficulty`): ASERT, compact targets, work and the workshare window.
- **Workshare pool** (`WitnessPrefix`, `WorksharePool`) and **transaction pool** (`Mempool`, `QueueRules`).
- **Bytes and sync** (`Bytes`, `Codec`, `Encoding`, `ObjectCodec`, `Limits`, `Wire`, `Sync`, `SyncRules`): the canonical
  codec, peer frames and the header exchange of two nodes.
- **`ChainResults`** puts the parts together from reachable runs and valid chains.

Objects the source updates in place are classes whose methods are proved against functions on values
(`LedgerState`, `SparseMerkleTree`, `Chain`, `Node`, `WorksharePool`, `Mempool`, `Reader`, `Writer`); loops
over local state are methods with invariants. The laws are lemmas about those functions.

Hashes are numbers compared as the source compares their bytes. Hashing, signature checking, RandomX, the
address checksum and UTF-8 checking are fixed functions given as parameters; where a result needs hashing
to be collision-free it says so. Clocks are numbers handed to each call and never run backwards.

## Where the obvious statement is too strong

- Validation of a height-0 block does not look at the history, so replay alone accepts a repeated genesis.
  `ChainSpec.RepeatedGenesisIsAccepted` shows it and `ChainSpec.LinkedIffNoLaterGenesis` gives the exact
  condition; `ForkChoice.RunKeeps` shows every submission establishes it.
- The specification limits a witness to 512 templates and 512 shares and a template to 4096 transactions
  (spec/PROTOCOL-9.md:76, spec/PROTOCOL-9.md:91). Validation of a block checks none of these counts, only bytes;
  the decoder does. The model follows the code; `Limits.ValidatedRoundTripIffCounts` is the exact condition.
- A ledger snapshot admits 2,000,000 accounts and 4,000,000 rewards by its own counts, but whole inputs are
  limited to 8 MiB, so a snapshot of more than 204,599 entries is never decoded back
  (`Snapshot.SnapshotDecodesExactly`, `ChainResults.SnapshotOfChain`).
- A replacement that then fails the funding check has already displaced the old transaction
  (`Mempools.RefusalCanDisplace`; exactly when: `Mempools.RefusalChangesNothingIff`), and an accepted transaction
  may be trimmed at once (`Mempools.AcceptedCanBeTrimmed`; exactly when: `Mempools.AcceptedStaysIff`).
- A replacement must raise the fee by a tenth only while ten times the old fee fits the counter
  (`QueueRules.ReplacementRaisesFee`, `QueueRules.SaturatedTenth`).
- A share target is not always the full 32 times the block target (`Difficulty.ShareTargetExactIff`,
  `Difficulty.ShareTargetCanFallShort`).
- Heights 0 and 1 are pinned to the initial target, so a taller parent can be easier when the chain is behind
  schedule (`Difficulty.PinnedHeightsFallIff`).
- A mining candidate takes its timestamp from its own clock while pooled shares may be ahead of it;
  `WorksharePools.PooledWitness` says exactly when the pool's witness can be settled.
- Duplicating the last node of an odd level lets lists with repeats share a Merkle root; the root determines
  duplicate-free lists (`Merkle.RepeatsCollide`, `Merkle.MerkleRootInjective`), which validation guarantees.

## Model

| member | source | states |
|---|---|---|
| `ForkChoice.RunKeeps` | `src/node.rs:802-901` | In every state reached by any run of block arrivals the active tip is the best of all stored blocks by greatest cumulative work, then lowest id; every stored block settles a valid chain; the active chain replays to the held state and work |
| `ForkChoice.SubmitKeeps` | `src/node.rs:802-867` | One accepted submission (extension, side branch, reorganisation or known block) keeps that invariant |
| `ForkChoice.Convergence` | `src/node.rs:802-901` | Two runs that stored the same ids, in any orders and at any non-decreasing clocks, hold the same chain, state and work |
| `ForkChoice.SameIdsSameStore` | `src/node.rs:815-841` | Reachable stores with the same ids hold the same blocks |
| `ForkChoice.WalkBackIsBranch` | `src/node.rs:869-901` | Walking unknown ancestors back to the active chain and reversing them yields exactly the stored branch of the parent followed by the block |
| `ForkChoice.StoredIsNotPreferred` | `src/consensus/chain.rs:131-166` | Resubmitting a stored side block never displaces the tip |
| `Nodes.Node.SubmitBlock` | `src/node.rs:802-867` | The method on a mutable node computes the submission function and keeps the node invariant; a refused block leaves chain and store as they were |
| `Nodes.Node.AssembleCandidate` | `src/node.rs:869-901` | The newest-first collection loop returns what the recursive walk returns, with the same refusals for unknown parents, cycles and long branches |
| `Nodes.Node.Propose` | `src/node.rs:802-814` | Appending or considering happens on a copy; the live chain is untouched whatever the outcome |
| `ChainResults.SameBlocksSameChain` | `src/node.rs:802-901` | Convergence with collision-free hashing of the actual encodings in place of any assumption on block ids |
| `ForkLiveness.TipBlockIsTaken` | `src/consensus/chain.rs:101-129` | A new block on the tip that validates, with total work in range, extends the chain and is stored |
| `ForkLiveness.SideBlockIsTaken` | `src/node.rs:802-841` | A new block that completes a valid stored branch is stored, and the better of its branch and the active chain is active afterwards |
| `ForkLiveness.AssembleSucceedsIff` | `src/node.rs:869-901` | A stored branch is assembled exactly when at most 100,000 of its blocks are off the active chain |
| `ForkLiveness.StoredStays` | `src/node.rs:815-841` | No submission changes or removes a stored block |
| `ForkLiveness.OrphanIsRefused` | `src/node.rs:886-896` | A block whose parent is neither active nor stored is refused as WrongParent |
| `Chains.AppendIsReplay` | `src/consensus/chain.rs:53-125` | A chain grown by append is, at that clock and every later one, what replaying the longer list gives: same state, same work |
| `Chains.Chain.Append` | `src/consensus/chain.rs:101-129` | The in-place append computes the value-level append; on error nothing has changed |
| `Chains.Chain.ConsiderChain` | `src/consensus/chain.rs:131-166` | The candidate is validated in full, replaces the chain exactly when it has more work or equal work and a lower tip id, and the fork height is the last common block |
| `Chains.ReplayBlocks` | `src/consensus/chain.rs:53-71` | The replay loop, replacing its state at each block, returns the state or the first error of the recursive replay |
| `ChainSpec.ReplayLater` | `src/consensus/validation.rs:273-302` | A chain accepted at one clock is accepted at every later clock with the same state |
| `ChainSpec.AcceptedIsLinked` | `src/consensus/validation.rs:273-302` | When no block after the first claims height 0, heights equal indices, parents link and timestamps strictly increase |
| `ChainSpec.LinkedIffNoLaterGenesis` | `src/consensus/validation.rs:109-120` | That shape holds of an accepted list exactly when no later block claims height 0 |
| `ChainSpec.RepeatedGenesisIsAccepted` | `src/consensus/validation.rs:116-119` | Replay by itself does accept a repeated genesis, and the result is not a linked chain |
| `ChainSpec.MedianBelowParent` | `src/consensus/validation.rs:464-475` | On a linked chain the median time past never exceeds the parent timestamp |
| `ChainSpec.MedianIsMiddle` | `src/consensus/validation.rs:464-475` | On a linked chain the median time past is the time of the block in the middle of the last eleven |
| `Params.SeedReferenceIs` | `src/consensus/params.rs:62-68` | The seed reference of every height of an epoch lies 64 before the start of the epoch |
| `Params.SeedReferencesAdvance` | `src/consensus/params.rs:62-68` | Heights share a reference exactly within an epoch, and a later epoch has a later one |
| `ChainSpec.SeedAlwaysAvailable` | `src/consensus/validation.rs:440-462` | The seed of the next height is the fixed one below 2048 and otherwise that of the block 64 before the start of its epoch, which is always in the history |
| `BlockRules.BlockProvesWork` | `src/consensus/validation.rs:135-137` | An accepted block above genesis has a hash, under the seed of its height, that is at most its decoded target |
| `BlockRules.MissingWorkIsRefused` | `src/consensus/validation.rs:424-438` | A block that is otherwise valid up to its proof of work is refused as InvalidProofOfWork when its hash exceeds the target, and as PowUnavailable when there is none |
| `BlockRules.ChainProvesWork` | `src/consensus/validation.rs:109-168` | Every block above genesis of an accepted linked chain has its work, under the fixed seed in the first epoch and the epoch seed afterwards |
| `BlockRules.ChainMeetsDifficulty` | `src/consensus/difficulty.rs:102-114` | Its bits decode to the rounded ASERT target after its parent, counted from the first mined block; its version fields are fixed and its time at most 300 s ahead |
| `BlockRules.BitsAreDemanded` | `src/consensus/difficulty.rs:93-114` | The bits demanded after a history are the compact form of the required target, with the time of block 1 as anchor |
| `BlockRules.HeaderRules` | `src/consensus/validation.rs:273-302` | An accepted header has the fixed versions, links to the parent, is later than parent and median and at most 300 s ahead, and has the demanded bits |
| `BlockRules.OnlyGenesisAtZero` | `src/consensus/validation.rs:116-119` | At height 0 exactly the genesis block is accepted, and its state is the empty ledger |
| `BlockRules.GenesisIs` | `src/consensus/types.rs:369-389` | The genesis block carries the launch parameters, nothing else, and the root of the empty ledger |
| `BlockRules.WitnessRules` | `src/consensus/validation.rs:122-133` | An accepted block and its witness keep the byte limits and versions, and the witness is canonical |
| `BlockRules.CanonicalMeans` | `src/consensus/types.rs:295-307` | Canonical: template ids strictly ascend and a template is there exactly when a share refers to it |
| `BlockRules.FirstAtHeightIs` | `src/consensus/validation.rs:445-450` | The seed reference is the first block of the history at its height |
| `BlockRules.ClaimRules` | `src/consensus/validation.rs:139-155` | The claim of an accepted block is for its height and for exactly the finder's part of the allocation over its fees |
| `BlockRules.ChainPayments` | `src/consensus/validation.rs:258-271` | Every transaction on an accepted chain is nonzero, in range, between different accounts and signed |
| `BlockRules.CommitmentLeaves` | `src/consensus/types.rs:360-367` | A block commits to its claim first and then to its transactions in order |
| `BlockRules.AcceptedShareRules` | `src/consensus/validation.rs:345-420` | Every share of an accepted list follows its predecessor, has the fields of a candidate on the parent, commits to the block its template and claim would make on the witness before it, and has a hash above the block target and at most the share target |
| `BlockRules.ShareOutsideTargetsIsRefused` | `src/consensus/validation.rs:399-408` | A share whose hash is outside the two targets is refused |
| `BlockRules.SettledSharesProveWork` | `src/consensus/validation.rs:160-166` | Every share settled by an accepted block has a hash strictly between the block's own target and share target, for the block's own parent, and is not later than the block |
| `ChainSpec.SupplyIsSchedule` | `src/consensus/validation.rs:109-242` | On every accepted chain balances plus pending rewards equal the sum of subsidies up to the tip height, pending maturities lie in the next hundred heights, and the ledger is in normal form |
| `Accounting.TransitionEffect` | `src/consensus/validation.rs:170-192` | One block moves money account by account as maturing, payments and allocation say; the total grows by the subsidy alone |
| `Accounting.ApplyEffect` | `src/consensus/validation.rs:194-242` | A transaction list debits amount and fee, credits the amount, counts nonces, and takes exactly the fees out of balances |
| `Accounting.ApplyDistinct` | `src/consensus/validation.rs:198-204` | No transaction id occurs twice in an accepted list |
| `Accounting.ScheduleAllEffect` | `src/consensus/validation.rs:184-190` | Scheduling the allocation adds to each pending entry what the recipient is paid and to the total the sum of payouts |
| `State.MatureMoves` | `src/consensus/state.rs:315-334` | Maturing credits each due entry once to its recipient, removes exactly the entries of that height and preserves nonces and the total |
| `State.MatureEachSucceeds` | `src/consensus/state.rs:315-334` | With at most MAX_MONEY in existence maturing cannot fail |
| `ChainAccounts.ChainIsExplained` | `src/consensus/validation.rs:170-242` | On every linked accepted chain each balance is matured rewards plus receipts less payments, each pending entry is what the block a hundred heights earlier scheduled, each nonce counts transactions sent |
| `ChainAccounts.NoncesCount` | `src/consensus/validation.rs:206-235` | Each sender's transactions carry nonces 0, 1, 2, ... in chain order, across emptied accounts too |
| `ChainAccounts.NoTransactionTwice` | `src/consensus/validation.rs:198-240` | No transaction occurs twice on a chain |
| `Bytes.AddressRangeIsComplete` | `src/consensus/state.rs:419-425` | The address range scanned for maturing rewards contains every valid address, whatever the checksum |
| `Params.ScheduledSupply` | `src/node.rs:1354-1365` | The era loop returns the block-by-block sum of subsidies, capped at the counter width |
| `Params.SubsidyInEra` | `src/consensus/params.rs:51-60` | The closed-form subsidy equals the subsidy the era loop reaches by repeated halving |
| `Params.SupplyAcrossEra` | `src/node.rs:1354-1365` | Within an era the supply grows linearly by the era subsidy |
| `LedgerMachine.LedgerState.CreditAccount` | `src/consensus/state.rs:251-260` | The in-place credit computes the value-level credit, updates the tree with it, and changes nothing on error |
| `LedgerMachine.LedgerState.DebitAccount` | `src/consensus/state.rs:262-270` | Likewise for debit |
| `LedgerMachine.LedgerState.WriteNonce` | `src/consensus/state.rs:272-276` | Likewise for the nonce |
| `LedgerMachine.LedgerState.Schedule` | `src/consensus/state.rs:278-313` | Likewise for scheduling, including the zero amount and the MAX_MONEY refusal |
| `LedgerMachine.LedgerState.WriteAccount` | `src/consensus/state.rs:336-345` | A default account is removed from map and tree, any other is written to both |
| `LedgerMachine.LedgerState.MatureAt` | `src/consensus/state.rs:315-334` | The collect-then-pay loop computes the value-level maturing and returns the due list in address order |
| `LedgerMachine.LedgerState.Root` | `src/consensus/state.rs:227-229` | The cached root equals the recursive hash of the whole ledger at all times |
| `State.LedgerRootDetermines` | `src/consensus/state.rs:227-229` | With collision-free hashing, equal ledger roots imply equal accounts and equal pending rewards |
| `SparseMerkle.SparseMerkleTree.Update` | `src/consensus/state.rs:136-184` | After an insert, overwrite or delete every cached or defaulted node is again the recursive hash of the value map below its prefix |
| `SparseMerkle.SparseMerkleTree.Rehash` | `src/consensus/state.rs:158-183` | One turn of the upward loop restores one more node of the path and disturbs none off it |
| `SparseMerkle.SparseMerkleTree.SetLeaf` | `src/consensus/state.rs:137-156` | The leaf step changes the value map as specified and leaves every node off the path right |
| `SparseMerkle.SubtreeUntouched` | `src/consensus/state.rs:136-184` | A change at a key is invisible below every prefix the key does not start with |
| `SparseMerkle.RootForgetsHistory` | `src/consensus/state.rs:136-184` | Write histories with the same last value at every key leave the same root, in any order and with any detours |
| `SparseMerkle.RootDetermines` | `src/consensus/state.rs:122-130` | With collision-free hashing equal roots mean equal contents |
| `KeyBits.PrefixRepresents` | `src/consensus/state.rs:202-215` | `prefix` stores exactly the first depth bits of the key, everything after cleared |
| `KeyBits.SiblingRepresents` | `src/consensus/state.rs:198-200` | Toggling the last bit of a child's byte index gives the sibling's index |
| `KeyBits.OwnSide` | `src/consensus/state.rs:194-196` | `bit` decides which child is the key's own, and the full-depth prefix is the key |
| `KeyBits.IndicesArePaths` | `src/consensus/state.rs:86-90` | At each depth byte indices and bit strings correspond one to one |
| `KeyBits.KeepPrefix` | `src/consensus/state.rs:202-215` | The masking loop on a byte array computes the prefix |
| `KeyBits.ToggleBit` | `src/consensus/state.rs:198-200` | The in-place xor flips the one bit at that depth and no other |
| `Rewards.ComputeAllocation` | `src/consensus/rewards.rs:26-106` | The imperative allocation equals the reference largest-remainder definition on every input; the saturations, overflow checks and final mismatch branch never decide |
| `Rewards.AllocationIsExact` | `src/consensus/rewards.rs:39-105` | Exactly subsidy plus fees is allocated |
| `Rewards.QuotaRule` | `src/consensus/rewards.rs:68-93` | Each address gets its exact quota rounded down or rounded up |
| `Rewards.MoreWeightNeverLess` | `src/consensus/rewards.rs:68-93` | More weight never earns less |
| `Rewards.BonusNeedsRemainder` | `src/consensus/rewards.rs:79-89` | A bonus unit is only ever a rounding up |
| `Rewards.LeftoverFacts` | `src/consensus/rewards.rs:68-81` | The floors never exceed the pool and the leftover is fewer units than there are addresses |
| `Rewards.AllocationIsOrdered` | `src/consensus/rewards.rs:89-93` | The output is strictly ascending by address and every amount is positive |
| `Rewards.AllocationIgnoresShareOrder` | `src/consensus/rewards.rs:39-57` | Windows holding the same shares in any order allocate alike, block boundaries included |
| `Rewards.FeesGoToFinder` | `src/consensus/rewards.rs:26-106` | Fees change the finder amount alone, by exactly the fees |
| `Rewards.SortBumpSort` | `src/consensus/rewards.rs:82-89` | Sorting by remainder, bumping a prefix and sorting back by address equals the line-by-line definition of who gets a bonus |
| `Rewards.PaidIsEntitlement` | `src/consensus/rewards.rs:68-93` | What the payout list pays an address is its entitlement |
| `Rewards.WeightBounds` | `src/consensus/rewards.rs:108-113` | A share weight is at least one and fits 256 bits |
| `RewardRules.WeightIsWork` | `src/consensus/rewards.rs:108-113` | A share mined under block target t weighs floor(2^256 / (s + 1)) for its share target s in (31 t, 32 t] |
| `RewardRules.WeightNeedsTarget` | `src/consensus/rewards.rs:108-113` | Bits have a weight exactly when they decode |
| `RewardRules.HarderNeverWeighsLess` | `src/consensus/rewards.rs:108-113` | A harder block target never gives less weight |
| `RewardRules.WindowIsRecent` | `src/consensus/rewards.rs:39-51` | The shares that count are exactly those of the last 1440 blocks |
| `RewardRules.FinderRule` | `src/consensus/rewards.rs:36-65` | With shares in the window the finder gets a twentieth of the subsidy rounded down and all fees, without any the whole |
| `RewardRules.LargestRemaindersFirst` | `src/consensus/rewards.rs:79-88` | Whoever has a larger remainder, or an equal one and a lower address, than a rounded-up address is rounded up too |
| `RewardHistory.HistoricalIsScheduled` | `src/node.rs:1374-1406` | On a valid chain the zero-fee recomputation reports exactly what the block scheduled for the address, and reports nothing exactly when that is zero |
| `RewardHistory.Eligible` | `src/node.rs:1387-1395` | The binary-search test is true exactly when the address has a share in the window |
| `RewardHistory.PartitionPoint` | `src/node.rs:1387-1395` | The binary search returns the boundary between positions below the index and the rest |
| `RewardHistory.ComputeHistoricalReward` | `src/node.rs:1374-1406` | The method computes the history entry |
| `RewardHistory.MiningRewards` | `src/node.rs:716-735` | The balance-based total is funds plus payments less receipts, with saturation |
| `RewardHistory.MiningRewardsIsHistory` | `src/node.rs:716-735` | That total equals the sum of all history entries of the address over the chain |
| `RewardHistory.PendingFits` | `src/consensus/state.rs:243-249` | While the issued supply fits the counter the pending sum of an address cannot saturate |
| `Difficulty.RequiredTargetIsClamp` | `src/consensus/difficulty.rs:53-91` | Early exits and wide intermediates change nothing: the rule is the clamp of floor(floor(T0*factor/2^16)*2^shifts) to [1, limit] |
| `Difficulty.TargetGrowsWithTime` | `src/consensus/difficulty.rs:53-91` | A later parent timestamp never lowers the target, across shift boundaries too |
| `Difficulty.TargetFallsWithHeight` | `src/consensus/difficulty.rs:53-91` | From height 2 on, a taller parent never raises the target |
| `Difficulty.PinnedHeightsFallIff` | `src/consensus/difficulty.rs:53-66` | From the pinned heights 0 and 1 to any taller parent the target does not rise exactly when the parent is not behind its schedule |
| `Difficulty.TargetIsTranslationInvariant` | `src/consensus/difficulty.rs:53-91` | Shifting both timestamps together changes nothing |
| `Difficulty.HalfLifeDoubles` | `src/consensus/difficulty.rs:53-91` | One more half-life doubles the target to within one unit whenever neither end is clamped |
| `Difficulty.RequiredTargetInRange` | `src/consensus/difficulty.rs:134-140` | The target always lies in [1, limit] |
| `Difficulty.EncodeThenDecode` | `src/consensus/difficulty.rs:8-46` | Encoding then decoding is total on nonzero targets and rounds down |
| `Difficulty.RoundDownIsGreatest` | `src/consensus/difficulty.rs:8-46` | The round trip gives the greatest representable target not above the input and is idempotent |
| `Difficulty.RoundDownMono` | `src/consensus/difficulty.rs:8-46` | It is monotone |
| `Difficulty.DecoderAcceptsExactlyEncodings` | `src/consensus/difficulty.rs:27-46` | The decoder accepts exactly the encoder's outputs |
| `Difficulty.RequiredBitsDecode` | `src/consensus/difficulty.rs:93-114` | The bits demanded of a block always decode, into [1, limit] |
| `Difficulty.ShareTargetWindow` | `src/consensus/difficulty.rs:116-121` | The share target lies in (31 * block target, 32 * block target] |
| `Difficulty.ShareTargetExactIff` | `src/consensus/difficulty.rs:116-121` | It is the full 32 times exactly when the mantissa is below 0x40000 or a multiple of 8 |
| `Difficulty.ShareTargetCanFallShort` | `src/consensus/difficulty.rs:116-121` | A concrete target for which it is less |
| `Difficulty.ShareTargetDecodes` | `src/consensus/difficulty.rs:116-121` | Share bits decode wherever block bits do |
| `Difficulty.TargetWorkIsQuotient` | `src/consensus/difficulty.rs:123-128` | The complement form computes floor(2^256 / (target + 1)), at least one |
| `Difficulty.TargetWorkAntitone` | `src/consensus/difficulty.rs:123-128` | A smaller target never carries less work |
| `Execution.ApplyInPlace` | `src/consensus/validation.rs:194-242` | The loop over a mutable ledger and set of seen ids computes the recursive application, with the same first error |
| `Execution.ComputeTransition` | `src/consensus/validation.rs:170-192` | Clone, mature, apply, allocate and schedule compute the transition; the parent state is untouched |
| `Execution.CheckShareChain` | `src/consensus/validation.rs:342-420` | The loop carrying previous id and growing prefix computes the share-by-share check |
| `Execution.ComputeWorkshares` | `src/consensus/validation.rs:320-422` | The whole witness check |
| `Execution.ComputeBlock` | `src/consensus/validation.rs:109-168` | Block validation computes the specified result on a fresh state, with every error in source order |
| `Merkle.ComputeMerkleRoot` | `src/consensus/types.rs:435-457` | Rewriting the level vector computes the recursive root |
| `Merkle.MerkleRootInjective` | `src/consensus/types.rs:435-457` | On duplicate-free leaf lists of any lengths, with leaves outside the node domain, equal roots mean equal lists |
| `Merkle.RepeatsCollide` | `src/consensus/types.rs:441-443` | Lists with repeats can collide |
| `Binding.RootBindsTransactions` | `src/consensus/types.rs:360-367` | Valid blocks with one transaction root have the same claim and transactions |
| `Binding.WitnessEncodingInjective` | `src/consensus/types.rs:310-322` | Within the byte limit witness encodings are injective whatever their item counts |
| `Binding.IdBindsBlock` | `src/consensus/types.rs:356-358` | Validated blocks with the same id are the same block |
| `Binding.IdsDoBind` | `src/consensus/types.rs:356-358` | So the id assumption of the fork-choice results follows from collision-free hashing |
| `Codec.VectorRoundTrip` | `src/codec.rs:129-153` | A counted list of framed elements decodes back to itself |
| `Codec.VectorCanonical` | `src/codec.rs:129-153` | An accepted counted list re-encodes to the bytes read and respects both limits |
| `Codec.DecodeAllCanonical` | `src/codec.rs:181-193` | Whole-input decoding accepts only exact encodings |
| `Codec.Reader.TakeBytes` | `src/codec.rs:87-101` | Advancing the offset reads exactly the next bytes, or fails without moving |
| `Codec.Reader.Vector` | `src/codec.rs:144-153` | The decoding loop with its accumulating vector computes the recursive read |
| `Codec.Writer.WriteVector` | `src/codec.rs:62-65` | The encoding loop appends count and framed elements |
| `Bytes.AddressRoundTrip` | `src/crypto.rs:89-118` | An address survives its 25 bytes |
| `Bytes.AddressCanonical` | `src/crypto.rs:105-113` | Accepted address bytes are the bytes of the address they give |
| `Bytes.AddressOrder` | `src/crypto.rs:85-86` | Byte order of addresses is the order of key hashes whatever the checksum |
| `Encoding.TransactionRoundTrip` | `src/consensus/types.rs:53-86` | Decoding undoes encoding, whatever follows |
| `Encoding.TransactionCanonical` | `src/consensus/types.rs:67-86` | Accepted bytes re-encode to themselves |
| `Encoding.ClaimRoundTrip` | `src/consensus/types.rs:105-125` | Decoding undoes encoding; the size is 51 bytes |
| `Encoding.ClaimCanonical` | `src/consensus/types.rs:115-125` | Accepted bytes re-encode to themselves |
| `Encoding.HeaderRoundTrip` | `src/consensus/types.rs:150-180` | Decoding undoes encoding; the size is 160 bytes |
| `Encoding.HeaderCanonical` | `src/consensus/types.rs:165-180` | Accepted bytes re-encode to themselves |
| `Encoding.TemplateRoundTrip` | `src/consensus/types.rs:198-229` | Decoding undoes encoding within the transaction count |
| `Encoding.TemplateCanonical` | `src/consensus/types.rs:210-229` | Accepted bytes re-encode to themselves |
| `Encoding.ShareRoundTrip` | `src/consensus/types.rs:249-271` | Decoding undoes encoding |
| `Encoding.ShareCanonical` | `src/consensus/types.rs:260-271` | Accepted bytes re-encode to themselves |
| `Encoding.WitnessRoundTrip` | `src/consensus/types.rs:310-345` | Decoding undoes encoding within 512 templates and 512 shares |
| `Encoding.WitnessCanonical` | `src/consensus/types.rs:324-345` | Accepted bytes re-encode to themselves and keep the counts |
| `Encoding.BlockRoundTrip` | `src/consensus/types.rs:391-433` | Decoding undoes encoding |
| `Encoding.BlockCanonical` | `src/consensus/types.rs:409-433` | Accepted bytes re-encode to themselves |
| `Encoding.BlockDecodesExactly` | `src/consensus/types.rs:391-433` | A byte string decodes to a block exactly when the block is within the limits and the string is its encoding |
| `Limits.ValidatedRoundTripIffCounts` | `src/consensus/validation.rs:304-318` | A validated block decodes from its own encoding exactly when its witness has at most 512 templates, 512 shares and 4096 transactions per template, none of which validation checks |
| `Limits.ValidBlockIsStructured` | `src/consensus/validation.rs:258-271` | Every transaction of a validated block, those of its witness templates included, is well formed |
| `ObjectCodec.WriteBlock` | `src/consensus/types.rs:391-407` | The writer method appends the encoding |
| `ObjectCodec.ReadBlockFrom` | `src/consensus/types.rs:409-433` | The reader method computes the decoder and leaves the reader at the rest |
| `ObjectCodec.WriteTransaction` | `src/consensus/types.rs:53-64` | The writer method appends the encoding |
| `ObjectCodec.ReadTransactionFrom` | `src/consensus/types.rs:67-86` | The reader method computes the decoder |
| `ObjectCodec.ReadWitnessFrom` | `src/consensus/types.rs:324-345` | The reader method computes the decoder |
| `Snapshot.SnapshotRoundTrip` | `src/consensus/state.rs:348-417` | Reading in place undoes writing, whatever follows, for ledgers in normal form within the entry counts |
| `Snapshot.SnapshotDecodesExactly` | `src/codec.rs:181-193` | Whole-input decoding accepts exactly the snapshots of ledgers in normal form with at most 204,599 entries in all |
| `Snapshot.DueRankOrder` | `src/consensus/state.rs:218-222` | The rank pending rewards are listed by is the order of pairs: maturity first, then recipient |
| `Snapshot.SnapshotSizeIs` | `src/consensus/state.rs:348-367` | A snapshot has 42 bytes and 41 more for each entry |
| `Snapshot.SnapshotCanonical` | `src/consensus/state.rs:369-417` | An accepted snapshot is byte for byte the one snapshot of the ledger it gives, which is in normal form |
| `Snapshot.LoadSnapshot` | `src/consensus/state.rs:369-417` | Filling an empty ledger and its tree in place computes the snapshot decoder, root check included |
| `ChainResults.SnapshotOfChain` | `src/consensus/state.rs:348-417` | The ledger of a valid chain is restored by whole-input decoding of its snapshot exactly while it has at most 204,599 entries |
| `Wire.MessageRoundTrip` | `src/p2p.rs:253-381` | Every in-limit message decodes back to itself |
| `Wire.MessageCanonical` | `src/p2p.rs:316-381` | Accepted message bytes re-encode to themselves |
| `Wire.MessageFits` | `src/p2p.rs:229-234` | Every in-limit message fits a frame |
| `Wire.FrameDecodesExactly` | `src/p2p.rs:228-251` | A frame decodes to a message exactly when the message is within the limits and the frame is its encoding |
| `Wire.HelloRoundTrip` | `src/p2p.rs:176-211` | A greeting decodes back to itself |
| `Wire.PeersReadBack` | `src/p2p.rs:365-377` | An accepted peer list has no repeats and re-encodes to itself |
| `WorksharePools.ReachablePoolOk` | `src/node.rs:125-237` | In every pool reachable by any sequence of template registrations and share submissions: path work is the sum of weights, the tip is the best by work then lowest id, paths are at most 512 long and fully checked |
| `WorksharePools.SubmitKeepsPool` | `src/node.rs:934-957` | One submission keeps that invariant |
| `WorksharePools.SubmitSucceedsIff` | `src/node.rs:934-957` | A share is taken exactly when its path can be rebuilt, is good, is nowhere later than 300 s from now, and there is room |
| `WorksharePools.RegisterKeeps` | `src/node.rs:135-155` | One template registration keeps it, the byte and count limits included |
| `WorksharePools.RebuildNeverFails` | `src/node.rs:157-197` | Rebuilding any pooled share's path terminates and succeeds |
| `WorksharePools.CandidateIs` | `src/node.rs:157-197` | For any share, pooled or not, the backward walk returns the stored path of its predecessor followed by the share, or fails exactly when anchor, template, predecessor or length is wrong |
| `WorksharePools.PooledWitness` | `src/consensus/validation.rs:320-422` | The witness of any pooled share is canonical and the validator accepts it exactly when the settling time is not before any share on the path |
| `WorksharePools.ValidatesIff` | `src/consensus/validation.rs:342-420` | Validation of a rebuilt witness depends on the settling time only through the shares being timely |
| `WorksharePools.SharesCommitToPredecessor` | `src/consensus/validation.rs:393-398` | A pooled share's header commits to the witness the pool rebuilds for its predecessor |
| `WitnessPrefix.PrefixIsWitness` | `src/consensus/validation.rs:342-420` | The validator's incremental prefix is, after every share, the pool's witness of that path |
| `WitnessPrefix.GrownIsWitness` | `src/consensus/validation.rs:410-418` | Push-unless-present and sort by id equals filtering the ordered template map |
| `WitnessPrefix.WitnessIsCanonical` | `src/consensus/types.rs:295-307` | Pool witnesses are canonical: ids strictly ascend and are exactly those referenced |
| `WorksharePools.WorksharePool.BuildWitness` | `src/node.rs:157-197` | The loop with its seen set and reversal computes the witness |
| `WorksharePools.WorksharePool.Accept` | `src/node.rs:199-227` | The method computes acceptance and changes nothing on error |
| `WorksharePools.WorksharePool.Witness` | `src/node.rs:229-236` | The tip's witness is rebuilt without failure, and the tip is the best pooled share |
| `WorksharePools.WorksharePool.Submit` | `src/node.rs:934-957` | Submission computes rebuild, full validation and acceptance, and keeps the pool invariant |
| `Mempools.QueueRun` | `src/mempool.rs:71-228` | Any run of accepts, expiries and confirmations from the empty pool, each accept against the ledger of its moment, keeps the index in bijection with the entries and the bytes equal to the sizes and within the limit |
| `Mempools.RunKeepsFunded` | `src/mempool.rs:200-220` | While the ledger stays the same, every sender's contiguous run that was funded stays funded, failing accepts included |
| `Mempools.EmptyIsFunded` | `src/mempool.rs:42-49` | The empty pool is funded by every ledger, so a whole run against one ledger is |
| `Mempools.AcceptKeeps` | `src/mempool.rs:71-113` | Accepting, refusing and replacing keep both |
| `Mempools.RefusalChangesNothingIff` | `src/mempool.rs:81-110` | A refusal leaves the pool as it was exactly when the call was not an adequately paying replacement; otherwise the replaced transaction is gone and nothing else changed |
| `Mempools.RefusalCanDisplace` | `src/mempool.rs:93-110` | A concrete pool and unfunded replacement for which the refusal empties the pool |
| `Mempools.AcceptedStaysIff` | `src/mempool.rs:96-113` | A newly accepted transaction stays exactly when it and every unexpired entry not lower in fee rate fit the limit together |
| `Mempools.AcceptedCanBeTrimmed` | `src/mempool.rs:111-112` | A concrete call that answers Ok and leaves the transaction out |
| `Mempools.TrimKeepsExactly` | `src/mempool.rs:180-198` | Trimming keeps an entry exactly when it and everything not lower in fee rate fit the limit together |
| `Mempools.RemovalsCommute` | `src/mempool.rs:169-179` | The order in which expired entries are removed does not matter |
| `Mempools.RemoveKeepsFunded` | `src/mempool.rs:200-228` | Dropping an entry never makes a funded run unfunded |
| `Mempools.SelectionIsAccepted` | `src/mempool.rs:121-167` | With at most MAX_MONEY in existence no expect fails and the selection made on the unmatured state is accepted in sequence on the matured one |
| `ChainResults.SelectionOnChain` | `src/mempool.rs:121-167` | So on any valid chain while the issued supply is within MAX_MONEY |
| `QueueRules.SelectionIsGreedy` | `src/mempool.rs:121-167` | Each selected payment is spendable after the ones before it and pays at least the rate of every other such payment, ties to the lower id; fewer than the maximum are selected only when nothing left is spendable |
| `QueueRules.BetterPayingFirst` | `src/mempool.rs:140-149` | Of two spendable payments the worse paying one is never chosen first |
| `QueueRules.EvictedPayNoMore` | `src/mempool.rs:180-198` | Whatever trimming evicts pays at most the rate of whatever it keeps |
| `QueueRules.ExpiredAreGone` | `src/mempool.rs:169-179` | After expiry nothing older than the time to live is left and nothing left has changed |
| `QueueRules.ReplacementRaisesFee` | `src/mempool.rs:83-92` | A replacement must raise the fee by the relay minimum and by a tenth, and any fee that does is enough |
| `QueueRules.SaturatedTenth` | `src/mempool.rs:85-89` | For fees near the width of the counter the tenth saturates and the rise may be less |
| `QueueRules.NewEntriesArePolicy` | `src/mempool.rs:231-260` | What enters the pool meets minimum fee and dust limit and has a nonce at most the gap ahead of the account |
| `QueueRules.RunKeepsPolicy` | `src/mempool.rs:231-243` | Over any run no payment below the relay minimum or the dust limit is ever queued |
| `QueueRules.FundedIff` | `src/mempool.rs:200-220` | A sender is funded exactly when the balance covers every stretch of consecutive queued payments from the account nonce on |
| `Mempools.OrdersAreStrict` | `src/mempool.rs:140-146` | Cross-multiplied fee rates with id tie-breaks are a strict order |
| `Mempools.SortedFirst` | `src/mempool.rs:126-149` | Sorting candidates collected in any order puts the one best entry first |
| `Mempools.Mempool.AcceptTransaction` | `src/mempool.rs:71-113` | The method computes acceptance |
| `Mempools.Mempool.SelectBest` | `src/mempool.rs:121-167` | The method, spending from a cloned ledger and scanning the table in an arbitrary order, computes the selection |
| `Mempools.Mempool.SenderIsFunded` | `src/mempool.rs:200-220` | The walk decides whether the contiguous run is funded |
| `Mempools.Mempool.FindLowest` | `src/mempool.rs:181-191` | The scan in an arbitrary order finds the one lowest entry |
| `Mempools.Mempool.ExpireAndTrimNow` | `src/mempool.rs:169-198` | The method computes expiry followed by trimming |
| `Sync.SyncCompletes` | `src/node.rs:1175-1294` | When the responder's chain extends the requester's, the exchange is over after exactly the counted messages and the requester holds the responder's chain, state and work |
| `ChainResults.ReachableNodesSync` | `src/node.rs:1175-1294` | So between any two nodes that runs of arrivals can produce, under collision-free hashing |
| `SyncRules.DivergedHeadersLink` | `src/node.rs:1231-1294` | For any two chains the responder answers with up to 2000 headers after the highest common block the locator names, and the requester accepts their links and queues their unknown ids |
| `SyncRules.QueueIff` | `src/node.rs:1251-1289` | Received headers are queued exactly when they have the known versions and link one by one to a known block, and then the queue is their unknown ids in order |
| `SyncRules.HeadersArm` | `src/node.rs:1251-1294` | Received headers start a download exactly when there are 1 to 2000, they link, and some block is missing; any that do not link end a running one |
| `SyncRules.BlockArm` | `src/node.rs:1175-1201` | A received block is submitted, and the download goes on exactly when it was the one asked for and was not refused |
| `SyncRules.KnownIsStored` | `src/node.rs:781-787` | On a sound node a block is known exactly when it is stored, active or not |
| `SyncRules.StopIsHonoured` | `src/node.rs:1241-1248` | Headers run to the end or up to the first block with the id asked to stop at |
| `Sync.AheadIsUnknown` | `src/node.rs:1282-1288` | None of the responder's further blocks is already stored, so no header batch is skipped |
| `Sync.QueueIsAll` | `src/node.rs:1251-1294` | Every received header passes the link checks and every id is queued |
| `Sync.FetchStep` | `src/node.rs:1175-1201` | Fetching one block extends the requester's chain by it and shortens the queue by one, or asks for headers again |
| `Sync.LocatorDescends` | `src/node.rs:1109-1130` | A locator runs strictly down to height 0 |
| `Sync.LocatorFitsIff` | `src/node.rs:1109-1130` | It fits the decoder's 64 entries exactly for heights up to 2^54 + 8 |
| `Sync.RequestFitsIff` | `src/p2p.rs:344-354` | So a request for headers is within the decoder limits exactly for those heights |
| `Sync.BlockLocator` | `src/node.rs:1109-1130` | The loop computes the locator |

## Left out

- Sync.SyncCompletes: progress is claimed for a responder whose chain extends the requester's; for diverged chains only the headers and their links are (`SyncRules.DivergedHeadersLink`), because the source stops when a whole batch is already known.
- Each exchange has one requester, one responder and one queue between them; other peers' queues, message budgets, peer slots and sockets are not modelled.
- `handle_wire` is modelled for GetHeaders, Headers, block GetData, Block and Ping; the transaction, template and workshare arms and the store of orphan shares are left out.
- Nodes.Node.SubmitBlock: does not model what follows a tip change outside chain and store (confirmed and resurrected mempool transactions, pool reset, generation counter); the pool and mempool operations it calls are modelled on their own.
- Storage calls succeed and the store is a map; SQL, the active-height index and error conversion are not part of this model.
- The checks that `Node::register_template` makes before it calls the pool (height, parent, template transactions) and assembling a mining candidate as a whole are left out.
- Hash widths: hashes are unbounded numbers so that a collision-free hash can exist; results that go through bytes ask for values below 2^256.
- A Merkle node hashes a pair of hashes as a pair rather than as 64 bytes.
- Codec.Reader.Vector: element decoders are functions on the framed bytes, so nested readers are not separate objects.
- Wire.DecodeFrame and the message decoders are functions of the remaining bytes; the reader and writer methods are given for the consensus objects and the ledger snapshot.
- Rewards.ComputeAllocation: asks that each witness has at most 2^64 - 1 shares, which a length always satisfies.
- RewardHistory.MiningRewards: does not model overflow of the 128-bit accumulator.
- Mempools.Mempool.SenderIsFunded: the index walk is by membership of the next nonce, which is what the zip of range and counter amounts to; the counter cannot pass 2^64 - 1 because relay refuses that nonce.
- Cubic accuracy against the real exponential is not claimed; only its bounds and monotonicity are used.
- `validate_genesis`, JSON shapes, status fields, RPC, portal, configuration and mining threads are not part of this model.
