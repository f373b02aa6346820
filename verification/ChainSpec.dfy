/** Whole chains (src/consensus/chain.rs) as values: full replay, and what every accepted chain
    satisfies: shape, clock independence, supply, maturities, nonces and per-address accounting. */
module ChainSpec {
  import opened Base
  import opened Params
  import opened Bytes
  import opened Difficulty
  import opened Types
  import opened State
  import opened Sorting
  import opened Rewards
  import opened Validation
  import opened Accounting

  /** The validation loop of `from_blocks`: genesis first, then block after block. */
  ghost function Replay(env: Env, blocks: seq<Block>, now: nat): Result<Ledger, ConsensusError> {
    if |blocks| == 0 || (|blocks| == 1 && blocks[0] != Genesis(env)) then Err(DifferentGenesis)
    else if |blocks| == 1 then Ok(EMPTY_LEDGER)
    else
      var front := blocks[..|blocks| - 1];
      var state :- Replay(env, front, now);
      ValidateBlock(env, blocks[|blocks| - 1], front, state, now)
  }

  /** A validated chain: its blocks, the state after them and their cumulative work. */
  datatype ChainValue = ChainValue(blocks: seq<Block>, state: Ledger, work: nat)

  /** `from_blocks`. */
  ghost function FromBlocks(env: Env, blocks: seq<Block>, now: nat): Result<ChainValue, ConsensusError> {
    var state :- Replay(env, blocks, now);
    var work :- CumulativeWork(blocks);
    Ok(ChainValue(blocks, state, work))
  }

  ghost predicate Accepted(env: Env, blocks: seq<Block>, now: nat) {
    Replay(env, blocks, now).Ok?
  }

  /** No block after the first claims height 0. `validate_block` alone does not demand this. */
  predicate NoLaterGenesis(blocks: seq<Block>) {
    forall i :: 0 < i < |blocks| ==> blocks[i].header.height != 0
  }

  function Tip(blocks: seq<Block>): Block
    requires blocks != []
  {
    blocks[|blocks| - 1]
  }

  // -------------------------------------------------------------- unfolding acceptance

  /** Every proper prefix of an accepted chain was accepted, with the state the next block saw. */
  lemma ReplayPrefix(env: Env, blocks: seq<Block>, now: nat)
    requires Accepted(env, blocks, now) && |blocks| > 1
    ensures var front := blocks[..|blocks| - 1];
            && Accepted(env, front, now)
            && Replay(env, blocks, now) == ValidateBlock(env, Tip(blocks), front, Replay(env, front, now).value, now)
  {
    hide ValidateBlock;
  }

  lemma {:induction false} PrefixAccepted(env: Env, blocks: seq<Block>, now: nat, n: nat)
    requires Accepted(env, blocks, now) && 1 <= n <= |blocks|
    ensures Accepted(env, blocks[..n], now)
    decreases |blocks|
  {
    hide Replay, ValidateBlock;
    if n == |blocks| {
      assert blocks[..n] == blocks;
    } else {
      ReplayPrefix(env, blocks, now);
      PrefixAccepted(env, blocks[..|blocks| - 1], now, n);
      assert blocks[..|blocks| - 1][..n] == blocks[..n];
    }
  }

  lemma {:induction false} StartsWithGenesis(env: Env, blocks: seq<Block>, now: nat)
    requires Accepted(env, blocks, now)
    ensures |blocks| >= 1 && blocks[0] == Genesis(env)
  {
    assert |blocks| >= 1;
    if |blocks| > 1 {
      ReplayPrefix(env, blocks, now);
      StartsWithGenesis(env, blocks[..|blocks| - 1], now);
    }
  }

  /** The parts of a successful validation above height 0. */
  lemma ValidBlockFacts(env: Env, block: Block, history: seq<Block>, state: Ledger, now: nat)
    requires ValidateBlock(env, block, history, state, now).Ok?
    requires block.header.height != 0
    ensures history != [] && HeaderContext(env, block.header, history, now).Ok?
    ensures TransactionRoot(env, block) == block.header.transactionsRoot
    ensures env.witnessRoot(block.workshareWitness) == block.header.workshareRoot
    ensures WitnessShapeOk(env, block.workshareWitness)
    ensures block.rewardClaim.Some?
    ensures var t := TransitionFor(env, block.header.height, block.rewardClaim.value, block.transactions, history, state);
            t.Ok? && ValidateBlock(env, block, history, state, now) == Ok(t.value.state)
            && LedgerRoot(env, t.value.state) == block.header.stateRoot
    ensures ValidateWorkshares(env, block.workshareWitness, history, state, block.header.timestamp).Ok?
  {
    hide HeaderContext, TransactionRoot, WitnessShapeOk, TransitionFor, LedgerRoot, ValidateWorkshares, VerifyPow, RandomxSeed, BlockSize;
  }

  lemma HeaderFacts(env: Env, header: BlockHeader, history: seq<Block>, now: nat)
    requires history != [] && HeaderContext(env, header, history, now).Ok?
    ensures header.height == Tip(history).header.height + 1
    ensures header.previousBlock == BlockId(env, Tip(history))
    ensures header.timestamp > Tip(history).header.timestamp
    ensures header.timestamp <= SatAdd64(now, MAX_FUTURE_BLOCK_TIME)
    ensures BitsToTarget(header.bits).Some?
  {
    hide NextBits, BitsToTarget, MedianTimePast;
  }

  // --------------------------------------------------------------- clock independence

  lemma ValidateLater(env: Env, block: Block, history: seq<Block>, state: Ledger, now: nat, later: nat)
    requires now <= later && ValidateBlock(env, block, history, state, now).Ok?
    ensures ValidateBlock(env, block, history, state, later) == ValidateBlock(env, block, history, state, now)
  {
    hide TransactionRoot, WitnessShapeOk, TransitionFor, LedgerRoot, ValidateWorkshares, VerifyPow, RandomxSeed, BlockSize,
         NextBits, BitsToTarget, MedianTimePast, Genesis;
  }

  /** A chain accepted now is accepted at any later clock, with the same state. */
  lemma {:induction false} ReplayLater(env: Env, blocks: seq<Block>, now: nat, later: nat)
    requires now <= later && Accepted(env, blocks, now)
    ensures Replay(env, blocks, later) == Replay(env, blocks, now)
  {
    hide ValidateBlock, Genesis;
    if |blocks| > 1 {
      var front := blocks[..|blocks| - 1];
      ReplayLater(env, front, now, later);
      ValidateLater(env, Tip(blocks), front, Replay(env, front, now).value, now, later);
    }
  }

  // ------------------------------------------------------------------------- shape

  /** Heights count blocks, parents link, time strictly advances. */
  ghost predicate Linked(env: Env, blocks: seq<Block>) {
    && (forall i :: 0 <= i < |blocks| ==> blocks[i].header.height == i)
    && (forall i :: 0 < i < |blocks| ==> blocks[i].header.previousBlock == BlockId(env, blocks[i - 1]))
    && (forall i, j :: 0 <= i < j < |blocks| ==> blocks[i].header.timestamp < blocks[j].header.timestamp)
    && (forall i :: 0 <= i < |blocks| ==> BitsToTarget(blocks[i].header.bits).Some?)
  }

  lemma GenesisFacts(env: Env)
    ensures Genesis(env).header.height == 0
    ensures Genesis(env).transactions == [] && Genesis(env).rewardClaim == None
    ensures BitsToTarget(Genesis(env).header.bits).Some?
  {
    hide BitsToTarget, TargetToBits;
    EncodeThenDecode(INITIAL_TARGET);
  }

  lemma LinkedStep(env: Env, front: seq<Block>, block: Block)
    requires front != [] && Linked(env, front)
    requires block.header.height == Tip(front).header.height + 1
    requires block.header.previousBlock == BlockId(env, Tip(front))
    requires block.header.timestamp > Tip(front).header.timestamp
    requires BitsToTarget(block.header.bits).Some?
    ensures Linked(env, front + [block])
  {
    hide BitsToTarget;
  }

  /** What an accepted chain of two or more blocks says of its last block. */
  lemma AcceptedTip(env: Env, blocks: seq<Block>, now: nat)
    requires Accepted(env, blocks, now) && |blocks| > 1 && Tip(blocks).header.height != 0
    ensures var front, header := blocks[..|blocks| - 1], Tip(blocks).header;
            && header.height == Tip(front).header.height + 1
            && header.previousBlock == BlockId(env, Tip(front))
            && header.timestamp > Tip(front).header.timestamp
            && BitsToTarget(header.bits).Some?
  {
    hide Replay, ValidateBlock, HeaderContext, BitsToTarget, TransitionFor, TransactionRoot, WitnessShapeOk, LedgerRoot, ValidateWorkshares;
    var front := blocks[..|blocks| - 1];
    ReplayPrefix(env, blocks, now);
    ValidBlockFacts(env, Tip(blocks), front, Replay(env, front, now).value, now);
    HeaderFacts(env, Tip(blocks).header, front, now);
  }

  lemma {:induction false} AcceptedIsLinked(env: Env, blocks: seq<Block>, now: nat)
    requires Accepted(env, blocks, now) && NoLaterGenesis(blocks)
    ensures Linked(env, blocks)
  {
    hide Replay, Linked, BitsToTarget, Genesis;
    StartsWithGenesis(env, blocks, now);
    if |blocks| == 1 {
      GenesisLinked(env);
      assert blocks == [Genesis(env)];
    } else {
      var front := blocks[..|blocks| - 1];
      PrefixAccepted(env, blocks, now, |blocks| - 1);
      AcceptedIsLinked(env, front, now);
      AcceptedTip(env, blocks, now);
      LinkedStep(env, front, Tip(blocks));
      assert blocks == front + [Tip(blocks)];
    }
  }

  /** Replay alone lets genesis come back: `validate_block` takes any height-0 block that equals it. */
  lemma RepeatedGenesisIsAccepted(env: Env, now: nat)
    ensures Accepted(env, [Genesis(env), Genesis(env)], now) && !Linked(env, [Genesis(env), Genesis(env)])
  {
    GenesisFacts(env);
    hide Genesis, BitsToTarget, HeaderContext, TransitionFor;
    var g := Genesis(env);
    assert [g, g][..1] == [g] && [g][..0] == [];
    assert Replay(env, [g], now) == Ok(EMPTY_LEDGER);
    assert [g, g][1].header.height == 0;
  }

  /** Heights are indices, parents link and time advances exactly when no later block claims height 0. */
  lemma LinkedIffNoLaterGenesis(env: Env, blocks: seq<Block>, now: nat)
    requires Accepted(env, blocks, now)
    ensures Linked(env, blocks) <==> NoLaterGenesis(blocks)
  {
    hide Replay, BitsToTarget;
    if NoLaterGenesis(blocks) {
      AcceptedIsLinked(env, blocks, now);
    }
  }

  lemma GenesisLinked(env: Env)
    ensures Linked(env, [Genesis(env)])
  {
    GenesisFacts(env);
  }

  lemma SortedStays(ts: seq<u64>)
    requires SortedBy(Less, ts)
    ensures SortBy(Less, ts) == ts
  {
    assert StrictOrder(Less);
    SortBySorts(Less, ts);
    hide SortBy;
    SameElements(SortBy(Less, ts), ts);
    SortedUnique(Less, SortBy(Less, ts), ts);
  }

  lemma RecentAscend(env: Env, history: seq<Block>, start: nat)
    requires Linked(env, history) && start < |history|
    ensures SortedBy(Less, Timestamps(history[start..]))
  {
    hide BitsToTarget;
    var recent := Timestamps(history[start..]);
    forall i, j | 0 <= i < j < |recent| ensures Less(recent[i], recent[j]) {
      assert recent[i] == history[start + i].header.timestamp && recent[j] == history[start + j].header.timestamp;
    }
  }

  lemma RecentIsSorted(env: Env, history: seq<Block>, start: nat)
    requires Linked(env, history) && start < |history|
    ensures SortBy(Less, Timestamps(history[start..])) == Timestamps(history[start..])
  {
    hide Linked, SortBy, SortedBy;
    RecentAscend(env, history, start);
    SortedStays(Timestamps(history[start..]));
  }

  /** Because time strictly advances, the median of the last eleven is the time of the block in their middle. */
  lemma MedianIsMiddle(env: Env, history: seq<Block>)
    requires Linked(env, history) && history != []
    ensures var k := Min(|history|, 11); MedianTimePast(history) == history[|history| - k + k / 2].header.timestamp
  {
    hide Linked, SortBy;
    RecentIsSorted(env, history, SatSub(|history|, MEDIAN_TIME_SPAN));
  }

  /** So it never exceeds the parent's timestamp, and the median test never refuses a block the parent
      test accepts. */
  lemma MedianBelowParent(env: Env, history: seq<Block>)
    requires Linked(env, history) && history != []
    ensures MedianTimePast(history) <= Tip(history).header.timestamp
  {
    MedianIsMiddle(env, history);
    hide MedianTimePast, BitsToTarget;
    var k := Min(|history|, 11);
    var i := |history| - k + k / 2;
    assert i < |history| - 1 ==> history[i].header.timestamp < history[|history| - 1].header.timestamp;
  }

  lemma {:induction false} FindsHeight(history: seq<Block>, base: nat, height: nat)
    requires forall i :: 0 <= i < |history| ==> history[i].header.height == base + i
    requires base <= height < base + |history|
    ensures FirstAtHeight(history, height) == Some(history[height - base])
    decreases |history|
  {
    if height > base {
      FindsHeight(history[1..], base + 1, height);
    }
  }

  /** The seed of the next height: the fixed one in the first epoch, afterwards the block the lag before the
      start of the epoch, which is always in the history. */
  lemma SeedAlwaysAvailable(env: Env, history: seq<Block>)
    requires Linked(env, history)
    ensures |history| < 2_048 ==> RandomxSeed(env, history, |history|) == Ok(Bootstrap)
    ensures |history| >= 2_048 ==>
              var epoch := |history| / 2_048;
              && 64 <= epoch * 2_048 && epoch * 2_048 - 64 < |history|
              && RandomxSeed(env, history, |history|) == Ok(Epoch(epoch, BlockId(env, history[epoch * 2_048 - 64])))
  {
    hide BitsToTarget, FirstAtHeight;
    if |history| >= RANDOMX_EPOCH_BLOCKS {
      SeedReferenceIs(|history| / RANDOMX_EPOCH_BLOCKS, |history| % RANDOMX_EPOCH_BLOCKS);
      FindsHeight(history, 0, RandomxSeedReferenceHeight(|history|));
    }
  }

  // ------------------------------------------------------------------ supply, maturity

  /** All maturities lie in the next hundred heights. */
  ghost predicate MaturingSoon(l: Ledger, height: nat) {
    forall d :: d in l.pending ==> height < d.maturity <= height + REWARD_MATURITY
  }

  lemma EmptyTotal()
    ensures Total(EMPTY_LEDGER) == 0 && Normal(EMPTY_LEDGER)
  {
    assert Balances(EMPTY_LEDGER) == map[];
  }

  lemma TransitionMaturities(parent: Ledger, next: Ledger, height: nat, txs: seq<Transaction>, claim: RewardClaim, allocation: Allocation)
    requires Transitioned(parent, next, height, txs, claim, allocation)
    requires height > 0 && MaturingSoon(parent, height - 1) && Normal(next)
    ensures MaturingSoon(next, height)
  {
    forall d | d in next.pending ensures height < d.maturity <= height + REWARD_MATURITY {
      assert PendingOf(next, d) > 0;
      assert d.maturity != height + REWARD_MATURITY ==> PendingOf(parent, d) > 0;
    }
  }

  /** What the supply statement says of one state. */
  ghost predicate SupplyAt(state: Ledger, height: nat) {
    Total(state) == SupplyTo(height) && MaturingSoon(state, height) && Normal(state)
  }

  lemma SupplyStep(env: Env, front: seq<Block>, block: Block, parent: Ledger, now: nat)
    requires front != [] && block.header.height != 0 && SupplyAt(parent, Tip(front).header.height)
    requires ValidateBlock(env, block, front, parent, now).Ok?
    ensures SupplyAt(ValidateBlock(env, block, front, parent, now).value, block.header.height)
  {
    hide ValidateBlock, Total, Normal, MaturingSoon, TransitionFor, Transitioned, HeaderContext, TransactionRoot, WitnessShapeOk, LedgerRoot,
         ValidateWorkshares, BlockSubsidy, BitsToTarget, RewardAllocation, SumFees;
    ValidBlockFacts(env, block, front, parent, now);
    HeaderFacts(env, block.header, front, now);
    TransitionEffect(env, block.header.height, block.rewardClaim.value, block.transactions, front, parent);
    var t := TransitionFor(env, block.header.height, block.rewardClaim.value, block.transactions, front, parent).value;
    TransitionMaturities(parent, t.state, block.header.height, block.transactions, block.rewardClaim.value, t.allocation);
  }

  /** A chain of one block, or one whose last block claims height 0, ends in the empty ledger. */
  lemma GenesisTip(env: Env, blocks: seq<Block>, now: nat)
    requires Accepted(env, blocks, now)
    ensures blocks != []
    ensures |blocks| == 1 || Tip(blocks).header.height == 0 ==>
              Replay(env, blocks, now) == Ok(EMPTY_LEDGER) && Tip(blocks).header.height == 0
  {
    StartsWithGenesis(env, blocks, now);
    GenesisFacts(env);
    hide TransitionFor, HeaderContext, TransactionRoot, WitnessShapeOk, LedgerRoot, ValidateWorkshares, VerifyPow, RandomxSeed, BlockSize;
  }

  /** On every accepted chain, balances plus pending rewards are exactly what the schedule has
      issued up to the tip height, and every pending reward matures within a hundred blocks. */
  lemma {:induction false} SupplyIsSchedule(env: Env, blocks: seq<Block>, now: nat)
    requires Accepted(env, blocks, now)
    ensures blocks != []
    ensures var state := Replay(env, blocks, now).value;
            && Total(state) == SupplyTo(Tip(blocks).header.height)
            && MaturingSoon(state, Tip(blocks).header.height)
            && Normal(state)
  {
    hide Replay, ValidateBlock, Total, Normal, MaturingSoon, Genesis, SupplyTo;
    GenesisTip(env, blocks, now);
    if |blocks| == 1 || Tip(blocks).header.height == 0 {
      EmptyTotal();
      EmptyMatures();
      NothingIssued();
    } else {
      var front := blocks[..|blocks| - 1];
      ReplayPrefix(env, blocks, now);
      SupplyIsSchedule(env, front, now);
      SupplyStep(env, front, Tip(blocks), Replay(env, front, now).value, now);
    }
  }

  lemma NothingIssued()
    ensures SupplyTo(0) == 0
  {
  }

  lemma EmptyMatures()
    ensures MaturingSoon(EMPTY_LEDGER, 0)
  {
  }
}
