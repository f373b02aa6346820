/** What acceptance guarantees of single blocks, headers and shares, in terms of the environment's
    functions and plain comparisons, and the same for every block of an accepted chain. */
module BlockRules {
  import opened Base
  import opened Params
  import opened Difficulty
  import opened Types
  import opened Merkle
  import opened State
  import opened Rewards
  import opened Validation
  import opened Accounting
  import opened ChainSpec
  import opened WitnessPrefix
  import opened Limits

  // ------------------------------------------------------------------- proof of work

  /** An accepted block above genesis: its hash under the seed of its height is at most its target. */
  lemma BlockProvesWork(env: Env, block: Block, history: seq<Block>, state: Ledger, now: nat)
    requires block.header.height != 0 && ValidateBlock(env, block, history, state, now).Ok?
    ensures RandomxSeed(env, history, block.header.height).Ok?
    ensures BitsToTarget(block.header.bits).Some?
    ensures var hash := env.pow(RandomxSeed(env, history, block.header.height).value, block.header);
            hash.Some? && hash.value <= BitsToTarget(block.header.bits).value
  {
    hide HeaderContext, TransactionRoot, WitnessShapeOk, TransitionFor, LedgerRoot, ValidateWorkshares, RandomxSeed, BlockSize, BitsToTarget;
  }

  /** What is checked before the proof of work. */
  ghost predicate ReachesWork(env: Env, block: Block, history: seq<Block>, now: nat) {
    && block.header.height != 0 && history != [] && HeaderContext(env, block.header, history, now).Ok?
    && BlockSize(block) <= MAX_BLOCK_BYTES && |block.transactions| <= MAX_BLOCK_TRANSACTIONS
    && TransactionRoot(env, block) == block.header.transactionsRoot
    && WitnessShapeOk(env, block.workshareWitness)
    && env.witnessRoot(block.workshareWitness) == block.header.workshareRoot
    && RandomxSeed(env, history, block.header.height).Ok?
  }

  /** A block that gets as far as its proof of work is refused there when its hash exceeds its target, or
      when there is no hash. */
  lemma MissingWorkIsRefused(env: Env, block: Block, history: seq<Block>, state: Ledger, now: nat)
    requires ReachesWork(env, block, history, now)
    ensures BitsToTarget(block.header.bits).Some?
    ensures var hash := env.pow(RandomxSeed(env, history, block.header.height).value, block.header);
            && (hash.None? ==> ValidateBlock(env, block, history, state, now) == Err(PowUnavailable))
            && (hash.Some? && hash.value > BitsToTarget(block.header.bits).value ==>
                  ValidateBlock(env, block, history, state, now) == Err(InvalidProofOfWork))
  {
    HeaderFacts(env, block.header, history, now);
    hide HeaderContext, TransactionRoot, WitnessShapeOk, TransitionFor, LedgerRoot, ValidateWorkshares, RandomxSeed, BlockSize, BitsToTarget,
         RewardAllocation;
  }

  // --------------------------------------------------------------------------- genesis

  /** At height 0 exactly the genesis block is accepted, with an empty ledger. */
  lemma OnlyGenesisAtZero(env: Env, block: Block, history: seq<Block>, state: Ledger, now: nat)
    requires block.header.height == 0
    ensures ValidateBlock(env, block, history, state, now).Ok? <==> block == Genesis(env)
    ensures block == Genesis(env) ==> ValidateBlock(env, block, history, state, now) == Ok(Ledger(map[], map[]))
  {
    hide Genesis;
  }

  /** What the genesis block says: the launch parameters, nothing in it, and the root of the empty ledger. */
  lemma GenesisIs(env: Env)
    ensures var g := Genesis(env);
            && g.header.version == 3 && g.header.protocol == 9 && g.header.height == 0 && g.header.previousBlock == 0 && g.header.nonce == 0
            && g.header.timestamp == 1_788_984_000 && g.header.transactionsRoot == env.genesisTransactionsRoot
            && g.header.stateRoot == LedgerRoot(env, EMPTY_LEDGER)
            && g.header.workshareRoot == env.witnessRoot(WorkshareWitness(1, [], []))
            && BitsToTarget(g.header.bits) == Some(RoundDown(INITIAL_TARGET))
            && g.rewardClaim == None && g.transactions == [] && g.workshareWitness == WorkshareWitness(1, [], [])
  {
    hide BitsToTarget, TargetToBits, RoundDown;
    EncodeThenDecode(INITIAL_TARGET);
    assert ValuesOf(env, Contents(env, EMPTY_LEDGER)) == map[];
  }

  // -------------------------------------------------------------------------- witnesses

  /** Template ids strictly ascend, every template is referred to by a share, and every share's template is there. */
  lemma CanonicalMeans(env: Env, w: WorkshareWitness)
    requires IsCanonical(env, w)
    ensures forall i: nat, j: nat :: i < j < |w.templates| ==> env.templateId(w.templates[i]) < env.templateId(w.templates[j])
    ensures forall t :: t in w.templates ==> exists s :: s in w.workshares && s.templateId == env.templateId(t)
    ensures forall s :: s in w.workshares ==> exists t :: t in w.templates && env.templateId(t) == s.templateId
  {
    var ids := TemplateIds(env, w.templates);
    AdjacentIsAscending(ids);
    forall i: nat, j: nat | i < j < |w.templates| ensures env.templateId(w.templates[i]) < env.templateId(w.templates[j]) {
      assert ids[i] < ids[j];
    }
    forall t | t in w.templates ensures exists s :: s in w.workshares && s.templateId == env.templateId(t) {
      HasIdIff(env, w.templates, env.templateId(t));
      assert env.templateId(t) in Referenced(w.workshares);
    }
    forall s | s in w.workshares ensures exists t :: t in w.templates && env.templateId(t) == s.templateId {
      assert s.templateId in Referenced(w.workshares);
      HasIdIff(env, w.templates, s.templateId);
    }
  }

  /** The sizes and the shape of an accepted block and its witness. */
  lemma WitnessRules(env: Env, block: Block, history: seq<Block>, state: Ledger, now: nat)
    requires block.header.height != 0 && ValidateBlock(env, block, history, state, now).Ok?
    ensures BlockSize(block) <= 0x80_0000 && |block.transactions| <= 4_096
    ensures var w := block.workshareWitness;
            && w.version == 1 && WitnessSize(w) <= 0x40_0000 && IsCanonical(env, w)
            && (forall t :: t in w.templates ==> t.version == 1 && TemplateSize(t) <= 0x40_0000)
  {
    ValidBlockSizes(env, block, history, state, now);
    hide ValidateBlock, BlockSize, WitnessSize, TemplateSize, IsCanonical;
  }

  // ------------------------------------------------------------------------------ seeds

  /** The seed's reference is the first block of the history at its height. */
  lemma {:induction false} FirstAtHeightIs(history: seq<Block>, height: nat)
    ensures FirstAtHeight(history, height).None? ==> forall i :: 0 <= i < |history| ==> history[i].header.height != height
    ensures FirstAtHeight(history, height).Some? ==>
              exists i :: 0 <= i < |history| && history[i] == FirstAtHeight(history, height).value && history[i].header.height == height
                          && forall j :: 0 <= j < i ==> history[j].header.height != height
  {
    if history != [] && history[0].header.height != height {
      var rest := history[1..];
      FirstAtHeightIs(rest, height);
      if FirstAtHeight(rest, height).Some? {
        var i :| 0 <= i < |rest| && rest[i] == FirstAtHeight(rest, height).value && rest[i].header.height == height
                 && forall j :: 0 <= j < i ==> rest[j].header.height != height;
        assert history[i + 1] == rest[i];
        forall j | 0 <= j < i + 1 ensures history[j].header.height != height {
          assert j > 0 ==> history[j] == rest[j - 1];
        }
      } else {
        forall i | 0 <= i < |history| ensures history[i].header.height != height {
          assert i > 0 ==> history[i] == rest[i - 1];
        }
      }
    } else if history != [] {
      assert history[0] == FirstAtHeight(history, height).value;
    }
  }

  // -------------------------------------------------------------------------- headers

  /** The fixed fields, the link and the times of an accepted header. */
  lemma HeaderRules(env: Env, header: BlockHeader, history: seq<Block>, now: nat)
    requires history != [] && HeaderContext(env, header, history, now).Ok?
    ensures header.version == 3 && header.protocol == 9
    ensures header.height == Tip(history).header.height + 1 && header.previousBlock == BlockId(env, Tip(history))
    ensures Tip(history).header.timestamp < header.timestamp <= SatAdd64(now, 300)
    ensures header.timestamp > MedianTimePast(history)
    ensures header.bits == NextBits(history)
  {
    hide NextBits, BitsToTarget, MedianTimePast;
  }

  /** The bits are the compact form of the target that ASERT demands, anchored at the first mined block. */
  lemma BitsAreDemanded(history: seq<Block>)
    requires history != []
    ensures var parent := Tip(history).header;
            var launch := if |history| > 1 then history[1].header.timestamp else parent.timestamp;
            BitsToTarget(NextBits(history)) == Some(RoundDown(RequiredTarget(parent.height, parent.timestamp, launch)))
  {
    hide BitsToTarget, RoundDown, RequiredTarget, RequiredBits;
    var parent := Tip(history).header;
    RequiredBitsDecode(parent.height, parent.timestamp, if |history| > 1 then history[1].header.timestamp else parent.timestamp);
  }

  // --------------------------------------------------------------------------- claims

  /** The reward claim of an accepted block is of the known version, for its height, and for exactly the
      finder's part of the allocation over its fees. */
  lemma ClaimRules(env: Env, block: Block, history: seq<Block>, state: Ledger, now: nat)
    requires block.header.height != 0 && ValidateBlock(env, block, history, state, now).Ok?
    ensures block.rewardClaim.Some?
    ensures block.rewardClaim.value.version == 1 && block.rewardClaim.value.height == block.header.height
    ensures var allocation := RewardAllocation(block.header.height, SumFees(block.transactions), history);
            allocation.Ok? && block.rewardClaim.value.amount == allocation.value.finderAmount
  {
    ValidBlockFacts(env, block, history, state, now);
    ClaimFields(env, block, history, state, now);
    hide ValidateBlock, TransitionFor, RewardAllocation, SumFees;
    TransitionEffect(env, block.header.height, block.rewardClaim.value, block.transactions, history, state);
  }

  lemma ClaimFields(env: Env, block: Block, history: seq<Block>, state: Ledger, now: nat)
    requires block.header.height != 0 && ValidateBlock(env, block, history, state, now).Ok?
    ensures block.rewardClaim.Some?
    ensures block.rewardClaim.value.version == CLAIM_VERSION && block.rewardClaim.value.height == block.header.height
  {
    hide HeaderContext, TransactionRoot, WitnessShapeOk, TransitionFor, LedgerRoot, ValidateWorkshares, RandomxSeed, BlockSize, VerifyPow;
  }

  // --------------------------------------------------------------------- transactions

  /** A payment that was applied: nonzero, in range, between different accounts, signed, with key and
      signature of the right sizes. */
  predicate Payment(env: Env, tx: Transaction) {
    && tx.version == 1
    && 1 <= tx.amount <= 0x3fff_ffff_ffff_ffff && tx.fee <= 0x3fff_ffff_ffff_ffff
    && tx.sender != tx.recipient
    && |tx.publicKey| in {33, 65} && |tx.signature| == 64
    && env.signatureValid(tx)
  }

  lemma AppliedArePayments(env: Env, l: Ledger, txs: seq<Transaction>, i: nat)
    requires ApplyTransactions(env, l, txs).Ok? && i < |txs|
    ensures Payment(env, txs[i])
  {
    ApplyNonces(env, l, txs, i);
    hide ApplyTransactions, SentCount;
  }

  // --------------------------------------------------------------------------- shares

  /** The leaves a block commits to: the claim first, then the transactions in order. */
  lemma CommitmentLeaves(env: Env, claim: RewardClaim, txs: seq<Transaction>, i: nat)
    requires i < |txs|
    ensures var leaves := Leaves(env, Some(claim), txs);
            && |leaves| == |txs| + 1 && leaves[0] == env.claimId(claim) && leaves[i + 1] == env.txId(txs[i])
  {
  }

  /** What a share is accepted for: its header is that of the block its template and claim would make, on
      the witness so far, with a hash between the two targets. */
  ghost predicate ShareCommits(env: Env, ctx: ShareContext, history: seq<Block>, state: Ledger, share: Workshare, prefix: WorkshareWitness)
    requires share.templateId in ctx.templates
  {
    var t, header := ctx.templates[share.templateId], share.candidateHeader;
    var allocation := RewardAllocation(t.height, SumFees(t.transactions), history);
    && t.version == 1 && t.parent == header.previousBlock && t.height == header.height
    && allocation.Ok? && allocation.value.finderAmount <= U64_MAX
    && var claim := RewardClaim(1, t.height, share.miner, allocation.value.finderAmount, share.extranonce);
       var next := TransitionFor(env, t.height, claim, t.transactions, history, state);
       && next.Ok?
       && header.transactionsRoot == MerkleRoot(env, [env.claimId(claim)] + TransactionIds(env, t.transactions))
       && header.stateRoot == LedgerRoot(env, next.value.state)
       && header.workshareRoot == env.witnessRoot(prefix)
  }

  /** The plain fields of an accepted share, and its hash: easier than a block by more than nothing and no
      more than the share target. */
  ghost predicate ShareWorks(env: Env, ctx: ShareContext, share: Workshare, previous: Hash) {
    var header := share.candidateHeader;
    var hash := env.pow(ctx.seed, header);
    && share.version == 1 && share.previousWorkshare == previous
    && header.version == 3 && header.protocol == 9
    && header.height == ctx.parent.header.height + 1 && header.previousBlock == BlockId(env, ctx.parent)
    && header.bits == ctx.expectedBits
    && ctx.parent.header.timestamp < header.timestamp <= ctx.settling && ctx.mtp < header.timestamp
    && hash.Some? && ctx.blockTarget < hash.value <= ctx.shareTarget
  }

  lemma CheckedShareRules(env: Env, ctx: ShareContext, history: seq<Block>, state: Ledger, share: Workshare, previous: Hash, prefix: WorkshareWitness)
    requires CheckShare(env, ctx, history, state, share, previous, prefix).Ok?
    ensures share.templateId in ctx.templates
    ensures ShareWorks(env, ctx, share, previous)
    ensures ShareCommits(env, ctx, history, state, share, prefix)
  {
    hide RewardAllocation, TransitionFor, MerkleRoot, LedgerRoot, SumFees;
  }

  /** A share that passes everything up to its hash is refused when the hash is outside the two targets. */
  lemma ShareOutsideTargetsIsRefused(env: Env, ctx: ShareContext, history: seq<Block>, state: Ledger, share: Workshare, previous: Hash,
                                     prefix: WorkshareWitness, hash: nat)
    requires env.pow(ctx.seed, share.candidateHeader) == Some(hash)
    requires hash <= ctx.blockTarget || ctx.shareTarget < hash
    ensures CheckShare(env, ctx, history, state, share, previous, prefix).Err?
  {
    hide RewardAllocation, TransitionFor, MerkleRoot, LedgerRoot, SumFees, ShareHeaderOk, TemplateOk;
  }

  /** Every share of an accepted list, with its predecessor and the witness before it. */
  lemma {:induction false} AcceptedShareRules(env: Env, ctx: ShareContext, history: seq<Block>, state: Ledger, shares: seq<Workshare>, i: nat)
    requires CheckShares(env, ctx, history, state, shares).Ok? && i < |shares| && Keyed(env, ctx.templates)
    ensures shares[i].templateId in ctx.templates
    ensures ShareWorks(env, ctx, shares[i], if i == 0 then 0 else env.shareId(shares[i - 1]))
    ensures ShareCommits(env, ctx, history, state, shares[i], WitnessOf(ctx.templates, shares[..i]))
    decreases |shares|
  {
    hide CheckShares, CheckShare, Grown, WitnessOf, ShareWorks, ShareCommits;
    GrownOnTop(env, ctx, history, state, shares);
    var front := shares[..|shares| - 1];
    if i < |front| {
      AcceptedShareRules(env, ctx, history, state, front, i);
      assert front[..i] == shares[..i];
    } else {
      PrefixIsWitness(env, ctx, history, state, front);
      CheckedShareRules(env, ctx, history, state, shares[i], if i == 0 then 0 else env.shareId(shares[i - 1]), WitnessOf(ctx.templates, front));
    }
  }

  lemma ContextIs(env: Env, templates: seq<BlockTemplate>, history: seq<Block>, settling: nat)
    requires MakeContext(env, templates, history, settling).Ok?
    ensures var ctx := MakeContext(env, templates, history, settling).value;
            && history != [] && ctx.parent == Tip(history) && ctx.templates == TemplateMap(env, templates)
            && RandomxSeed(env, history, Tip(history).header.height + 1) == Ok(ctx.seed)
            && ctx.expectedBits == NextBits(history) && ctx.settling == settling && ctx.mtp == MedianTimePast(history)
            && BitsToTarget(ctx.expectedBits) == Some(ctx.blockTarget) && ShareTarget(ctx.expectedBits) == Some(ctx.shareTarget)
  {
    hide RandomxSeed, NextBits, MedianTimePast, TemplateMap, BitsToTarget, ShareTarget;
  }

  lemma {:induction false} TemplateMapKeyed(env: Env, templates: seq<BlockTemplate>)
    ensures Keyed(env, TemplateMap(env, templates))
  {
    if templates != [] {
      TemplateMapKeyed(env, templates[..|templates| - 1]);
    }
  }

  /** Every share settled by an accepted block was mined for the block's own parent and target, has a hash
      strictly above the block target and at most the share target, and is not later than the block. */
  lemma SettledSharesProveWork(env: Env, block: Block, history: seq<Block>, state: Ledger, now: nat, i: nat)
    requires block.header.height != 0 && ValidateBlock(env, block, history, state, now).Ok?
    requires i < |block.workshareWitness.workshares|
    ensures RandomxSeed(env, history, block.header.height).Ok?
    ensures BitsToTarget(block.header.bits).Some? && ShareTarget(block.header.bits).Some?
    ensures var share := block.workshareWitness.workshares[i];
            var hash := env.pow(RandomxSeed(env, history, block.header.height).value, share.candidateHeader);
            && hash.Some? && BitsToTarget(block.header.bits).value < hash.value <= ShareTarget(block.header.bits).value
            && share.candidateHeader.previousBlock == block.header.previousBlock
            && share.candidateHeader.timestamp <= block.header.timestamp
            && share.previousWorkshare == if i == 0 then 0 else env.shareId(block.workshareWitness.workshares[i - 1])
  {
    hide ValidateBlock, HeaderContext, MakeContext, CheckShares, RandomxSeed, BitsToTarget, ShareTarget, NextBits, ShareCommits, TransitionFor,
         TransactionRoot, WitnessShapeOk, LedgerRoot, TemplateMap, MedianTimePast;
    var w := block.workshareWitness;
    ValidBlockFacts(env, block, history, state, now);
    HeaderRules(env, block.header, history, now);
    ContextIs(env, w.templates, history, block.header.timestamp);
    TemplateMapKeyed(env, w.templates);
    AcceptedShareRules(env, MakeContext(env, w.templates, history, block.header.timestamp).value, history, state, w.workshares, i);
  }

  // --------------------------------------------------------------------------- chains

  lemma BlockOfChain(env: Env, blocks: seq<Block>, now: nat, i: nat)
    requires Accepted(env, blocks, now) && NoLaterGenesis(blocks) && 0 < i < |blocks|
    ensures Accepted(env, blocks[..i], now) && blocks[..i] != [] && Linked(env, blocks[..i])
    ensures blocks[i].header.height == i && Tip(blocks[..i]).header.height == i - 1
    ensures ValidateBlock(env, blocks[i], blocks[..i], StateBefore(env, blocks, now, i), now).Ok?
  {
    hide ValidateBlock, Replay, BitsToTarget;
    AcceptedIsLinked(env, blocks, now);
    PrefixAccepted(env, blocks, now, i + 1);
    PrefixAccepted(env, blocks, now, i);
    var prefix := blocks[..i + 1];
    assert prefix[..i] == blocks[..i] && Tip(prefix) == blocks[i];
    ReplayPrefix(env, prefix, now);
  }

  /** On every accepted chain each block has its work: under the fixed seed in the first epoch, and under the
      seed of the block 64 before its epoch afterwards, its hash is at most its target. */
  lemma ChainProvesWork(env: Env, blocks: seq<Block>, now: nat, i: nat)
    requires Accepted(env, blocks, now) && NoLaterGenesis(blocks) && 0 < i < |blocks|
    ensures BitsToTarget(blocks[i].header.bits).Some?
    ensures i >= 2_048 ==> 64 <= i / 2_048 * 2_048 <= i
    ensures var seed := if i < 2_048 then Bootstrap else Epoch(i / 2_048, BlockId(env, blocks[i / 2_048 * 2_048 - 64]));
            var hash := env.pow(seed, blocks[i].header);
            hash.Some? && hash.value <= BitsToTarget(blocks[i].header.bits).value
  {
    hide ValidateBlock, Replay, BitsToTarget, RandomxSeed, Linked, NoLaterGenesis;
    BlockOfChain(env, blocks, now, i);
    BlockProvesWork(env, blocks[i], blocks[..i], StateBefore(env, blocks, now, i), now);
    SeedAlwaysAvailable(env, blocks[..i]);
  }

  lemma BlockMeetsDifficulty(env: Env, block: Block, history: seq<Block>, state: Ledger, now: nat)
    requires block.header.height != 0 && ValidateBlock(env, block, history, state, now).Ok?
    ensures history != []
    ensures var parent := Tip(history).header;
            var launch := if |history| > 1 then history[1].header.timestamp else parent.timestamp;
            BitsToTarget(block.header.bits) == Some(RoundDown(RequiredTarget(parent.height, parent.timestamp, launch)))
    ensures block.header.version == 3 && block.header.protocol == 9
    ensures block.header.timestamp <= SatAdd64(now, 300)
  {
    hide *;
    ValidBlockFacts(env, block, history, state, now);
    HeaderRules(env, block.header, history, now);
    BitsAreDemanded(history);
  }

  /** And its bits are the target ASERT demands after its parent, counted from the first mined block. */
  lemma ChainMeetsDifficulty(env: Env, blocks: seq<Block>, now: nat, i: nat)
    requires Accepted(env, blocks, now) && NoLaterGenesis(blocks) && 0 < i < |blocks|
    ensures var launch := blocks[if i == 1 then 0 else 1].header.timestamp;
            var parent := blocks[i - 1].header;
            BitsToTarget(blocks[i].header.bits) == Some(RoundDown(RequiredTarget(parent.height, parent.timestamp, launch)))
    ensures blocks[i - 1].header.height == i - 1
    ensures blocks[i].header.version == 3 && blocks[i].header.protocol == 9
    ensures blocks[i].header.timestamp <= SatAdd64(now, 300)
  {
    hide *;
    BlockOfChain(env, blocks, now, i);
    PrefixBlocks(blocks, i);
    BlockMeetsDifficulty(env, blocks[i], blocks[..i], StateBefore(env, blocks, now, i), now);
  }

  ghost function StateBefore(env: Env, blocks: seq<Block>, now: nat, i: nat): Ledger
    requires i <= |blocks| && Accepted(env, blocks[..i], now)
  {
    Replay(env, blocks[..i], now).value
  }

  lemma PrefixBlocks(blocks: seq<Block>, i: nat)
    requires 0 < i < |blocks|
    ensures blocks[..i] != [] && |blocks[..i]| == i && Tip(blocks[..i]) == blocks[i - 1]
    ensures i > 1 ==> blocks[..i][1] == blocks[1]
  {
  }

  /** Every transaction on an accepted chain is a signed payment. */
  lemma ChainPayments(env: Env, blocks: seq<Block>, now: nat, i: nat, k: nat)
    requires Accepted(env, blocks, now) && NoLaterGenesis(blocks) && 0 < i < |blocks| && k < |blocks[i].transactions|
    ensures Payment(env, blocks[i].transactions[k])
  {
    hide ValidateBlock, Replay, NoLaterGenesis, Linked, HeaderContext, TransactionRoot, WitnessShapeOk, LedgerRoot, ValidateWorkshares,
         ApplyTransactions, RewardAllocation, Mature, ScheduleAll, ScheduleReward, Payment;
    BlockOfChain(env, blocks, now, i);
    var parent := StateBefore(env, blocks, now, i);
    ValidBlockFacts(env, blocks[i], blocks[..i], parent, now);
    AppliedArePayments(env, Mature(parent, i).value, blocks[i].transactions, k);
  }
}
