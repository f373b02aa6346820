/** Block validation and the state transition (src/consensus/validation.rs), as functions. */
module Validation {
  import opened Base
  import opened Params
  import opened Bytes
  import opened Difficulty
  import opened SparseMerkle
  import opened Types
  import opened Merkle
  import opened State
  import opened Sorting
  import opened Rewards

  // ------------------------------------------------------------------- transactions

  /** `validate_transaction_structure`. */
  predicate StructureOk(tx: Transaction) {
    && tx.version == TRANSACTION_VERSION
    && 0 < tx.amount <= MAX_MONEY
    && tx.fee <= MAX_MONEY
    && tx.sender != tx.recipient
    && (|tx.publicKey| == 33 || |tx.publicKey| == 65)
    && |tx.signature| == 64
    && TransactionSize(tx) <= MAX_TRANSACTION_BYTES
  }

  function IdSet(env: Env, txs: seq<Transaction>): set<Hash> {
    set tx | tx in txs :: env.txId(tx)
  }

  /** One turn of the loop of `apply_transactions`. */
  function ApplyOne(env: Env, l: Ledger, tx: Transaction, seen: set<Hash>): Result<Ledger, ConsensusError> {
    var account := AccountOf(l, tx.sender);
    if !StructureOk(tx) then Err(InvalidTransaction)
    else if env.txId(tx) in seen then Err(DuplicateTransaction)
    else if tx.nonce != account.nonce then Err(InvalidNonce)
    else if tx.amount + tx.fee > account.balance then Err(InsufficientBalance)
    else if !env.signatureValid(tx) then Err(CryptoFailure)
    else
      var debited :- Debit(l, tx.sender, tx.amount + tx.fee);
      var credited :- Credit(debited, tx.recipient, tx.amount);
      if tx.nonce == U64_MAX then Err(ArithmeticOverflow)
      else Ok(SetNonce(credited, tx.sender, tx.nonce + 1))
  }

  /** `apply_transactions`: the state after all of them, and their fees. */
  function ApplyTransactions(env: Env, l: Ledger, txs: seq<Transaction>): Result<(Ledger, nat), ConsensusError> {
    if txs == [] then Ok((l, 0))
    else
      var front, tx := txs[..|txs| - 1], txs[|txs| - 1];
      var before :- ApplyTransactions(env, l, front);
      var after :- ApplyOne(env, before.0, tx, IdSet(env, front));
      if before.1 + tx.fee > MAX_MONEY then Err(MoneyRange)
      else Ok((after, before.1 + tx.fee))
  }

  // --------------------------------------------------------------------- transition

  function ScheduleAll(l: Ledger, maturity: u64, rewards: seq<(Address, nat)>): Result<Ledger, ConsensusError> {
    if rewards == [] then Ok(l)
    else
      var before :- ScheduleAll(l, maturity, rewards[..|rewards| - 1]);
      ScheduleReward(before, maturity, rewards[|rewards| - 1].0, rewards[|rewards| - 1].1)
  }

  datatype Transition = Transition(state: Ledger, allocation: Allocation, fees: nat)

  /** `transition_for_candidate`: mature, apply, allocate, schedule. */
  ghost function TransitionFor(env: Env, height: u64, claim: RewardClaim, txs: seq<Transaction>,
                               history: seq<Block>, parent: Ledger): Result<Transition, ConsensusError> {
    var matured :- Mature(parent, height);
    var applied :- ApplyTransactions(env, matured, txs);
    var allocation :- RewardAllocation(height, applied.1, history);
    if claim.amount != allocation.finderAmount then Err(RewardMismatch)
    else if height + REWARD_MATURITY > U64_MAX then Err(ArithmeticOverflow)
    else
      var finderPaid :- ScheduleReward(applied.0, height + REWARD_MATURITY, claim.finder, allocation.finderAmount);
      var scheduled :- ScheduleAll(finderPaid, height + REWARD_MATURITY, allocation.workshareRewards);
      Ok(Transition(scheduled, allocation, applied.1))
  }

  // ------------------------------------------------------------------ header context

  function NextBits(history: seq<Block>): nat {
    if history == [] then TargetToBits(INITIAL_TARGET)
    else
      var parent := history[|history| - 1].header;
      var launch := if |history| > 1 then history[1].header.timestamp else parent.timestamp;
      RequiredBits(parent.height, parent.timestamp, launch)
  }

  function Timestamps(blocks: seq<Block>): (ts: seq<u64>)
    ensures |ts| == |blocks|
    ensures forall i :: 0 <= i < |ts| ==> ts[i] == blocks[i].header.timestamp
  {
    seq(|blocks|, i requires 0 <= i < |blocks| => blocks[i].header.timestamp)
  }

  predicate Less(a: u64, b: u64) {
    a < b
  }

  /** The middle of the last up to eleven timestamps, sorted; 0 without history. */
  function MedianTimePast(history: seq<Block>): nat {
    var recent := Timestamps(history[SatSub(|history|, MEDIAN_TIME_SPAN)..]);
    if recent == [] then 0 else SortBy(Less, recent)[|recent| / 2]
  }

  /** `validate_header_context`. */
  function HeaderContext(env: Env, header: BlockHeader, history: seq<Block>, now: nat): Result<(), ConsensusError>
    requires history != []
  {
    var parent := history[|history| - 1];
    if header.version != HEADER_VERSION || header.protocol != PROTOCOL_VERSION then Err(UnsupportedVersion)
    else if header.height != parent.header.height + 1 then Err(WrongHeight)
    else if header.previousBlock != BlockId(env, parent) then Err(WrongParent)
    else if header.bits != NextBits(history)
         || BitsToTarget(header.bits).None? || BitsToTarget(header.bits).value > POW_LIMIT then Err(InvalidTarget)
    else if header.timestamp <= parent.header.timestamp || header.timestamp <= MedianTimePast(history) then Err(InvalidTimestamp)
    else if header.timestamp > SatAdd64(now, MAX_FUTURE_BLOCK_TIME) then Err(FutureTimestamp)
    else Ok(())
  }

  function FirstAtHeight(history: seq<Block>, height: nat): Option<Block> {
    if history == [] then None
    else if history[0].header.height == height then Some(history[0])
    else FirstAtHeight(history[1..], height)
  }

  /** `randomx_seed`. */
  function RandomxSeed(env: Env, history: seq<Block>, height: nat): Result<Seed, ConsensusError> {
    if height < RANDOMX_EPOCH_BLOCKS then Ok(Bootstrap)
    else
      match FirstAtHeight(history, RandomxSeedReferenceHeight(height))
      case None => Err(StorageInvariant)
      case Some(reference) => Ok(Epoch(height / RANDOMX_EPOCH_BLOCKS, BlockId(env, reference)))
  }

  /** `cumulative_work`: a checked 256-bit sum. */
  function CumulativeWork(blocks: seq<Block>): Result<nat, ConsensusError> {
    if blocks == [] then Ok(0)
    else
      var before :- CumulativeWork(blocks[..|blocks| - 1]);
      match BitsToTarget(blocks[|blocks| - 1].header.bits)
      case None => Err(InvalidTarget)
      case Some(target) =>
        DecodedIsFixed(blocks[|blocks| - 1].header.bits, target);
        if before + TargetWork(target) >= TWO_256 then Err(ArithmeticOverflow)
        else Ok(before + TargetWork(target))
  }

  // ------------------------------------------------------------------- commitments

  function TransactionIds(env: Env, txs: seq<Transaction>): (ids: seq<Hash>)
    ensures |ids| == |txs|
    ensures forall i :: 0 <= i < |ids| ==> ids[i] == env.txId(txs[i])
  {
    seq(|txs|, i requires 0 <= i < |txs| => env.txId(txs[i]))
  }

  function Leaves(env: Env, claim: Option<RewardClaim>, txs: seq<Transaction>): seq<Hash> {
    (if claim.Some? then [env.claimId(claim.value)] else []) + TransactionIds(env, txs)
  }

  function TransactionRoot(env: Env, block: Block): Hash {
    MerkleRoot(env, Leaves(env, block.rewardClaim, block.transactions))
  }

  /** `validate_witness_shape`: bytes and canonicity, but no bound on the number of items. */
  predicate WitnessShapeOk(env: Env, w: WorkshareWitness) {
    && w.version == WITNESS_VERSION
    && WitnessSize(w) <= MAX_WORKSHARE_WITNESS_BYTES
    && IsCanonical(env, w)
    && forall t :: t in w.templates ==> t.version == TEMPLATE_VERSION && TemplateSize(t) <= MAX_TEMPLATE_BYTES
  }

  function MeetsTarget(hash: nat, target: nat): bool {
    hash <= target
  }

  // --------------------------------------------------------------------- workshares

  /** What every share of one witness is checked against. */
  datatype ShareContext = ShareContext(
    parent: Block, templates: map<Hash, BlockTemplate>, seed: Seed, expectedBits: nat,
    blockTarget: nat, shareTarget: nat, mtp: nat, settling: nat)

  function TemplateMap(env: Env, templates: seq<BlockTemplate>): map<Hash, BlockTemplate> {
    if templates == [] then map[]
    else
      var last := templates[|templates| - 1];
      TemplateMap(env, templates[..|templates| - 1])[env.templateId(last) := last]
  }

  function MakeContext(env: Env, templates: seq<BlockTemplate>, history: seq<Block>, settling: nat): Result<ShareContext, ConsensusError> {
    if history == [] then Err(WrongParent)
    else
      var parent := history[|history| - 1];
      var seed :- RandomxSeed(env, history, parent.header.height + 1);
      var expectedBits := NextBits(history);
      if BitsToTarget(expectedBits).None? || ShareTarget(expectedBits).None? then Err(InvalidTarget)
      else Ok(ShareContext(parent, TemplateMap(env, templates), seed, expectedBits, BitsToTarget(expectedBits).value,
                           ShareTarget(expectedBits).value, MedianTimePast(history), settling))
  }

  function SumFees(txs: seq<Transaction>): nat {
    if txs == [] then 0 else SumFees(txs[..|txs| - 1]) + txs[|txs| - 1].fee
  }

  predicate ShareHeaderOk(env: Env, ctx: ShareContext, share: Workshare, previous: Hash) {
    var header := share.candidateHeader;
    && share.version == WORKSHARE_VERSION
    && share.previousWorkshare == previous
    && header.version == HEADER_VERSION
    && header.protocol == PROTOCOL_VERSION
    && header.height == ctx.parent.header.height + 1
    && header.previousBlock == BlockId(env, ctx.parent)
    && header.bits == ctx.expectedBits
    && header.timestamp > ctx.parent.header.timestamp
    && header.timestamp > ctx.mtp
    && header.timestamp <= ctx.settling
  }

  predicate TemplateOk(env: Env, ctx: ShareContext, t: BlockTemplate) {
    && t.version == TEMPLATE_VERSION
    && t.height == ctx.parent.header.height + 1
    && t.parent == BlockId(env, ctx.parent)
  }

  function ClaimOf(share: Workshare, height: u64, amount: u64): RewardClaim {
    RewardClaim(CLAIM_VERSION, height, share.miner, amount, share.extranonce)
  }

  /** The checks on one share, given the share before it and the witness before it. */
  ghost function CheckShare(env: Env, ctx: ShareContext, history: seq<Block>, state: Ledger,
                            share: Workshare, previous: Hash, prefix: WorkshareWitness): Result<(), ConsensusError> {
    if !ShareHeaderOk(env, ctx, share, previous) then Err(InvalidWorkshareChain)
    else if share.templateId !in ctx.templates then Err(InvalidWorkshareChain)
    else
      var t := ctx.templates[share.templateId];
      if !TemplateOk(env, ctx, t) then Err(InvalidWorkshareChain)
      else if SumFees(t.transactions) > U64_MAX then Err(MoneyRange)
      else
        var allocation :- RewardAllocation(t.height, SumFees(t.transactions), history);
        if allocation.finderAmount > U64_MAX then Err(MoneyRange)
        else
          var claim := ClaimOf(share, t.height, allocation.finderAmount);
          var next :- TransitionFor(env, t.height, claim, t.transactions, history, state);
          if share.candidateHeader.transactionsRoot != MerkleRoot(env, Leaves(env, Some(claim), t.transactions))
             || share.candidateHeader.stateRoot != LedgerRoot(env, next.state)
             || share.candidateHeader.workshareRoot != env.witnessRoot(prefix) then Err(InvalidWorkshareChain)
          else
            match env.pow(ctx.seed, share.candidateHeader)
            case None => Err(PowUnavailable)
            case Some(hash) =>
              if !MeetsTarget(hash, ctx.shareTarget) || MeetsTarget(hash, ctx.blockTarget) then Err(InvalidProofOfWork)
              else Ok(())
  }

  /** Append unless a template of the same id is there, then sort by id. */
  function AddTemplate(env: Env, templates: seq<BlockTemplate>, t: BlockTemplate): seq<BlockTemplate> {
    if exists u :: u in templates && env.templateId(u) == env.templateId(t) then templates
    else SortBy((x, y) => env.templateId(x) < env.templateId(y), templates + [t])
  }

  /** The witness prefix after one more accepted share. */
  function Grown(env: Env, prefix: WorkshareWitness, t: BlockTemplate, share: Workshare): WorkshareWitness {
    WorkshareWitness(prefix.version, AddTemplate(env, prefix.templates, t), prefix.workshares + [share])
  }

  /** The loop of `validate_workshares`: the witness prefix built from accepted shares. */
  ghost function CheckShares(env: Env, ctx: ShareContext, history: seq<Block>, state: Ledger,
                             shares: seq<Workshare>): Result<WorkshareWitness, ConsensusError> {
    if shares == [] then Ok(EMPTY_WITNESS)
    else
      var front, share := shares[..|shares| - 1], shares[|shares| - 1];
      var prefix :- CheckShares(env, ctx, history, state, front);
      var previous := if front == [] then ZERO_HASH else env.shareId(front[|front| - 1]);
      var _ :- CheckShare(env, ctx, history, state, share, previous, prefix);
      if share.templateId !in ctx.templates then Err(InvalidWorkshareChain)
      else Ok(Grown(env, prefix, ctx.templates[share.templateId], share))
  }

  /** `validate_workshares`. */
  ghost function ValidateWorkshares(env: Env, w: WorkshareWitness, history: seq<Block>, state: Ledger,
                                    settling: nat): Result<(), ConsensusError> {
    if w.workshares == [] then Ok(())
    else
      var ctx :- MakeContext(env, w.templates, history, settling);
      var _ :- CheckShares(env, ctx, history, state, w.workshares);
      Ok(())
  }

  // -------------------------------------------------------------------------- blocks

  /** `validate_block`: the state after the block, or why it is refused. */
  ghost function ValidateBlock(env: Env, block: Block, history: seq<Block>, state: Ledger, now: nat): Result<Ledger, ConsensusError> {
    if block.header.height == 0 then
      if block == Genesis(env) then Ok(EMPTY_LEDGER) else Err(InvalidGenesis)
    else if history == [] then Err(WrongParent)
    else
      var _ :- HeaderContext(env, block.header, history, now);
      if BlockSize(block) > MAX_BLOCK_BYTES || |block.transactions| > MAX_BLOCK_TRANSACTIONS then Err(SizeLimit)
      else if TransactionRoot(env, block) != block.header.transactionsRoot then Err(TransactionRootMismatch)
      else if !WitnessShapeOk(env, block.workshareWitness) then Err(NonCanonicalWitness)
      else if env.witnessRoot(block.workshareWitness) != block.header.workshareRoot then Err(WorkshareRootMismatch)
      else
        var seed :- RandomxSeed(env, history, block.header.height);
        var _ :- VerifyPow(env, seed, block.header);
        if block.rewardClaim.None? then Err(RewardMismatch)
        else
          var claim := block.rewardClaim.value;
          if claim.version != CLAIM_VERSION || claim.height != block.header.height then Err(RewardMismatch)
          else
            var next :- TransitionFor(env, block.header.height, claim, block.transactions, history, state);
            if LedgerRoot(env, next.state) != block.header.stateRoot then Err(StateRootMismatch)
            else
              var _ :- ValidateWorkshares(env, block.workshareWitness, history, state, block.header.timestamp);
              Ok(next.state)
  }

  function VerifyPow(env: Env, seed: Seed, header: BlockHeader): Result<(), ConsensusError> {
    match BitsToTarget(header.bits)
    case None => Err(InvalidTarget)
    case Some(target) =>
      match env.pow(seed, header)
      case None => Err(PowUnavailable)
      case Some(hash) => if MeetsTarget(hash, target) then Ok(()) else Err(InvalidProofOfWork)
  }
}
