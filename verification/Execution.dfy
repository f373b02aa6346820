/** The mutating side of src/consensus/validation.rs: transactions applied to a `LedgerState` in place,
    the candidate transition on a clone, workshare validation with its growing prefix, and block
    validation. Each method computes the function of module Validation. */
module Execution {
  import opened Base
  import opened Params
  import opened Bytes
  import opened Difficulty
  import opened SparseMerkle
  import opened Types
  import opened Merkle
  import opened State
  import opened LedgerMachine
  import opened Rewards
  import opened Validation

  // ------------------------------------------------------------------- transactions

  lemma {:induction false} ApplyStops(env: Env, l: Ledger, txs: seq<Transaction>, n: nat)
    requires n <= |txs| && ApplyTransactions(env, l, txs[..n]).Err?
    ensures ApplyTransactions(env, l, txs) == ApplyTransactions(env, l, txs[..n])
    decreases |txs| - n
  {
    hide ApplyOne;
    if n == |txs| {
      assert txs[..n] == txs;
    } else {
      assert txs[..n + 1][..n] == txs[..n];
      ApplyStops(env, l, txs, n + 1);
    }
  }

  lemma ApplyNext(env: Env, l: Ledger, txs: seq<Transaction>, n: nat)
    requires n < |txs| && ApplyTransactions(env, l, txs[..n]).Ok?
    ensures var (m, fees) := ApplyTransactions(env, l, txs[..n]).value;
            var next := ApplyOne(env, m, txs[n], IdSet(env, txs[..n]));
            ApplyTransactions(env, l, txs[..n + 1])
            == if next.Err? then Err(next.error)
               else if fees + txs[n].fee > MAX_MONEY then Err(MoneyRange)
               else Ok((next.value, fees + txs[n].fee))
  {
    hide ApplyOne;
    assert txs[..n + 1][..n] == txs[..n];
  }

  method ApplyOneInPlace(state: LedgerState, tx: Transaction, seen: set<Hash>) returns (r: Result<(), ConsensusError>)
    requires state.Valid()
    modifies state, state.tree
    ensures state.Valid()
    ensures r.Ok? ==> ApplyOne(state.env, old(state.View()), tx, seen) == Ok(state.View())
    ensures r.Err? ==> ApplyOne(state.env, old(state.View()), tx, seen) == Err(r.error)
  {
    hide LedgerState.Valid, Debit, Credit, SetNonce;
    var env := state.env;
    if !StructureOk(tx) {
      return Err(InvalidTransaction);
    }
    if env.txId(tx) in seen {
      return Err(DuplicateTransaction);
    }
    var account := AccountOf(state.View(), tx.sender);
    if tx.nonce != account.nonce {
      return Err(InvalidNonce);
    }
    var debit := tx.amount + tx.fee;
    if debit > U64_MAX {
      assert false;
    }
    if debit > account.balance {
      return Err(InsufficientBalance);
    }
    if !env.signatureValid(tx) {
      return Err(CryptoFailure);
    }
    var debited := state.DebitAccount(tx.sender, debit);
    if debited.Err? {
      return Err(debited.error);
    }
    var credited := state.CreditAccount(tx.recipient, tx.amount);
    if credited.Err? {
      return Err(credited.error);
    }
    if tx.nonce == U64_MAX {
      return Err(ArithmeticOverflow);
    }
    state.WriteNonce(tx.sender, tx.nonce + 1);
    return Ok(());
  }

  /** `apply_transactions`. */
  method ApplyInPlace(state: LedgerState, txs: seq<Transaction>) returns (r: Result<nat, ConsensusError>)
    requires state.Valid()
    modifies state, state.tree
    ensures state.Valid()
    ensures r.Ok? ==> ApplyTransactions(state.env, old(state.View()), txs) == Ok((state.View(), r.value))
    ensures r.Err? ==> ApplyTransactions(state.env, old(state.View()), txs) == Err(r.error)
  {
    hide LedgerState.Valid, ApplyOne;
    ghost var l := state.View();
    var seen: set<Hash> := {};
    var fees: nat := 0;
    assert txs[..0] == [];
    assert seen == IdSet(state.env, txs[..0]);
    for i := 0 to |txs|
      invariant state.Valid()
      invariant seen == IdSet(state.env, txs[..i])
      invariant ApplyTransactions(state.env, l, txs[..i]) == Ok((state.View(), fees))
    {
      ApplyNext(state.env, l, txs, i);
      var applied := ApplyOneInPlace(state, txs[i], seen);
      if applied.Err? {
        ApplyStops(state.env, l, txs, i + 1);
        return Err(applied.error);
      }
      if fees + txs[i].fee > MAX_MONEY {
        ApplyStops(state.env, l, txs, i + 1);
        return Err(MoneyRange);
      }
      fees := fees + txs[i].fee;
      assert txs[..i + 1] == txs[..i] + [txs[i]];
      seen := seen + {state.env.txId(txs[i])};
    }
    assert txs[..|txs|] == txs;
    return Ok(fees);
  }

  // --------------------------------------------------------------------- transition

  lemma {:induction false} ScheduleStops(l: Ledger, maturity: u64, rewards: seq<(Address, nat)>, n: nat)
    requires n <= |rewards| && ScheduleAll(l, maturity, rewards[..n]).Err?
    ensures ScheduleAll(l, maturity, rewards) == ScheduleAll(l, maturity, rewards[..n])
    decreases |rewards| - n
  {
    hide ScheduleReward;
    if n == |rewards| {
      assert rewards[..n] == rewards;
    } else {
      assert rewards[..n + 1][..n] == rewards[..n];
      ScheduleStops(l, maturity, rewards, n + 1);
    }
  }

  method ScheduleInPlace(state: LedgerState, maturity: u64, rewards: seq<(Address, nat)>) returns (r: Result<(), ConsensusError>)
    requires state.Valid()
    modifies state, state.tree
    ensures state.Valid()
    ensures r.Ok? ==> ScheduleAll(old(state.View()), maturity, rewards) == Ok(state.View())
    ensures r.Err? ==> ScheduleAll(old(state.View()), maturity, rewards) == Err(r.error)
  {
    hide LedgerState.Valid, ScheduleReward;
    ghost var l := state.View();
    assert rewards[..0] == [];
    for i := 0 to |rewards|
      invariant state.Valid()
      invariant ScheduleAll(l, maturity, rewards[..i]) == Ok(state.View())
    {
      assert rewards[..i + 1][..i] == rewards[..i];
      var scheduled := state.Schedule(maturity, rewards[i].0, rewards[i].1);
      if scheduled.Err? {
        ScheduleStops(l, maturity, rewards, i + 1);
        return Err(scheduled.error);
      }
    }
    assert rewards[..|rewards|] == rewards;
    return Ok(());
  }

  /** `transition_for_candidate`: the parent state is cloned and left as it was. */
  method ComputeTransition(height: u64, claim: RewardClaim, txs: seq<Transaction>, history: seq<Block>, parent: LedgerState)
    returns (r: Result<(LedgerState, Allocation, nat), ConsensusError>)
    requires parent.Valid() && Addressable(history)
    ensures r.Ok? ==> fresh(r.value.0) && fresh(r.value.0.tree) && r.value.0.Valid() && r.value.0.env == parent.env
    ensures r.Ok? ==>
              TransitionFor(parent.env, height, claim, txs, history, parent.View()) == Ok(Transition(r.value.0.View(), r.value.1, r.value.2))
    ensures r.Err? ==> TransitionFor(parent.env, height, claim, txs, history, parent.View()) == Err(r.error)
  {
    hide LedgerState.Valid, Mature, ApplyTransactions, RewardAllocation, ScheduleReward, ScheduleAll;
    var state := new LedgerState.Clone(parent);
    var matured := state.MatureAt(height);
    if matured.Err? {
      return Err(matured.error);
    }
    var fees := ApplyInPlace(state, txs);
    if fees.Err? {
      return Err(fees.error);
    }
    var allocation := ComputeAllocation(height, fees.value, history);
    if allocation.Err? {
      return Err(allocation.error);
    }
    if claim.amount != allocation.value.finderAmount {
      return Err(RewardMismatch);
    }
    if height + REWARD_MATURITY > U64_MAX {
      return Err(ArithmeticOverflow);
    }
    var finder := state.Schedule(height + REWARD_MATURITY, claim.finder, allocation.value.finderAmount);
    if finder.Err? {
      return Err(finder.error);
    }
    var shares := ScheduleInPlace(state, height + REWARD_MATURITY, allocation.value.workshareRewards);
    if shares.Err? {
      return Err(shares.error);
    }
    return Ok((state, allocation.value, fees.value));
  }

  // --------------------------------------------------------------------- workshares

  method ComputeFees(txs: seq<Transaction>) returns (r: Result<nat, ConsensusError>)
    ensures r.Ok? ==> r.value == SumFees(txs) <= U64_MAX
    ensures r.Err? ==> r.error == MoneyRange && SumFees(txs) > U64_MAX
  {
    var sum: nat := 0;
    for i := 0 to |txs|
      invariant sum == SumFees(txs[..i]) <= U64_MAX
    {
      assert txs[..i + 1][..i] == txs[..i];
      FeesGrow(txs, i + 1);
      if sum + txs[i].fee > U64_MAX {
        return Err(MoneyRange);
      }
      sum := sum + txs[i].fee;
    }
    assert txs[..|txs|] == txs;
    return Ok(sum);
  }

  lemma {:induction false} FeesGrow(txs: seq<Transaction>, n: nat)
    requires n <= |txs|
    ensures SumFees(txs[..n]) <= SumFees(txs)
    decreases |txs| - n
  {
    if n == |txs| {
      assert txs[..n] == txs;
    } else {
      assert txs[..n + 1][..n] == txs[..n];
      FeesGrow(txs, n + 1);
    }
  }

  /** The body of the share loop. */
  method CheckOneShare(ctx: ShareContext, history: seq<Block>, parent: LedgerState, share: Workshare, previous: Hash,
                       prefix: WorkshareWitness) returns (r: Result<(), ConsensusError>)
    requires parent.Valid() && Addressable(history)
    ensures r == CheckShare(parent.env, ctx, history, parent.View(), share, previous, prefix)
  {
    hide LedgerState.Valid, ShareHeaderOk, TemplateOk, RewardAllocation, TransitionFor, MerkleRoot, LedgerRoot, SumFees, Leaves;
    var env := parent.env;
    if !ShareHeaderOk(env, ctx, share, previous) || share.templateId !in ctx.templates {
      return Err(InvalidWorkshareChain);
    }
    var t := ctx.templates[share.templateId];
    if !TemplateOk(env, ctx, t) {
      return Err(InvalidWorkshareChain);
    }
    var fees := ComputeFees(t.transactions);
    if fees.Err? {
      return Err(fees.error);
    }
    var allocation := ComputeAllocation(t.height, fees.value, history);
    if allocation.Err? {
      return Err(allocation.error);
    }
    if allocation.value.finderAmount > U64_MAX {
      return Err(MoneyRange);
    }
    var claim := ClaimOf(share, t.height, allocation.value.finderAmount);
    var next := ComputeTransition(t.height, claim, t.transactions, history, parent);
    if next.Err? {
      return Err(next.error);
    }
    var root := ComputeMerkleRoot(env, Leaves(env, Some(claim), t.transactions));
    var stateRoot := next.value.0.Root();
    if share.candidateHeader.transactionsRoot != root || share.candidateHeader.stateRoot != stateRoot
       || share.candidateHeader.workshareRoot != env.witnessRoot(prefix) {
      return Err(InvalidWorkshareChain);
    }
    var hash := env.pow(ctx.seed, share.candidateHeader);
    if hash.None? {
      return Err(PowUnavailable);
    }
    if !MeetsTarget(hash.value, ctx.shareTarget) || MeetsTarget(hash.value, ctx.blockTarget) {
      return Err(InvalidProofOfWork);
    }
    return Ok(());
  }

  lemma {:induction false} SharesStop(env: Env, ctx: ShareContext, history: seq<Block>, state: Ledger, shares: seq<Workshare>, n: nat)
    requires n <= |shares| && CheckShares(env, ctx, history, state, shares[..n]).Err?
    ensures CheckShares(env, ctx, history, state, shares) == CheckShares(env, ctx, history, state, shares[..n])
    decreases |shares| - n
  {
    hide CheckShare, AddTemplate;
    if n == |shares| {
      assert shares[..n] == shares;
    } else {
      assert shares[..n + 1][..n] == shares[..n];
      SharesStop(env, ctx, history, state, shares, n + 1);
    }
  }

  lemma SharesNext(env: Env, ctx: ShareContext, history: seq<Block>, state: Ledger, shares: seq<Workshare>, n: nat)
    requires n < |shares| && CheckShares(env, ctx, history, state, shares[..n]).Ok?
    ensures var prefix := CheckShares(env, ctx, history, state, shares[..n]).value;
            var previous := if n == 0 then ZERO_HASH else env.shareId(shares[n - 1]);
            var checked := CheckShare(env, ctx, history, state, shares[n], previous, prefix);
            && (checked.Err? ==> CheckShares(env, ctx, history, state, shares[..n + 1]) == Err(checked.error))
            && (checked.Ok? ==> shares[n].templateId in ctx.templates)
            && (checked.Ok? ==>
                  CheckShares(env, ctx, history, state, shares[..n + 1]) == Ok(Grown(env, prefix, ctx.templates[shares[n].templateId], shares[n])))
  {
    hide CheckShare, Grown;
    assert shares[..n + 1][..n] == shares[..n];
    CheckedHasTemplate(env, ctx, history, state, shares[n], if n == 0 then ZERO_HASH else env.shareId(shares[n - 1]),
                       CheckShares(env, ctx, history, state, shares[..n]).value);
  }

  lemma CheckedHasTemplate(env: Env, ctx: ShareContext, history: seq<Block>, state: Ledger, share: Workshare, previous: Hash, prefix: WorkshareWitness)
    ensures CheckShare(env, ctx, history, state, share, previous, prefix).Ok? ==> share.templateId in ctx.templates
  {
    hide ShareHeaderOk, TemplateOk, RewardAllocation, TransitionFor, MerkleRoot, LedgerRoot, SumFees, Leaves;
  }

  /** The loop of `validate_workshares`, carrying the previous share id and the witness prefix. */
  method CheckShareChain(ctx: ShareContext, history: seq<Block>, parent: LedgerState, shares: seq<Workshare>)
    returns (r: Result<WorkshareWitness, ConsensusError>)
    requires parent.Valid() && Addressable(history)
    ensures r == CheckShares(parent.env, ctx, history, parent.View(), shares)
  {
    hide LedgerState.Valid, CheckShare, AddTemplate;
    var env := parent.env;
    var previous := ZERO_HASH;
    var prefix := EMPTY_WITNESS;
    assert shares[..0] == [];
    for i := 0 to |shares|
      invariant previous == if i == 0 then ZERO_HASH else env.shareId(shares[i - 1])
      invariant CheckShares(env, ctx, history, parent.View(), shares[..i]) == Ok(prefix)
    {
      SharesNext(env, ctx, history, parent.View(), shares, i);
      var checked := CheckOneShare(ctx, history, parent, shares[i], previous, prefix);
      if checked.Err? {
        SharesStop(env, ctx, history, parent.View(), shares, i + 1);
        return Err(checked.error);
      }
      previous := env.shareId(shares[i]);
      prefix := Grown(env, prefix, ctx.templates[shares[i].templateId], shares[i]);
    }
    assert shares[..|shares|] == shares;
    return Ok(prefix);
  }

  method ComputeWorkshares(w: WorkshareWitness, history: seq<Block>, parent: LedgerState, settling: nat) returns (r: Result<(), ConsensusError>)
    requires parent.Valid() && Addressable(history)
    ensures r == ValidateWorkshares(parent.env, w, history, parent.View(), settling)
  {
    hide LedgerState.Valid, CheckShares, MakeContext;
    if w.workshares == [] {
      return Ok(());
    }
    var ctx := MakeContext(parent.env, w.templates, history, settling);
    if ctx.Err? {
      return Err(ctx.error);
    }
    var prefix := CheckShareChain(ctx.value, history, parent, w.workshares);
    if prefix.Err? {
      return Err(prefix.error);
    }
    return Ok(());
  }

  // -------------------------------------------------------------------------- blocks

  /** The checks of `validate_block` that need no state. */
  predicate StatelessOk(env: Env, block: Block, history: seq<Block>, now: nat)
    requires history != []
  {
    && HeaderContext(env, block.header, history, now).Ok?
    && BlockSize(block) <= MAX_BLOCK_BYTES && |block.transactions| <= MAX_BLOCK_TRANSACTIONS
    && TransactionRoot(env, block) == block.header.transactionsRoot
    && WitnessShapeOk(env, block.workshareWitness)
    && env.witnessRoot(block.workshareWitness) == block.header.workshareRoot
    && RandomxSeed(env, history, block.header.height).Ok?
    && VerifyPow(env, RandomxSeed(env, history, block.header.height).value, block.header).Ok?
    && block.rewardClaim.Some?
    && block.rewardClaim.value.version == CLAIM_VERSION && block.rewardClaim.value.height == block.header.height
  }

  method CheckStateless(env: Env, block: Block, history: seq<Block>, now: nat) returns (r: Result<(), ConsensusError>)
    requires history != [] && block.header.height != 0
    ensures r.Ok? <==> StatelessOk(env, block, history, now)
    ensures r.Err? ==> forall state :: ValidateBlock(env, block, history, state, now) == Err(r.error)
  {
    hide HeaderContext, BlockSize, MerkleRoot, Leaves, WitnessShapeOk, RandomxSeed, VerifyPow, TransitionFor, LedgerRoot, ValidateWorkshares;
    var context := HeaderContext(env, block.header, history, now);
    if context.Err? {
      return Err(context.error);
    }
    if BlockSize(block) > MAX_BLOCK_BYTES || |block.transactions| > MAX_BLOCK_TRANSACTIONS {
      return Err(SizeLimit);
    }
    var root := ComputeMerkleRoot(env, Leaves(env, block.rewardClaim, block.transactions));
    if root != block.header.transactionsRoot {
      return Err(TransactionRootMismatch);
    }
    if !WitnessShapeOk(env, block.workshareWitness) {
      return Err(NonCanonicalWitness);
    }
    if env.witnessRoot(block.workshareWitness) != block.header.workshareRoot {
      return Err(WorkshareRootMismatch);
    }
    var seed := RandomxSeed(env, history, block.header.height);
    if seed.Err? {
      return Err(seed.error);
    }
    var pow := VerifyPow(env, seed.value, block.header);
    if pow.Err? {
      return Err(pow.error);
    }
    if block.rewardClaim.None? || block.rewardClaim.value.version != CLAIM_VERSION
       || block.rewardClaim.value.height != block.header.height {
      return Err(RewardMismatch);
    }
    return Ok(());
  }

  /** `validate_block`: the parent state is read, a fresh state is returned. */
  method ComputeBlock(block: Block, history: seq<Block>, parent: LedgerState, now: nat) returns (r: Result<LedgerState, ConsensusError>)
    requires parent.Valid() && Addressable(history)
    ensures r.Ok? ==> fresh(r.value) && fresh(r.value.tree) && r.value.Valid() && r.value.env == parent.env
    ensures r.Ok? ==> ValidateBlock(parent.env, block, history, parent.View(), now) == Ok(r.value.View())
    ensures r.Err? ==> ValidateBlock(parent.env, block, history, parent.View(), now) == Err(r.error)
  {
    hide HeaderContext, BlockSize, TransactionRoot, WitnessShapeOk, RandomxSeed, VerifyPow, TransitionFor, LedgerRoot, ValidateWorkshares,
         Genesis;
    var env := parent.env;
    if block.header.height == 0 {
      if block != Genesis(env) {
        return Err(InvalidGenesis);
      }
      var empty := new LedgerState(env);
      return Ok(empty);
    }
    if history == [] {
      return Err(WrongParent);
    }
    hide LedgerState.Valid;
    var stateless := CheckStateless(env, block, history, now);
    if stateless.Err? {
      return Err(stateless.error);
    }
    var next := ComputeTransition(block.header.height, block.rewardClaim.value, block.transactions, history, parent);
    if next.Err? {
      return Err(next.error);
    }
    var root := next.value.0.Root();
    if root != block.header.stateRoot {
      return Err(StateRootMismatch);
    }
    var shares := ComputeWorkshares(block.workshareWitness, history, parent, block.header.timestamp);
    if shares.Err? {
      return Err(shares.error);
    }
    return Ok(next.value.0);
  }
}
