/** Per-address accounting over whole chains: nonces, matured and pending rewards, and the two
    reward reports of src/node.rs that recompute them from history. */
module ChainAccounts {
  import opened Base
  import opened Params
  import opened Bytes
  import opened Types
  import opened State
  import opened Rewards
  import opened Validation
  import opened Accounting
  import opened ChainSpec

  /** All transactions in chain order. */
  function ChainTransactions(blocks: seq<Block>): seq<Transaction> {
    if blocks == [] then [] else ChainTransactions(blocks[..|blocks| - 1]) + blocks[|blocks| - 1].transactions
  }

  lemma {:induction false} FlowsAppend(a: seq<Transaction>, b: seq<Transaction>, who: Address)
    ensures Sent(a + b, who) == Sent(a, who) + Sent(b, who)
    ensures Received(a + b, who) == Received(a, who) + Received(b, who)
    ensures SentCount(a + b, who) == SentCount(a, who) + SentCount(b, who)
  {
    if b == [] {
      assert a + b == a;
    } else {
      var front := b[..|b| - 1];
      FlowsAppend(a, front, who);
      assert (a + b)[..|a + b| - 1] == a + front;
    }
  }

  // ------------------------------------------------------------------ block rewards

  /** What the allocation of block `k` was, given the blocks before it. */
  ghost function BlockAllocation(blocks: seq<Block>, k: nat): Allocation
    requires k < |blocks|
  {
    var r := RewardAllocation(k, SumFees(blocks[k].transactions), blocks[..k]);
    if r.Ok? then r.value else Allocation(0, [])
  }

  /** What block `k` scheduled for an address. */
  ghost function BlockReward(blocks: seq<Block>, k: nat, a: Address): nat
    requires k < |blocks|
  {
    if k == 0 || blocks[k].rewardClaim.None? then 0
    else RewardTo(blocks[k].rewardClaim.value, BlockAllocation(blocks, k), a)
  }

  /** Rewards of blocks 1 up to and including `n`. */
  ghost function RewardsThrough(blocks: seq<Block>, n: nat, a: Address): nat
    requires n < |blocks|
  {
    if n == 0 then 0 else RewardsThrough(blocks, n - 1, a) + BlockReward(blocks, n, a)
  }

  lemma BlockRewardPrefix(blocks: seq<Block>, k: nat, a: Address)
    requires k < |blocks| - 1
    ensures BlockReward(blocks[..|blocks| - 1], k, a) == BlockReward(blocks, k, a)
  {
    hide RewardAllocation;
    assert blocks[..|blocks| - 1][..k] == blocks[..k];
  }

  lemma {:induction false} RewardsPrefix(blocks: seq<Block>, n: nat, a: Address)
    requires n < |blocks| - 1
    ensures RewardsThrough(blocks[..|blocks| - 1], n, a) == RewardsThrough(blocks, n, a)
  {
    hide BlockReward;
    if n > 0 {
      RewardsPrefix(blocks, n - 1, a);
      BlockRewardPrefix(blocks, n, a);
    }
  }

  // -------------------------------------------------------------- the chain accounts

  /** The pending rewards of a chain of tip height `n` are those of its last hundred blocks. */
  ghost predicate PendingIsRecent(blocks: seq<Block>, l: Ledger)
    requires blocks != []
  {
    var n := |blocks| - 1;
    forall d :: PendingOf(l, d)
             == if n < d.maturity <= n + REWARD_MATURITY && d.maturity > REWARD_MATURITY
                then BlockReward(blocks, d.maturity - REWARD_MATURITY, d.recipient) else 0
  }

  /** Every account is explained by the chain: nonce by transactions sent, balance by matured
      rewards and transfers. */
  ghost predicate AccountsExplained(blocks: seq<Block>, l: Ledger)
    requires blocks != []
  {
    var txs := ChainTransactions(blocks);
    forall a: Address ::
      && AccountOf(l, a).nonce == SentCount(txs, a)
      && AccountOf(l, a).balance + Sent(txs, a)
         == Received(txs, a) + RewardsThrough(blocks, SatSub(|blocks| - 1, REWARD_MATURITY), a)
  }

  /** The reward leaving the pending window at height `n` is the one of block `n - 100`. */
  lemma MaturedReward(front: seq<Block>, l: Ledger, a: Address)
    requires front != [] && PendingIsRecent(front, l) && |front| <= U64_MAX
    ensures PendingOf(l, Due(|front|, a)) == if |front| > REWARD_MATURITY then BlockReward(front, |front| - REWARD_MATURITY, a) else 0
  {
    hide BlockReward;
  }

  lemma AccountsStep(blocks: seq<Block>, parent: Ledger, next: Ledger, allocation: Allocation)
    requires |blocks| > 1 && |blocks| - 1 <= U64_MAX && Tip(blocks).rewardClaim.Some?
    requires PendingIsRecent(blocks[..|blocks| - 1], parent) && AccountsExplained(blocks[..|blocks| - 1], parent)
    requires Transitioned(parent, next, |blocks| - 1, Tip(blocks).transactions, Tip(blocks).rewardClaim.value, allocation)
    requires allocation == BlockAllocation(blocks, |blocks| - 1)
    ensures AccountsExplained(blocks, next)
  {
    var front, n := blocks[..|blocks| - 1], |blocks| - 1;
    var txs, last := ChainTransactions(front), Tip(blocks).transactions;
    assert ChainTransactions(blocks) == txs + last;
    forall a: Address
      ensures AccountOf(next, a).nonce == SentCount(ChainTransactions(blocks), a)
      ensures AccountOf(next, a).balance + Sent(ChainTransactions(blocks), a)
           == Received(ChainTransactions(blocks), a) + RewardsThrough(blocks, SatSub(n, REWARD_MATURITY), a)
    {
      OneAccountStep(blocks, parent, next, allocation, a);
    }
  }

  lemma OneAccountStep(blocks: seq<Block>, parent: Ledger, next: Ledger, allocation: Allocation, a: Address)
    requires |blocks| > 1 && |blocks| - 1 <= U64_MAX && Tip(blocks).rewardClaim.Some?
    requires PendingIsRecent(blocks[..|blocks| - 1], parent) && AccountsExplained(blocks[..|blocks| - 1], parent)
    requires Transitioned(parent, next, |blocks| - 1, Tip(blocks).transactions, Tip(blocks).rewardClaim.value, allocation)
    ensures AccountOf(next, a).nonce == SentCount(ChainTransactions(blocks), a)
    ensures AccountOf(next, a).balance + Sent(ChainTransactions(blocks), a)
         == Received(ChainTransactions(blocks), a) + RewardsThrough(blocks, SatSub(|blocks| - 1, REWARD_MATURITY), a)
  {
    hide BlockReward, PendingIsRecent;
    var front, n := blocks[..|blocks| - 1], |blocks| - 1;
    FlowsAppend(ChainTransactions(front), Tip(blocks).transactions, a);
    MaturedReward(front, parent, a);
    RewardsPrefix(blocks, SatSub(n - 1, REWARD_MATURITY), a);
    if n > REWARD_MATURITY {
      BlockRewardPrefix(blocks, n - REWARD_MATURITY, a);
    }
  }

  lemma PendingStep(blocks: seq<Block>, parent: Ledger, next: Ledger, allocation: Allocation)
    requires |blocks| > 1 && |blocks| - 1 <= U64_MAX && Tip(blocks).rewardClaim.Some?
    requires PendingIsRecent(blocks[..|blocks| - 1], parent)
    requires Transitioned(parent, next, |blocks| - 1, Tip(blocks).transactions, Tip(blocks).rewardClaim.value, allocation)
    requires allocation == BlockAllocation(blocks, |blocks| - 1)
    ensures PendingIsRecent(blocks, next)
  {
    hide BlockAllocation;
    var front, n := blocks[..|blocks| - 1], |blocks| - 1;
    forall d ensures PendingOf(next, d)
                  == if n < d.maturity <= n + REWARD_MATURITY && d.maturity > REWARD_MATURITY
                     then BlockReward(blocks, d.maturity - REWARD_MATURITY, d.recipient) else 0 {
      if n < d.maturity < n + REWARD_MATURITY && d.maturity > REWARD_MATURITY {
        BlockRewardPrefix(blocks, d.maturity - REWARD_MATURITY, d.recipient);
      }
    }
  }

  lemma GenesisAccounts(env: Env)
    ensures PendingIsRecent([Genesis(env)], EMPTY_LEDGER) && AccountsExplained([Genesis(env)], EMPTY_LEDGER)
  {
    GenesisFacts(env);
    var blocks := [Genesis(env)];
    assert blocks[..0] == [];
    assert ChainTransactions(blocks) == [];
  }

  lemma ExplainedStep(env: Env, blocks: seq<Block>, now: nat)
    requires Accepted(env, blocks, now) && |blocks| > 1 && Tip(blocks).header.height == |blocks| - 1
    requires Accepted(env, blocks[..|blocks| - 1], now)
    requires PendingIsRecent(blocks[..|blocks| - 1], Replay(env, blocks[..|blocks| - 1], now).value)
    requires AccountsExplained(blocks[..|blocks| - 1], Replay(env, blocks[..|blocks| - 1], now).value)
    ensures PendingIsRecent(blocks, Replay(env, blocks, now).value)
    ensures AccountsExplained(blocks, Replay(env, blocks, now).value)
  {
    hide Replay, ValidateBlock, PendingIsRecent, AccountsExplained, Transitioned, TransitionFor, HeaderContext, TransactionRoot,
         WitnessShapeOk, LedgerRoot, ValidateWorkshares, RewardAllocation, Total, Normal, SumFees, BlockSubsidy;
    var front, n := blocks[..|blocks| - 1], |blocks| - 1;
    ReplayPrefix(env, blocks, now);
    var block, parent := Tip(blocks), Replay(env, front, now).value;
    ValidBlockFacts(env, block, front, parent, now);
    var claim := block.rewardClaim.value;
    TransitionEffect(env, n, claim, block.transactions, front, parent);
    var t := TransitionFor(env, n, claim, block.transactions, front, parent).value;
    PendingStep(blocks, parent, t.state, t.allocation);
    AccountsStep(blocks, parent, t.state, t.allocation);
  }

  /** On every accepted chain: each pending entry is what the block a hundred heights earlier
      scheduled, each balance is matured rewards plus receipts less payments, and each nonce
      counts the transactions sent. So every reward is credited exactly once, at its maturity. */
  lemma {:induction false} ChainIsExplained(env: Env, blocks: seq<Block>, now: nat)
    requires Accepted(env, blocks, now) && NoLaterGenesis(blocks)
    ensures blocks != []
    ensures PendingIsRecent(blocks, Replay(env, blocks, now).value)
    ensures AccountsExplained(blocks, Replay(env, blocks, now).value)
  {
    StartsWithGenesis(env, blocks, now);
    AcceptedIsLinked(env, blocks, now);
    if |blocks| == 1 {
      assert blocks == [Genesis(env)];
      GenesisAccounts(env);
    } else {
      hide Replay, PendingIsRecent, AccountsExplained;
      PrefixAccepted(env, blocks, now, |blocks| - 1);
      ChainIsExplained(env, blocks[..|blocks| - 1], now);
      ExplainedStep(env, blocks, now);
    }
  }

  // --------------------------------------------------------------------------- nonces

  lemma ChainTransactionsShape(env: Env, blocks: seq<Block>, now: nat)
    requires Accepted(env, blocks, now)
    ensures |blocks| > 1 ==> ChainTransactions(blocks) == ChainTransactions(blocks[..|blocks| - 1]) + Tip(blocks).transactions
    ensures |blocks| <= 1 ==> ChainTransactions(blocks) == []
  {
    hide Replay, ValidateBlock, Genesis;
    StartsWithGenesis(env, blocks, now);
    GenesisFacts(env);
  }

  /** The `i`-th transaction carries the number of its sender's transactions before it. */
  predicate CarriesCount(txs: seq<Transaction>, i: nat) {
    i < |txs| ==> txs[i].nonce == SentCount(txs[..i], txs[i].sender)
  }

  lemma CountsAppend(before: seq<Transaction>, last: seq<Transaction>, i: nat)
    requires i < |before + last|
    requires i < |before| ==> CarriesCount(before, i)
    requires i >= |before| ==> last[i - |before|].nonce == SentCount(before + last[..i - |before|], last[i - |before|].sender)
    ensures CarriesCount(before + last, i)
  {
    hide SentCount;
    var txs := before + last;
    if i < |before| {
      assert txs[..i] == before[..i];
    } else {
      assert txs[..i] == before + last[..i - |before|];
    }
  }

  /** A chain's transactions from one sender carry nonces 0, 1, 2, ... in chain order. */
  lemma {:induction false} NoncesCount(env: Env, blocks: seq<Block>, now: nat, i: nat)
    requires Accepted(env, blocks, now) && NoLaterGenesis(blocks)
    ensures CarriesCount(ChainTransactions(blocks), i)
    decreases |blocks|
  {
    hide Accepted, Replay, ValidateBlock, Genesis, SentCount, ChainTransactions;
    ChainTransactionsShape(env, blocks, now);
    if |blocks| > 1 {
      var n := |blocks| - 1;
      var before, last := ChainTransactions(blocks[..n]), Tip(blocks).transactions;
      PrefixAccepted(env, blocks, now, n);
      NoncesCount(env, blocks[..n], now, i);
      if |before| <= i < |before + last| {
        NonceInLastBlock(env, blocks, now, i - |before|);
      }
      if i < |before + last| {
        CountsAppend(before, last, i);
      }
    }
  }

  lemma NonceInLastBlock(env: Env, blocks: seq<Block>, now: nat, k: nat)
    requires Accepted(env, blocks, now) && NoLaterGenesis(blocks) && |blocks| > 1
    requires k < |Tip(blocks).transactions|
    ensures var before, tx := ChainTransactions(blocks[..|blocks| - 1]), Tip(blocks).transactions[k];
            tx.nonce == SentCount(before + Tip(blocks).transactions[..k], tx.sender)
  {
    hide Replay, ValidateBlock, HeaderContext, TransactionRoot, WitnessShapeOk, LedgerRoot, ValidateWorkshares, RewardAllocation, Total,
         Normal, Mature, ApplyTransactions, StructureOk, ScheduleAll;
    var front, n := blocks[..|blocks| - 1], |blocks| - 1;
    AcceptedIsLinked(env, blocks, now);
    ReplayPrefix(env, blocks, now);
    var block, parent := Tip(blocks), Replay(env, front, now).value;
    ValidBlockFacts(env, block, front, parent, now);
    var matured := Mature(parent, n).value;
    var tx := block.transactions[k];
    MatureMoves(parent, n);
    ApplyNonces(env, matured, block.transactions, k);
    ChainIsExplained(env, front, now);
    FlowsAppend(ChainTransactions(front), block.transactions[..k], tx.sender);
  }

  /** No transaction occurs twice on a chain, within a block or across blocks. */
  lemma NoTransactionTwice(env: Env, blocks: seq<Block>, now: nat, i: nat, j: nat)
    requires Accepted(env, blocks, now) && NoLaterGenesis(blocks)
    requires i < j < |ChainTransactions(blocks)|
    ensures ChainTransactions(blocks)[i] != ChainTransactions(blocks)[j]
  {
    var txs := ChainTransactions(blocks);
    NoncesCount(env, blocks, now, i);
    NoncesCount(env, blocks, now, j);
    if txs[i].sender == txs[j].sender {
      SentCountGrows(txs, i, j);
    }
  }

  lemma SentCountGrows(txs: seq<Transaction>, i: nat, j: nat)
    requires i < j <= |txs|
    ensures SentCount(txs[..i], txs[i].sender) < SentCount(txs[..j], txs[i].sender)
  {
    var who := txs[i].sender;
    assert txs[..j] == (txs[..i] + [txs[i]]) + txs[i + 1..j];
    FlowsAppend(txs[..i] + [txs[i]], txs[i + 1..j], who);
    FlowsAppend(txs[..i], [txs[i]], who);
    assert [txs[i]][..0] == [];
  }
}
