/** The reward reports of src/node.rs: `historical_reward` with its binary-search shortcut and
    zero-fee recomputation, and the balance-based total of `mining_rewards`. Both agree with what
    the state transition scheduled. */
module RewardHistory {
  import opened Base
  import opened Params
  import opened Bytes
  import opened Types
  import opened State
  import opened Rewards
  import opened Validation
  import opened Accounting
  import opened ChainSpec
  import opened ChainAccounts

  // ------------------------------------------------------------------- share positions

  predicate HasShare(block: Block, a: Address) {
    exists s :: s in block.workshareWitness.workshares && s.miner == a
  }

  /** Indices of the blocks that carry a share of `a`, ascending. */
  function ShareBlocks(blocks: seq<Block>, a: Address): (positions: seq<nat>)
    ensures Ascending(positions)
    ensures forall p: nat :: p in positions <==> p < |blocks| && HasShare(blocks[p], a)
  {
    if blocks == [] then []
    else
      var n := |blocks| - 1;
      var before := ShareBlocks(blocks[..n], a);
      assert forall p: nat :: p < n ==> blocks[..n][p] == blocks[p];
      assert forall i :: 0 <= i < |before| ==> before[i] in before;
      if HasShare(blocks[n], a) then before + [n] else before
  }

  /** `partition_point`: binary search for the first position not below `index`. */
  method PartitionPoint(positions: seq<nat>, index: nat) returns (k: nat)
    requires Ascending(positions)
    ensures k <= |positions|
    ensures forall i :: 0 <= i < k ==> positions[i] < index
    ensures forall i :: k <= i < |positions| ==> positions[i] >= index
  {
    var low, high := 0, |positions|;
    while low < high
      invariant 0 <= low <= high <= |positions|
      invariant forall i :: 0 <= i < low ==> positions[i] < index
      invariant forall i :: high <= i < |positions| ==> positions[i] >= index
    {
      var middle := (low + high) / 2;
      if positions[middle] < index {
        low := middle + 1;
      } else {
        high := middle;
      }
    }
    k := low;
  }

  /** Some block of the window before `index` carries a share of `a`. */
  predicate InWindow(blocks: seq<Block>, index: nat, a: Address)
    requires index <= |blocks|
  {
    exists p :: SatSub(index, REWARD_WINDOW) <= p < index && HasShare(blocks[p], a)
  }

  /** The eligibility test looks at one element of the sorted positions. */
  method Eligible(blocks: seq<Block>, positions: seq<nat>, index: nat, a: Address) returns (eligible: bool)
    requires index <= |blocks| && positions == ShareBlocks(blocks, a)
    ensures eligible <==> InWindow(blocks, index, a)
  {
    hide ShareBlocks, HasShare;
    var k := PartitionPoint(positions, index);
    eligible := k > 0 && positions[k - 1] >= SatSub(index, REWARD_WINDOW);
    if eligible {
      assert positions[k - 1] in positions;
    } else {
      forall p: nat | p < index && HasShare(blocks[p], a) ensures p < SatSub(index, REWARD_WINDOW) {
        assert p in positions;
        LastBelow(positions, index, k, p);
      }
    }
  }

  lemma LastBelow(positions: seq<nat>, index: nat, k: nat, p: nat)
    requires Ascending(positions) && k <= |positions| && p in positions && p < index
    requires forall i :: k <= i < |positions| ==> positions[i] >= index
    ensures k > 0 && p <= positions[k - 1]
  {
    var i :| 0 <= i < |positions| && positions[i] == p;
    assert i < k;
    assert i < k - 1 ==> positions[i] < positions[k - 1];
  }

  // ------------------------------------------------------------------ one block's entry

  datatype HistoryEntry = HistoryEntry(amount: nat, finderAmount: nat, workshareAmount: nat, maturityHeight: nat, matured: bool)

  /** `historical_reward`: the share part is recomputed only when eligible, and without fees. */
  ghost function HistoricalReward(history: seq<Block>, index: nat, a: Address): Option<HistoryEntry>
    requires index < |history|
  {
    var block := history[index];
    if block.rewardClaim.None? then None
    else
      var finderAmount := if block.rewardClaim.value.finder == a then block.rewardClaim.value.amount else 0;
      var allocation := RewardAllocation(block.header.height, 0, history[..index]);
      if InWindow(history, index, a) && allocation.Err? then None
      else
        var shareAmount := if InWindow(history, index, a) then PaidTo(allocation.value.workshareRewards, a) else 0;
        if finderAmount + shareAmount == 0 then None
        else Some(HistoryEntry(finderAmount + shareAmount, finderAmount, shareAmount, block.header.height + REWARD_MATURITY,
                               Tip(history).header.height >= block.header.height + REWARD_MATURITY))
  }

  method ComputeHistoricalReward(history: seq<Block>, index: nat, a: Address, positions: seq<nat>) returns (r: Option<HistoryEntry>)
    requires index < |history| && positions == ShareBlocks(history, a) && Addressable(history)
    ensures r == HistoricalReward(history, index, a)
  {
    hide ShareBlocks, RewardAllocation, InWindow, PaidTo;
    var block := history[index];
    if block.rewardClaim.None? {
      return None;
    }
    var finderAmount := if block.rewardClaim.value.finder == a then block.rewardClaim.value.amount else 0;
    var eligible := Eligible(history, positions, index, a);
    var shareAmount := 0;
    if eligible {
      var allocation := ComputeAllocation(block.header.height, 0, history[..index]);
      if allocation.Err? {
        return None;
      }
      shareAmount := PaidTo(allocation.value.workshareRewards, a);
    }
    if finderAmount + shareAmount == 0 {
      return None;
    }
    return Some(HistoryEntry(finderAmount + shareAmount, finderAmount, shareAmount, block.header.height + REWARD_MATURITY,
                             Tip(history).header.height >= block.header.height + REWARD_MATURITY));
  }

  // ------------------------------------------------------------------ ineligible is unpaid

  lemma {:induction false} MinersOf(blocks: seq<Block>, a: Address)
    requires a in Miners(BlockShares(blocks))
    ensures exists p :: 0 <= p < |blocks| && HasShare(blocks[p], a)
  {
    if blocks != [] {
      var front, last := blocks[..|blocks| - 1], blocks[|blocks| - 1];
      var s :| s in BlockShares(blocks) && s.miner == a;
      if s in last.workshareWitness.workshares {
        assert HasShare(blocks[|blocks| - 1], a);
      } else {
        assert s in BlockShares(front);
        MinersOf(front, a);
        var p :| 0 <= p < |front| && HasShare(front[p], a);
        assert HasShare(blocks[p], a);
      }
    }
  }

  lemma WeightMeansWindow(blocks: seq<Block>, index: nat, a: Address)
    requires index <= |blocks| && a in Miners(WindowShares(blocks[..index]))
    ensures InWindow(blocks, index, a)
  {
    hide HasShare, BlockShares;
    var history := blocks[..index];
    var start := WindowStart(history);
    MinersOf(history[start..], a);
    var p :| 0 <= p < |history[start..]| && HasShare(history[start..][p], a);
    assert HasShare(blocks[start + p], a);
  }

  lemma NoWeightNoPay(height: nat, fees: nat, history: seq<Block>, a: Address)
    requires RewardAllocation(height, fees, history).Ok?
    requires a !in Miners(WindowShares(history))
    ensures PaidTo(RewardAllocation(height, fees, history).value.workshareRewards, a) == 0
  {
    var weights := Weights(WindowShares(history));
    assert a !in weights;
    hide Weights, Payouts, FinalLines, SumMap, PaidTo;
    if Pool(height) != 0 && SumMap(weights) != 0 {
      PaidIsEntitlement(Pool(height), weights, a);
    } else {
      NotPaid([], a);
    }
  }

  /** What acceptance says of the allocation of block `k`. */
  lemma AcceptedAllocation(env: Env, blocks: seq<Block>, now: nat, k: nat)
    requires Accepted(env, blocks, now) && NoLaterGenesis(blocks) && 0 < k < |blocks|
    ensures blocks[k].rewardClaim.Some? && blocks[k].header.height == k
    ensures RewardAllocation(k, SumFees(blocks[k].transactions), blocks[..k]).Ok?
  {
    hide Replay, ValidateBlock, TransitionFor, HeaderContext, TransactionRoot, WitnessShapeOk, LedgerRoot, ValidateWorkshares,
         RewardAllocation, SumFees, Transitioned, Total, Normal, BlockSubsidy;
    AcceptedIsLinked(env, blocks, now);
    var upto := blocks[..k + 1];
    PrefixAccepted(env, blocks, now, k + 1);
    ReplayPrefix(env, upto, now);
    assert upto[..k] == blocks[..k];
    var parent := Replay(env, blocks[..k], now).value;
    ValidBlockFacts(env, blocks[k], blocks[..k], parent, now);
    TransitionEffect(env, k, blocks[k].rewardClaim.value, blocks[k].transactions, blocks[..k], parent);
  }

  /** `historical_reward` reports exactly what block `k` scheduled for the address, and reports
      nothing exactly when that is zero. */
  lemma HistoricalIsScheduled(env: Env, blocks: seq<Block>, now: nat, k: nat, a: Address)
    requires Accepted(env, blocks, now) && NoLaterGenesis(blocks) && k < |blocks|
    ensures HistoricalReward(blocks, k, a).None? <==> BlockReward(blocks, k, a) == 0
    ensures HistoricalReward(blocks, k, a).Some? ==>
              HistoricalReward(blocks, k, a).value.amount == BlockReward(blocks, k, a)
  {
    hide Replay, RewardAllocation, InWindow, PaidTo, WindowShares;
    if k == 0 {
      StartsWithGenesis(env, blocks, now);
      GenesisFacts(env);
    } else {
      AcceptedAllocation(env, blocks, now, k);
      FeesGoToFinder(k, SumFees(blocks[k].transactions), blocks[..k]);
      if !InWindow(blocks, k, a) {
        if a in Miners(WindowShares(blocks[..k])) {
          WeightMeansWindow(blocks, k, a);
        }
        NoWeightNoPay(k, SumFees(blocks[k].transactions), blocks[..k], a);
      }
    }
  }

  /** The sum of the reported entries over the whole chain. */
  ghost function HistoryTotal(blocks: seq<Block>, n: nat, a: Address): nat
    requires n < |blocks|
  {
    (if n == 0 then 0 else HistoryTotal(blocks, n - 1, a))
    + if HistoricalReward(blocks, n, a).Some? then HistoricalReward(blocks, n, a).value.amount else 0
  }

  lemma {:induction false} HistoryTotalIsRewards(env: Env, blocks: seq<Block>, now: nat, n: nat, a: Address)
    requires Accepted(env, blocks, now) && NoLaterGenesis(blocks) && n < |blocks|
    ensures HistoryTotal(blocks, n, a) == RewardsThrough(blocks, n, a)
  {
    hide Replay, HistoricalReward;
    HistoricalIsScheduled(env, blocks, now, n, a);
    if n == 0 {
      assert BlockReward(blocks, 0, a) == 0;
    } else {
      hide BlockReward;
      HistoryTotalIsRewards(env, blocks, now, n - 1, a);
    }
  }

  // --------------------------------------------------------------------- pending sums

  /** The pending entries of one address with maturities in [low, high). */
  ghost function PendingBetween(l: Ledger, a: Address, low: nat, high: nat): map<Due, nat> {
    map d | d in l.pending && d.recipient == a && low <= d.maturity < high :: l.pending[d] as nat
  }

  /** All pending entries of one address. */
  ghost function PendingEntries(l: Ledger, a: Address): map<Due, nat> {
    map d | d in l.pending && d.recipient == a :: l.pending[d] as nat
  }

  function PendingSum(l: Ledger, a: Address, low: nat, high: nat): nat {
    if high <= low || high - 1 > U64_MAX then 0
    else PendingSum(l, a, low, high - 1) + PendingOf(l, Due(high - 1, a))
  }

  lemma {:induction false} PendingBetweenSum(l: Ledger, a: Address, low: nat, high: nat)
    requires high <= U64_MAX + 1
    ensures SumMap(PendingBetween(l, a, low, high)) == PendingSum(l, a, low, high)
    decreases high
  {
    if high <= low {
      assert PendingBetween(l, a, low, high) == map[];
    } else {
      PendingBetweenSum(l, a, low, high - 1);
      var d := Due(high - 1, a);
      var whole, part := PendingBetween(l, a, low, high), PendingBetween(l, a, low, high - 1);
      assert whole - {d} == part;
      SumMapUpdate<Due>(whole, d, 0);
    }
  }

  /** `pending_for`: a saturating fold over the entries of one address, in any order. */
  method PendingFor(l: Ledger, a: Address) returns (total: nat)
    ensures total == Min(SumMap(PendingEntries(l, a)), U64_MAX)
  {
    var left := l.pending;
    ghost var done: nat := 0;
    total := 0;
    while left != map[]
      invariant total == Min(done, U64_MAX)
      invariant done + SumMap(PendingEntries(l.(pending := left), a)) == SumMap(PendingEntries(l, a))
      decreases |left|
    {
      var d :| d in left;
      PendingEntriesRemove(l.(pending := left), a, d);
      if d.recipient == a {
        total := SatAdd64(total, left[d]);
        done := done + left[d];
      }
      left := left - {d};
    }
    assert PendingEntries(l.(pending := left), a) == map[];
  }

  lemma PendingEntriesRemove(l: Ledger, a: Address, d: Due)
    requires d in l.pending
    ensures SumMap(PendingEntries(l, a))
         == SumMap(PendingEntries(l.(pending := l.pending - {d}), a)) + if d.recipient == a then l.pending[d] else 0
  {
    var whole, part := PendingEntries(l, a), PendingEntries(l.(pending := l.pending - {d}), a);
    assert part == whole - {d};
    SumMapUpdate<Due>(whole, d, 0);
  }

  // ---------------------------------------------------------------------- mining_rewards

  /** `mining_rewards`: funds plus payments minus receipts, without looking at any allocation. */
  method MiningRewards(blocks: seq<Block>, l: Ledger, a: Address) returns (total: nat, pending: nat)
    ensures pending == Min(SumMap(PendingEntries(l, a)), U64_MAX)
    ensures var txs := ChainTransactions(blocks);
            total == Min(SatSub(AccountOf(l, a).balance + pending + Sent(txs, a), Received(txs, a)), U64_MAX)
  {
    pending := PendingFor(l, a);
    hide SumMap, PendingEntries;
    var credited: nat := AccountOf(l, a).balance + pending;
    var received := 0;
    for i := 0 to |blocks|
      invariant credited == AccountOf(l, a).balance + pending + Sent(ChainTransactions(blocks[..i]), a)
      invariant received == Received(ChainTransactions(blocks[..i]), a)
    {
      assert blocks[..i + 1][..i] == blocks[..i];
      var sent, got := BlockFlows(blocks[i].transactions, a);
      FlowsAppend(ChainTransactions(blocks[..i]), blocks[i].transactions, a);
      credited := credited + sent;
      received := received + got;
    }
    assert blocks[..|blocks|] == blocks;
    total := Min(SatSub(credited, received), U64_MAX);
  }

  method BlockFlows(txs: seq<Transaction>, a: Address) returns (sent: nat, received: nat)
    ensures sent == Sent(txs, a) && received == Received(txs, a)
  {
    sent, received := 0, 0;
    for i := 0 to |txs|
      invariant sent == Sent(txs[..i], a) && received == Received(txs[..i], a)
    {
      assert txs[..i + 1][..i] == txs[..i];
      if txs[i].sender == a {
        sent := sent + txs[i].amount + txs[i].fee;
      }
      if txs[i].recipient == a {
        received := received + txs[i].amount;
      }
    }
    assert txs[..|txs|] == txs;
  }

  lemma {:induction false} RecentRewards(blocks: seq<Block>, l: Ledger, a: Address, m: nat)
    requires blocks != [] && PendingIsRecent(blocks, l)
    requires |blocks| - 1 + REWARD_MATURITY <= U64_MAX
    requires |blocks| - 1 <= m <= |blocks| - 1 + REWARD_MATURITY
    ensures var n := |blocks| - 1;
            RewardsThrough(blocks, SatSub(m, REWARD_MATURITY), a)
            == RewardsThrough(blocks, SatSub(n, REWARD_MATURITY), a) + PendingSum(l, a, n + 1, m + 1)
    decreases m
  {
    hide BlockReward;
    if m > |blocks| - 1 {
      RecentRewards(blocks, l, a, m - 1);
      assert PendingSum(l, a, |blocks|, m + 1) == PendingSum(l, a, |blocks|, m) + PendingOf(l, Due(m, a));
    }
  }

  lemma PendingAllRecent(l: Ledger, a: Address, n: nat)
    requires MaturingSoon(l, n) && n + REWARD_MATURITY <= U64_MAX
    ensures SumMap(PendingEntries(l, a)) == PendingSum(l, a, n + 1, n + REWARD_MATURITY + 1)
  {
    PendingBetweenSum(l, a, n + 1, n + REWARD_MATURITY + 1);
    assert PendingEntries(l, a) == PendingBetween(l, a, n + 1, n + REWARD_MATURITY + 1);
  }

  lemma ExplainedTotal(blocks: seq<Block>, l: Ledger, a: Address)
    requires blocks != [] && |blocks| + REWARD_MATURITY <= U64_MAX
    requires PendingIsRecent(blocks, l) && AccountsExplained(blocks, l) && MaturingSoon(l, |blocks| - 1)
    ensures AccountOf(l, a).balance + SumMap(PendingEntries(l, a)) + Sent(ChainTransactions(blocks), a)
         == Received(ChainTransactions(blocks), a) + RewardsThrough(blocks, |blocks| - 1, a)
  {
    PendingAllRecent(l, a, |blocks| - 1);
    hide PendingIsRecent, SumMap, PendingEntries, MaturingSoon;
    RecentRewards(blocks, l, a, |blocks| - 1 + REWARD_MATURITY);
  }

  lemma ChainFacts(env: Env, blocks: seq<Block>, now: nat)
    requires Accepted(env, blocks, now) && NoLaterGenesis(blocks)
    ensures blocks != []
    ensures var l := Replay(env, blocks, now).value;
            PendingIsRecent(blocks, l) && AccountsExplained(blocks, l) && MaturingSoon(l, |blocks| - 1)
  {
    hide Replay, Total, Normal, PendingIsRecent, AccountsExplained, MaturingSoon, NoLaterGenesis, SupplyTo;
    AcceptedIsLinked(env, blocks, now);
    SupplyIsSchedule(env, blocks, now);
    ChainIsExplained(env, blocks, now);
  }

  /** The balance-based total of `mining_rewards` is the sum of all reward-history entries. */
  lemma MiningRewardsIsHistory(env: Env, blocks: seq<Block>, now: nat, a: Address, pending: nat)
    requires Accepted(env, blocks, now) && NoLaterGenesis(blocks)
    requires |blocks| + REWARD_MATURITY <= U64_MAX
    requires pending == SumMap(PendingEntries(Replay(env, blocks, now).value, a)) <= U64_MAX
    ensures blocks != []
    ensures var l, txs := Replay(env, blocks, now).value, ChainTransactions(blocks);
            SatSub(AccountOf(l, a).balance + pending + Sent(txs, a), Received(txs, a)) == HistoryTotal(blocks, |blocks| - 1, a)
  {
    hide Replay, NoLaterGenesis, SumMap, HistoryTotal, PendingIsRecent, AccountsExplained, MaturingSoon, PendingEntries, RewardsThrough,
         Sent, Received, ChainTransactions;
    ChainFacts(env, blocks, now);
    ExplainedTotal(blocks, Replay(env, blocks, now).value, a);
    HistoryTotalIsRewards(env, blocks, now, |blocks| - 1, a);
  }

  /** While the scheduled supply fits the counter, no address's pending sum can saturate. */
  lemma PendingFits(env: Env, blocks: seq<Block>, now: nat, a: Address)
    requires Accepted(env, blocks, now)
    requires blocks != [] && SupplyTo(Tip(blocks).header.height) <= U64_MAX
    ensures SumMap(PendingEntries(Replay(env, blocks, now).value, a)) <= U64_MAX
  {
    SupplyIsSchedule(env, blocks, now);
    hide Replay, Normal, SupplyTo;
    PartOfPending(Replay(env, blocks, now).value, a);
  }

  lemma {:induction false} PartOfPending(l: Ledger, a: Address)
    ensures SumMap(PendingEntries(l, a)) <= PendingTotal(l)
    decreases |l.pending|
  {
    if l.pending == map[] {
      assert PendingEntries(l, a) == map[];
    } else {
      var d :| d in l.pending;
      var m := l.(pending := l.pending - {d});
      assert |m.pending| < |l.pending| by { assert m.pending.Keys == l.pending.Keys - {d}; }
      PartOfPending(m, a);
      PendingEntriesRemove(l, a, d);
      PendingRemoveTotal(l, d);
    }
  }
}
