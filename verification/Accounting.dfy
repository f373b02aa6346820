/** What one state transition does to every balance, nonce and pending reward, and to the total. */
module Accounting {
  import opened Base
  import opened Params
  import opened Bytes
  import opened Types
  import opened State
  import opened Rewards
  import opened Validation

  // ----------------------------------------------------------- flows of a transaction list

  /** Amounts and fees an address spends. */
  function Sent(txs: seq<Transaction>, a: Address): nat {
    if txs == [] then 0
    else
      var tx := txs[|txs| - 1];
      Sent(txs[..|txs| - 1], a) + if tx.sender == a then tx.amount + tx.fee else 0
  }

  function Received(txs: seq<Transaction>, a: Address): nat {
    if txs == [] then 0
    else
      var tx := txs[|txs| - 1];
      Received(txs[..|txs| - 1], a) + if tx.recipient == a then tx.amount else 0
  }

  function SentCount(txs: seq<Transaction>, a: Address): nat {
    if txs == [] then 0
    else SentCount(txs[..|txs| - 1], a) + if txs[|txs| - 1].sender == a then 1 else 0
  }

  /** What applying one transaction does, account by account. */
  lemma ApplyOneEffect(env: Env, l: Ledger, tx: Transaction, seen: set<Hash>)
    requires ApplyOne(env, l, tx, seen).Ok?
    ensures var m := ApplyOne(env, l, tx, seen).value;
            && tx.nonce == AccountOf(l, tx.sender).nonce
            && m.pending == l.pending
            && (forall a: Address :: AccountOf(m, a).nonce == AccountOf(l, a).nonce + if a == tx.sender then 1 else 0)
            && (forall a: Address :: AccountOf(m, a).balance + (if a == tx.sender then tx.amount + tx.fee else 0)
                  == AccountOf(l, a).balance + if a == tx.recipient then tx.amount else 0)
  {
    var debited := Debit(l, tx.sender, tx.amount + tx.fee).value;
    var credited := Credit(debited, tx.recipient, tx.amount).value;
  }

  lemma ApplyOneTotal(env: Env, l: Ledger, tx: Transaction, seen: set<Hash>)
    requires ApplyOne(env, l, tx, seen).Ok?
    ensures BalanceTotal(ApplyOne(env, l, tx, seen).value) + tx.fee == BalanceTotal(l)
  {
    hide BalanceTotal;
    DebitTotal(l, tx.sender, tx.amount + tx.fee);
    var debited := Debit(l, tx.sender, tx.amount + tx.fee).value;
    CreditTotal(debited, tx.recipient, tx.amount);
    var credited := Credit(debited, tx.recipient, tx.amount).value;
    SetAccountTotal(credited, tx.sender, AccountOf(credited, tx.sender).(nonce := tx.nonce + 1));
  }

  lemma ApplyOneNormal(env: Env, l: Ledger, tx: Transaction, seen: set<Hash>)
    requires Normal(l) && ApplyOne(env, l, tx, seen).Ok?
    ensures Normal(ApplyOne(env, l, tx, seen).value)
  {
  }

  /** The account-by-account effect of a list. */
  ghost predicate Applied(l: Ledger, m: Ledger, txs: seq<Transaction>) {
    && m.pending == l.pending
    && (forall a: Address :: AccountOf(m, a).nonce == AccountOf(l, a).nonce + SentCount(txs, a))
    && (forall a: Address :: AccountOf(m, a).balance + Sent(txs, a) == AccountOf(l, a).balance + Received(txs, a))
  }

  lemma AppliedStep(env: Env, l: Ledger, m: Ledger, front: seq<Transaction>, tx: Transaction, seen: set<Hash>)
    requires Applied(l, m, front) && ApplyOne(env, m, tx, seen).Ok?
    ensures Applied(l, ApplyOne(env, m, tx, seen).value, front + [tx])
  {
    ApplyOneEffect(env, m, tx, seen);
    hide ApplyOne;
    var txs := front + [tx];
    assert txs[..|txs| - 1] == front && txs[|txs| - 1] == tx;
    var n := ApplyOne(env, m, tx, seen).value;
    forall a: Address ensures AccountOf(n, a).nonce == AccountOf(l, a).nonce + SentCount(txs, a)
                      ensures AccountOf(n, a).balance + Sent(txs, a) == AccountOf(l, a).balance + Received(txs, a) {
      assert AccountOf(m, a).nonce == AccountOf(l, a).nonce + SentCount(front, a);
    }
  }

  lemma {:induction false} ApplyEffect(env: Env, l: Ledger, txs: seq<Transaction>)
    requires ApplyTransactions(env, l, txs).Ok?
    ensures Applied(l, ApplyTransactions(env, l, txs).value.0, txs)
    ensures ApplyTransactions(env, l, txs).value.1 == SumFees(txs) <= MAX_MONEY
    ensures BalanceTotal(ApplyTransactions(env, l, txs).value.0) + SumFees(txs) == BalanceTotal(l)
    ensures Normal(l) ==> Normal(ApplyTransactions(env, l, txs).value.0)
  {
    if txs != [] {
      hide BalanceTotal, Normal, Applied, ApplyOne;
      var front, tx := txs[..|txs| - 1], txs[|txs| - 1];
      ApplyEffect(env, l, front);
      var m := ApplyTransactions(env, l, front).value.0;
      AppliedStep(env, l, m, front, tx, IdSet(env, front));
      ApplyOneTotal(env, m, tx, IdSet(env, front));
      if Normal(l) {
        ApplyOneNormal(env, m, tx, IdSet(env, front));
      }
      assert txs == front + [tx];
    }
  }

  /** Each transaction carries its sender's nonce at that point of the list. */
  lemma {:induction false} ApplyNonces(env: Env, l: Ledger, txs: seq<Transaction>, i: nat)
    requires ApplyTransactions(env, l, txs).Ok? && i < |txs|
    ensures txs[i].nonce == AccountOf(l, txs[i].sender).nonce + SentCount(txs[..i], txs[i].sender)
    ensures StructureOk(txs[i]) && env.signatureValid(txs[i])
    decreases |txs|
  {
    var front, tx := txs[..|txs| - 1], txs[|txs| - 1];
    var m := ApplyTransactions(env, l, front).value.0;
    assert ApplyOne(env, m, tx, IdSet(env, front)).Ok?;
    hide ApplyTransactions, SentCount, BalanceTotal, Normal, ApplyOne, Sent, Received;
    if i == |txs| - 1 {
      ApplyEffect(env, l, front);
      ApplyOneEffect(env, m, tx, IdSet(env, front));
      ApplyOneChecks(env, m, tx, IdSet(env, front));
    } else {
      ApplyNonces(env, l, front, i);
      assert front[..i] == txs[..i];
    }
  }

  lemma ApplyOneChecks(env: Env, l: Ledger, tx: Transaction, seen: set<Hash>)
    requires ApplyOne(env, l, tx, seen).Ok?
    ensures StructureOk(tx) && env.signatureValid(tx)
  {
  }

  /** No id occurs twice in an accepted list. */
  lemma {:induction false} ApplyDistinct(env: Env, l: Ledger, txs: seq<Transaction>, i: nat, j: nat)
    requires ApplyTransactions(env, l, txs).Ok? && i < j < |txs|
    ensures env.txId(txs[i]) != env.txId(txs[j])
    decreases |txs|
  {
    var front := txs[..|txs| - 1];
    if j == |txs| - 1 {
      assert front[i] in front;
      assert env.txId(txs[i]) in IdSet(env, front);
    } else {
      ApplyDistinct(env, l, front, i, j);
    }
  }

  // --------------------------------------------------------------------- scheduling

  lemma {:induction false} ScheduleAllPending(l: Ledger, maturity: u64, rewards: seq<(Address, nat)>)
    requires ScheduleAll(l, maturity, rewards).Ok?
    requires forall i, j :: 0 <= i < j < |rewards| ==> rewards[i].0 < rewards[j].0
    ensures var m := ScheduleAll(l, maturity, rewards).value;
            forall d :: PendingOf(m, d) == PendingOf(l, d) + if d.maturity == maturity then PaidTo(rewards, d.recipient) else 0
  {
    if rewards != [] {
      var front, last := rewards[..|rewards| - 1], rewards[|rewards| - 1];
      ScheduleAllPending(l, maturity, front);
      forall a: Address ensures PaidTo(rewards, a) == PaidTo(front, a) + if a == last.0 then last.1 else 0 {
        PaidToSnoc(front, last, a);
        assert rewards == front + [last];
      }
    }
  }

  lemma {:induction false} ScheduleAllEffect(l: Ledger, maturity: u64, rewards: seq<(Address, nat)>)
    requires ScheduleAll(l, maturity, rewards).Ok?
    requires forall i, j :: 0 <= i < j < |rewards| ==> rewards[i].0 < rewards[j].0
    ensures var m := ScheduleAll(l, maturity, rewards).value;
            && m.accounts == l.accounts
            && (forall d :: PendingOf(m, d) == PendingOf(l, d) + if d.maturity == maturity then PaidTo(rewards, d.recipient) else 0)
            && Total(m) == Total(l) + SumPayouts(rewards)
            && (Normal(l) ==> Normal(m))
  {
    ScheduleAllPending(l, maturity, rewards);
    hide PendingOf, PaidTo;
    if rewards != [] {
      hide Total, Normal;
      var front, last := rewards[..|rewards| - 1], rewards[|rewards| - 1];
      ScheduleAllEffect(l, maturity, front);
      var m := ScheduleAll(l, maturity, front).value;
      ScheduleTotal(m, maturity, last.0, last.1);
      ScheduleNormal(m, maturity, last.0, last.1);
    }
  }

  lemma ScheduleNormal(l: Ledger, maturity: u64, recipient: Address, amount: nat)
    requires ScheduleReward(l, maturity, recipient, amount).Ok?
    ensures Normal(l) ==> Normal(ScheduleReward(l, maturity, recipient, amount).value)
  {
  }

  lemma {:induction false} PaidToSnoc(p: seq<(Address, nat)>, x: (Address, nat), a: Address)
    requires forall i :: 0 <= i < |p| ==> p[i].0 < x.0
    ensures PaidTo(p + [x], a) == PaidTo(p, a) + if a == x.0 then x.1 else 0
  {
    if p != [] {
      assert (p + [x])[1..] == p[1..] + [x];
      PaidToSnoc(p[1..], x, a);
      if a == x.0 {
        NotPaid(p, a);
      }
    } else {
      assert (p + [x])[1..] == [];
    }
  }

  lemma {:induction false} NotPaid(p: seq<(Address, nat)>, a: Address)
    requires forall i :: 0 <= i < |p| ==> p[i].0 != a
    ensures PaidTo(p, a) == 0
  {
    if p != [] {
      NotPaid(p[1..], a);
    }
  }

  // -------------------------------------------------------------------- transition

  /** What a block pays an address, counting its finder claim and its share payout. */
  function RewardTo(claim: RewardClaim, allocation: Allocation, a: Address): nat {
    (if claim.finder == a then claim.amount else 0) + PaidTo(allocation.workshareRewards, a)
  }

  /** The account-by-account effect of a block. */
  ghost predicate Transitioned(parent: Ledger, next: Ledger, height: nat, txs: seq<Transaction>, claim: RewardClaim, allocation: Allocation) {
    && height + REWARD_MATURITY <= U64_MAX
    && (forall a: Address :: AccountOf(next, a).nonce == AccountOf(parent, a).nonce + SentCount(txs, a))
    && (forall a: Address :: AccountOf(next, a).balance + Sent(txs, a)
          == AccountOf(parent, a).balance + PendingOf(parent, Due(height, a)) + Received(txs, a))
    && (forall d :: PendingOf(next, d)
          == (if d.maturity == height then 0 else PendingOf(parent, d))
             + if d.maturity == height + REWARD_MATURITY then RewardTo(claim, allocation, d.recipient) else 0)
  }

  lemma MaturePending(l: Ledger, height: u64, d: Due)
    requires Mature(l, height).Ok?
    ensures PendingOf(Mature(l, height).value, d) == if d.maturity == height then 0 else PendingOf(l, d)
  {
    MatureMoves(l, height);
  }

  lemma MatureNormal(l: Ledger, height: u64)
    requires Mature(l, height).Ok? && Normal(l)
    ensures Normal(Mature(l, height).value)
  {
    MatureEachNormal(l, height, InAddressOrder(Matured(l, height)));
  }

  lemma ScheduledPending(l: Ledger, maturity: u64, claim: RewardClaim, allocation: Allocation)
    requires AscendingPayouts(allocation.workshareRewards) && claim.amount == allocation.finderAmount
    requires ScheduleReward(l, maturity, claim.finder, allocation.finderAmount).Ok?
    requires ScheduleAll(ScheduleReward(l, maturity, claim.finder, allocation.finderAmount).value, maturity, allocation.workshareRewards).Ok?
    ensures var m := ScheduleAll(ScheduleReward(l, maturity, claim.finder, allocation.finderAmount).value, maturity, allocation.workshareRewards).value;
            && m.accounts == l.accounts
            && (forall d :: PendingOf(m, d) == PendingOf(l, d) + if d.maturity == maturity then RewardTo(claim, allocation, d.recipient) else 0)
            && Total(m) == Total(l) + AllocationTotal(allocation)
            && (Normal(l) ==> Normal(m))
  {
    hide Total, Normal;
    var paid := ScheduleReward(l, maturity, claim.finder, allocation.finderAmount).value;
    ScheduleTotal(l, maturity, claim.finder, allocation.finderAmount);
    ScheduleNormal(l, maturity, claim.finder, allocation.finderAmount);
    ScheduleAllEffect(paid, maturity, allocation.workshareRewards);
  }

  /** Maturing, applying and scheduling move money between accounts and pending rewards; the only
      new money is the block subsidy. */
  lemma TransitionEffect(env: Env, height: u64, claim: RewardClaim, txs: seq<Transaction>, history: seq<Block>, parent: Ledger)
    requires TransitionFor(env, height, claim, txs, history, parent).Ok?
    ensures var t := TransitionFor(env, height, claim, txs, history, parent).value;
            && Transitioned(parent, t.state, height, txs, claim, t.allocation)
            && Total(t.state) == Total(parent) + BlockSubsidy(height)
            && t.fees == SumFees(txs)
            && RewardAllocation(height, t.fees, history) == Ok(t.allocation)
            && claim.amount == t.allocation.finderAmount
            && (Normal(parent) ==> Normal(t.state))
  {
    hide Total, BalanceTotal, PendingTotal, Normal, RewardAllocation, Mature, ApplyTransactions, ScheduleAll, BlockSubsidy;
    var matured := Mature(parent, height).value;
    MatureMoves(parent, height);
    if Normal(parent) {
      MatureNormal(parent, height);
    }
    var applied := ApplyTransactions(env, matured, txs).value;
    ApplyEffect(env, matured, txs);
    AppliedTotal(matured, applied.0, applied.1);
    var allocation := RewardAllocation(height, applied.1, history).value;
    AllocationIsExact(height, applied.1, history);
    AllocationIsOrdered(height, applied.1, history);
    ScheduledPending(applied.0, height + REWARD_MATURITY, claim, allocation);
    var next := TransitionFor(env, height, claim, txs, history, parent).value.state;
    forall d ensures PendingOf(next, d)
                  == (if d.maturity == height then 0 else PendingOf(parent, d))
                     + if d.maturity == height + REWARD_MATURITY then RewardTo(claim, allocation, d.recipient) else 0 {
      MaturePending(parent, height, d);
      assert PendingOf(applied.0, d) == PendingOf(matured, d);
    }
    forall a: Address ensures AccountOf(next, a) == AccountOf(applied.0, a) {
    }
  }

  lemma AppliedTotal(l: Ledger, m: Ledger, fees: nat)
    requires m.pending == l.pending && BalanceTotal(m) + fees == BalanceTotal(l)
    ensures Total(m) + fees == Total(l)
  {
  }
}
