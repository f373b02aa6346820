/** What the transaction pool's choices mean in fees, sizes and balances: selection takes the best paying
    spendable payment every time, eviction takes the worst, and relay keeps to its policy. */
module QueueRules {
  import opened Base
  import opened Arith
  import opened Params
  import opened Bytes
  import opened Types
  import opened Sorting
  import opened State
  import opened Validation
  import opened Accounting
  import opened Mempools

  // ------------------------------------------------------------------------ selection

  /** The sender is at this nonce and can pay amount and fee. */
  predicate Spendable(l: Ledger, tx: Transaction) {
    AccountOf(l, tx.sender).nonce == tx.nonce && AccountOf(l, tx.sender).balance >= tx.amount + tx.fee
  }

  /** Entry `u` pays at most the rate of entry `t`, and on equal rates has the higher id. */
  predicate PaysNoMore(q: Queue, u: Hash, t: Hash)
    requires u in q.entries && t in q.entries
  {
    var x, y := q.entries[u], q.entries[t];
    || x.transaction.fee * y.size < y.transaction.fee * x.size
    || (x.transaction.fee * y.size == y.transaction.fee * x.size && t <= u)
  }

  /** `t` is spendable on this state, not among `taken`, and no such entry pays more. */
  ghost predicate BestPaying(env: Env, q: Queue, l: Ledger, taken: set<Hash>, t: Transaction) {
    var id := env.txId(t);
    && id in q.entries && q.entries[id].transaction == t && id !in taken && Spendable(l, t)
    && forall u :: u in q.entries && u !in taken && Spendable(l, q.entries[u].transaction) ==> PaysNoMore(q, u, id)
  }

  /** The state after paying a list in order. */
  ghost function SpendAll(l: Ledger, txs: seq<Transaction>): Result<Ledger, ConsensusError> {
    if txs == [] then Ok(l)
    else
      var before :- SpendAll(l, txs[..|txs| - 1]);
      var tx := txs[|txs| - 1];
      if Debited(tx) > U64_MAX || tx.nonce >= U64_MAX then Err(ArithmeticOverflow) else Spend(before, tx)
  }

  lemma SpendableIs(env: Env, l: Ledger, tx: Transaction)
    requires Relayable(env, tx)
    ensures CanSpend(l, tx) <==> Spendable(l, tx)
  {
  }

  lemma SpendAllSnoc(l: Ledger, txs: seq<Transaction>, tx: Transaction)
    requires Debited(tx) <= U64_MAX && tx.nonce < U64_MAX && SpendAll(l, txs).Ok?
    ensures SpendAll(l, txs + [tx]) == Spend(SpendAll(l, txs).value, tx)
  {
    hide Spend;
    var all := txs + [tx];
    assert all[..|all| - 1] == txs && all[|all| - 1] == tx;
  }

  lemma IdSetSnoc(env: Env, txs: seq<Transaction>, tx: Transaction)
    ensures IdSet(env, txs + [tx]) == IdSet(env, txs) + {env.txId(tx)}
  {
    assert forall x :: x in txs + [tx] <==> x in txs || x == tx;
  }

  lemma ChosenIsBest(env: Env, q: Queue, l: Ledger, taken: set<Hash>)
    requires EntriesOk(env, q) && Eligible(q, l, taken) != {}
    ensures BestPaying(env, q, l, taken, q.entries[FirstOf(q, Eligible(q, l, taken))].transaction)
  {
    hide Relayable, CanSpend, Spendable, FirstOf;
    var id := FirstOf(q, Eligible(q, l, taken));
    SpendableIs(env, l, q.entries[id].transaction);
    forall u | u in q.entries && u !in taken && Spendable(l, q.entries[u].transaction) ensures PaysNoMore(q, u, id) {
      SpendableIs(env, l, q.entries[u].transaction);
      assert u in Eligible(q, l, taken);
      assert u != id ==> Prior((id, q.entries[id]), (u, q.entries[u]));
    }
  }

  lemma NothingEligible(env: Env, q: Queue, l: Ledger, taken: set<Hash>)
    requires EntriesOk(env, q) && Eligible(q, l, taken) == {}
    ensures forall u :: u in q.entries && u !in taken ==> !Spendable(l, q.entries[u].transaction)
  {
    hide Relayable, CanSpend, Spendable;
    forall u | u in q.entries && u !in taken ensures !Spendable(l, q.entries[u].transaction) {
      SpendableIs(env, l, q.entries[u].transaction);
      assert u !in Eligible(q, l, taken);
    }
  }

  /** Nothing unselected can be spent any more. */
  ghost predicate Exhausted(env: Env, q: Queue, l: Ledger, selected: seq<Transaction>) {
    forall u :: u in q.entries && u !in IdSet(env, selected) ==> !Spendable(l, q.entries[u].transaction)
  }

  /** The greedy reading of a selection `r`, from its `from`-th choice on. */
  ghost predicate Greedy(env: Env, q: Queue, l: Ledger, r: seq<Transaction>, from: nat, maximum: nat) {
    && SpendAll(l, r).Ok?
    && (forall k: nat :: from <= k < |r| ==>
          SpendAll(l, r[..k]).Ok? && BestPaying(env, q, SpendAll(l, r[..k]).value, IdSet(env, r[..k]), r[k]))
    && (|r| < maximum ==> Exhausted(env, q, SpendAll(l, r).value, r))
  }

  /** One turn of the selection loop. */
  lemma SelectFromStep(env: Env, q: Queue, working: Ledger, selected: seq<Transaction>, included: set<Hash>, maximum: nat)
    requires EntriesOk(env, q) && SelectFrom(env, q, working, selected, included, maximum).Ok?
    requires Eligible(q, working, included) != {}
    ensures var id := FirstOf(q, Eligible(q, working, included));
            var tx := q.entries[id].transaction;
            && Debited(tx) <= U64_MAX && tx.nonce < U64_MAX && Spend(working, tx).Ok?
            && SelectFrom(env, q, working, selected, included, maximum)
               == if |selected| + 1 >= maximum then Ok(selected + [tx])
                  else SelectFrom(env, q, Spend(working, tx).value, selected + [tx], included + {id}, maximum)
  {
    hide Spend, CanSpend, Relayable;
    RelayableSpends(env, q.entries[FirstOf(q, Eligible(q, working, included))].transaction);
  }

  lemma GreedyExtends(env: Env, q: Queue, l: Ledger, r: seq<Transaction>, selected: seq<Transaction>, tx: Transaction, maximum: nat)
    requires SpendAll(l, selected).Ok? && BestPaying(env, q, SpendAll(l, selected).value, IdSet(env, selected), tx)
    requires |selected| + 1 <= |r| && r[..|selected| + 1] == selected + [tx]
    requires Greedy(env, q, l, r, |selected| + 1, maximum)
    ensures r[..|selected|] == selected && Greedy(env, q, l, r, |selected|, maximum)
  {
    hide SpendAll, BestPaying, IdSet, Exhausted;
    var n := |selected|;
    assert r[..n] == r[..n + 1][..n] && r[n] == r[..n + 1][n];
  }

  lemma GreedyAtMaximum(env: Env, q: Queue, l: Ledger, r: seq<Transaction>, maximum: nat)
    requires SpendAll(l, r).Ok? && |r| >= maximum
    ensures Greedy(env, q, l, r, |r|, maximum) && r[..|r|] == r
  {
    hide SpendAll, BestPaying, IdSet, Exhausted;
  }

  lemma {:induction false} SelectFromIsGreedy(env: Env, q: Queue, l: Ledger, working: Ledger, selected: seq<Transaction>, maximum: nat)
    requires EntriesOk(env, q) && SpendAll(l, selected) == Ok(working)
    requires SelectFrom(env, q, working, selected, IdSet(env, selected), maximum).Ok?
    ensures var r := SelectFrom(env, q, working, selected, IdSet(env, selected), maximum).value;
            && |selected| <= |r| && r[..|selected|] == selected && Greedy(env, q, l, r, |selected|, maximum)
            && (|selected| < Max(maximum, 1) ==> |r| <= Max(maximum, 1))
    decreases |q.entries.Keys - IdSet(env, selected)|
  {
    hide IdSet, SpendAll, Spend, BestPaying, Eligible, Greedy, SelectFrom, EntriesOk;
    var taken := IdSet(env, selected);
    if Eligible(q, working, taken) == {} {
      NothingEligible(env, q, working, taken);
      NoChoiceLeft(env, q, l, selected, maximum);
      SelectEnds(env, q, working, selected, taken, maximum);
    } else {
      SelectFromStep(env, q, working, selected, taken, maximum);
      ChosenIsBest(env, q, working, taken);
      EligibleWithin(q, working, taken);
      var id := FirstOf(q, Eligible(q, working, taken));
      var tx := q.entries[id].transaction;
      EligibleIsNew(q, working, taken, id);
      SpendAllSnoc(l, selected, tx);
      IdSetSnoc(env, selected, tx);
      ChosenId(env, q, id);
      if |selected| + 1 >= maximum {
        GreedyAtMaximum(env, q, l, selected + [tx], maximum);
        GreedyExtends(env, q, l, selected + [tx], selected, tx, maximum);
      } else {
        SmallerSet(q.entries.Keys - (taken + {id}), q.entries.Keys - taken);
        SelectFromIsGreedy(env, q, l, Spend(working, tx).value, selected + [tx], maximum);
        GreedyExtends(env, q, l, SelectFrom(env, q, working, selected, taken, maximum).value, selected, tx, maximum);
      }
    }
  }

  lemma EligibleWithin(q: Queue, l: Ledger, taken: set<Hash>)
    ensures Eligible(q, l, taken) <= q.entries.Keys
  {
  }

  lemma ChosenId(env: Env, q: Queue, id: Hash)
    requires EntriesOk(env, q) && id in q.entries
    ensures env.txId(q.entries[id].transaction) == id
  {
  }

  lemma EligibleIsNew(q: Queue, l: Ledger, taken: set<Hash>, id: Hash)
    requires id in Eligible(q, l, taken)
    ensures id in q.entries && id !in taken && id in q.entries.Keys - taken
    ensures q.entries.Keys - (taken + {id}) < q.entries.Keys - taken
  {
    assert id in q.entries.Keys - taken;
  }

  lemma NoChoiceLeft(env: Env, q: Queue, l: Ledger, selected: seq<Transaction>, maximum: nat)
    requires SpendAll(l, selected).Ok?
    requires forall u :: u in q.entries && u !in IdSet(env, selected) ==> !Spendable(SpendAll(l, selected).value, q.entries[u].transaction)
    ensures Greedy(env, q, l, selected, |selected|, maximum) && selected[..|selected|] == selected
  {
    hide SpendAll, Spendable, IdSet, BestPaying;
  }

  /** Every choice of a selection is the best paying payment that can be made after the ones before it, ties to
      the lower id; and it stops short of the maximum only when nothing left can be spent. */
  lemma SelectionIsGreedy(env: Env, q: Queue, l: Ledger, maximum: nat)
    requires EntriesOk(env, q) && Select(env, q, l, maximum).Ok?
    ensures Greedy(env, q, l, Select(env, q, l, maximum).value, 0, maximum)
    ensures |Select(env, q, l, maximum).value| <= Max(maximum, 1)
  {
    assert IdSet(env, []) == {};
    assert SpendAll(l, []) == Ok(l);
    hide SelectFrom, Greedy, IdSet, SpendAll;
    SelectFromIsGreedy(env, q, l, l, [], maximum);
  }

  /** Two payments that can both be made: the better paying one is chosen first. */
  lemma BetterPayingFirst(env: Env, q: Queue, l: Ledger, dear: Hash, cheap: Hash, maximum: nat)
    requires EntriesOk(env, q) && Select(env, q, l, maximum).Ok?
    requires dear in q.entries && cheap in q.entries
    requires Spendable(l, q.entries[dear].transaction) && Spendable(l, q.entries[cheap].transaction)
    requires q.entries[cheap].transaction.fee * q.entries[dear].size < q.entries[dear].transaction.fee * q.entries[cheap].size
    ensures Select(env, q, l, maximum).value != [] ==> env.txId(Select(env, q, l, maximum).value[0]) != cheap
    ensures maximum > 0 ==> Select(env, q, l, maximum).value != []
  {
    SelectionIsGreedy(env, q, l, maximum);
    hide Select, EntriesOk;
    var r := Select(env, q, l, maximum).value;
    assert r[..0] == [];
    assert IdSet(env, []) == {} && SpendAll(l, []) == Ok(l);
    if r != [] {
      assert BestPaying(env, q, l, {}, r[0]);
      assert PaysNoMore(q, dear, env.txId(r[0]));
    }
  }

  // ------------------------------------------------------------------------- eviction

  /** Whatever trimming evicts pays at most the rate of whatever it keeps, ties to the higher id kept. */
  lemma EvictedPayNoMore(env: Env, q: Queue, max: nat, gone: Hash, kept: Hash)
    requires Indexed(env, q) && gone in q.entries && gone !in Trim(q, max).entries && kept in Trim(q, max).entries
    ensures kept in q.entries
    ensures var x, y := q.entries[gone], q.entries[kept];
            || x.transaction.fee * y.size < y.transaction.fee * x.size
            || (x.transaction.fee * y.size == y.transaction.fee * x.size && gone < kept)
  {
    TrimShrinks(q, max);
    TrimKeepsExactly(env, q, max, gone);
    TrimKeepsExactly(env, q, max, kept);
    OrdersAreStrict();
    hide Indexed, Trim;
    var x, y := (gone, q.entries[gone]), (kept, q.entries[kept]);
    if Lower(y, x) {
      HigherHasLessAbove(q, kept, gone);
    } else {
      OrdersAreTotal(q, gone, kept);
    }
  }

  lemma HigherHasLessAbove(q: Queue, low: Hash, high: Hash)
    requires low in q.entries && high in q.entries && Lower((low, q.entries[low]), (high, q.entries[high]))
    ensures SumMap(NotLower(q, high)) <= SumMap(NotLower(q, low))
  {
    OrdersAreStrict();
    hide Lower;
    SumMapSubset(NotLower(q, high), NotLower(q, low));
  }

  /** After expiry nothing older than the time to live is left. */
  lemma ExpiredAreGone(env: Env, policy: RelayPolicy, q: Queue, now: nat, id: Hash)
    requires Indexed(env, q) && id in ExpireAndTrim(policy, q, now).entries
    ensures id in q.entries && now <= q.entries[id].receivedAt + policy.ttlSeconds
    ensures ExpireAndTrim(policy, q, now).entries[id] == q.entries[id]
  {
    hide Indexed, Trim, RemoveEach;
    var ids := Sorted(Expired(policy, q, now));
    RemoveEachEntries(q, ids);
    TrimShrinks(RemoveEach(q, ids), policy.maxBytes);
    assert id !in Elements(ids);
    assert id !in Expired(policy, q, now);
  }

  // --------------------------------------------------------------------- replacement

  /** The fee a replacement must reach: the old fee, raised by the relay minimum and by a tenth. Short of the
      width of the counter it is the least such fee. */
  lemma ReplacementRaisesFee(policy: RelayPolicy, tx: Transaction, fee: u64)
    requires 10 * tx.fee + 99 <= U64_MAX && tx.fee + policy.minRelayFee <= U64_MAX
    ensures fee >= RequiredFee(policy, tx) <==> fee >= tx.fee + policy.minRelayFee && 10 * (fee - tx.fee) >= tx.fee
  {
    var rise := (10 * tx.fee + 99) / 100;
    assert 100 * rise <= 10 * tx.fee + 99 < 100 * (rise + 1);
  }

  /** Beyond that width the tenth saturates, and a replacement may raise the fee by less. */
  lemma SaturatedTenth()
    ensures var policy := RelayPolicy(100_000, 1_000, 0, 64, 0);
            var tx := Transaction(1, 1, 2, 1, 4_000_000_000_000_000_000, 0, [], []);
            RequiredFee(policy, tx) == 4_184_467_440_737_095_516 < tx.fee + tx.fee / 10
  {
  }

  // --------------------------------------------------------------------- relay policy

  /** Queued payments are worth relaying. */
  ghost predicate PolicyKept(policy: RelayPolicy, q: Queue) {
    forall id :: id in q.entries ==>
      q.entries[id].transaction.fee >= policy.minRelayFee && q.entries[id].transaction.amount >= policy.dustLimit
  }

  ghost predicate SubQueue(r: Queue, q: Queue) {
    forall id :: id in r.entries ==> id in q.entries && r.entries[id] == q.entries[id]
  }

  lemma ExpireShrinks(policy: RelayPolicy, q: Queue, now: nat)
    ensures SubQueue(ExpireAndTrim(policy, q, now), q)
  {
    hide Trim, RemoveEach;
    var ids := Sorted(Expired(policy, q, now));
    RemoveEachEntries(q, ids);
    TrimShrinks(RemoveEach(q, ids), policy.maxBytes);
  }

  lemma RelayedKeepsPolicy(env: Env, policy: RelayPolicy, l: Ledger, tx: Transaction)
    requires ValidateForRelay(env, policy, l, tx).Ok?
    ensures tx.fee >= policy.minRelayFee && tx.amount >= policy.dustLimit
    ensures AccountOf(l, tx.sender).nonce <= tx.nonce <= AccountOf(l, tx.sender).nonce + policy.maxNonceGap
  {
  }

  /** A transaction that enters the pool passed the policy against the ledger of its moment: its fee and amount
      reach the minimum and its nonce is at most the gap ahead. */
  lemma NewEntriesArePolicy(env: Env, policy: RelayPolicy, l: Ledger, q: Queue, tx: Transaction, now: nat, id: Hash)
    requires Indexed(env, q) && id in Accept(env, policy, q, l, tx, now).0.entries
    ensures || (id in q.entries && Accept(env, policy, q, l, tx, now).0.entries[id] == q.entries[id])
            || (&& id == env.txId(tx) && Accept(env, policy, q, l, tx, now).0.entries[id] == NewEntry(tx, now)
                && tx.fee >= policy.minRelayFee && tx.amount >= policy.dustLimit
                && AccountOf(l, tx.sender).nonce <= tx.nonce <= AccountOf(l, tx.sender).nonce + policy.maxNonceGap)
  {
    AcceptCases(env, policy, l, q, tx, now);
    AcceptedWasRelayed(env, policy, l, q, tx, now);
    var added := Add(Replaced(q, tx), env.txId(tx), NewEntry(tx, now));
    hide Accept, Indexed, ExpireAndTrim, Funded, LooksUp, ValidateForRelay, Replaces, AccountOf;
    ExpireShrinks(policy, added, now);
  }

  lemma AcceptedWasRelayed(env: Env, policy: RelayPolicy, l: Ledger, q: Queue, tx: Transaction, now: nat)
    requires Indexed(env, q)
    ensures Accept(env, policy, q, l, tx, now).0 != q ==>
              && tx.fee >= policy.minRelayFee && tx.amount >= policy.dustLimit
              && AccountOf(l, tx.sender).nonce <= tx.nonce <= AccountOf(l, tx.sender).nonce + policy.maxNonceGap
  {
    hide Indexed, ExpireAndTrim, Funded, LooksUp, ValidateForRelay, Add, Replaced, Remove, RequiredFee;
    if ValidateForRelay(env, policy, l, tx).Ok? {
      RelayedKeepsPolicy(env, policy, l, tx);
    }
  }

  /** Over any run, whatever the ledgers, no payment below the relay minimum is ever queued. */
  lemma {:induction false} RunKeepsPolicy(env: Env, policy: RelayPolicy, events: seq<QueueEvent>)
    ensures PolicyKept(policy, QueueRun(env, policy, events))
  {
    hide Accept, ExpireAndTrim, RemoveEach, Indexed;
    if events != [] {
      var q, e := QueueRun(env, policy, events[..|events| - 1]), events[|events| - 1];
      RunKeepsPolicy(env, policy, events[..|events| - 1]);
      match e {
        case AcceptEvent(tx, l, now) =>
          forall id | id in Accept(env, policy, q, l, tx, now).0.entries
            ensures Accept(env, policy, q, l, tx, now).0.entries[id].transaction.fee >= policy.minRelayFee
            ensures Accept(env, policy, q, l, tx, now).0.entries[id].transaction.amount >= policy.dustLimit
          {
            NewEntriesArePolicy(env, policy, l, q, tx, now, id);
          }
        case ExpireEvent(now) => ExpireShrinks(policy, q, now);
        case ConfirmEvent(txs) => RemoveEachEntries(q, TransactionIds(env, txs));
      }
    }
  }

  // -------------------------------------------------------------------------- funding

  predicate Queued(q: Queue, sender: Address, nonce: nat) {
    nonce <= U64_MAX && Slot(sender, nonce) in q.index
  }

  /** The index holds the `n` payments of a sender from this nonce on. */
  ghost predicate HasPayments(q: Queue, sender: Address, nonce: nat, n: nat) {
    forall k: nat :: nonce <= k < nonce + n ==> Queued(q, sender, k)
  }

  function DebitAt(q: Queue, sender: Address, nonce: nat): nat {
    if Queued(q, sender, nonce) && q.index[Slot(sender, nonce)] in q.entries
    then Debited(q.entries[q.index[Slot(sender, nonce)]].transaction) else 0
  }

  /** What those payments debit together. */
  function SumOfPayments(q: Queue, sender: Address, nonce: nat, n: nat): nat {
    if n == 0 then 0 else SumOfPayments(q, sender, nonce, n - 1) + DebitAt(q, sender, nonce + n - 1)
  }

  lemma {:induction false} SumFromFirst(q: Queue, sender: Address, nonce: nat, n: nat)
    requires n > 0
    ensures SumOfPayments(q, sender, nonce, n) == DebitAt(q, sender, nonce) + SumOfPayments(q, sender, nonce + 1, n - 1)
  {
    hide DebitAt;
    if n > 1 {
      SumFromFirst(q, sender, nonce, n - 1);
    }
  }

  /** The balance covers every stretch of consecutive payments that starts at this nonce. */
  ghost predicate CoversStretches(q: Queue, sender: Address, nonce: nat, balance: nat) {
    forall n: nat :: HasPayments(q, sender, nonce, n) ==> SumOfPayments(q, sender, nonce, n) <= balance
  }

  /** Stretches from a nonce are its payment followed by the stretches after it. */
  lemma StretchesShift(q: Queue, sender: Address, nonce: nat, balance: nat)
    ensures !Queued(q, sender, nonce) ==> CoversStretches(q, sender, nonce, balance)
    ensures Queued(q, sender, nonce) ==>
              (CoversStretches(q, sender, nonce, balance) <==>
               DebitAt(q, sender, nonce) <= balance && CoversStretches(q, sender, nonce + 1, balance - DebitAt(q, sender, nonce)))
  {
    hide DebitAt, Queued;
    assert forall n: nat :: n > 0 && HasPayments(q, sender, nonce, n) ==> Queued(q, sender, nonce);
    assert SumOfPayments(q, sender, nonce, 0) == 0 && SumOfPayments(q, sender, nonce + 1, 0) == 0;
    hide SumOfPayments;
    if Queued(q, sender, nonce) {
      var debit := DebitAt(q, sender, nonce);
      SumFromFirst(q, sender, nonce, 1);
      assert HasPayments(q, sender, nonce, 1);
      if CoversStretches(q, sender, nonce, balance) {
        var next := nonce + 1;
        forall n: nat | HasPayments(q, sender, next, n) ensures SumOfPayments(q, sender, next, n) <= balance - debit {
          assert HasPayments(q, sender, nonce, n + 1);
          SumFromFirst(q, sender, nonce, n + 1);
        }
      }
      if debit <= balance && CoversStretches(q, sender, nonce + 1, balance - debit) {
        forall n: nat | HasPayments(q, sender, nonce, n) ensures SumOfPayments(q, sender, nonce, n) <= balance {
          if n > 0 {
            assert HasPayments(q, sender, nonce + 1, n - 1);
            SumFromFirst(q, sender, nonce, n);
          }
        }
      }
    }
  }

  /** Every queued payment's debit fits the counter. */
  ghost predicate DebitsFit(q: Queue) {
    forall id :: id in q.entries ==> Debited(q.entries[id].transaction) <= U64_MAX
  }

  lemma {:induction false} FundedFromIff(q: Queue, sender: Address, nonce: u64, balance: nat)
    requires LooksUp(q) && DebitsFit(q)
    ensures FundedFrom(q, sender, nonce, balance) <==> CoversStretches(q, sender, nonce, balance)
    decreases U64_MAX - nonce
  {
    hide CoversStretches, SumOfPayments, HasPayments;
    StretchesShift(q, sender, nonce, balance);
    if Slot(sender, nonce) in q.index {
      var needed := Debited(q.entries[q.index[Slot(sender, nonce)]].transaction);
      assert DebitAt(q, sender, nonce) == needed;
      if needed <= balance {
        if nonce < U64_MAX {
          FundedFromIff(q, sender, nonce + 1, balance - needed);
        } else {
          StretchesShift(q, sender, nonce + 1, balance - needed);
        }
      }
    }
  }

  /** The meaning of the funding check of `accept`: the balance covers every stretch of consecutive queued
      payments from the account's nonce on. */
  lemma FundedIff(env: Env, q: Queue, l: Ledger, sender: Address)
    requires Indexed(env, q) && LooksUp(q)
    ensures Funded(q, l, sender) <==> CoversStretches(q, sender, AccountOf(l, sender).nonce, AccountOf(l, sender).balance)
  {
    hide CoversStretches, AccountOf;
    forall id | id in q.entries ensures Debited(q.entries[id].transaction) <= U64_MAX {
      assert EntryOk(env, q, id);
      RelayableSpends(env, q.entries[id].transaction);
    }
    hide Indexed, FundedFrom;
    FundedFromIff(q, sender, AccountOf(l, sender).nonce, AccountOf(l, sender).balance);
  }
}
