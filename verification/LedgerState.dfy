/** `LedgerState` of src/consensus/state.rs: accounts, pending rewards and the cached tree, updated in
    place. Every method is proved against the value-level operation of module State, and the tree
    root is the root of the value at all times. */
module LedgerMachine {
  import opened Base
  import opened Params
  import opened Bytes
  import opened SparseMerkle
  import opened Types
  import opened State

  class LedgerState {
    const env: Env
    const tree: SparseMerkleTree
    var accounts: map<Address, Account>
    var pending: map<Due, u64>

    function View(): Ledger
      reads this
    {
      Ledger(accounts, pending)
    }

    ghost predicate Valid()
      reads this, tree
    {
      && KeysFit(env) && KeysInjective(env)
      && tree.Valid() && tree.h == env.tree
      && Committed(env, View(), tree.values)
    }

    constructor (env: Env)
      requires KeysFit(env) && KeysInjective(env)
      ensures Valid() && fresh(tree) && this.env == env
      ensures View() == EMPTY_LEDGER
    {
      hide Committed, KeysInjective, KeysFit, SparseMerkleTree.Valid;
      CommittedEmpty(env);
      this.env := env;
      accounts := map[];
      pending := map[];
      tree := new SparseMerkleTree(env.tree);
    }

    constructor Clone(other: LedgerState)
      requires other.Valid()
      ensures Valid() && fresh(tree) && env == other.env
      ensures View() == other.View()
    {
      hide Committed, KeysInjective, KeysFit, SparseMerkleTree.Valid;
      env := other.env;
      accounts := other.accounts;
      pending := other.pending;
      tree := new SparseMerkleTree.Clone(other.tree);
    }

    /** The cached root is the recursive hash of the whole ledger. */
    method Root() returns (root: Hash)
      requires Valid()
      ensures root == LedgerRoot(env, View())
    {
      root := tree.Root();
      CommittedRoot(env, View(), tree.values);
    }

    method WriteAccount(a: Address, account: Account)
      requires Valid()
      modifies this, tree
      ensures Valid()
      ensures View() == SetAccount(old(View()), a, account)
    {
      hide Committed, KeysInjective, EncodeAccount, SparseMerkleTree.Valid;
      CommitAccount(env, View(), tree.values, a, account);
      var key := env.stateKey(AccountKey(a));
      if account == NO_ACCOUNT {
        accounts := accounts - {a};
        tree.Update(key, None);
      } else {
        accounts := accounts[a := account];
        tree.Update(key, Some(EncodeAccount(account)));
      }
    }

    method CreditAccount(a: Address, amount: nat) returns (r: Result<(), ConsensusError>)
      requires Valid()
      modifies this, tree
      ensures Valid()
      ensures r.Ok? <==> Credit(old(View()), a, amount).Ok?
      ensures r.Ok? ==> View() == Credit(old(View()), a, amount).value
      ensures r.Err? ==> View() == old(View()) && r.error == Credit(old(View()), a, amount).error
    {
      hide Committed, KeysInjective, KeysFit, SparseMerkleTree.Valid;
      var account := AccountOf(View(), a);
      if account.balance + amount > MAX_MONEY {
        return Err(MoneyRange);
      }
      WriteAccount(a, account.(balance := account.balance + amount));
      return Ok(());
    }

    method DebitAccount(a: Address, amount: u64) returns (r: Result<(), ConsensusError>)
      requires Valid()
      modifies this, tree
      ensures Valid()
      ensures r.Ok? <==> Debit(old(View()), a, amount).Ok?
      ensures r.Ok? ==> View() == Debit(old(View()), a, amount).value
      ensures r.Err? ==> View() == old(View()) && r.error == Debit(old(View()), a, amount).error
    {
      hide Committed, KeysInjective, KeysFit, SparseMerkleTree.Valid;
      var account := AccountOf(View(), a);
      if account.balance < amount {
        return Err(InsufficientBalance);
      }
      WriteAccount(a, account.(balance := account.balance - amount));
      return Ok(());
    }

    method WriteNonce(a: Address, nonce: u64)
      requires Valid()
      modifies this, tree
      ensures Valid()
      ensures View() == SetNonce(old(View()), a, nonce)
    {
      WriteAccount(a, AccountOf(View(), a).(nonce := nonce));
    }

    method Schedule(maturity: u64, recipient: Address, amount: nat) returns (r: Result<(), ConsensusError>)
      requires Valid()
      modifies this, tree
      ensures Valid()
      ensures r.Ok? <==> ScheduleReward(old(View()), maturity, recipient, amount).Ok?
      ensures r.Ok? ==> View() == ScheduleReward(old(View()), maturity, recipient, amount).value
      ensures r.Err? ==> View() == old(View()) && r.error == ScheduleReward(old(View()), maturity, recipient, amount).error
    {
      hide Committed, KeysInjective, EncodePending, SparseMerkleTree.Valid;
      if amount == 0 {
        return Ok(());
      }
      var d := Due(maturity, recipient);
      var next := PendingOf(View(), d) + amount;
      if next > MAX_MONEY {
        return Err(MoneyRange);
      }
      CommitPending(env, View(), tree.values, d, next);
      pending := pending[d := next];
      tree.Update(env.stateKey(PendingKey(maturity, recipient)), Some(EncodePending(env.checksum, d, next)));
      return Ok(());
    }

    method RemovePending(d: Due)
      requires Valid()
      modifies this, tree
      ensures Valid()
      ensures View() == old(View()).(pending := old(pending) - {d})
    {
      hide Committed, KeysInjective, SparseMerkleTree.Valid;
      CommitRemoval(env, View(), tree.values, d);
      pending := pending - {d};
      tree.Update(env.stateKey(PendingKey(d.maturity, d.recipient)), None);
    }

    /** One turn of the loop of `mature`. */
    method PayOne(height: u64, a: Address, amount: nat) returns (r: Result<(), ConsensusError>)
      requires Valid()
      modifies this, tree
      ensures Valid()
      ensures var next := Credit(old(View()).(pending := old(pending) - {Due(height, a)}), a, amount);
              (r.Ok? ==> next == Ok(View())) && (r.Err? ==> next == Err(r.error))
    {
      hide LedgerState.Valid, Credit;
      RemovePending(Due(height, a));
      r := CreditAccount(a, amount);
    }

    /** `mature`: collect the due entries first, then remove and credit them in address order. */
    method MatureAt(height: u64) returns (r: Result<seq<(Address, u64)>, ConsensusError>)
      requires Valid()
      modifies this, tree
      ensures Valid()
      ensures r.Ok? ==> Mature(old(View()), height) == Ok(View())
      ensures r.Err? ==> Mature(old(View()), height) == Err(r.error)
      ensures r.Ok? ==> r.value == MaturedList(old(View()), height)
    {
      hide LedgerState.Valid, Credit, MatureEach, InAddressOrder, Matured, MaturedList;
      ghost var l := View();
      var recipients := InAddressOrder(Matured(View(), height));
      var matured := MaturedList(View(), height);
      MatureNone(l, height);
      assert recipients[..0] == [];
      for i := 0 to |matured|
        invariant Valid()
        invariant MatureEach(l, height, recipients[..i]) == Ok(View())
      {
        MatureStep(l, View(), height, recipients, i);
        FirstFailureDecides(l, height, recipients, i + 1);
        var paid := PayOne(height, matured[i].0, matured[i].1);
        if paid.Err? {
          return Err(paid.error);
        }
      }
      assert recipients[..|recipients|] == recipients;
      return Ok(matured);
    }
  }

  /** The due entries in address order, with their amounts. */
  function MaturedList(l: Ledger, height: u64): (m: seq<(Address, u64)>)
    ensures |m| == |InAddressOrder(Matured(l, height))|
    ensures forall i :: 0 <= i < |m| ==>
              m[i].0 == InAddressOrder(Matured(l, height))[i] && m[i].1 == PendingOf(l, Due(height, m[i].0))
  {
    var recipients := InAddressOrder(Matured(l, height));
    seq(|recipients|, i requires 0 <= i < |recipients| => (recipients[i], PendingOf(l, Due(height, recipients[i]))))
  }

  lemma MatureNone(l: Ledger, height: u64)
    ensures MatureEach(l, height, []) == Ok(l)
  {
  }

  lemma MatureStep(l: Ledger, paid: Ledger, height: u64, recipients: seq<Address>, i: nat)
    requires i < |recipients| && MatureEach(l, height, recipients[..i]) == Ok(paid)
    ensures MatureEach(l, height, recipients[..i + 1])
         == Credit(paid.(pending := paid.pending - {Due(height, recipients[i])}), recipients[i], PendingOf(l, Due(height, recipients[i])))
  {
    hide Credit;
    assert recipients[..i + 1][..i] == recipients[..i];
  }

  lemma {:induction false} FirstFailureDecides(l: Ledger, height: u64, recipients: seq<Address>, n: nat)
    requires n <= |recipients|
    ensures MatureEach(l, height, recipients[..n]).Err? ==> MatureEach(l, height, recipients) == MatureEach(l, height, recipients[..n])
    decreases |recipients| - n
  {
    if n == |recipients| {
      assert recipients[..n] == recipients;
    } else {
      assert recipients[..n + 1][..n] == recipients[..n];
      FirstFailureDecides(l, height, recipients, n + 1);
    }
  }
}
