/** The account ledger of src/consensus/state.rs: the operations on values, what they conserve,
    and the mutable `LedgerState` whose cached tree follows them. */
module State {
  import opened Base
  import opened Params
  import opened Bytes
  import opened SparseMerkle
  import opened Types

  datatype Account = Account(balance: u64, nonce: u64)

  const NO_ACCOUNT := Account(0, 0)

  /** Key of a pending reward; the source orders these pairs by maturity, then address. */
  datatype Due = Due(maturity: u64, recipient: Address)

  datatype Ledger = Ledger(accounts: map<Address, Account>, pending: map<Due, u64>)

  const EMPTY_LEDGER := Ledger(map[], map[])

  const ADDRESS_MIN: Address := 0
  const ADDRESS_MAX: Address := 0xffff_ffff_ffff_ffff_ffff_ffff_ffff_ffff_ffff_ffff

  // --------------------------------------------------------------------- operations

  function AccountOf(l: Ledger, a: Address): Account {
    if a in l.accounts then l.accounts[a] else NO_ACCOUNT
  }

  function PendingOf(l: Ledger, d: Due): u64 {
    if d in l.pending then l.pending[d] else 0
  }

  function SetAccount(l: Ledger, a: Address, account: Account): Ledger {
    if account == NO_ACCOUNT then l.(accounts := l.accounts - {a})
    else l.(accounts := l.accounts[a := account])
  }

  function Credit(l: Ledger, a: Address, amount: nat): Result<Ledger, ConsensusError> {
    var account := AccountOf(l, a);
    if account.balance + amount > MAX_MONEY then Err(MoneyRange)
    else Ok(SetAccount(l, a, account.(balance := account.balance + amount)))
  }

  function Debit(l: Ledger, a: Address, amount: u64): Result<Ledger, ConsensusError> {
    var account := AccountOf(l, a);
    if account.balance < amount then Err(InsufficientBalance)
    else Ok(SetAccount(l, a, account.(balance := account.balance - amount)))
  }

  function SetNonce(l: Ledger, a: Address, nonce: u64): Ledger {
    SetAccount(l, a, AccountOf(l, a).(nonce := nonce))
  }

  function ScheduleReward(l: Ledger, maturity: u64, recipient: Address, amount: nat): Result<Ledger, ConsensusError> {
    var d := Due(maturity, recipient);
    if amount == 0 then Ok(l)
    else if PendingOf(l, d) + amount > MAX_MONEY then Err(MoneyRange)
    else Ok(l.(pending := l.pending[d := PendingOf(l, d) + amount]))
  }

  /** The recipients the range scan from the least to the greatest address finds at `height`. */
  function Matured(l: Ledger, height: u64): set<Address> {
    set d | d in l.pending && d.maturity == height && ADDRESS_MIN <= d.recipient <= ADDRESS_MAX :: d.recipient
  }

  /** Pay the listed recipients in turn; each entry is removed before it is credited. */
  function MatureEach(l: Ledger, height: u64, recipients: seq<Address>): Result<Ledger, ConsensusError> {
    if recipients == [] then Ok(l)
    else
      var paid :- MatureEach(l, height, recipients[..|recipients| - 1]);
      var a := recipients[|recipients| - 1];
      Credit(paid.(pending := paid.pending - {Due(height, a)}), a, PendingOf(l, Due(height, a)))
  }

  function InAddressOrder(s: set<Address>): (r: seq<Address>)
    ensures r == Sorted(s)
  {
    var r := Sorted(s);
    assert forall i :: 0 <= i < |r| ==> r[i] in s;
    r
  }

  function Mature(l: Ledger, height: u64): Result<Ledger, ConsensusError> {
    MatureEach(l, height, InAddressOrder(Matured(l, height)))
  }

  // ------------------------------------------------------------------- conservation

  ghost function Balances(l: Ledger): map<Address, nat> {
    map a | a in l.accounts :: l.accounts[a].balance as nat
  }

  ghost function BalanceTotal(l: Ledger): nat {
    SumMap(Balances(l))
  }

  ghost function PendingTotal(l: Ledger): nat {
    SumMap(l.pending)
  }

  /** All the money there is: spendable and immature. */
  ghost function Total(l: Ledger): nat {
    BalanceTotal(l) + PendingTotal(l)
  }

  lemma SetAccountTotal(l: Ledger, a: Address, account: Account)
    ensures BalanceTotal(SetAccount(l, a, account)) + AccountOf(l, a).balance == BalanceTotal(l) + account.balance
    ensures PendingTotal(SetAccount(l, a, account)) == PendingTotal(l)
  {
    var b := Balances(l);
    SumMapUpdate(b, a, account.balance);
    var after := Balances(SetAccount(l, a, account));
    if account == NO_ACCOUNT {
      assert after == b - {a};
    } else {
      assert after == b[a := account.balance];
    }
  }

  lemma PendingRemoveTotal(l: Ledger, d: Due)
    ensures PendingTotal(l.(pending := l.pending - {d})) + PendingOf(l, d) == PendingTotal(l)
  {
    SumMapUpdate(l.pending, d, 0);
  }

  lemma CreditTotal(l: Ledger, a: Address, amount: nat)
    requires Credit(l, a, amount).Ok?
    ensures BalanceTotal(Credit(l, a, amount).value) == BalanceTotal(l) + amount
    ensures PendingTotal(Credit(l, a, amount).value) == PendingTotal(l)
  {
    var account := AccountOf(l, a);
    SetAccountTotal(l, a, account.(balance := account.balance + amount));
  }

  lemma DebitTotal(l: Ledger, a: Address, amount: u64)
    requires Debit(l, a, amount).Ok?
    ensures BalanceTotal(Debit(l, a, amount).value) + amount == BalanceTotal(l)
    ensures PendingTotal(Debit(l, a, amount).value) == PendingTotal(l)
  {
    var account := AccountOf(l, a);
    SetAccountTotal(l, a, account.(balance := account.balance - amount));
  }

  lemma ScheduleTotal(l: Ledger, maturity: u64, recipient: Address, amount: nat)
    requires ScheduleReward(l, maturity, recipient, amount).Ok?
    ensures Total(ScheduleReward(l, maturity, recipient, amount).value) == Total(l) + amount
  {
    var d := Due(maturity, recipient);
    SumMapUpdate(l.pending, d, PendingOf(l, d) + amount);
  }

  lemma BalanceBelowTotal(l: Ledger, a: Address)
    ensures AccountOf(l, a).balance <= BalanceTotal(l)
  {
    if a in l.accounts {
      SumMapMember(Balances(l), a);
    }
  }

  // ----------------------------------------------------------------------- maturing

  predicate DistinctAddresses(s: seq<Address>) {
    forall i, j :: 0 <= i < j < |s| ==> s[i] != s[j]
  }

  /** Maturing moves each due amount from pending to its recipient, once, and nothing else. */
  ghost predicate Moved(l: Ledger, m: Ledger, height: u64, recipients: seq<Address>) {
    && (forall a: Address :: AccountOf(m, a).nonce == AccountOf(l, a).nonce)
    && (forall a: Address :: AccountOf(m, a).balance
          == AccountOf(l, a).balance + if a in recipients then PendingOf(l, Due(height, a)) else 0)
    && (forall d :: d in m.pending <==> d in l.pending && !(d.maturity == height && d.recipient in recipients))
    && (forall d :: d in m.pending ==> m.pending[d] == l.pending[d])
    && Total(m) == Total(l)
  }

  lemma MovedAccounts(l: Ledger, paid: Ledger, removed: Ledger, height: u64, front: seq<Address>, a: Address)
    requires Moved(l, paid, height, front) && a !in front && removed.accounts == paid.accounts
    requires Credit(removed, a, PendingOf(l, Due(height, a))).Ok?
    ensures var after := Credit(removed, a, PendingOf(l, Due(height, a))).value;
            && after.pending == removed.pending
            && (forall b: Address :: AccountOf(after, b).nonce == AccountOf(l, b).nonce)
            && (forall b: Address :: AccountOf(after, b).balance
                  == AccountOf(l, b).balance + if b in front + [a] then PendingOf(l, Due(height, b)) else 0)
  {
    hide Total;
    var after := Credit(removed, a, PendingOf(l, Due(height, a))).value;
    forall b: Address ensures AccountOf(after, b).nonce == AccountOf(l, b).nonce
                      ensures AccountOf(after, b).balance
                           == AccountOf(l, b).balance + if b in front + [a] then PendingOf(l, Due(height, b)) else 0 {
      assert AccountOf(removed, b) == AccountOf(paid, b);
      assert b in front + [a] <==> b in front || b == a;
    }
  }

  lemma MovedOneMore(l: Ledger, paid: Ledger, height: u64, front: seq<Address>, a: Address)
    requires Moved(l, paid, height, front) && a !in front
    requires Credit(paid.(pending := paid.pending - {Due(height, a)}), a, PendingOf(l, Due(height, a))).Ok?
    ensures Moved(l, Credit(paid.(pending := paid.pending - {Due(height, a)}), a, PendingOf(l, Due(height, a))).value,
                  height, front + [a])
  {
    var d := Due(height, a);
    assert PendingOf(paid, d) == PendingOf(l, d);
    PendingRemoveTotal(paid, d);
    var removed := paid.(pending := paid.pending - {d});
    assert Balances(removed) == Balances(paid);
    CreditTotal(removed, a, PendingOf(l, d));
    MovedAccounts(l, paid, removed, height, front, a);
    hide Credit, AccountOf, Balances, SumMap;
  }

  lemma {:induction false} MatureEachMoves(l: Ledger, height: u64, recipients: seq<Address>)
    requires DistinctAddresses(recipients)
    requires MatureEach(l, height, recipients).Ok?
    ensures Moved(l, MatureEach(l, height, recipients).value, height, recipients)
  {
    if recipients != [] {
      var front, a := recipients[..|recipients| - 1], recipients[|recipients| - 1];
      MatureEachMoves(l, height, front);
      MovedOneMore(l, MatureEach(l, height, front).value, height, front, a);
      assert recipients == front + [a];
    }
  }

  /** The whole of `mature`: every entry due at `height` is paid out, and only those. */
  lemma MatureMoves(l: Ledger, height: u64)
    requires Mature(l, height).Ok?
    ensures var m := Mature(l, height).value;
            && (forall a: Address :: AccountOf(m, a).nonce == AccountOf(l, a).nonce)
            && (forall a: Address :: AccountOf(m, a).balance == AccountOf(l, a).balance + PendingOf(l, Due(height, a)))
            && (forall d :: d in m.pending <==> d in l.pending && d.maturity != height)
            && (forall d :: d in m.pending ==> m.pending[d] == l.pending[d])
            && Total(m) == Total(l)
  {
    var recipients := InAddressOrder(Matured(l, height));
    MatureEachMoves(l, height, recipients);
    forall d | d in l.pending && d.maturity == height ensures d.recipient in recipients {
      assert d.recipient in Matured(l, height);
    }
    forall a: Address | a !in recipients ensures PendingOf(l, Due(height, a)) == 0 {
      assert a !in Matured(l, height);
      assert Due(height, a) !in l.pending;
    }
  }

  /** With at most MAX_MONEY in existence maturing cannot fail. */
  lemma {:induction false} MatureEachSucceeds(l: Ledger, height: u64, recipients: seq<Address>)
    requires DistinctAddresses(recipients)
    requires Total(l) <= MAX_MONEY
    ensures MatureEach(l, height, recipients).Ok?
  {
    if recipients != [] {
      var front, a := recipients[..|recipients| - 1], recipients[|recipients| - 1];
      MatureEachSucceeds(l, height, front);
      MatureEachMoves(l, height, front);
      var paid := MatureEach(l, height, front).value;
      var d := Due(height, a);
      assert a !in front;
      PendingRemoveTotal(paid, d);
      BalanceBelowTotal(paid, a);
    }
  }

  // ------------------------------------------------------------------- normal form

  /** No stored account is the default one, no stored reward is zero, all balances in range. */
  ghost predicate Normal(l: Ledger) {
    && (forall a :: a in l.accounts ==> l.accounts[a] != NO_ACCOUNT && l.accounts[a].balance <= MAX_MONEY)
    && (forall d :: d in l.pending ==> 0 < l.pending[d] <= MAX_MONEY)
  }

  lemma {:induction false} MatureEachNormal(l: Ledger, height: u64, recipients: seq<Address>)
    requires Normal(l) && MatureEach(l, height, recipients).Ok?
    ensures Normal(MatureEach(l, height, recipients).value)
  {
    if recipients != [] {
      MatureEachNormal(l, height, recipients[..|recipients| - 1]);
    }
  }

  // --------------------------------------------------------------------- commitment

  function EncodeAccount(account: Account): bytes {
    LE(account.balance, 8) + LE(account.nonce, 8)
  }

  function EncodePending(checksum: Checksum, d: Due, amount: u64): bytes {
    LE(d.maturity, 8) + AddressBytes(checksum, d.recipient) + LE(amount, 8)
  }

  /** What the ledger commits to, by state key. */
  function Contents(env: Env, l: Ledger): map<StateKey, bytes> {
    AccountContents(l) + PendingContents(env, l)
  }

  function AccountContents(l: Ledger): map<StateKey, bytes> {
    map a | a in l.accounts :: AccountKey(a) := EncodeAccount(l.accounts[a])
  }

  function PendingContents(env: Env, l: Ledger): map<StateKey, bytes> {
    map d | d in l.pending :: PendingKey(d.maturity, d.recipient) := EncodePending(env.checksum, d, l.pending[d])
  }

  ghost predicate KeysInjective(env: Env) {
    forall k, j :: env.stateKey(k) == env.stateKey(j) ==> k == j
  }

  /** The tree's value map holds exactly the contents, under hashed keys. */
  ghost predicate Represents(env: Env, contents: map<StateKey, bytes>, values: Values) {
    && (forall k :: k in contents ==> env.stateKey(k) in values && values[env.stateKey(k)] == contents[k])
    && (forall v :: v in values ==> exists k :: k in contents && env.stateKey(k) == v)
  }

  lemma RepresentsPut(env: Env, contents: map<StateKey, bytes>, values: Values, k: StateKey, value: bytes)
    requires KeysInjective(env) && Represents(env, contents, values)
    ensures Represents(env, contents[k := value], values[env.stateKey(k) := value])
  {
    var values' := values[env.stateKey(k) := value];
    var contents' := contents[k := value];
    forall v | v in values' ensures exists j :: j in contents' && env.stateKey(j) == v {
      if v == env.stateKey(k) {
        assert k in contents';
      } else {
        var j :| j in contents && env.stateKey(j) == v;
        assert j in contents';
      }
    }
  }

  lemma RepresentsRemove(env: Env, contents: map<StateKey, bytes>, values: Values, k: StateKey)
    requires KeysInjective(env) && Represents(env, contents, values)
    ensures Represents(env, contents - {k}, values - {env.stateKey(k)})
  {
    var values' := values - {env.stateKey(k)};
    var contents' := contents - {k};
    forall v | v in values' ensures exists j :: j in contents' && env.stateKey(j) == v {
      var j :| j in contents && env.stateKey(j) == v;
      assert j in contents';
    }
  }

  lemma RepresentsUnique(env: Env, contents: map<StateKey, bytes>, v: Values, w: Values)
    requires Represents(env, contents, v) && Represents(env, contents, w)
    ensures v == w
  {
    forall key | key in v ensures key in w && v[key] == w[key] {
      var k :| k in contents && env.stateKey(k) == key;
    }
    forall key | key in w ensures key in v && v[key] == w[key] {
      var k :| k in contents && env.stateKey(k) == key;
    }
  }

  /** The hashed value map of a ledger. */
  ghost function ValuesOf(env: Env, contents: map<StateKey, bytes>): Values {
    map key | key in HashedKeys(env, contents) :: contents[Preimage(env, contents, key)]
  }

  ghost function HashedKeys(env: Env, contents: map<StateKey, bytes>): set<Key> {
    set k | k in contents :: env.stateKey(k)
  }

  ghost function Preimage(env: Env, contents: map<StateKey, bytes>, key: Key): (k: StateKey)
    requires key in HashedKeys(env, contents)
    ensures k in contents && env.stateKey(k) == key
  {
    var k :| k in contents && env.stateKey(k) == key;
    k
  }

  lemma ValuesRepresent(env: Env, contents: map<StateKey, bytes>)
    requires KeysInjective(env)
    ensures Represents(env, contents, ValuesOf(env, contents))
  {
    forall k | k in contents ensures env.stateKey(k) in ValuesOf(env, contents) {
      assert env.stateKey(k) in HashedKeys(env, contents);
    }
  }

  ghost function LedgerRoot(env: Env, l: Ledger): Hash {
    RootOf(env.tree, ValuesOf(env, Contents(env, l)))
  }

  /** A tree value map holding exactly this ledger. */
  ghost predicate Committed(env: Env, l: Ledger, values: Values) {
    Represents(env, Contents(env, l), values)
  }

  /** Contents, read back key by key. */
  function ContentAt(env: Env, l: Ledger, k: StateKey): Option<bytes> {
    match k
    case AccountKey(a) => if a in l.accounts then Some(EncodeAccount(l.accounts[a])) else None
    case PendingKey(m, r) =>
      if Due(m, r) in l.pending then Some(EncodePending(env.checksum, Due(m, r), l.pending[Due(m, r)])) else None
  }

  lemma AccountContentsAt(l: Ledger, k: StateKey)
    ensures k in AccountContents(l) <==> k.AccountKey? && k.address in l.accounts
    ensures k in AccountContents(l) ==> AccountContents(l)[k] == EncodeAccount(l.accounts[k.address])
  {
    hide EncodeAccount;
  }

  lemma PendingContentsAt(env: Env, l: Ledger, k: StateKey)
    ensures k in PendingContents(env, l) <==> k.PendingKey? && Due(k.maturity, k.recipient) in l.pending
    ensures k in PendingContents(env, l) ==>
              PendingContents(env, l)[k] == EncodePending(env.checksum, Due(k.maturity, k.recipient), l.pending[Due(k.maturity, k.recipient)])
  {
    hide EncodePending;
  }

  lemma ContentsAt(env: Env, l: Ledger, k: StateKey)
    ensures ContentAt(env, l, k) == if k in Contents(env, l) then Some(Contents(env, l)[k]) else None
  {
    hide EncodeAccount, EncodePending, AccountContents, PendingContents;
    AccountContentsAt(l, k);
    PendingContentsAt(env, l, k);
  }

  lemma ContentsWithAccount(env: Env, l: Ledger, a: Address, account: Account)
    ensures Contents(env, SetAccount(l, a, account))
         == if account == NO_ACCOUNT then Contents(env, l) - {AccountKey(a)}
            else Contents(env, l)[AccountKey(a) := EncodeAccount(account)]
  {
    hide EncodeAccount, EncodePending, Contents;
    forall k ensures ContentAt(env, l, k) == if k in Contents(env, l) then Some(Contents(env, l)[k]) else None
             ensures ContentAt(env, SetAccount(l, a, account), k)
                  == if k in Contents(env, SetAccount(l, a, account)) then Some(Contents(env, SetAccount(l, a, account))[k]) else None {
      ContentsAt(env, l, k);
      ContentsAt(env, SetAccount(l, a, account), k);
    }
  }

  lemma ContentsWithPending(env: Env, l: Ledger, d: Due, amount: u64)
    ensures Contents(env, l.(pending := l.pending[d := amount]))
         == Contents(env, l)[PendingKey(d.maturity, d.recipient) := EncodePending(env.checksum, d, amount)]
  {
    hide EncodeAccount, EncodePending, Contents;
    var m := l.(pending := l.pending[d := amount]);
    forall k ensures ContentAt(env, l, k) == if k in Contents(env, l) then Some(Contents(env, l)[k]) else None
             ensures ContentAt(env, m, k) == if k in Contents(env, m) then Some(Contents(env, m)[k]) else None {
      ContentsAt(env, l, k);
      ContentsAt(env, m, k);
    }
  }

  lemma ContentsWithoutPending(env: Env, l: Ledger, d: Due)
    ensures Contents(env, l.(pending := l.pending - {d})) == Contents(env, l) - {PendingKey(d.maturity, d.recipient)}
  {
    hide EncodeAccount, EncodePending, Contents;
    var m := l.(pending := l.pending - {d});
    forall k ensures ContentAt(env, l, k) == if k in Contents(env, l) then Some(Contents(env, l)[k]) else None
             ensures ContentAt(env, m, k) == if k in Contents(env, m) then Some(Contents(env, m)[k]) else None {
      ContentsAt(env, l, k);
      ContentsAt(env, m, k);
    }
  }

  lemma CommitAccount(env: Env, l: Ledger, values: Values, a: Address, account: Account)
    requires KeysInjective(env) && Committed(env, l, values)
    ensures Committed(env, SetAccount(l, a, account),
                      Put(values, env.stateKey(AccountKey(a)), if account == NO_ACCOUNT then None else Some(EncodeAccount(account))))
  {
    hide Contents, Represents, KeysInjective, SetAccount;
    ContentsWithAccount(env, l, a, account);
    if account == NO_ACCOUNT {
      RepresentsRemove(env, Contents(env, l), values, AccountKey(a));
    } else {
      RepresentsPut(env, Contents(env, l), values, AccountKey(a), EncodeAccount(account));
    }
  }

  lemma CommitPending(env: Env, l: Ledger, values: Values, d: Due, amount: u64)
    requires KeysInjective(env) && Committed(env, l, values)
    ensures Committed(env, l.(pending := l.pending[d := amount]),
                      Put(values, env.stateKey(PendingKey(d.maturity, d.recipient)), Some(EncodePending(env.checksum, d, amount))))
  {
    hide Contents, Represents, KeysInjective;
    ContentsWithPending(env, l, d, amount);
    RepresentsPut(env, Contents(env, l), values, PendingKey(d.maturity, d.recipient), EncodePending(env.checksum, d, amount));
  }

  lemma CommitRemoval(env: Env, l: Ledger, values: Values, d: Due)
    requires KeysInjective(env) && Committed(env, l, values)
    ensures Committed(env, l.(pending := l.pending - {d}),
                      Put(values, env.stateKey(PendingKey(d.maturity, d.recipient)), None))
  {
    hide Contents, Represents, KeysInjective;
    ContentsWithoutPending(env, l, d);
    RepresentsRemove(env, Contents(env, l), values, PendingKey(d.maturity, d.recipient));
  }

  lemma CommittedEmpty(env: Env)
    ensures Committed(env, EMPTY_LEDGER, map[])
  {
    assert Contents(env, EMPTY_LEDGER) == map[];
  }

  lemma CommittedRoot(env: Env, l: Ledger, values: Values)
    requires KeysInjective(env) && Committed(env, l, values)
    ensures RootOf(env.tree, values) == LedgerRoot(env, l)
  {
    var c := Contents(env, l);
    ValuesRepresent(env, c);
    RepresentsUnique(env, c, values, ValuesOf(env, c));
  }

  lemma EncodeAccountInjective(x: Account, y: Account)
    requires EncodeAccount(x) == EncodeAccount(y)
    ensures x == y
  {
    Widths();
    assert EncodeAccount(x)[..8] == LE(x.balance, 8) && EncodeAccount(x)[8..] == LE(x.nonce, 8);
    assert EncodeAccount(y)[..8] == LE(y.balance, 8) && EncodeAccount(y)[8..] == LE(y.nonce, 8);
    LEInjective(x.balance, y.balance, 8);
    LEInjective(x.nonce, y.nonce, 8);
  }

  lemma EncodePendingInjective(checksum: Checksum, d: Due, x: u64, y: u64)
    requires EncodePending(checksum, d, x) == EncodePending(checksum, d, y)
    ensures x == y
  {
    Widths();
    assert EncodePending(checksum, d, x)[33..] == LE(x, 8);
    assert EncodePending(checksum, d, y)[33..] == LE(y, 8);
    LEInjective(x, y, 8);
  }

  lemma ContentsDetermine(env: Env, l: Ledger, m: Ledger)
    requires Contents(env, l) == Contents(env, m)
    ensures l == m
  {
    hide Contents, EncodeAccount, EncodePending;
    forall a: Address ensures a in l.accounts <==> a in m.accounts
                      ensures a in l.accounts ==> l.accounts[a] == m.accounts[a] {
      ContentsAt(env, l, AccountKey(a));
      ContentsAt(env, m, AccountKey(a));
      if a in l.accounts {
        EncodeAccountInjective(l.accounts[a], m.accounts[a]);
      }
    }
    assert l.accounts == m.accounts;
    forall d: Due ensures d in l.pending <==> d in m.pending
                  ensures d in l.pending ==> l.pending[d] == m.pending[d] {
      ContentsAt(env, l, PendingKey(d.maturity, d.recipient));
      ContentsAt(env, m, PendingKey(d.maturity, d.recipient));
      if d in l.pending {
        EncodePendingInjective(env.checksum, d, l.pending[d], m.pending[d]);
      }
    }
    assert l.pending == m.pending;
  }

  lemma ContentsStorable(env: Env, l: Ledger)
    requires KeysFit(env) && KeysInjective(env)
    ensures Storable(env.tree, ValuesOf(env, Contents(env, l)))
  {
    ValuesRepresent(env, Contents(env, l));
  }

  /** With collision-free hashing, the state root determines every account and every pending reward. */
  lemma LedgerRootDetermines(env: Env, l: Ledger, m: Ledger)
    requires KeysFit(env) && KeysInjective(env) && CollisionFree(env.tree)
    requires LedgerRoot(env, l) == LedgerRoot(env, m)
    ensures l == m
  {
    var c, e := Contents(env, l), Contents(env, m);
    ValuesRepresent(env, c);
    ValuesRepresent(env, e);
    ContentsStorable(env, l);
    ContentsStorable(env, m);
    RootDetermines(env.tree, ValuesOf(env, c), ValuesOf(env, e));
    SameValuesSameContents(env, c, e, ValuesOf(env, c));
    ContentsDetermine(env, l, m);
  }

  lemma SameValuesSameContents(env: Env, c: map<StateKey, bytes>, e: map<StateKey, bytes>, values: Values)
    requires KeysInjective(env) && Represents(env, c, values) && Represents(env, e, values)
    ensures c == e
  {
    forall k | k in c ensures k in e && c[k] == e[k] {
      var j :| j in e && env.stateKey(j) == env.stateKey(k);
    }
    forall k | k in e ensures k in c {
      var j :| j in c && env.stateKey(j) == env.stateKey(k);
    }
  }
}
