/** The ledger snapshot of src/consensus/state.rs: entries strictly sorted by key, in range, and
    followed by the root they must have. */
module Snapshot {
  import opened Base
  import opened Params
  import opened Bytes
  import opened SparseMerkle
  import opened Types
  import opened State
  import opened LedgerMachine
  import opened Codec
  import opened Encoding
  import opened ObjectCodec

  // ----------------------------------------------------- maps listed in key order

  /** The entries in strictly increasing order of rank. */
  ghost predicate InOrder<K(!new), V>(rank: K -> nat, xs: seq<(K, V)>) {
    forall i: nat, j: nat :: i < j < |xs| ==> rank(xs[i].0) < rank(xs[j].0)
  }

  ghost predicate Injective<K(!new)>(rank: K -> nat) {
    forall j, k :: rank(j) == rank(k) ==> j == k
  }

  function Insert<K, V>(m: map<K, V>, xs: seq<(K, V)>): map<K, V>
    decreases |xs|
  {
    if xs == [] then m else Insert(m[xs[0].0 := xs[0].1], xs[1..])
  }

  lemma HasLeastKey<K, V>(rank: K -> nat, m: map<K, V>)
    requires m != map[]
    ensures exists k :: k in m && forall j :: j in m ==> rank(k) <= rank(j)
  {
    var ranks := set k | k in m :: rank(k);
    var any :| any in m;
    assert rank(any) in ranks;
    var low := Least(ranks);
    var k :| k in m && rank(k) == low;
    assert forall j :: j in m ==> rank(j) in ranks;
  }

  /** The iteration order of a `BTreeMap`. */
  ghost function Listing<K, V>(rank: K -> nat, m: map<K, V>): (xs: seq<(K, V)>)
    ensures |xs| == |m|
    ensures forall i :: 0 <= i < |xs| ==> xs[i].0 in m && m[xs[i].0] == xs[i].1
    decreases |m|
  {
    if m == map[] then []
    else
      HasLeastKey(rank, m);
      var k :| k in m && forall j :: j in m ==> rank(k) <= rank(j);
      assert (m - {k}).Keys == m.Keys - {k};
      [(k, m[k])] + Listing(rank, m - {k})
  }

  ghost predicate After<K(!new), V>(rank: K -> nat, previous: Option<K>, xs: seq<(K, V)>) {
    InOrder(rank, xs) && (previous.Some? && xs != [] ==> rank(previous.value) < rank(xs[0].0))
  }

  lemma AfterNone<K(!new), V>(rank: K -> nat, previous: Option<K>)
    ensures After<K, V>(rank, previous, [])
  {
  }

  lemma AfterCons<K(!new), V>(rank: K -> nat, previous: Option<K>, x: (K, V), xs: seq<(K, V)>)
    ensures After(rank, previous, [x] + xs) <==>
              After(rank, Some(x.0), xs) && (previous.Some? ==> rank(previous.value) < rank(x.0))
  {
    var all := [x] + xs;
    if After(rank, previous, all) {
      forall i: nat, j: nat | i < j < |xs| ensures rank(xs[i].0) < rank(xs[j].0) {
        assert all[i + 1] == xs[i] && all[j + 1] == xs[j];
      }
      if xs != [] {
        assert all[0] == x && all[1] == xs[0];
        assert rank(all[0].0) < rank(all[1].0);
      }
    }
    if After(rank, Some(x.0), xs) {
      forall i: nat, j: nat | i < j < |all| ensures rank(all[i].0) < rank(all[j].0) {
        assert all[j] == xs[j - 1];
        if i > 0 {
          assert all[i] == xs[i - 1];
        } else if j > 1 {
          assert rank(xs[0].0) < rank(xs[j - 1].0);
        }
      }
    }
  }

  lemma ListingHead<K, V>(rank: K -> nat, m: map<K, V>)
    requires m != map[]
    ensures var xs := Listing(rank, m);
            && xs != [] && xs[0].0 in m && xs[0].1 == m[xs[0].0] && (forall j :: j in m ==> rank(xs[0].0) <= rank(j))
            && xs[1..] == Listing(rank, m - {xs[0].0}) && |m - {xs[0].0}| < |m|
  {
    var k := Listing(rank, m)[0].0;
    assert (m - {k}).Keys == m.Keys - {k};
  }

  lemma MapEmpty<K, V>(rank: K -> nat, b: map<K, V>)
    ensures Listing<K, V>(rank, map[]) == [] && b + map[] == b
  {
  }

  lemma {:induction false} ListingInOrder<K(!new), V>(rank: K -> nat, m: map<K, V>)
    requires Injective(rank)
    ensures InOrder(rank, Listing(rank, m))
    decreases |m|
  {
    if m != map[] {
      var xs := Listing(rank, m);
      var rest := m - {xs[0].0};
      assert rest.Keys == m.Keys - {xs[0].0};
      var tail := Listing(rank, rest);
      ListingInOrder(rank, rest);
      assert tail != [] ==> tail[0].0 in rest;
      AfterCons(rank, None, xs[0], tail);
    }
  }

  lemma MergeOne<K, V>(b: map<K, V>, m: map<K, V>, k: K)
    requires k in m
    ensures b[k := m[k]] + (m - {k}) == b + m
  {
  }

  lemma {:induction false} ListingInserts<K, V>(rank: K -> nat, b: map<K, V>, m: map<K, V>)
    ensures Insert(b, Listing(rank, m)) == b + m
    decreases |m|
  {
    if m == map[] {
      MapEmpty(rank, b);
    } else {
      ListingHead(rank, m);
      hide Listing;
      var (k, v) := Listing(rank, m)[0];
      ListingInserts(rank, b[k := v], m - {k});
      MergeOne(b, m, k);
    }
  }

  lemma {:induction false} InsertSplits<K, V>(m: map<K, V>, xs: seq<(K, V)>)
    ensures Insert(m, xs) == m + Insert(map[], xs)
    decreases |xs|
  {
    if xs == [] {
      assert m + map[] == m;
    } else {
      var (k, v) := xs[0];
      var t := xs[1..];
      InsertSplits(m[k := v], t);
      InsertSplits(map[k := v], t);
      assert m[k := v] + Insert(map[], t) == m + (map[k := v] + Insert(map[], t));
    }
  }

  lemma {:induction false} InsertedFrom<K, V>(xs: seq<(K, V)>, k: K)
    requires k in Insert(map[], xs)
    ensures (k, Insert(map[], xs)[k]) in xs
    decreases |xs|
  {
    if xs != [] {
      InsertSplits(map[xs[0].0 := xs[0].1], xs[1..]);
      if k in Insert(map[], xs[1..]) {
        InsertedFrom(xs[1..], k);
      } else {
        assert (k, Insert(map[], xs)[k]) == xs[0];
      }
    }
  }

  lemma LeastIsHead<K(!new), V>(rank: K -> nat, m: map<K, V>, k: K)
    requires Injective(rank) && k in m && forall j :: j in m ==> rank(k) <= rank(j)
    ensures Listing(rank, m) == [(k, m[k])] + Listing(rank, m - {k})
  {
    ListingHead(rank, m);
    hide Listing;
    var xs := Listing(rank, m);
    assert xs == [xs[0]] + xs[1..];
  }

  /** A listing in order is the listing of the map it fills. */
  lemma InsertHeadFirst<K(!new), V>(rank: K -> nat, xs: seq<(K, V)>)
    requires InOrder(rank, xs) && xs != []
    ensures var m := Insert(map[], xs[1..]);
            && (forall j :: j in m ==> rank(xs[0].0) < rank(j))
            && Insert(map[], xs) == m[xs[0].0 := xs[0].1]
  {
    var (k, v) := xs[0];
    var t := xs[1..];
    var m := Insert(map[], t);
    InsertSplits(map[k := v], t);
    assert Insert(map[], xs) == map[k := v] + m;
    hide Insert;
    forall j | j in m ensures rank(k) < rank(j) {
      InsertedFrom(t, j);
      var i: nat :| i < |t| && t[i] == (j, m[j]);
      assert rank(xs[0].0) < rank(xs[i + 1].0);
    }
  }

  /** A listing in order is the listing of the map it fills. */
  lemma {:induction false} ListingUnique<K(!new), V>(rank: K -> nat, xs: seq<(K, V)>)
    requires Injective(rank) && InOrder(rank, xs)
    ensures Listing(rank, Insert(map[], xs)) == xs
    decreases |xs|
  {
    if xs == [] {
      MapEmpty<K, V>(rank, map[]);
    } else {
      InsertHeadFirst(rank, xs);
      assert [xs[0]] + xs[1..] == xs;
      AfterCons(rank, None, xs[0], xs[1..]);
      ListingUnique(rank, xs[1..]);
      hide Listing, Insert;
      var m := Insert(map[], xs[1..]);
      var whole := m[xs[0].0 := xs[0].1];
      assert whole - {xs[0].0} == m;
      LeastIsHead(rank, whole, xs[0].0);
    }
  }

  // ------------------------------------------------------------------------ entries

  const SNAPSHOT_VERSION: u16 := 1
  const MAX_SNAPSHOT_ACCOUNTS: nat := 2_000_000
  const MAX_SNAPSHOT_REWARDS: nat := 4_000_000

  function AddressRank(): Address -> nat {
    (a: Address) => a
  }

  /** Pairs of maturity and recipient compare by maturity, then by recipient. */
  function DueRank(): Due -> nat {
    (d: Due) => d.maturity * 0x1_0000_0000_0000_0000_0000_0000_0000_0000_0000_0000 + d.recipient
  }

  lemma RanksInjective()
    ensures Injective(AddressRank()) && Injective(DueRank())
  {
  }

  lemma DueRankOrder(d: Due, e: Due)
    ensures DueRank()(d) < DueRank()(e) <==> d.maturity < e.maturity || (d.maturity == e.maturity && d.recipient < e.recipient)
  {
  }

  function AccountEntry(c: Checksum): ((Address, Account)) -> bytes {
    (x: (Address, Account)) => AddressBytes(c, x.0) + EncodeAccount(x.1)
  }

  function RewardEntry(c: Checksum): ((Due, u64)) -> bytes {
    (x: (Due, u64)) => EncodePending(c, x.0, x.1)
  }

  function ReadAccount(s: bytes): Parsed<Account> {
    var (balance, s) :- ReadU64(s);
    var (nonce, s) :- ReadU64(s);
    Ok((Account(balance, nonce), s))
  }

  function ReadPending(c: Checksum, s: bytes): Parsed<(Due, u64)> {
    var (maturity, s) :- ReadU64(s);
    var (recipient, s) :- DecodeAddress(c, s);
    var (amount, s) :- ReadU64(s);
    Ok(((Due(maturity, recipient), amount), s))
  }

  lemma ReadAccountLaws(account: Account, s: bytes, rest: bytes)
    ensures ReadAccount(EncodeAccount(account) + rest) == Ok((account, rest))
    ensures ReadAccount(s).Ok? ==> s == EncodeAccount(ReadAccount(s).value.0) + ReadAccount(s).value.1
  {
    hide LE, ReadU64;
    var s1 := LE(account.nonce, 8) + rest;
    assert EncodeAccount(account) + rest == LE(account.balance, 8) + s1;
    U64RoundTrip(account.balance, s1);
    U64RoundTrip(account.nonce, rest);
    if ReadAccount(s).Ok? {
      U64Canonical(s);
      U64Canonical(ReadU64(s).value.1);
      var (a, tail) := ReadAccount(s).value;
      assert s == LE(a.balance, 8) + (LE(a.nonce, 8) + tail);
    }
  }

  lemma ReadPendingLaws(c: Checksum, d: Due, amount: u64, s: bytes, rest: bytes)
    ensures ReadPending(c, EncodePending(c, d, amount) + rest) == Ok(((d, amount), rest))
    ensures ReadPending(c, s).Ok? ==>
              s == EncodePending(c, ReadPending(c, s).value.0.0, ReadPending(c, s).value.0.1) + ReadPending(c, s).value.1
  {
    hide LE, ReadU64, AddressBytes, DecodeAddress;
    var s2 := LE(amount, 8) + rest;
    var s1 := AddressBytes(c, d.recipient) + s2;
    assert EncodePending(c, d, amount) + rest == LE(d.maturity, 8) + s1;
    U64RoundTrip(d.maturity, s1);
    AddressReads(c, d.recipient, s2);
    U64RoundTrip(amount, rest);
    if ReadPending(c, s).Ok? {
      U64Canonical(s);
      var t := ReadU64(s).value.1;
      AddressReadsBack(c, t);
      U64Canonical(DecodeAddress(c, t).value.1);
      var ((e, n), tail) := ReadPending(c, s).value;
      assert s == LE(e.maturity, 8) + (AddressBytes(c, e.recipient) + (LE(n, 8) + tail));
    }
  }

  // ------------------------------------------------------------------- reading loops

  /** The account loop, from the entry after `previous` on. */
  function ReadAccounts(c: Checksum, s: bytes, n: nat, previous: Option<Address>, l: Ledger): Parsed<Ledger>
    decreases n
  {
    if n == 0 then Ok((l, s))
    else
      var (a, t) :- DecodeAddress(c, s);
      if previous.Some? && previous.value >= a then Err(NonCanonical)
      else
        var (account, u) :- ReadAccount(t);
        if account == NO_ACCOUNT || account.balance > MAX_MONEY then Err(NonCanonical)
        else ReadAccounts(c, u, n - 1, Some(a), SetAccount(l, a, account))
  }

  /** The reward loop. */
  function ReadRewards(c: Checksum, s: bytes, n: nat, previous: Option<Due>, l: Ledger): Parsed<Ledger>
    decreases n
  {
    if n == 0 then Ok((l, s))
    else
      var ((d, amount), t) :- ReadPending(c, s);
      if (previous.Some? && DueRank()(previous.value) >= DueRank()(d)) || amount == 0 || amount > MAX_MONEY then Err(NonCanonical)
      else
        match ScheduleReward(l, d.maturity, d.recipient, amount)
        case Err(_) => Err(NonCanonical)
        case Ok(next) => ReadRewards(c, t, n - 1, Some(d), next)
  }

  ghost predicate AccountsInRange(xs: seq<(Address, Account)>) {
    forall x :: x in xs ==> x.1 != NO_ACCOUNT && x.1.balance <= MAX_MONEY
  }

  ghost predicate RewardsInRange(xs: seq<(Due, u64)>) {
    forall x :: x in xs ==> 0 < x.1 <= MAX_MONEY
  }

  lemma {:induction false} AccountsRead(c: Checksum, xs: seq<(Address, Account)>, previous: Option<Address>, l: Ledger, rest: bytes)
    requires After(AddressRank(), previous, xs) && AccountsInRange(xs)
    ensures ReadAccounts(c, Concat(AccountEntry(c), xs) + rest, |xs|, previous, l)
            == Ok((l.(accounts := Insert(l.accounts, xs)), rest))
    decreases |xs|
  {
    hide AddressBytes, EncodeAccount, DecodeAddress, ReadAccount, After, InOrder;
    var s := Concat(AccountEntry(c), xs) + rest;
    if xs == [] {
      assert s == rest;
    } else {
      var (a, account) := xs[0];
      assert xs[0] in xs;
      assert [xs[0]] + xs[1..] == xs;
      AfterCons(AddressRank(), previous, xs[0], xs[1..]);
      var u := Concat(AccountEntry(c), xs[1..]) + rest;
      var t := EncodeAccount(account) + u;
      assert s == AddressBytes(c, a) + t;
      AddressReads(c, a, t);
      ReadAccountLaws(account, [], u);
      AccountsRead(c, xs[1..], Some(a), SetAccount(l, a, account), rest);
    }
  }

  lemma {:induction false} AccountsReadBack(c: Checksum, s: bytes, n: nat, previous: Option<Address>, l: Ledger) returns (xs: seq<(Address, Account)>)
    requires ReadAccounts(c, s, n, previous, l).Ok?
    ensures |xs| == n && After(AddressRank(), previous, xs) && AccountsInRange(xs)
    ensures s == Concat(AccountEntry(c), xs) + ReadAccounts(c, s, n, previous, l).value.1
    ensures ReadAccounts(c, s, n, previous, l).value.0 == l.(accounts := Insert(l.accounts, xs))
    decreases n
  {
    hide AddressBytes, EncodeAccount, DecodeAddress, ReadAccount;
    if n == 0 {
      xs := [];
      assert s == [] + s;
    } else {
      AddressReadsBack(c, s);
      var (a, t) := DecodeAddress(c, s).value;
      ReadAccountLaws(NO_ACCOUNT, t, []);
      var (account, u) := ReadAccount(t).value;
      var tail := AccountsReadBack(c, u, n - 1, Some(a), SetAccount(l, a, account));
      xs := [(a, account)] + tail;
      AfterCons(AddressRank(), previous, (a, account), tail);
      assert xs[1..] == tail;
      assert s == (AddressBytes(c, a) + EncodeAccount(account)) + u;
    }
  }

  lemma ScheduleNew(l: Ledger, d: Due, amount: u64)
    requires 0 < amount <= MAX_MONEY && d !in l.pending
    ensures ScheduleReward(l, d.maturity, d.recipient, amount) == Ok(l.(pending := l.pending[d := amount]))
  {
  }

  lemma HeadIsFirst<K(!new), V>(rank: K -> nat, xs: seq<(K, V)>)
    requires InOrder(rank, xs) && xs != []
    ensures forall x :: x in xs[1..] ==> x.0 != xs[0].0
  {
    forall x | x in xs[1..] ensures x.0 != xs[0].0 {
      var i: nat :| i < |xs[1..]| && xs[1..][i] == x;
      assert rank(xs[0].0) < rank(xs[i + 1].0);
    }
  }

  lemma {:induction false} RewardsRead(c: Checksum, xs: seq<(Due, u64)>, previous: Option<Due>, l: Ledger, rest: bytes)
    requires After(DueRank(), previous, xs) && RewardsInRange(xs)
    requires forall x :: x in xs ==> x.0 !in l.pending
    ensures ReadRewards(c, Concat(RewardEntry(c), xs) + rest, |xs|, previous, l)
            == Ok((l.(pending := Insert(l.pending, xs)), rest))
    decreases |xs|
  {
    hide EncodePending, ReadPending, ScheduleReward, InOrder, DueRank;
    var s := Concat(RewardEntry(c), xs) + rest;
    if xs == [] {
      assert s == rest;
    } else {
      var (d, amount) := xs[0];
      assert xs[0] in xs;
      assert [xs[0]] + xs[1..] == xs;
      AfterCons(DueRank(), previous, xs[0], xs[1..]);
      var t := Concat(RewardEntry(c), xs[1..]) + rest;
      assert s == EncodePending(c, d, amount) + t;
      ReadPendingLaws(c, d, amount, [], t);
      ScheduleNew(l, d, amount);
      var next := l.(pending := l.pending[d := amount]);
      HeadIsFirst(DueRank(), xs);
      RewardsRead(c, xs[1..], Some(d), next, rest);
    }
  }

  lemma {:induction false} RewardsReadBack(c: Checksum, s: bytes, n: nat, previous: Option<Due>, l: Ledger) returns (xs: seq<(Due, u64)>)
    requires ReadRewards(c, s, n, previous, l).Ok?
    requires forall d :: d in l.pending ==> previous.Some? && DueRank()(d) <= DueRank()(previous.value)
    ensures |xs| == n && After(DueRank(), previous, xs) && RewardsInRange(xs)
    ensures s == Concat(RewardEntry(c), xs) + ReadRewards(c, s, n, previous, l).value.1
    ensures ReadRewards(c, s, n, previous, l).value.0 == l.(pending := Insert(l.pending, xs))
    decreases n
  {
    hide EncodePending, ReadPending, ScheduleReward, DueRank, After, InOrder;
    if n == 0 {
      AfterNone<Due, u64>(DueRank(), previous);
      xs := [];
      assert s == [] + s;
    } else {
      ReadPendingLaws(c, Due(0, 0), 0, s, []);
      var ((d, amount), t) := ReadPending(c, s).value;
      assert d !in l.pending;
      ScheduleNew(l, d, amount);
      var next := l.(pending := l.pending[d := amount]);
      var tail := RewardsReadBack(c, t, n - 1, Some(d), next);
      xs := [(d, amount)] + tail;
      AfterCons(DueRank(), previous, (d, amount), tail);
      assert xs[1..] == tail;
      assert s == EncodePending(c, d, amount) + t;
    }
  }

  // ----------------------------------------------------------------------- snapshots

  ghost function EncodeSnapshot(env: Env, l: Ledger): bytes {
    var c := env.checksum;
    LE(SNAPSHOT_VERSION, 2)
    + (LE(|l.accounts|, 4) + (Concat(AccountEntry(c), Listing(AddressRank(), l.accounts))
    + (LE(|l.pending|, 4) + (Concat(RewardEntry(c), Listing(DueRank(), l.pending)) + EncodeHash(LedgerRoot(env, l))))))
  }

  ghost function DecodeSnapshot(env: Env, s: bytes): Parsed<Ledger> {
    var (version, s) :- ReadU16(s);
    if version != SNAPSHOT_VERSION then Err(NonCanonical)
    else
      var (accounts, s) :- ReadCount(s, MAX_SNAPSHOT_ACCOUNTS);
      var (funded, s) :- ReadAccounts(env.checksum, s, accounts, None, EMPTY_LEDGER);
      var (rewards, s) :- ReadCount(s, MAX_SNAPSHOT_REWARDS);
      var (l, s) :- ReadRewards(env.checksum, s, rewards, None, funded);
      var (root, s) :- DecodeHash(s);
      if root != LedgerRoot(env, l) then Err(NonCanonical) else Ok((l, s))
  }

  /** What a snapshot can hold: a ledger in normal form, within the entry limits. */
  ghost predicate SnapshotOk(env: Env, l: Ledger) {
    && Normal(l) && HashTyped(LedgerRoot(env, l))
    && |l.accounts| <= MAX_SNAPSHOT_ACCOUNTS && |l.pending| <= MAX_SNAPSHOT_REWARDS
  }

  lemma ListingInsertsAll<K(!new), V>(rank: K -> nat, m: map<K, V>)
    requires Injective(rank)
    ensures After(rank, None, Listing(rank, m)) && Insert(map[], Listing(rank, m)) == m
  {
    ListingInOrder(rank, m);
    ListingInserts(rank, map[], m);
    assert map[] + m == m;
  }

  lemma ListedFrom<K, V>(rank: K -> nat, m: map<K, V>)
    ensures forall x :: x in Listing(rank, m) ==> x.0 in m && m[x.0] == x.1
  {
    var xs := Listing(rank, m);
    forall x | x in xs ensures x.0 in m && m[x.0] == x.1 {
      var i :| 0 <= i < |xs| && xs[i] == x;
    }
  }

  lemma ListedInRange(l: Ledger)
    requires Normal(l)
    ensures AccountsInRange(Listing(AddressRank(), l.accounts)) && RewardsInRange(Listing(DueRank(), l.pending))
  {
    hide Listing, AddressRank, DueRank;
    ListedFrom(AddressRank(), l.accounts);
    ListedFrom(DueRank(), l.pending);
  }

  lemma SnapshotRoundTrip(env: Env, l: Ledger, rest: bytes)
    requires SnapshotOk(env, l)
    ensures DecodeSnapshot(env, EncodeSnapshot(env, l) + rest) == Ok((l, rest))
  {
    var xs, ys := Listing(AddressRank(), l.accounts), Listing(DueRank(), l.pending);
    ListedInRange(l);
    hide *;
    RanksInjective();
    ListingInsertsAll(AddressRank(), l.accounts);
    ListingInsertsAll(DueRank(), l.pending);
    SnapshotReads(env, l, xs, ys, rest);
  }

  lemma SnapshotReads(env: Env, l: Ledger, xs: seq<(Address, Account)>, ys: seq<(Due, u64)>, rest: bytes)
    requires SnapshotOk(env, l)
    requires xs == Listing(AddressRank(), l.accounts) && ys == Listing(DueRank(), l.pending)
    requires After(AddressRank(), None, xs) && AccountsInRange(xs) && Insert(map[], xs) == l.accounts
    requires After(DueRank(), None, ys) && RewardsInRange(ys) && Insert(map[], ys) == l.pending
    ensures DecodeSnapshot(env, EncodeSnapshot(env, l) + rest) == Ok((l, rest))
  {
    var c := env.checksum;
    hide LE, AccountEntry, RewardEntry, Listing, After, AccountsInRange, RewardsInRange, Concat, LedgerRoot, EncodeHash, DecodeHash,
         ReadU16, ReadCount, ReadAccounts, ReadRewards, Normal, Insert;
    var s5 := EncodeHash(LedgerRoot(env, l)) + rest;
    var s4 := Concat(RewardEntry(c), ys) + s5;
    var s3 := LE(|ys|, 4) + s4;
    var s2 := Concat(AccountEntry(c), xs) + s3;
    var s1 := LE(|xs|, 4) + s2;
    assert EncodeSnapshot(env, l) + rest == LE(SNAPSHOT_VERSION, 2) + s1;
    U16RoundTrip(SNAPSHOT_VERSION, s1);
    CountRoundTrip(|xs|, MAX_SNAPSHOT_ACCOUNTS, s2);
    AccountsRead(c, xs, None, EMPTY_LEDGER, s3);
    CountRoundTrip(|ys|, MAX_SNAPSHOT_REWARDS, s4);
    RewardsRead(c, ys, None, Ledger(l.accounts, map[]), s5);
    HashRoundTrip(LedgerRoot(env, l), rest);
  }

  /** Accepted bytes are the snapshot of the ledger they give, and that ledger is in normal form. */
  lemma SnapshotCanonical(env: Env, s: bytes)
    requires DecodeSnapshot(env, s).Ok?
    ensures SnapshotOk(env, DecodeSnapshot(env, s).value.0)
    ensures s == EncodeSnapshot(env, DecodeSnapshot(env, s).value.0) + DecodeSnapshot(env, s).value.1
  {
    var c := env.checksum;
    hide LE, AccountEntry, RewardEntry, Listing, After, Concat, LedgerRoot, EncodeHash, DecodeHash,
         ReadU16, ReadCount, ReadAccounts, ReadRewards, Insert, HashTyped, InOrder, AddressRank, DueRank;
    U16Canonical(s);
    var s1 := ReadU16(s).value.1;
    CountCanonical(s1, MAX_SNAPSHOT_ACCOUNTS);
    var (n, s2) := ReadCount(s1, MAX_SNAPSHOT_ACCOUNTS).value;
    var xs := AccountsReadBack(c, s2, n, None, EMPTY_LEDGER);
    var (funded, s3) := ReadAccounts(c, s2, n, None, EMPTY_LEDGER).value;
    CountCanonical(s3, MAX_SNAPSHOT_REWARDS);
    var (m, s4) := ReadCount(s3, MAX_SNAPSHOT_REWARDS).value;
    var ys := RewardsReadBack(c, s4, m, None, funded);
    var (l, s5) := ReadRewards(c, s4, m, None, funded).value;
    HashCanonical(s5);
    var (root, rest) := DecodeHash(s5).value;
    assert l.accounts == Insert(map[], xs) && l.pending == Insert(map[], ys);
    RanksInjective();
    ListedBack(AddressRank(), xs);
    ListedBack(DueRank(), ys);
    EntriesNormal(l, xs, ys);
    assert s3 == LE(m, 4) + (Concat(RewardEntry(c), ys) + (EncodeHash(root) + rest));
    assert s == LE(SNAPSHOT_VERSION, 2) + (LE(n, 4) + (Concat(AccountEntry(c), xs) + s3));
  }

  // ------------------------------------------------------------------- whole snapshots

  lemma {:induction false} ConcatSize<T(!new)>(encode: T -> bytes, xs: seq<T>, width: nat)
    requires forall x :: |encode(x)| == width
    ensures |Concat(encode, xs)| == width * |xs|
    decreases |xs|
  {
    if xs != [] {
      ConcatSize(encode, xs[1..], width);
      assert width * |xs| == width + width * (|xs| - 1);
    }
  }

  lemma SnapshotSizeIs(env: Env, l: Ledger)
    ensures |EncodeSnapshot(env, l)| == 42 + 41 * (|l.accounts| + |l.pending|)
  {
    hide LE, LedgerRoot, Listing, Concat, AddressBytes;
    ConcatSize(AccountEntry(env.checksum), Listing(AddressRank(), l.accounts), 41);
    ConcatSize(RewardEntry(env.checksum), Listing(DueRank(), l.pending), 41);
  }

  ghost function SnapshotDecoder(env: Env): bytes -> Parsed<Ledger> {
    s => DecodeSnapshot(env, s)
  }

  /** 8 MiB hold this many entries: far fewer than the counts the decoder would admit. */
  const MAX_DECODABLE_ENTRIES: nat := 204_599

  /** `consensus_decode` of a snapshot accepts exactly the snapshots of in-limit ledgers that fit the
      allocation limit on whole inputs. */
  lemma SnapshotDecodesExactly(env: Env, s: bytes, l: Ledger)
    ensures DecodeAll(SnapshotDecoder(env), s) == Ok(l) <==>
            SnapshotOk(env, l) && |l.accounts| + |l.pending| <= MAX_DECODABLE_ENTRIES && s == EncodeSnapshot(env, l)
  {
    SnapshotSizeIs(env, l);
    hide DecodeSnapshot, EncodeSnapshot, SnapshotOk;
    if SnapshotOk(env, l) && s == EncodeSnapshot(env, l) {
      SnapshotRoundTrip(env, l, []);
      assert s + [] == s;
    }
    if DecodeAll(SnapshotDecoder(env), s) == Ok(l) {
      SnapshotCanonical(env, s);
      assert EncodeSnapshot(env, l) + [] == EncodeSnapshot(env, l);
    }
  }

  lemma ListedBack<K(!new), V>(rank: K -> nat, xs: seq<(K, V)>)
    requires After(rank, None, xs)
    ensures Injective(rank) ==> Listing(rank, Insert(map[], xs)) == xs && |Insert(map[], xs)| == |xs|
  {
    if Injective(rank) {
      ListingUnique(rank, xs);
    }
  }

  lemma EntriesNormal(l: Ledger, xs: seq<(Address, Account)>, ys: seq<(Due, u64)>)
    requires AccountsInRange(xs) && RewardsInRange(ys)
    requires l.accounts == Insert(map[], xs) && l.pending == Insert(map[], ys)
    ensures Normal(l)
  {
    hide Insert;
    forall a | a in l.accounts ensures l.accounts[a] != NO_ACCOUNT && l.accounts[a].balance <= MAX_MONEY {
      InsertedFrom(xs, a);
    }
    forall d | d in l.pending ensures 0 < l.pending[d] <= MAX_MONEY {
      InsertedFrom(ys, d);
    }
  }

  // ---------------------------------------------------------------- reading in place

  method ReadAccountFrom(reader: Reader) returns (r: Result<Account, CodecError>)
    requires reader.Valid()
    modifies reader
    ensures reader.Valid()
    ensures r.Ok? ==> ReadAccount(old(reader.Rest())) == Ok((r.value, reader.Rest()))
    ensures r.Err? ==> ReadAccount(old(reader.Rest())) == Err(r.error)
  {
    hide ReadU64;
    var balance :- reader.U64();
    var nonce :- reader.U64();
    return Ok(Account(balance, nonce));
  }

  method ReadPendingFrom(c: Checksum, reader: Reader) returns (r: Result<(Due, u64), CodecError>)
    requires reader.Valid()
    modifies reader
    ensures reader.Valid()
    ensures r.Ok? ==> ReadPending(c, old(reader.Rest())) == Ok((r.value, reader.Rest()))
    ensures r.Err? ==> ReadPending(c, old(reader.Rest())) == Err(r.error)
  {
    hide ReadU64, DecodeAddress;
    var maturity :- reader.U64();
    var recipient :- ReadAddressFrom(reader, c);
    var amount :- reader.U64();
    return Ok((Due(maturity, recipient), amount));
  }

  /** The account loop of `decode_from`: each entry is checked against its predecessor and written
      to the ledger and its tree. */
  method LoadAccounts(state: LedgerState, reader: Reader, n: nat) returns (r: Result<(), CodecError>)
    requires state.Valid() && reader.Valid()
    modifies state, state.tree, reader
    ensures state.Valid() && reader.Valid()
    ensures r.Ok? ==> ReadAccounts(state.env.checksum, old(reader.Rest()), n, None, old(state.View())) == Ok((state.View(), reader.Rest()))
    ensures r.Err? ==> ReadAccounts(state.env.checksum, old(reader.Rest()), n, None, old(state.View())) == Err(r.error)
  {
    hide LedgerState.Valid, DecodeAddress, ReadAccount, SetAccount;
    ghost var c, s, l := state.env.checksum, reader.Rest(), state.View();
    var previous: Option<Address> := None;
    for i := 0 to n
      invariant state.Valid() && reader.Valid()
      invariant ReadAccounts(c, reader.Rest(), n - i, previous, state.View()) == ReadAccounts(c, s, n, None, l)
    {
      var a :- ReadAddressFrom(reader, state.env.checksum);
      if previous.Some? && previous.value >= a {
        return Err(NonCanonical);
      }
      var account :- ReadAccountFrom(reader);
      if account == NO_ACCOUNT || account.balance > MAX_MONEY {
        return Err(NonCanonical);
      }
      state.WriteAccount(a, account);
      previous := Some(a);
    }
    return Ok(());
  }

  method LoadRewards(state: LedgerState, reader: Reader, n: nat) returns (r: Result<(), CodecError>)
    requires state.Valid() && reader.Valid()
    modifies state, state.tree, reader
    ensures state.Valid() && reader.Valid()
    ensures r.Ok? ==> ReadRewards(state.env.checksum, old(reader.Rest()), n, None, old(state.View())) == Ok((state.View(), reader.Rest()))
    ensures r.Err? ==> ReadRewards(state.env.checksum, old(reader.Rest()), n, None, old(state.View())) == Err(r.error)
  {
    hide LedgerState.Valid, ReadPending, ScheduleReward;
    ghost var c, s, l := state.env.checksum, reader.Rest(), state.View();
    var previous: Option<Due> := None;
    for i := 0 to n
      invariant state.Valid() && reader.Valid()
      invariant ReadRewards(c, reader.Rest(), n - i, previous, state.View()) == ReadRewards(c, s, n, None, l)
    {
      var reward :- ReadPendingFrom(state.env.checksum, reader);
      var (d, amount) := reward;
      if (previous.Some? && DueRank()(previous.value) >= DueRank()(d)) || amount == 0 || amount > MAX_MONEY {
        return Err(NonCanonical);
      }
      var scheduled := state.Schedule(d.maturity, d.recipient, amount);
      if scheduled.Err? {
        return Err(NonCanonical);
      }
      previous := Some(d);
    }
    return Ok(());
  }

  /** Restoring a ledger from a snapshot: an empty ledger is filled in place and its cached root is
      compared with the committed one. */
  method LoadSnapshot(env: Env, reader: Reader) returns (r: Result<LedgerState, CodecError>)
    requires reader.Valid() && KeysFit(env) && KeysInjective(env)
    modifies reader
    ensures reader.Valid()
    ensures r.Ok? ==> r.value.Valid() && fresh(r.value) && fresh(r.value.tree) && r.value.env == env
    ensures r.Ok? ==> DecodeSnapshot(env, old(reader.Rest())) == Ok((r.value.View(), reader.Rest()))
    ensures r.Err? ==> DecodeSnapshot(env, old(reader.Rest())) == Err(r.error)
  {
    hide LedgerState.Valid, ReadAccounts, ReadRewards, LedgerRoot, ReadU16, ReadCount, KeysFit, KeysInjective;
    var version :- reader.U16();
    if version != SNAPSHOT_VERSION {
      return Err(NonCanonical);
    }
    var accounts :- reader.VectorLen(MAX_SNAPSHOT_ACCOUNTS);
    var state := new LedgerState(env);
    var _ :- LoadAccounts(state, reader, accounts);
    var rewards :- reader.VectorLen(MAX_SNAPSHOT_REWARDS);
    var _ :- LoadRewards(state, reader, rewards);
    var committed :- ReadHashFrom(reader);
    var actual := state.Root();
    if committed != actual {
      return Err(NonCanonical);
    }
    return Ok(state);
  }
}
