/** The transaction pool of src/mempool.rs: an indexed, bounded pool of queued payments, and the
    selection a miner builds a block from. */
module Mempools {
  import opened Base
  import opened Arith
  import opened Params
  import opened Bytes
  import opened Types
  import opened Sorting
  import opened State
  import opened LedgerMachine
  import opened Validation
  import opened Accounting

  type pos = n: nat | n > 0 witness 1

  datatype Entry = Entry(transaction: Transaction, receivedAt: nat, size: pos)

  datatype Slot = Slot(sender: Address, nonce: u64)

  datatype RelayPolicy = RelayPolicy(minRelayFee: u64, dustLimit: u64, maxBytes: nat, maxNonceGap: u64, ttlSeconds: nat)

  const RBF_PERCENT: nat := 10

  datatype MempoolError = Policy | Invalid | Nonce | Balance | ReplacementFee

  /** Entries by id, the ordered index by sender and nonce, and the bytes held. */
  datatype Queue = Queue(entries: map<Hash, Entry>, index: map<Slot, Hash>, bytes: nat)

  const EMPTY_QUEUE := Queue(map[], map[], 0)

  function SlotOf(tx: Transaction): Slot {
    Slot(tx.sender, tx.nonce)
  }

  function Debited(tx: Transaction): nat {
    tx.amount + tx.fee
  }

  // ----------------------------------------------------------------------- operations

  /** `validate_for_relay`. */
  function ValidateForRelay(env: Env, policy: RelayPolicy, l: Ledger, tx: Transaction): Result<(), MempoolError> {
    var account := AccountOf(l, tx.sender);
    if tx.version != TRANSACTION_VERSION || tx.amount == 0 || tx.amount > MAX_MONEY || tx.fee > MAX_MONEY || tx.nonce == U64_MAX
       || tx.amount < policy.dustLimit || tx.fee < policy.minRelayFee || tx.sender == tx.recipient
       || (|tx.publicKey| != 33 && |tx.publicKey| != 65) || |tx.signature| != 64 then Err(Policy)
    else if tx.nonce < account.nonce || tx.nonce > SatAdd64(account.nonce, policy.maxNonceGap) then Err(Nonce)
    else if !env.signatureValid(tx) then Err(Invalid)
    else Ok(())
  }

  function Remove(q: Queue, id: Hash): Queue {
    if id !in q.entries then q
    else
      var e := q.entries[id];
      Queue(q.entries - {id}, q.index - {SlotOf(e.transaction)}, SatSub(q.bytes, e.size))
  }

  function Add(q: Queue, id: Hash, e: Entry): Queue {
    Queue(q.entries[id := e], q.index[SlotOf(e.transaction) := id], q.bytes + e.size)
  }

  /** The fee a replacement of `existing` must reach. */
  function RequiredFee(policy: RelayPolicy, existing: Transaction): nat {
    SatAdd64(existing.fee, Max(policy.minRelayFee, SatAdd64(SatMul64(existing.fee, RBF_PERCENT), 99) / 100))
  }

  /** Every index entry finds its transaction. */
  ghost predicate LooksUp(q: Queue) {
    forall s :: s in q.index ==> q.index[s] in q.entries
  }

  /** The contiguous run from `nonce` can be paid for in order out of `balance`. */
  ghost predicate FundedFrom(q: Queue, sender: Address, nonce: u64, balance: nat)
    requires LooksUp(q)
    decreases U64_MAX - nonce
  {
    var slot := Slot(sender, nonce);
    if slot !in q.index then true
    else
      var needed := Debited(q.entries[q.index[slot]].transaction);
      if needed > U64_MAX || needed > balance then false
      else if nonce == U64_MAX then true
      else FundedFrom(q, sender, nonce + 1, balance - needed)
  }

  /** `sender_is_funded`. */
  ghost predicate Funded(q: Queue, l: Ledger, sender: Address)
    requires LooksUp(q)
  {
    FundedFrom(q, sender, AccountOf(l, sender).nonce, AccountOf(l, sender).balance)
  }

  // --------------------------------------------------------------------- fee-rate order

  /** `left` pays strictly less per byte, or the same with the lower id. */
  predicate Lower(left: (Hash, Entry), right: (Hash, Entry)) {
    var l, r := left.1.transaction.fee * right.1.size, right.1.transaction.fee * left.1.size;
    l < r || (l == r && left.0 < right.0)
  }

  /** The order `select` sorts by: higher rate first, then lower id. */
  predicate Prior(left: (Hash, Entry), right: (Hash, Entry)) {
    var l, r := left.1.transaction.fee * right.1.size, right.1.transaction.fee * left.1.size;
    r < l || (l == r && left.0 < right.0)
  }

  lemma CrossTransitive(fa: nat, sa: pos, fb: nat, sb: pos, fc: nat, sc: pos)
    requires fa * sb <= fb * sa && fb * sc <= fc * sb
    ensures fa * sc <= fc * sa
    ensures fa * sb < fb * sa || fb * sc < fc * sb ==> fa * sc < fc * sa
  {
    MulMono(fa * sb, fb * sa, sc);
    MulMono(fb * sc, fc * sb, sa);
    Cross(fa, sa, fb, sb, fc, sc);
    if fc * sa <= fa * sc {
      MulMono(fc * sa, fa * sc, sb);
    }
    if fa * sc > fc * sa {
      MulStrict(fc * sa, fa * sc, sb);
    }
    if fa * sb < fb * sa {
      MulStrict(fa * sb, fb * sa, sc);
    }
    if fb * sc < fc * sb {
      MulStrict(fb * sc, fc * sb, sa);
    }
  }

  lemma Cross(fa: nat, sa: nat, fb: nat, sb: nat, fc: nat, sc: nat)
    ensures (fa * sb) * sc == (fa * sc) * sb
    ensures (fb * sa) * sc == (fb * sc) * sa
    ensures (fc * sb) * sa == (fc * sa) * sb
  {
  }

  lemma OrdersAreStrict()
    ensures StrictOrder(Lower) && StrictOrder(Prior)
  {
    forall x: (Hash, Entry), y: (Hash, Entry), z: (Hash, Entry) | Lower(x, y) && Lower(y, z) ensures Lower(x, z) {
      CrossTransitive(x.1.transaction.fee, x.1.size, y.1.transaction.fee, y.1.size, z.1.transaction.fee, z.1.size);
    }
    forall x: (Hash, Entry), y: (Hash, Entry), z: (Hash, Entry) | Prior(x, y) && Prior(y, z) ensures Prior(x, z) {
      CrossTransitive(z.1.transaction.fee, z.1.size, y.1.transaction.fee, y.1.size, x.1.transaction.fee, x.1.size);
    }
  }

  /** First among `ids` under an order of entries. */
  ghost predicate FirstBy(before: ((Hash, Entry), (Hash, Entry)) -> bool, q: Queue, ids: set<Hash>, first: Hash)
    requires ids <= q.entries.Keys
  {
    first in ids && forall x :: x in ids && x != first ==> before((first, q.entries[first]), (x, q.entries[x]))
  }

  lemma {:induction false} HasFirst(before: ((Hash, Entry), (Hash, Entry)) -> bool, q: Queue, ids: set<Hash>) returns (first: Hash)
    requires ids <= q.entries.Keys && ids != {}
    requires StrictOrder(before) && forall x, y :: x in ids && y in ids && x != y ==> before((x, q.entries[x]), (y, q.entries[y])) || before((y, q.entries[y]), (x, q.entries[x]))
    ensures FirstBy(before, q, ids, first)
    decreases |ids|
  {
    var x :| x in ids;
    if ids == {x} {
      first := x;
    } else {
      var f := HasFirst(before, q, ids - {x});
      first := if before((x, q.entries[x]), (f, q.entries[f])) then x else f;
    }
  }

  lemma FirstUnique(before: ((Hash, Entry), (Hash, Entry)) -> bool, q: Queue, ids: set<Hash>, a: Hash, b: Hash)
    requires ids <= q.entries.Keys && StrictOrder(before) && FirstBy(before, q, ids, a) && FirstBy(before, q, ids, b)
    ensures a == b
  {
    var x, y := (a, q.entries[a]), (b, q.entries[b]);
    assert a != b ==> before(x, y) && before(y, x);
    assert !before(x, x);
  }

  lemma OrdersAreTotal(q: Queue, x: Hash, y: Hash)
    requires x in q.entries && y in q.entries && x != y
    ensures Lower((x, q.entries[x]), (y, q.entries[y])) || Lower((y, q.entries[y]), (x, q.entries[x]))
    ensures Prior((x, q.entries[x]), (y, q.entries[y])) || Prior((y, q.entries[y]), (x, q.entries[x]))
  {
  }

  lemma HasLowest(q: Queue)
    requires q.entries != map[]
    ensures exists id :: FirstBy(Lower, q, q.entries.Keys, id)
  {
    OrdersAreStrict();
    hide Lower;
    forall x, y | x in q.entries && y in q.entries && x != y
      ensures Lower((x, q.entries[x]), (y, q.entries[y])) || Lower((y, q.entries[y]), (x, q.entries[x]))
    {
      OrdersAreTotal(q, x, y);
    }
    var id := HasFirst(Lower, q, q.entries.Keys);
  }

  lemma HasPrior(q: Queue, ids: set<Hash>)
    requires ids <= q.entries.Keys && ids != {}
    ensures exists id :: FirstBy(Prior, q, ids, id)
  {
    OrdersAreStrict();
    hide Prior;
    forall x, y | x in ids && y in ids && x != y
      ensures Prior((x, q.entries[x]), (y, q.entries[y])) || Prior((y, q.entries[y]), (x, q.entries[x]))
    {
      OrdersAreTotal(q, x, y);
    }
    var id := HasFirst(Prior, q, ids);
  }

  ghost function Lowest(q: Queue): (id: Hash)
    requires q.entries != map[]
    ensures FirstBy(Lower, q, q.entries.Keys, id)
  {
    HasLowest(q);
    var id :| FirstBy(Lower, q, q.entries.Keys, id);
    id
  }

  // ------------------------------------------------------------------ expiry and trimming

  function Expired(policy: RelayPolicy, q: Queue, now: nat): set<Hash> {
    set id | id in q.entries && SatSub(now, q.entries[id].receivedAt) > policy.ttlSeconds
  }

  /** Removing one after another, in any order: see `RemovalsCommute`. */
  ghost function RemoveEach(q: Queue, ids: seq<Hash>): Queue {
    if ids == [] then q else Remove(RemoveEach(q, ids[..|ids| - 1]), ids[|ids| - 1])
  }

  /** Remove the lowest entry until the bytes fit. */
  ghost function Trim(q: Queue, max: nat): Queue
    decreases |q.entries|
  {
    if q.bytes <= max || q.entries == map[] then q
    else
      var id := Lowest(q);
      assert (q.entries - {id}).Keys == q.entries.Keys - {id};
      Trim(Remove(q, id), max)
  }

  // ------------------------------------------------------------------------- invariant

  ghost function EntrySizes(q: Queue): map<Hash, nat> {
    map id | id in q.entries :: q.entries[id].size as nat
  }

  /** What relay checks made sure of. */
  predicate Relayable(env: Env, tx: Transaction) {
    StructureOk(tx) && env.signatureValid(tx) && tx.nonce < U64_MAX
  }

  ghost predicate EntryOk(env: Env, q: Queue, id: Hash)
    requires id in q.entries
  {
    var e := q.entries[id];
    && env.txId(e.transaction) == id && Relayable(env, e.transaction) && e.size == TransactionSize(e.transaction)
    && SlotOf(e.transaction) in q.index && q.index[SlotOf(e.transaction)] == id
  }

  ghost predicate SlotOk(q: Queue, s: Slot)
    requires s in q.index
  {
    q.index[s] in q.entries && SlotOf(q.entries[q.index[s]].transaction) == s
  }

  /** The index is a bijection with the entries and the byte count is their total size. */
  ghost predicate Indexed(env: Env, q: Queue) {
    && (forall id :: id in q.entries ==> EntryOk(env, q, id))
    && (forall s :: s in q.index ==> SlotOk(q, s))
    && q.bytes == SumMap(EntrySizes(q))
  }

  lemma IndexedLooksUp(env: Env, q: Queue)
    requires Indexed(env, q)
    ensures LooksUp(q)
  {
  }

  /** Every sender's contiguous run is funded by this ledger. */
  ghost predicate AllFunded(q: Queue, l: Ledger)
    requires LooksUp(q)
  {
    forall a: Address :: Funded(q, l, a)
  }

  ghost predicate FundedBy(q: Queue, l: Ledger) {
    LooksUp(q) && AllFunded(q, l)
  }

  /** What every run keeps, whatever ledgers it meets. */
  ghost predicate QueueOk(env: Env, policy: RelayPolicy, q: Queue) {
    Indexed(env, q) && q.bytes <= policy.maxBytes
  }

  // --------------------------------------------------------------------------- removal

  lemma RemoveKeepsIndexed(env: Env, q: Queue, id: Hash)
    requires Indexed(env, q)
    ensures Indexed(env, Remove(q, id))
    ensures Remove(q, id).bytes <= q.bytes
  {
    if id in q.entries {
      var after := Remove(q, id);
      assert EntryOk(env, q, id);
      SumMapRemove(EntrySizes(q), id);
      assert EntrySizes(after) == EntrySizes(q) - {id};
      forall x | x in after.entries ensures EntryOk(env, after, x) {
        assert EntryOk(env, q, x);
      }
      forall s | s in after.index ensures SlotOk(after, s) {
        assert SlotOk(q, s);
      }
    }
  }

  lemma SlotSurvives(env: Env, q: Queue, id: Hash, slot: Slot)
    requires Indexed(env, q) && slot in Remove(q, id).index
    ensures slot in q.index && Remove(q, id).index[slot] == q.index[slot]
    ensures q.index[slot] in q.entries && q.index[slot] in Remove(q, id).entries
    ensures Remove(q, id).entries[q.index[slot]] == q.entries[q.index[slot]]
  {
    assert slot in q.index && SlotOk(q, slot);
  }

  /** Dropping an entry can only shorten runs. */
  lemma {:induction false} RemoveKeepsFunded(env: Env, q: Queue, id: Hash, sender: Address, nonce: u64, balance: nat)
    requires Indexed(env, q) && LooksUp(q) && LooksUp(Remove(q, id))
    requires FundedFrom(q, sender, nonce, balance)
    ensures FundedFrom(Remove(q, id), sender, nonce, balance)
    decreases U64_MAX - nonce
  {
    hide Indexed, Remove;
    var slot := Slot(sender, nonce);
    if slot in Remove(q, id).index {
      SlotSurvives(env, q, id, slot);
      if nonce < U64_MAX {
        RemoveKeepsFunded(env, q, id, sender, nonce + 1, balance - Debited(q.entries[q.index[slot]].transaction));
      }
    }
  }

  /** Removal keeps everything. */
  lemma RemoveKeeps(env: Env, l: Ledger, q: Queue, id: Hash)
    requires Indexed(env, q)
    ensures Indexed(env, Remove(q, id)) && Remove(q, id).bytes <= q.bytes
    ensures FundedBy(q, l) ==> FundedBy(Remove(q, id), l)
  {
    RemoveKeepsIndexed(env, q, id);
    IndexedLooksUp(env, Remove(q, id));
    hide Indexed, Remove, FundedFrom, LooksUp;
    if FundedBy(q, l) {
      forall a: Address ensures Funded(Remove(q, id), l, a) {
        assert Funded(q, l, a);
        RemoveKeepsFunded(env, q, id, a, AccountOf(l, a).nonce, AccountOf(l, a).balance);
      }
    }
  }

  lemma {:induction false} TrimKeeps(env: Env, policy: RelayPolicy, l: Ledger, q: Queue)
    requires Indexed(env, q)
    ensures QueueOk(env, policy, Trim(q, policy.maxBytes))
    ensures FundedBy(q, l) ==> FundedBy(Trim(q, policy.maxBytes), l)
    decreases |q.entries|
  {
    hide FundedBy;
    if q.entries == map[] {
      assert EntrySizes(q) == map[];
    } else if q.bytes > policy.maxBytes {
      var id := Lowest(q);
      assert (q.entries - {id}).Keys == q.entries.Keys - {id};
      RemoveKeeps(env, l, q, id);
      TrimKeeps(env, policy, l, Remove(q, id));
    }
  }

  lemma {:induction false} RemoveEachKeeps(env: Env, l: Ledger, q: Queue, ids: seq<Hash>)
    requires Indexed(env, q)
    ensures Indexed(env, RemoveEach(q, ids)) && RemoveEach(q, ids).bytes <= q.bytes
    ensures FundedBy(q, l) ==> FundedBy(RemoveEach(q, ids), l)
  {
    hide FundedBy, Indexed, Remove;
    if ids != [] {
      RemoveEachKeeps(env, l, q, ids[..|ids| - 1]);
      RemoveKeeps(env, l, RemoveEach(q, ids[..|ids| - 1]), ids[|ids| - 1]);
    }
  }

  /** Two good queues with the same entries are the same queue. */
  lemma EntriesDetermine(env: Env, q: Queue, r: Queue)
    requires Indexed(env, q) && Indexed(env, r) && q.entries == r.entries
    ensures q == r
  {
    forall s ensures s in q.index <==> s in r.index {
      if s in q.index {
        assert SlotOk(q, s);
        assert EntryOk(env, r, q.index[s]);
      }
      if s in r.index {
        assert SlotOk(r, s);
        assert EntryOk(env, q, r.index[s]);
      }
    }
    forall s | s in q.index ensures q.index[s] == r.index[s] {
      assert SlotOk(q, s);
      assert EntryOk(env, r, q.index[s]);
    }
    assert q.index == r.index;
    assert EntrySizes(q) == EntrySizes(r);
  }

  lemma {:induction false} RemoveEachEntries(q: Queue, ids: seq<Hash>)
    ensures RemoveEach(q, ids).entries == q.entries - Elements(ids)
  {
    if ids != [] {
      var front, last := ids[..|ids| - 1], ids[|ids| - 1];
      RemoveEachEntries(q, front);
      assert forall x :: x in ids <==> x in front || x == last;
      assert Elements(ids) == Elements(front) + {last};
    }
  }

  /** The order of removals does not matter: only what is removed. */
  lemma RemovalsCommute(env: Env, q: Queue, a: seq<Hash>, b: seq<Hash>)
    requires Indexed(env, q) && Elements(a) == Elements(b)
    ensures RemoveEach(q, a) == RemoveEach(q, b)
  {
    RemoveEachEntries(q, a);
    RemoveEachEntries(q, b);
    RemoveEachKeeps(env, EMPTY_LEDGER, q, a);
    RemoveEachKeeps(env, EMPTY_LEDGER, q, b);
    hide Indexed, RemoveEach;
    EntriesDetermine(env, RemoveEach(q, a), RemoveEach(q, b));
  }

  // -------------------------------------------------------------- what trimming leaves

  /** Entries that are not lower than `id`, with their sizes. */
  ghost function NotLower(q: Queue, id: Hash): map<Hash, nat>
    requires id in q.entries
  {
    map x | x in q.entries && !Lower((x, q.entries[x]), (id, q.entries[id])) :: q.entries[x].size as nat
  }

  lemma LowestSurvivors(env: Env, q: Queue, low: Hash, id: Hash)
    requires FirstBy(Lower, q, q.entries.Keys, low) && id in q.entries && id != low
    ensures id in Remove(q, low).entries && NotLower(Remove(q, low), id) == NotLower(q, id)
  {
    OrdersAreStrict();
    hide Lower;
    assert Lower((low, q.entries[low]), (id, q.entries[id]));
  }

  lemma LowestIsBelowAll(q: Queue, low: Hash)
    requires FirstBy(Lower, q, q.entries.Keys, low)
    ensures NotLower(q, low) == EntrySizes(q)
  {
    OrdersAreStrict();
    hide Lower;
    forall x | x in q.entries ensures !Lower((x, q.entries[x]), (low, q.entries[low])) {
      if x != low {
        assert Lower((low, q.entries[low]), (x, q.entries[x]));
        assert !Lower((low, q.entries[low]), (low, q.entries[low]));
      }
    }
  }

  lemma {:induction false} SumMapSubset<K>(m: map<K, nat>, n: map<K, nat>)
    requires m.Keys <= n.Keys && forall k :: k in m ==> m[k] == n[k]
    ensures SumMap(m) <= SumMap(n)
    decreases |m|
  {
    if m == map[] {
      assert SumMap(m) == 0;
    } else {
      var k :| k in m;
      SumMapRemove(m, k);
      SumMapRemove(n, k);
      assert (m - {k}).Keys == m.Keys - {k};
      SumMapSubset(m - {k}, n - {k});
    }
  }

  /** Trimming keeps an entry exactly when it and everything not lower fit the limit together, so the
      outcome does not depend on the order in which the table is scanned. */
  lemma {:induction false} TrimKeepsExactly(env: Env, q: Queue, max: nat, id: Hash)
    requires Indexed(env, q) && id in q.entries
    ensures id in Trim(q, max).entries <==> SumMap(NotLower(q, id)) <= max
    decreases |q.entries|
  {
    hide Lower;
    if q.bytes <= max {
      SumMapSubset(NotLower(q, id), EntrySizes(q));
    } else {
      var low := Lowest(q);
      assert (q.entries - {low}).Keys == q.entries.Keys - {low};
      if id == low {
        LowestIsBelowAll(q, low);
        TrimShrinks(Remove(q, low), max);
      } else {
        LowestSurvivors(env, q, low, id);
        RemoveKeepsIndexed(env, q, low);
        TrimKeepsExactly(env, Remove(q, low), max, id);
      }
    }
  }

  lemma {:induction false} TrimShrinks(q: Queue, max: nat)
    ensures Trim(q, max).entries.Keys <= q.entries.Keys
    ensures forall id :: id in Trim(q, max).entries ==> Trim(q, max).entries[id] == q.entries[id]
    decreases |q.entries|
  {
    if q.bytes > max && q.entries != map[] {
      var low := Lowest(q);
      assert (q.entries - {low}).Keys == q.entries.Keys - {low};
      TrimShrinks(Remove(q, low), max);
    }
  }

  // ------------------------------------------------------------------------ acceptance

  /** The queue without the transaction this one would replace. */
  function Replaced(q: Queue, tx: Transaction): Queue {
    if SlotOf(tx) in q.index then Remove(q, q.index[SlotOf(tx)]) else q
  }

  function NewEntry(tx: Transaction, now: nat): (e: Entry)
    ensures e.transaction == tx && e.size == TransactionSize(tx)
  {
    Entry(tx, now, TransactionSize(tx))
  }

  /** `expire_and_trim`; the expired entries go first, in any order. */
  ghost function ExpireAndTrim(policy: RelayPolicy, q: Queue, now: nat): Queue {
    Trim(RemoveEach(q, Sorted(Expired(policy, q, now))), policy.maxBytes)
  }

  /** `accept`: the queue afterwards, and the answer. A refused replacement may still change the queue. */
  ghost function Accept(env: Env, policy: RelayPolicy, q: Queue, l: Ledger, tx: Transaction, now: nat): (Queue, Result<Hash, MempoolError>)
    requires Indexed(env, q)
  {
    var relay := ValidateForRelay(env, policy, l, tx);
    var id := env.txId(tx);
    IndexedLooksUp(env, q);
    if relay.Err? then (q, Err(relay.error))
    else if id in q.entries then (q, Ok(id))
    else if SlotOf(tx) in q.index && tx.fee < RequiredFee(policy, q.entries[q.index[SlotOf(tx)]].transaction) then (q, Err(ReplacementFee))
    else
      AddKeepsIndexed(env, policy, l, q, tx, now);
      var added := Add(Replaced(q, tx), id, NewEntry(tx, now));
      IndexedLooksUp(env, added);
      if !Funded(added, l, tx.sender) then (Remove(added, id), Err(Balance))
      else (ExpireAndTrim(policy, added, now), Ok(id))
  }

  lemma RelayedIsRelayable(env: Env, policy: RelayPolicy, l: Ledger, tx: Transaction)
    requires ValidateForRelay(env, policy, l, tx).Ok?
    ensures Relayable(env, tx)
  {
  }

  lemma RelayNeverSaysBalance(env: Env, policy: RelayPolicy, l: Ledger, tx: Transaction)
    ensures ValidateForRelay(env, policy, l, tx) != Err(Balance)
  {
  }

  lemma ReplacedIsFree(env: Env, q: Queue, tx: Transaction)
    requires Indexed(env, q) && env.txId(tx) !in q.entries
    ensures Indexed(env, Replaced(q, tx)) && LooksUp(Replaced(q, tx))
    ensures env.txId(tx) !in Replaced(q, tx).entries && SlotOf(tx) !in Replaced(q, tx).index
  {
    var slot := SlotOf(tx);
    if slot in q.index {
      assert SlotOk(q, slot);
      RemoveKeepsIndexed(env, q, q.index[slot]);
    }
    IndexedLooksUp(env, Replaced(q, tx));
  }

  lemma AddSizes(q: Queue, id: Hash, e: Entry)
    requires id !in q.entries
    ensures SumMap(EntrySizes(Add(q, id, e))) == SumMap(EntrySizes(q)) + e.size
  {
    SumMapUpdate(EntrySizes(q), id, e.size);
    assert EntrySizes(Add(q, id, e)) == EntrySizes(q)[id := e.size];
    assert EntrySizes(q) - {id} == EntrySizes(q);
  }

  lemma AddOneIndexed(env: Env, q: Queue, tx: Transaction, now: nat)
    requires Indexed(env, q) && env.txId(tx) !in q.entries && SlotOf(tx) !in q.index && Relayable(env, tx)
    ensures Indexed(env, Add(q, env.txId(tx), NewEntry(tx, now)))
  {
    hide Relayable, EntrySizes, TransactionSize;
    var id := env.txId(tx);
    var after := Add(q, id, NewEntry(tx, now));
    AddSizes(q, id, NewEntry(tx, now));
    forall x | x in after.entries ensures EntryOk(env, after, x) {
      if x != id {
        assert EntryOk(env, q, x);
      }
    }
    forall s | s in after.index ensures SlotOk(after, s) {
      if s != SlotOf(tx) {
        assert SlotOk(q, s);
      }
    }
  }

  lemma AddKeepsIndexed(env: Env, policy: RelayPolicy, l: Ledger, q: Queue, tx: Transaction, now: nat)
    requires Indexed(env, q) && env.txId(tx) !in q.entries && ValidateForRelay(env, policy, l, tx).Ok?
    ensures Indexed(env, Add(Replaced(q, tx), env.txId(tx), NewEntry(tx, now)))
  {
    RelayedIsRelayable(env, policy, l, tx);
    ReplacedIsFree(env, q, tx);
    AddOneIndexed(env, Replaced(q, tx), tx, now);
  }

  /** Adding and removing again changes nothing. */
  lemma AddThenRemove(q: Queue, id: Hash, e: Entry)
    requires id !in q.entries && SlotOf(e.transaction) !in q.index
    ensures Remove(Add(q, id, e), id) == q
  {
    assert q.entries[id := e] - {id} == q.entries;
    assert q.index[SlotOf(e.transaction) := id] - {SlotOf(e.transaction)} == q.index;
  }

  lemma {:induction false} AddKeepsOtherRuns(q: Queue, id: Hash, e: Entry, sender: Address, nonce: u64, balance: nat)
    requires LooksUp(q) && LooksUp(Add(q, id, e)) && id !in q.entries && sender != e.transaction.sender
    ensures FundedFrom(Add(q, id, e), sender, nonce, balance) <==> FundedFrom(q, sender, nonce, balance)
    decreases U64_MAX - nonce
  {
    var slot := Slot(sender, nonce);
    if slot in q.index && nonce < U64_MAX {
      var needed := Debited(q.entries[q.index[slot]].transaction);
      if needed <= balance {
        AddKeepsOtherRuns(q, id, e, sender, nonce + 1, balance - needed);
      }
    }
  }

  lemma AddKeepsFunded(env: Env, l: Ledger, q: Queue, tx: Transaction, now: nat)
    requires FundedBy(q, l) && env.txId(tx) !in q.entries
    requires var added := Add(q, env.txId(tx), NewEntry(tx, now)); LooksUp(added) && Funded(added, l, tx.sender)
    ensures FundedBy(Add(q, env.txId(tx), NewEntry(tx, now)), l)
  {
    hide FundedFrom, LooksUp, Add;
    var id, e := env.txId(tx), NewEntry(tx, now);
    forall a: Address ensures Funded(Add(q, id, e), l, a) {
      if a != tx.sender {
        assert Funded(q, l, a);
        AddKeepsOtherRuns(q, id, e, a, AccountOf(l, a).nonce, AccountOf(l, a).balance);
      }
    }
  }

  /** `expire_and_trim` keeps the pool good and brings it back under its limit. */
  lemma ExpireKeeps(env: Env, policy: RelayPolicy, l: Ledger, q: Queue, now: nat)
    requires Indexed(env, q)
    ensures QueueOk(env, policy, ExpireAndTrim(policy, q, now))
    ensures FundedBy(q, l) ==> FundedBy(ExpireAndTrim(policy, q, now), l)
  {
    hide Indexed, FundedBy, Trim, RemoveEach;
    RemoveEachKeeps(env, l, q, Sorted(Expired(policy, q, now)));
    TrimKeeps(env, policy, l, RemoveEach(q, Sorted(Expired(policy, q, now))));
  }

  /** The relay checks pass, the transaction is new, and it pays enough to take the place of another. */
  predicate Replaces(env: Env, policy: RelayPolicy, l: Ledger, q: Queue, tx: Transaction) {
    && ValidateForRelay(env, policy, l, tx).Ok? && env.txId(tx) !in q.entries
    && SlotOf(tx) in q.index && q.index[SlotOf(tx)] in q.entries
    && tx.fee >= RequiredFee(policy, q.entries[q.index[SlotOf(tx)]].transaction)
  }

  /** The three ways `accept` ends: nothing changed, the addition stayed and the pool was trimmed, or it
      was taken back and the pool is without what it would have replaced. */
  lemma AcceptCases(env: Env, policy: RelayPolicy, l: Ledger, q: Queue, tx: Transaction, now: nat)
    requires Indexed(env, q)
    ensures var (after, r) := Accept(env, policy, q, l, tx, now);
            var added := Add(Replaced(q, tx), env.txId(tx), NewEntry(tx, now));
            || (after == q && r != Err(Balance) && !(Replaces(env, policy, l, q, tx)) && (r.Ok? ==> env.txId(tx) in q.entries))
            || (&& env.txId(tx) !in q.entries && Indexed(env, added) && LooksUp(added)
                && (SlotOf(tx) in q.index ==> Replaces(env, policy, l, q, tx))
                && (if Funded(added, l, tx.sender) then after == ExpireAndTrim(policy, added, now) && r.Ok?
                    else after == Replaced(q, tx) && r == Err(Balance)))
  {
    hide Add, Replaced, Remove, Indexed, ExpireAndTrim, ValidateForRelay, RequiredFee, Funded, LooksUp;
    RelayNeverSaysBalance(env, policy, l, tx);
    if ValidateForRelay(env, policy, l, tx).Ok? && env.txId(tx) !in q.entries {
      AddKeepsIndexed(env, policy, l, q, tx, now);
      IndexedLooksUp(env, Add(Replaced(q, tx), env.txId(tx), NewEntry(tx, now)));
      ReplacedIsFree(env, q, tx);
      AddThenRemove(Replaced(q, tx), env.txId(tx), NewEntry(tx, now));
      if SlotOf(tx) in q.index {
        SlotFinds(env, q, SlotOf(tx));
      }
    }
  }

  lemma SlotFinds(env: Env, q: Queue, s: Slot)
    requires Indexed(env, q) && s in q.index
    ensures q.index[s] in q.entries
  {
    assert SlotOk(q, s);
  }

  /** Whatever the answer and whatever the ledger, `accept` leaves a good pool; what this ledger funded
      before, it funds after. */
  lemma AcceptKeeps(env: Env, policy: RelayPolicy, l: Ledger, q: Queue, tx: Transaction, now: nat)
    requires QueueOk(env, policy, q)
    ensures QueueOk(env, policy, Accept(env, policy, q, l, tx, now).0)
    ensures FundedBy(q, l) ==> FundedBy(Accept(env, policy, q, l, tx, now).0, l)
  {
    AcceptCases(env, policy, l, q, tx, now);
    hide Accept, Remove, Add, Indexed, LooksUp, FundedBy, Funded, ExpireAndTrim, Replaces;
    if Accept(env, policy, q, l, tx, now).0 != q {
      ReplacedIsFree(env, q, tx);
      if SlotOf(tx) in q.index {
        RemoveKeeps(env, l, q, q.index[SlotOf(tx)]);
      }
      var added := Add(Replaced(q, tx), env.txId(tx), NewEntry(tx, now));
      if Funded(added, l, tx.sender) {
        if FundedBy(q, l) {
          AddKeepsFunded(env, l, Replaced(q, tx), tx, now);
        }
        ExpireKeeps(env, policy, l, added, now);
      }
    }
  }

  /** A refusal leaves the pool alone exactly when the call was not an adequately paying replacement. */
  lemma RefusalChangesNothingIff(env: Env, policy: RelayPolicy, l: Ledger, q: Queue, tx: Transaction, now: nat)
    requires Indexed(env, q) && Accept(env, policy, q, l, tx, now).1.Err?
    ensures Accept(env, policy, q, l, tx, now).0 == q <==> !Replaces(env, policy, l, q, tx)
    ensures Replaces(env, policy, l, q, tx) ==> Accept(env, policy, q, l, tx, now) == (Replaced(q, tx), Err(Balance))
  {
    AcceptCases(env, policy, l, q, tx, now);
    hide Accept, Add, Indexed, ExpireAndTrim, Funded, LooksUp, ValidateForRelay, RequiredFee;
    if Replaces(env, policy, l, q, tx) {
      assert q.index[SlotOf(tx)] in q.entries && q.index[SlotOf(tx)] !in Replaced(q, tx).entries;
    }
  }

  /** A newly accepted transaction stays exactly when it and every unexpired entry not lower in fee rate
      fit the limit together. */
  lemma AcceptedStaysIff(env: Env, policy: RelayPolicy, l: Ledger, q: Queue, tx: Transaction, now: nat)
    requires Indexed(env, q) && env.txId(tx) !in q.entries && Accept(env, policy, q, l, tx, now).1.Ok?
    ensures var added := Add(Replaced(q, tx), env.txId(tx), NewEntry(tx, now));
            var unexpired := RemoveEach(added, Sorted(Expired(policy, added, now)));
            && env.txId(tx) in unexpired.entries
            && (env.txId(tx) in Accept(env, policy, q, l, tx, now).0.entries
                <==> SumMap(NotLower(unexpired, env.txId(tx))) <= policy.maxBytes)
  {
    AcceptCases(env, policy, l, q, tx, now);
    hide Accept, Replaced, Indexed, Funded, LooksUp, NotLower, SumMap, Trim, RemoveEach;
    var added := Add(Replaced(q, tx), env.txId(tx), NewEntry(tx, now));
    var ids := Sorted(Expired(policy, added, now));
    assert env.txId(tx) !in Expired(policy, added, now);
    RemoveEachEntries(added, ids);
    RemoveEachKeeps(env, l, added, ids);
    TrimKeepsExactly(env, RemoveEach(added, ids), policy.maxBytes, env.txId(tx));
  }

  // ----------------------------------------------------------- inputs that show the limits

  /** A payment of `amount` from address 1 to address 2 with nonce 0. */
  function SamplePayment(amount: u64, fee: u64): Transaction {
    Transaction(TRANSACTION_VERSION, 1, 2, amount, fee, 0, seq(33, _ => 0), seq(64, _ => 0))
  }

  const SAMPLE_LEDGER := Ledger(map[1 := Account(1_000_000, 0)], map[])
  const SAMPLE_POLICY := RelayPolicy(100_000, 1_000, 64 * 1024 * 1024, 64, 86_400)

  lemma SampleAccepted(env: Env, policy: RelayPolicy, now: nat)
    requires policy == SAMPLE_POLICY || policy == SAMPLE_POLICY.(maxBytes := 0)
    requires env.signatureValid(SamplePayment(2_000, 100_000))
    ensures Indexed(env, EMPTY_QUEUE)
    ensures var tx := SamplePayment(2_000, 100_000);
            var added := Add(EMPTY_QUEUE, env.txId(tx), NewEntry(tx, now));
            && Indexed(env, added)
            && Accept(env, policy, EMPTY_QUEUE, SAMPLE_LEDGER, tx, now) == (ExpireAndTrim(policy, added, now), Ok(env.txId(tx)))
  {
    var tx := SamplePayment(2_000, 100_000);
    var added := Add(EMPTY_QUEUE, env.txId(tx), NewEntry(tx, now));
    EmptyIsIndexed(env);
    AddKeepsIndexed(env, policy, SAMPLE_LEDGER, EMPTY_QUEUE, tx, now);
    IndexedLooksUp(env, added);
    hide Indexed, Trim, RemoveEach, LooksUp, ExpireAndTrim;
    assert Slot(1, 1) !in added.index;
    assert Funded(added, SAMPLE_LEDGER, 1);
  }

  /** With no room at all, an accepted transaction is gone at once. */
  lemma AcceptedCanBeTrimmed(env: Env, now: nat)
    requires env.signatureValid(SamplePayment(2_000, 100_000))
    ensures Indexed(env, EMPTY_QUEUE)
    ensures var tx := SamplePayment(2_000, 100_000);
            var (after, r) := Accept(env, SAMPLE_POLICY.(maxBytes := 0), EMPTY_QUEUE, SAMPLE_LEDGER, tx, now);
            r == Ok(env.txId(tx)) && env.txId(tx) !in after.entries
  {
    var policy := SAMPLE_POLICY.(maxBytes := 0);
    var tx := SamplePayment(2_000, 100_000);
    SampleAccepted(env, policy, now);
    AcceptedStaysIff(env, policy, SAMPLE_LEDGER, EMPTY_QUEUE, tx, now);
    var added := Add(EMPTY_QUEUE, env.txId(tx), NewEntry(tx, now));
    var unexpired := RemoveEach(added, Sorted(Expired(policy, added, now)));
    hide Indexed, Accept, RemoveEach;
    var sizes := NotLower(unexpired, env.txId(tx));
    assert env.txId(tx) in sizes;
    RemoveEachEntries(added, Sorted(Expired(policy, added, now)));
    SumMapMember(sizes, env.txId(tx));
  }

  /** A replacement that pays the higher fee but cannot be funded is refused, and the payment it would have
      replaced is gone. */
  lemma RefusalCanDisplace(env: Env, now: nat)
    requires env.signatureValid(SamplePayment(2_000, 100_000)) && env.signatureValid(SamplePayment(2_000_000, 200_000))
    requires env.txId(SamplePayment(2_000, 100_000)) != env.txId(SamplePayment(2_000_000, 200_000))
    ensures var first, second := SamplePayment(2_000, 100_000), SamplePayment(2_000_000, 200_000);
            var q := Add(EMPTY_QUEUE, env.txId(first), NewEntry(first, now));
            && QueueOk(env, SAMPLE_POLICY, q)
            && Accept(env, SAMPLE_POLICY, q, SAMPLE_LEDGER, second, now) == (EMPTY_QUEUE, Err(Balance))
  {
    var first, second := SamplePayment(2_000, 100_000), SamplePayment(2_000_000, 200_000);
    var q := Add(EMPTY_QUEUE, env.txId(first), NewEntry(first, now));
    SampleAccepted(env, SAMPLE_POLICY, now);
    AddThenRemove(EMPTY_QUEUE, env.txId(first), NewEntry(first, now));
    assert Replaced(q, second) == EMPTY_QUEUE;
    assert Replaces(env, SAMPLE_POLICY, SAMPLE_LEDGER, q, second);
    hide Indexed;
    AcceptCases(env, SAMPLE_POLICY, SAMPLE_LEDGER, q, second, now);
    assert Debited(second) > 1_000_000;
  }

  lemma EmptyIsIndexed(env: Env)
    ensures Indexed(env, EMPTY_QUEUE)
  {
    assert EntrySizes(EMPTY_QUEUE) == map[];
  }

  // ------------------------------------------------------------------------- selection

  /** What `select` does to its working state; its `expect`s claim this never fails. */
  function Spend(l: Ledger, tx: Transaction): Result<Ledger, ConsensusError>
    requires Debited(tx) <= U64_MAX && tx.nonce < U64_MAX
  {
    var debited :- Debit(l, tx.sender, Debited(tx));
    var credited :- Credit(debited, tx.recipient, tx.amount);
    Ok(SetNonce(credited, tx.sender, tx.nonce + 1))
  }

  predicate CanSpend(l: Ledger, tx: Transaction) {
    AccountOf(l, tx.sender).nonce == tx.nonce && AccountOf(l, tx.sender).balance >= SatAdd64(tx.amount, tx.fee)
  }

  function Eligible(q: Queue, l: Ledger, included: set<Hash>): set<Hash> {
    set id | id in q.entries && id !in included && CanSpend(l, q.entries[id].transaction)
  }

  /** The entry sorted first among the eligible ones. */
  ghost function FirstOf(q: Queue, ids: set<Hash>): (id: Hash)
    requires ids <= q.entries.Keys && ids != {}
    ensures FirstBy(Prior, q, ids, id)
  {
    HasPrior(q, ids);
    var id :| FirstBy(Prior, q, ids, id);
    id
  }

  ghost predicate EntriesOk(env: Env, q: Queue) {
    forall id :: id in q.entries ==> env.txId(q.entries[id].transaction) == id && Relayable(env, q.entries[id].transaction)
  }

  /** `select` from a working state, with what is selected so far; an error would be a failed `expect`. */
  ghost function SelectFrom(env: Env, q: Queue, working: Ledger, selected: seq<Transaction>, included: set<Hash>, maximum: nat): Result<seq<Transaction>, ConsensusError>
    requires EntriesOk(env, q)
    decreases |q.entries.Keys - included|
  {
    var eligible := Eligible(q, working, included);
    if eligible == {} then Ok(selected)
    else
      var id := FirstOf(q, eligible);
      var tx := q.entries[id].transaction;
      assert q.entries.Keys - (included + {id}) < q.entries.Keys - included by { assert id in q.entries.Keys - included; }
      SmallerSet(q.entries.Keys - (included + {id}), q.entries.Keys - included);
      var next :- Spend(working, tx);
      if |selected| + 1 >= maximum then Ok(selected + [tx])
      else SelectFrom(env, q, next, selected + [tx], included + {id}, maximum)
  }

  lemma SmallerSet<T>(a: set<T>, b: set<T>)
    requires a < b
    ensures |a| < |b|
  {
    assert b == a + (b - a);
    assert b - a != {};
  }

  ghost function Select(env: Env, q: Queue, l: Ledger, maximum: nat): Result<seq<Transaction>, ConsensusError>
    requires EntriesOk(env, q)
  {
    SelectFrom(env, q, l, [], {}, maximum)
  }

  /** `upper` is at least as rich as `lower` everywhere, with the same nonces and in-range money. */
  ghost predicate Above(upper: Ledger, lower: Ledger) {
    && (forall a: Address :: AccountOf(upper, a).nonce == AccountOf(lower, a).nonce && AccountOf(upper, a).balance >= AccountOf(lower, a).balance)
    && BalanceTotal(upper) <= MAX_MONEY
  }

  lemma SpendIsApply(env: Env, l: Ledger, tx: Transaction, seen: set<Hash>)
    requires Relayable(env, tx) && env.txId(tx) !in seen && CanSpend(l, tx)
    ensures Spend(l, tx) == ApplyOne(env, l, tx, seen)
  {
  }

  /** A payment its sender can make goes through wherever there is at most MAX_MONEY. */
  lemma SpendSucceeds(l: Ledger, tx: Transaction)
    requires tx.amount <= MAX_MONEY && tx.fee <= MAX_MONEY && tx.nonce < U64_MAX && CanSpend(l, tx) && BalanceTotal(l) <= MAX_MONEY
    ensures Spend(l, tx).Ok?
  {
    var debited := Debit(l, tx.sender, Debited(tx)).value;
    DebitTotal(l, tx.sender, Debited(tx));
    if tx.sender == tx.recipient {
      BalanceBelowTotal(l, tx.sender);
      SpendToSelf(l, tx);
    } else {
      RecipientBelow(l, debited, tx);
    }
  }

  lemma SpendToSelf(l: Ledger, tx: Transaction)
    requires tx.sender == tx.recipient && Debited(tx) <= U64_MAX && Debit(l, tx.sender, Debited(tx)).Ok?
    ensures AccountOf(Debit(l, tx.sender, Debited(tx)).value, tx.recipient).balance + tx.amount <= AccountOf(l, tx.sender).balance
  {
  }

  lemma RecipientBelow(l: Ledger, debited: Ledger, tx: Transaction)
    requires Debited(tx) <= U64_MAX && Debit(l, tx.sender, Debited(tx)) == Ok(debited)
    requires BalanceTotal(debited) + Debited(tx) == BalanceTotal(l) <= MAX_MONEY
    ensures AccountOf(debited, tx.recipient).balance + tx.amount <= MAX_MONEY
  {
    BalanceBelowTotal(debited, tx.recipient);
  }

  /** The state a selection was planned on, the matured state it is applied to, and the plan so far. */
  ghost predicate Planned(env: Env, start: Ledger, working: Ledger, selected: seq<Transaction>, included: set<Hash>) {
    && BalanceTotal(start) <= MAX_MONEY && BalanceTotal(working) <= MAX_MONEY
    && included == IdSet(env, selected)
    && ApplyTransactions(env, start, selected).Ok?
    && Above(ApplyTransactions(env, start, selected).value.0, working)
  }

  lemma AboveAfter(env: Env, upper: Ledger, lower: Ledger, tx: Transaction, seen: set<Hash>)
    requires Above(upper, lower) && BalanceTotal(lower) <= MAX_MONEY
    requires Relayable(env, tx) && env.txId(tx) !in seen && CanSpend(lower, tx)
    ensures Spend(lower, tx).Ok? && BalanceTotal(Spend(lower, tx).value) <= MAX_MONEY
    ensures ApplyOne(env, upper, tx, seen).Ok?
    ensures Above(ApplyOne(env, upper, tx, seen).value, Spend(lower, tx).value)
  {
    assert CanSpend(upper, tx);
    SpendIsApply(env, upper, tx, seen);
    SpendIsApply(env, lower, tx, seen);
    assert tx.amount <= MAX_MONEY && tx.fee <= MAX_MONEY;
    SpendSucceeds(upper, tx);
    SpendSucceeds(lower, tx);
    hide Spend, ApplyOne, BalanceTotal, CanSpend, Relayable, SatAdd64;
    ApplyOneEffect(env, upper, tx, seen);
    ApplyOneEffect(env, lower, tx, seen);
    ApplyOneTotal(env, upper, tx, seen);
    ApplyOneTotal(env, lower, tx, seen);
    AboveBy(upper, lower, ApplyOne(env, upper, tx, seen).value, ApplyOne(env, lower, tx, seen).value, tx);
  }

  lemma AboveBy(upper: Ledger, lower: Ledger, u: Ledger, v: Ledger, tx: Transaction)
    requires Above(upper, lower) && BalanceTotal(u) <= MAX_MONEY
    requires forall a: Address :: AccountOf(u, a).nonce == AccountOf(upper, a).nonce + if a == tx.sender then 1 else 0
    requires forall a: Address :: AccountOf(v, a).nonce == AccountOf(lower, a).nonce + if a == tx.sender then 1 else 0
    requires forall a: Address :: AccountOf(u, a).balance + (if a == tx.sender then tx.amount + tx.fee else 0)
                                  == AccountOf(upper, a).balance + if a == tx.recipient then tx.amount else 0
    requires forall a: Address :: AccountOf(v, a).balance + (if a == tx.sender then tx.amount + tx.fee else 0)
                                  == AccountOf(lower, a).balance + if a == tx.recipient then tx.amount else 0
    ensures Above(u, v)
  {
    hide AccountOf, BalanceTotal;
    forall a: Address ensures AccountOf(u, a).nonce == AccountOf(v, a).nonce && AccountOf(u, a).balance >= AccountOf(v, a).balance {
      assert AccountOf(upper, a).nonce == AccountOf(lower, a).nonce && AccountOf(upper, a).balance >= AccountOf(lower, a).balance;
    }
  }

  lemma PlannedStep(env: Env, start: Ledger, working: Ledger, selected: seq<Transaction>, included: set<Hash>, tx: Transaction)
    requires Planned(env, start, working, selected, included)
    requires Relayable(env, tx) && env.txId(tx) !in included && CanSpend(working, tx)
    ensures Spend(working, tx).Ok?
    ensures Planned(env, start, Spend(working, tx).value, selected + [tx], included + {env.txId(tx)})
  {
    hide Relayable, CanSpend, Spend, Above, BalanceTotal;
    var upper := ApplyTransactions(env, start, selected).value.0;
    AboveAfter(env, upper, working, tx, included);
    ApplyEffect(env, start, selected);
    ApplyOneTotal(env, upper, tx, included);
    var txs := selected + [tx];
    assert txs[..|txs| - 1] == selected && txs[|txs| - 1] == tx;
    assert IdSet(env, txs) == included + {env.txId(tx)} by {
      assert forall x :: x in txs <==> x in selected || x == tx;
    }
  }

  lemma RelayableSpends(env: Env, tx: Transaction)
    requires Relayable(env, tx)
    ensures Debited(tx) <= U64_MAX && tx.nonce < U64_MAX
  {
  }

  /** Planning runs to its end without a failed `expect`, and the plan is accepted. */
  lemma {:induction false} SelectFromPlans(env: Env, q: Queue, start: Ledger, working: Ledger, selected: seq<Transaction>, included: set<Hash>, maximum: nat)
    requires EntriesOk(env, q) && Planned(env, start, working, selected, included)
    ensures SelectFrom(env, q, working, selected, included, maximum).Ok?
    ensures ApplyTransactions(env, start, SelectFrom(env, q, working, selected, included, maximum).value).Ok?
    decreases |q.entries.Keys - included|
  {
    hide ApplyTransactions, Spend, CanSpend, Relayable, IdSet, Above, BalanceTotal;
    var eligible := Eligible(q, working, included);
    if eligible != {} {
      var id := FirstOf(q, eligible);
      var tx := q.entries[id].transaction;
      assert id in q.entries.Keys - included;
      SmallerSet(q.entries.Keys - (included + {id}), q.entries.Keys - included);
      RelayableSpends(env, tx);
      PlannedStep(env, start, working, selected, included, tx);
      if |selected| + 1 < maximum {
        SelectFromPlans(env, q, start, Spend(working, tx).value, selected + [tx], included + {id}, maximum);
      }
    }
  }

  lemma PlannedOnMatured(env: Env, l: Ledger, height: u64)
    requires Total(l) <= MAX_MONEY
    ensures Mature(l, height).Ok?
    ensures Planned(env, Mature(l, height).value, l, [], {})
  {
    MatureEachSucceeds(l, height, InAddressOrder(Matured(l, height)));
    MatureMoves(l, height);
    var start := Mature(l, height).value;
    hide Mature, BalanceTotal, PendingTotal, ApplyOne, AccountOf, PendingOf;
    assert BalanceTotal(start) <= Total(start) && BalanceTotal(l) <= Total(l);
    assert ApplyTransactions(env, start, []) == Ok((start, 0));
    assert IdSet(env, []) == {};
    assert Above(start, l);
  }

  /** The selection made on the parent's state is accepted in sequence on the matured one. */
  lemma SelectionIsAccepted(env: Env, q: Queue, l: Ledger, height: u64, maximum: nat)
    requires EntriesOk(env, q) && Total(l) <= MAX_MONEY
    ensures Mature(l, height).Ok?
    ensures Select(env, q, l, maximum).Ok?
    ensures ApplyTransactions(env, Mature(l, height).value, Select(env, q, l, maximum).value).Ok?
  {
    hide Mature, Planned, ApplyTransactions, SelectFrom, EntriesOk;
    PlannedOnMatured(env, l, height);
    SelectFromPlans(env, q, Mature(l, height).value, l, [], {}, maximum);
  }

  lemma IndexedEntriesOk(env: Env, q: Queue)
    requires Indexed(env, q)
    ensures EntriesOk(env, q)
  {
    forall id | id in q.entries ensures env.txId(q.entries[id].transaction) == id && Relayable(env, q.entries[id].transaction) {
      assert EntryOk(env, q, id);
    }
  }

  // ------------------------------------------------------------------------------ runs

  /** Each arrival meets the ledger of its moment. */
  datatype QueueEvent =
    | AcceptEvent(tx: Transaction, ledger: Ledger, now: nat)
    | ExpireEvent(now: nat)
    | ConfirmEvent(txs: seq<Transaction>)

  ghost function QueueStep(env: Env, policy: RelayPolicy, q: Queue, e: QueueEvent): Queue
    requires Indexed(env, q)
  {
    match e
    case AcceptEvent(tx, l, now) => Accept(env, policy, q, l, tx, now).0
    case ExpireEvent(now) => ExpireAndTrim(policy, q, now)
    case ConfirmEvent(txs) => RemoveEach(q, TransactionIds(env, txs))
  }

  /** Arrivals, if any, are checked against this ledger. */
  predicate Meets(e: QueueEvent, l: Ledger) {
    e.AcceptEvent? ==> e.ledger == l
  }

  lemma StepKeeps(env: Env, policy: RelayPolicy, l: Ledger, q: Queue, e: QueueEvent)
    requires QueueOk(env, policy, q)
    ensures QueueOk(env, policy, QueueStep(env, policy, q, e))
    ensures Meets(e, l) && FundedBy(q, l) ==> FundedBy(QueueStep(env, policy, q, e), l)
  {
    hide Indexed, FundedBy, Accept, ExpireAndTrim, RemoveEach;
    match e {
      case AcceptEvent(tx, m, now) => AcceptKeeps(env, policy, m, q, tx, now);
      case ExpireEvent(now) => ExpireKeeps(env, policy, l, q, now);
      case ConfirmEvent(txs) => RemoveEachKeeps(env, l, q, TransactionIds(env, txs));
    }
  }

  /** Any run of arrivals, expiries and confirmations, across any changes of ledger: the index stays in
      bijection with the entries, the bytes are their sizes and stay within the limit. */
  ghost function QueueRun(env: Env, policy: RelayPolicy, events: seq<QueueEvent>): (q: Queue)
    ensures QueueOk(env, policy, q)
  {
    if events == [] then
      EmptyIsIndexed(env);
      EMPTY_QUEUE
    else
      var before, e := QueueRun(env, policy, events[..|events| - 1]), events[|events| - 1];
      StepKeeps(env, policy, EMPTY_LEDGER, before, e);
      QueueStep(env, policy, before, e)
  }

  /** While the ledger stays the same, what it funded stays funded: from the start of a run, or from any
      point at which the pool was funded. */
  lemma {:induction false} RunKeepsFunded(env: Env, policy: RelayPolicy, l: Ledger, events: seq<QueueEvent>, from: nat)
    requires from <= |events| && FundedBy(QueueRun(env, policy, events[..from]), l)
    requires forall i :: from <= i < |events| ==> Meets(events[i], l)
    ensures FundedBy(QueueRun(env, policy, events), l)
    decreases |events|
  {
    hide FundedBy, QueueStep, QueueOk, Meets;
    if from == |events| {
      assert events[..from] == events;
    } else {
      var front := events[..|events| - 1];
      assert front[..from] == events[..from];
      RunKeepsFunded(env, policy, l, front, from);
      StepKeeps(env, policy, l, QueueRun(env, policy, front), events[|events| - 1]);
    }
  }

  lemma EmptyIsFunded(l: Ledger)
    ensures FundedBy(EMPTY_QUEUE, l)
  {
  }

  // ------------------------------------------------------------------------- the class

  class Mempool {
    const env: Env
    const policy: RelayPolicy
    var entries: map<Hash, Entry>
    var bySenderNonce: map<Slot, Hash>
    var held: nat

    function View(): Queue
      reads this
    {
      Queue(entries, bySenderNonce, held)
    }

    constructor (env: Env, policy: RelayPolicy)
      ensures this.env == env && this.policy == policy && View() == EMPTY_QUEUE
    {
      this.env, this.policy := env, policy;
      entries, bySenderNonce, held := map[], map[], 0;
    }

    method RemoveEntry(id: Hash)
      modifies this
      ensures View() == Remove(old(View()), id)
    {
      if id in entries {
        var e := entries[id];
        entries := entries - {id};
        held := SatSub(held, e.size);
        bySenderNonce := bySenderNonce - {SlotOf(e.transaction)};
      }
    }

    method RemoveConfirmed(txs: seq<Transaction>)
      modifies this
      ensures View() == RemoveEach(old(View()), TransactionIds(env, txs))
    {
      RemoveListed(TransactionIds(env, txs));
    }

    /** `sender_is_funded`: the index is walked from the account nonce while it is contiguous. */
    method SenderIsFunded(sender: Address, l: Ledger) returns (ok: bool)
      requires LooksUp(View())
      ensures ok == Funded(View(), l, sender)
    {
      var nonce := AccountOf(l, sender).nonce;
      var balance: nat := AccountOf(l, sender).balance;
      while true
        invariant FundedFrom(View(), sender, nonce, balance) == Funded(View(), l, sender)
        decreases U64_MAX - nonce
      {
        var slot := Slot(sender, nonce);
        if slot !in bySenderNonce {
          return true;
        }
        var needed := Debited(entries[bySenderNonce[slot]].transaction);
        if needed > U64_MAX || needed > balance {
          return false;
        }
        balance := balance - needed;
        if nonce == U64_MAX {
          return true;
        }
        nonce := nonce + 1;
      }
    }

    /** The minimum of the hash table by fee rate, scanned in an arbitrary order. */
    method FindLowest() returns (lowest: Hash)
      requires entries != map[]
      ensures FirstBy(Lower, View(), entries.Keys, lowest)
    {
      OrdersAreStrict();
      hide Lower;
      var todo := entries.Keys;
      lowest :| lowest in todo;
      todo := todo - {lowest};
      while todo != {}
        invariant todo <= entries.Keys && lowest in entries
        invariant FirstBy(Lower, View(), entries.Keys - todo, lowest)
        decreases |todo|
      {
        var id :| id in todo;
        OrdersAreTotal(View(), lowest, id);
        if Lower((id, entries[id]), (lowest, entries[lowest])) {
          lowest := id;
        }
        todo := todo - {id};
      }
      assert entries.Keys - todo == entries.Keys;
    }

    method TrimToLimit()
      modifies this
      ensures View() == Trim(old(View()), policy.maxBytes)
    {
      hide Lower, Remove;
      while held > policy.maxBytes
        invariant Trim(View(), policy.maxBytes) == Trim(old(View()), policy.maxBytes)
        decreases |entries|
      {
        if entries == map[] {
          break;
        }
        var id := FindLowest();
        OrdersAreStrict();
        FirstUnique(Lower, View(), entries.Keys, id, Lowest(View()));
        RemovedIsSmaller(View(), id);
        RemoveEntry(id);
      }
    }

    /** The expired ids, gathered in an arbitrary order. */
    method GatherExpired(now: nat) returns (expired: seq<Hash>)
      ensures Elements(expired) == Expired(policy, View(), now)
    {
      expired := [];
      var todo := Expired(policy, View(), now);
      ghost var all := todo;
      while todo != {}
        invariant todo <= all && Elements(expired) == all - todo
        decreases |todo|
      {
        var id :| id in todo;
        assert forall x :: x in expired + [id] <==> x in expired || x == id;
        assert Elements(expired + [id]) == Elements(expired) + {id};
        assert all - (todo - {id}) == (all - todo) + {id};
        expired := expired + [id];
        todo := todo - {id};
      }
    }

    method RemoveListed(ids: seq<Hash>)
      modifies this
      ensures View() == RemoveEach(old(View()), ids)
    {
      hide Remove;
      for i := 0 to |ids|
        invariant View() == RemoveEach(old(View()), ids[..i])
      {
        assert ids[..i + 1][..i] == ids[..i];
        RemoveEntry(ids[i]);
      }
      assert ids[..|ids|] == ids;
    }

    /** `expire_and_trim`. */
    method ExpireAndTrimNow(now: nat)
      requires Indexed(env, View())
      modifies this
      ensures View() == ExpireAndTrim(policy, old(View()), now)
    {
      hide Indexed, RemoveEach, Trim, Expired;
      ghost var q := View();
      var expired := GatherExpired(now);
      RemoveListed(expired);
      ghost var order := Sorted(Expired(policy, q, now));
      assert Elements(order) == Expired(policy, q, now);
      RemovalsCommute(env, q, expired, order);
      TrimToLimit();
    }

    /** `accept`. */
    method AcceptTransaction(tx: Transaction, state: LedgerState, now: nat) returns (r: Result<Hash, MempoolError>)
      requires Indexed(env, View())
      modifies this
      ensures (View(), r) == Accept(env, policy, old(View()), old(state.View()), tx, now)
    {
      hide Indexed, Remove, ExpireAndTrim, ValidateForRelay, RequiredFee, LooksUp, Funded;
      ghost var q, l := View(), state.View();
      IndexedLooksUp(env, q);
      LooksUpAt(q, tx);
      var relay := ValidateForRelay(env, policy, state.View(), tx);
      if relay.Err? {
        return Err(relay.error);
      }
      var id := env.txId(tx);
      if id in entries {
        return Ok(id);
      }
      var slot := SlotOf(tx);
      if slot in bySenderNonce {
        var existing := bySenderNonce[slot];
        if tx.fee < RequiredFee(policy, entries[existing].transaction) {
          return Err(ReplacementFee);
        }
        RemoveEntry(existing);
      }
      assert View() == Replaced(q, tx);
      AddKeepsIndexed(env, policy, l, q, tx, now);
      var e := NewEntry(tx, now);
      held := held + e.size;
      bySenderNonce := bySenderNonce[slot := id];
      entries := entries[id := e];
      assert View() == Add(Replaced(q, tx), id, e);
      IndexedLooksUp(env, View());
      var funded := SenderIsFunded(tx.sender, state.View());
      if !funded {
        RemoveEntry(id);
        return Err(Balance);
      }
      ExpireAndTrimNow(now);
      return Ok(id);
    }

    /** The candidates that can be spent now, collected in an arbitrary order and sorted. */
    method FirstCandidate(working: Ledger, included: set<Hash>) returns (best: Option<Hash>)
      ensures best.None? <==> Eligible(View(), working, included) == {}
      ensures best.Some? ==> FirstBy(Prior, View(), Eligible(View(), working, included), best.value)
    {
      var eligible := Eligible(View(), working, included);
      var candidates: seq<(Hash, Entry)> := [];
      var todo := eligible;
      while todo != {}
        invariant todo <= eligible && (todo == eligible || candidates != [])
        invariant forall c :: c in candidates ==> c.0 in eligible - todo && c.1 == entries[c.0]
        invariant forall id :: id in eligible - todo ==> (id, entries[id]) in candidates
        invariant forall i, j :: 0 <= i < j < |candidates| ==> candidates[i].0 != candidates[j].0
        decreases |todo|
      {
        var id :| id in todo;
        candidates := candidates + [(id, entries[id])];
        todo := todo - {id};
      }
      if candidates == [] {
        return None;
      }
      assert candidates[0] in candidates;
      SortedFirst(View(), eligible, candidates);
      return Some(SortBy(Prior, candidates)[0].0);
    }

    /** `select`: the working state is spent from in place; no `expect` can fail. */
    method SelectBest(state: LedgerState, maximum: nat) returns (selected: seq<Transaction>)
      requires Indexed(env, View()) && state.Valid() && state.env == env
      requires Total(state.View()) <= MAX_MONEY
      ensures (IndexedEntriesOk(env, View()); Select(env, View(), state.View(), maximum) == Ok(selected))
    {
      hide LedgerState.Valid, Indexed, Prior, Spend, CanSpend, Planned, Relayable, SelectFrom;
      IndexedEntriesOk(env, View());
      ghost var q := View();
      var working := new LedgerState.Clone(state);
      selected := [];
      var included: set<Hash> := {};
      PlannedAtStart(env, state.View());
      while true
        invariant working.Valid() && fresh(working) && fresh(working.tree) && View() == q
        invariant included <= entries.Keys
        invariant Planned(env, state.View(), working.View(), selected, included)
        invariant SelectFrom(env, q, working.View(), selected, included, maximum) == Select(env, q, state.View(), maximum)
        decreases |entries.Keys - included|
      {
        var best := FirstCandidate(working.View(), included);
        if best.None? {
          SelectEnds(env, q, working.View(), selected, included, maximum);
          break;
        }
        var id := best.value;
        var tx := entries[id].transaction;
        ChosenStep(env, q, state.View(), working.View(), selected, included, id);
        SelectUnfolds(env, q, working.View(), selected, included, maximum, id);
        SpendInPlace(working, tx);
        included := included + {id};
        selected := selected + [tx];
        if |selected| >= maximum {
          break;
        }
      }
    }
  }

  lemma RemovedIsSmaller(q: Queue, id: Hash)
    requires id in q.entries
    ensures |Remove(q, id).entries| < |q.entries|
  {
    assert (q.entries - {id}).Keys == q.entries.Keys - {id};
  }

  lemma LooksUpAt(q: Queue, tx: Transaction)
    requires LooksUp(q)
    ensures SlotOf(tx) in q.index ==> q.index[SlotOf(tx)] in q.entries
  {
  }

  lemma SortedFirst(q: Queue, eligible: set<Hash>, candidates: seq<(Hash, Entry)>)
    requires eligible <= q.entries.Keys && candidates != []
    requires forall c :: c in candidates ==> c.0 in eligible && c.1 == q.entries[c.0]
    requires forall id :: id in eligible ==> (id, q.entries[id]) in candidates
    requires forall i, j :: 0 <= i < j < |candidates| ==> candidates[i].0 != candidates[j].0
    ensures FirstBy(Prior, q, eligible, SortBy(Prior, candidates)[0].0)
  {
    OrdersAreStrict();
    hide Prior, SortBy;
    forall i, j | 0 <= i < j < |candidates| ensures Prior(candidates[i], candidates[j]) || Prior(candidates[j], candidates[i]) {
      assert candidates[i] in candidates && candidates[j] in candidates;
      OrdersAreTotal(q, candidates[i].0, candidates[j].0);
    }
    SortBySorts(Prior, candidates);
    var sorted := SortBy(Prior, candidates);
    SameElements(sorted, candidates);
    var first := sorted[0];
    assert first in candidates;
    forall x | x in eligible && x != first.0 ensures Prior((first.0, q.entries[first.0]), (x, q.entries[x])) {
      assert (x, q.entries[x]) in sorted;
      FirstIsLeast(Prior, sorted, (x, q.entries[x]));
    }
  }

  lemma PlannedAtStart(env: Env, l: Ledger)
    requires Total(l) <= MAX_MONEY
    ensures Planned(env, l, l, [], {})
  {
    assert ApplyTransactions(env, l, []) == Ok((l, 0));
    assert IdSet(env, []) == {};
  }

  lemma ChosenStep(env: Env, q: Queue, start: Ledger, working: Ledger, selected: seq<Transaction>, included: set<Hash>, id: Hash)
    requires EntriesOk(env, q) && Planned(env, start, working, selected, included)
    requires id in Eligible(q, working, included)
    ensures var tx := q.entries[id].transaction;
            && Debited(tx) <= U64_MAX && tx.nonce < U64_MAX && id !in included
            && Spend(working, tx).Ok?
            && Planned(env, start, Spend(working, tx).value, selected + [tx], included + {id})
  {
    hide Planned, Spend, CanSpend, Relayable;
    var tx := q.entries[id].transaction;
    RelayableSpends(env, tx);
    PlannedStep(env, start, working, selected, included, tx);
  }

  lemma SelectEnds(env: Env, q: Queue, working: Ledger, selected: seq<Transaction>, included: set<Hash>, maximum: nat)
    requires EntriesOk(env, q) && Eligible(q, working, included) == {}
    ensures SelectFrom(env, q, working, selected, included, maximum) == Ok(selected)
  {
  }

  lemma SelectUnfolds(env: Env, q: Queue, working: Ledger, selected: seq<Transaction>, included: set<Hash>, maximum: nat, id: Hash)
    requires EntriesOk(env, q) && Eligible(q, working, included) != {}
    requires FirstBy(Prior, q, Eligible(q, working, included), id)
    requires var tx := q.entries[id].transaction; Debited(tx) <= U64_MAX && tx.nonce < U64_MAX && Spend(working, tx).Ok?
    ensures var tx := q.entries[id].transaction;
            SelectFrom(env, q, working, selected, included, maximum)
            == if |selected| + 1 >= maximum then Ok(selected + [tx])
               else SelectFrom(env, q, Spend(working, tx).value, selected + [tx], included + {id}, maximum)
    ensures |q.entries.Keys - (included + {id})| < |q.entries.Keys - included|
  {
    OrdersAreStrict();
    hide Prior, Spend, CanSpend, Relayable;
    FirstUnique(Prior, q, Eligible(q, working, included), id, FirstOf(q, Eligible(q, working, included)));
    assert id in q.entries.Keys - included;
    SmallerSet(q.entries.Keys - (included + {id}), q.entries.Keys - included);
  }

  /** Debit, credit and nonce of a payment known to succeed. */
  method SpendInPlace(working: LedgerState, tx: Transaction)
    requires working.Valid() && Debited(tx) <= U64_MAX && tx.nonce < U64_MAX
    requires Spend(working.View(), tx).Ok?
    modifies working, working.tree
    ensures working.Valid()
    ensures Spend(old(working.View()), tx) == Ok(working.View())
  {
    hide LedgerState.Valid, Debit, Credit, SetNonce;
    var debited := working.DebitAccount(tx.sender, Debited(tx));
    assert debited.Ok?;
    var credited := working.CreditAccount(tx.recipient, tx.amount);
    assert credited.Ok?;
    working.WriteNonce(tx.sender, tx.nonce + 1);
  }
}
