/** With collision-free hashing a block id fixes the whole block: the header encoding is injective,
    the Merkle root fixes claim and transactions, and the witness root fixes the witness. */
module Binding {
  import opened Base
  import opened Params
  import opened Bytes
  import opened Difficulty
  import opened Types
  import opened Codec
  import opened Encoding
  import opened Merkle
  import opened Validation
  import opened ForkChoice

  // ------------------------------------------------------------------------- hashing

  datatype Domain = TxId | ClaimId | TemplateId | WorkshareId | WitnessRoot | MerkleEmpty | HeaderId

  /** What is hashed: tagged bytes, or the two children of a Merkle node. */
  datatype Preimage = Tagged(domain: Domain, data: bytes) | Pair(left: Hash, right: Hash)

  /** The ids of the consensus objects are hashes of their encodings under separate domains. */
  ghost predicate Hashes(env: Env, hash: Preimage -> Hash) {
    && (forall tx :: env.txId(tx) == hash(Tagged(TxId, EncodeTransaction(env.checksum, tx))))
    && (forall claim :: env.claimId(claim) == hash(Tagged(ClaimId, EncodeClaim(env.checksum, claim))))
    && (forall h :: env.headerId(h) == hash(Tagged(HeaderId, EncodeHeader(h))))
    && (forall t :: env.templateId(t) == hash(Tagged(TemplateId, EncodeTemplate(env.checksum, t))))
    && (forall s :: env.shareId(s) == hash(Tagged(WorkshareId, EncodeShare(env.checksum, s))))
    && (forall w :: env.witnessRoot(w) == hash(Tagged(WitnessRoot, EncodeWitness(env.checksum, w))))
    && (forall a, b :: env.merkleNode(a, b) == hash(Pair(a, b)))
    && env.merkleEmpty == hash(Tagged(MerkleEmpty, []))
  }

  ghost predicate NoCollisions(hash: Preimage -> Hash) {
    forall p, q :: hash(p) == hash(q) ==> p == q
  }

  // ------------------------------------------------------------ encodings that separate

  /** Even when followed by other bytes, an encoding tells which value it is. */
  ghost predicate Separates<T(!new)>(ok: T -> bool, encode: T -> bytes) {
    forall x, y, r, t :: ok(x) && ok(y) && encode(x) + r == encode(y) + t ==> x == y && r == t
  }

  lemma RoundTripSeparates<T(!new)>(ok: T -> bool, encode: T -> bytes, decode: bytes -> Parsed<T>)
    requires RoundTrips(ok, encode, decode)
    ensures Separates(ok, encode)
  {
    forall x, y, r, t | ok(x) && ok(y) && encode(x) + r == encode(y) + t ensures x == y && r == t {
      assert decode(encode(x) + r) == Ok((x, r));
      assert decode(encode(y) + t) == Ok((y, t));
    }
  }

  lemma FrameSeparates<T(!new)>(ok: T -> bool, encode: T -> bytes)
    requires Separates(ok, encode)
    ensures Separates(Fits(ok, encode, MAX_CONSENSUS_ALLOCATION), Frame(encode))
  {
    hide LE, ReadBytes;
    forall x, y, r, t | Fits(ok, encode, MAX_CONSENSUS_ALLOCATION)(x) && Fits(ok, encode, MAX_CONSENSUS_ALLOCATION)(y)
                        && Frame(encode)(x) + r == Frame(encode)(y) + t
      ensures x == y && r == t
    {
      BytesRoundTrip(encode(x), MAX_CONSENSUS_ALLOCATION, r);
      BytesRoundTrip(encode(y), MAX_CONSENSUS_ALLOCATION, t);
      assert encode(x) + [] == encode(y) + [];
    }
  }

  lemma {:induction false} ConcatSeparates<T(!new)>(ok: T -> bool, encode: T -> bytes, xs: seq<T>, ys: seq<T>, r: bytes, t: bytes)
    requires Separates(ok, encode) && |xs| == |ys|
    requires (forall x :: x in xs ==> ok(x)) && (forall y :: y in ys ==> ok(y))
    requires Concat(encode, xs) + r == Concat(encode, ys) + t
    ensures xs == ys && r == t
    decreases |xs|
  {
    if xs == [] {
      assert Concat(encode, xs) + r == r && Concat(encode, ys) + t == t;
    } else {
      var p, q := Concat(encode, xs[1..]) + r, Concat(encode, ys[1..]) + t;
      assert Concat(encode, xs) + r == encode(xs[0]) + p;
      assert Concat(encode, ys) + t == encode(ys[0]) + q;
      assert ok(xs[0]) && ok(ys[0]);
      ConcatSeparates(ok, encode, xs[1..], ys[1..], r, t);
      assert xs == [xs[0]] + xs[1..] && ys == [ys[0]] + ys[1..];
    }
  }

  /** Elements within the allocation limit, in a list whose count fits the prefix. */
  ghost predicate Listable<T>(ok: T -> bool, encode: T -> bytes, xs: seq<T>) {
    |xs| < 0x1_0000_0000 && forall x :: x in xs ==> Fits(ok, encode, MAX_CONSENSUS_ALLOCATION)(x)
  }

  lemma VectorSeparates<T(!new)>(ok: T -> bool, encode: T -> bytes, xs: seq<T>, ys: seq<T>, r: bytes, t: bytes)
    requires Separates(ok, encode) && Listable(ok, encode, xs) && Listable(ok, encode, ys)
    requires Vector(encode, xs) + r == Vector(encode, ys) + t
    ensures xs == ys && r == t
  {
    FrameSeparates(ok, encode);
    var p, q := Concat(Frame(encode), xs) + r, Concat(Frame(encode), ys) + t;
    assert Vector(encode, xs) + r == LE(|xs|, 4) + p;
    assert Vector(encode, ys) + t == LE(|ys|, 4) + q;
    U32RoundTrip(|xs|, p);
    U32RoundTrip(|ys|, q);
    ConcatSeparates(Fits(ok, encode, MAX_CONSENSUS_ALLOCATION), Frame(encode), xs, ys, r, t);
  }

  // ----------------------------------------------------------------------- transactions

  predicate TransactionBounded(tx: Transaction) {
    TransactionSize(tx) <= MAX_CONSENSUS_ALLOCATION
  }

  /** The reads of the transaction decoder without its limits. */
  function ReadTransaction(c: Checksum, s: bytes): Parsed<Transaction> {
    var (version, s) :- ReadU16(s);
    var (sender, s) :- DecodeAddress(c, s);
    var (recipient, s) :- DecodeAddress(c, s);
    var (amount, s) :- ReadU64(s);
    var (fee, s) :- ReadU64(s);
    var (nonce, s) :- ReadU64(s);
    var (publicKey, s) :- ReadBytes(s, MAX_CONSENSUS_ALLOCATION);
    var (signature, s) :- ReadBytes(s, MAX_CONSENSUS_ALLOCATION);
    Ok((Transaction(version, sender, recipient, amount, fee, nonce, publicKey, signature), s))
  }

  lemma ReadsTransaction(c: Checksum, tx: Transaction, rest: bytes)
    requires TransactionBounded(tx)
    ensures ReadTransaction(c, EncodeTransaction(c, tx) + rest) == Ok((tx, rest))
  {
    hide LE, AddressBytes, Framed, ReadU16, ReadU64, ReadBytes, DecodeAddress;
    var s7 := Framed(tx.signature) + rest;
    var s6 := Framed(tx.publicKey) + s7;
    var s5 := LE(tx.nonce, 8) + s6;
    var s4 := LE(tx.fee, 8) + s5;
    var s3 := LE(tx.amount, 8) + s4;
    var s2 := AddressBytes(c, tx.recipient) + s3;
    var s1 := AddressBytes(c, tx.sender) + s2;
    assert EncodeTransaction(c, tx) + rest == LE(tx.version, 2) + s1;
    U16RoundTrip(tx.version, s1);
    AddressReads(c, tx.sender, s2);
    AddressReads(c, tx.recipient, s3);
    U64RoundTrip(tx.amount, s4);
    U64RoundTrip(tx.fee, s5);
    U64RoundTrip(tx.nonce, s6);
    BytesRoundTrip(tx.publicKey, MAX_CONSENSUS_ALLOCATION, s7);
    BytesRoundTrip(tx.signature, MAX_CONSENSUS_ALLOCATION, rest);
  }

  lemma TransactionSeparates(c: Checksum)
    ensures Separates(TransactionBounded, TransactionEncoder(c))
  {
    hide EncodeTransaction, ReadTransaction;
    var read := s => ReadTransaction(c, s);
    forall tx, rest | TransactionBounded(tx) ensures read(TransactionEncoder(c)(tx) + rest) == Ok((tx, rest)) {
      ReadsTransaction(c, tx, rest);
    }
    RoundTripSeparates(TransactionBounded, TransactionEncoder(c), read);
  }

  lemma {:induction false} TransactionsBounded(c: Checksum, txs: seq<Transaction>)
    requires TransactionsSize(txs) <= MAX_CONSENSUS_ALLOCATION
    ensures 4 * |txs| <= TransactionsSize(txs)
    ensures Listable(TransactionBounded, TransactionEncoder(c), txs)
  {
    if txs != [] {
      TransactionsBounded(c, txs[..|txs| - 1]);
      TransactionSizeIs(c, txs[|txs| - 1]);
      forall tx | tx in txs ensures Fits(TransactionBounded, TransactionEncoder(c), MAX_CONSENSUS_ALLOCATION)(tx) {
        assert tx == txs[|txs| - 1] || tx in txs[..|txs| - 1];
      }
    }
  }

  // ------------------------------------------------------------- templates and shares

  predicate TemplateBounded(t: BlockTemplate) {
    HashTyped(t.parent) && TemplateSize(t) <= MAX_CONSENSUS_ALLOCATION
  }

  function ReadTemplateHead(s: bytes): Parsed<(u16, u64, Hash)> {
    var (version, s) :- ReadU16(s);
    var (height, s) :- ReadU64(s);
    var (parent, s) :- DecodeHash(s);
    Ok(((version, height, parent), s))
  }

  lemma ReadsTemplateHead(c: Checksum, t: BlockTemplate, rest: bytes)
    requires HashTyped(t.parent)
    ensures ReadTemplateHead(EncodeTemplate(c, t) + rest)
            == Ok(((t.version, t.height, t.parent), EncodeTransactions(c, t.transactions) + rest))
  {
    hide LE, EncodeHash, EncodeTransactions, ReadU16, ReadU64, DecodeHash;
    var s3 := EncodeTransactions(c, t.transactions) + rest;
    var s2 := EncodeHash(t.parent) + s3;
    var s1 := LE(t.height, 8) + s2;
    assert EncodeTemplate(c, t) + rest == LE(t.version, 2) + s1;
    U16RoundTrip(t.version, s1);
    U64RoundTrip(t.height, s2);
    HashRoundTrip(t.parent, s3);
  }

  lemma TemplateSeparates(c: Checksum)
    ensures Separates(TemplateBounded, TemplateEncoder(c))
  {
    TransactionSeparates(c);
    hide EncodeTemplate, ReadTemplateHead, Vector, EncodeTransaction, Listable;
    forall x, y, r, t | TemplateBounded(x) && TemplateBounded(y) && TemplateEncoder(c)(x) + r == TemplateEncoder(c)(y) + t
      ensures x == y && r == t
    {
      ReadsTemplateHead(c, x, r);
      ReadsTemplateHead(c, y, t);
      TransactionsBounded(c, x.transactions);
      TransactionsBounded(c, y.transactions);
      VectorSeparates(TransactionBounded, TransactionEncoder(c), x.transactions, y.transactions, r, t);
    }
  }

  lemma {:induction false} TemplatesBounded(c: Checksum, ts: seq<BlockTemplate>)
    requires TemplatesSize(ts) <= MAX_CONSENSUS_ALLOCATION && forall t :: t in ts ==> HashTyped(t.parent)
    ensures 4 * |ts| <= TemplatesSize(ts)
    ensures Listable(TemplateBounded, TemplateEncoder(c), ts)
  {
    hide EncodeTemplate;
    if ts != [] {
      TemplatesBounded(c, ts[..|ts| - 1]);
      TemplateSizeIs(c, ts[|ts| - 1]);
      forall t | t in ts ensures Fits(TemplateBounded, TemplateEncoder(c), MAX_CONSENSUS_ALLOCATION)(t) {
        assert t == ts[|ts| - 1] || t in ts[..|ts| - 1];
      }
    }
  }

  // -------------------------------------------------------------------------- witness

  /** The witness encoding is injective far beyond the counts its decoder admits. */
  lemma WitnessEncodingInjective(c: Checksum, v: WorkshareWitness, w: WorkshareWitness)
    requires WitnessTyped(v) && WitnessTyped(w)
    requires WitnessSize(v) <= MAX_WORKSHARE_WITNESS_BYTES && WitnessSize(w) <= MAX_WORKSHARE_WITNESS_BYTES
    requires EncodeWitness(c, v) == EncodeWitness(c, w)
    ensures v == w
  {
    TemplateSeparates(c);
    ShareLaws(c);
    RoundTripSeparates(ShareOk, ShareEncoder(c), ShareDecoder(c));
    hide EncodeTemplate, EncodeShare, DecodeShare, Vector, LE, ReadU16, Separates, RoundTrips, Canonical;
    TemplatesBounded(c, v.templates);
    TemplatesBounded(c, w.templates);
    SharesListable(c, v);
    SharesListable(c, w);
    var r, t := Vector(ShareEncoder(c), v.workshares), Vector(ShareEncoder(c), w.workshares);
    U16RoundTrip(v.version, Vector(TemplateEncoder(c), v.templates) + r);
    U16RoundTrip(w.version, Vector(TemplateEncoder(c), w.templates) + t);
    VectorSeparates(TemplateBounded, TemplateEncoder(c), v.templates, w.templates, r, t);
    assert r + [] == t + [];
    VectorSeparates(ShareOk, ShareEncoder(c), v.workshares, w.workshares, [], []);
  }

  lemma SharesListable(c: Checksum, w: WorkshareWitness)
    requires WitnessTyped(w) && WitnessSize(w) <= MAX_WORKSHARE_WITNESS_BYTES
    ensures Listable(ShareOk, ShareEncoder(c), w.workshares)
  {
    hide EncodeShare;
    forall s | s in w.workshares ensures Fits(ShareOk, ShareEncoder(c), MAX_CONSENSUS_ALLOCATION)(s) {
      ShareSizeIs(c, s);
    }
  }

  // --------------------------------------------------------------------------- blocks

  lemma TransactionEncodingInjective(c: Checksum, x: Transaction, y: Transaction)
    requires TransactionBounded(x) && TransactionBounded(y) && EncodeTransaction(c, x) == EncodeTransaction(c, y)
    ensures x == y
  {
    TransactionSeparates(c);
    hide EncodeTransaction;
    assert TransactionEncoder(c)(x) + [] == TransactionEncoder(c)(y) + [];
  }

  lemma ClaimEncodingInjective(c: Checksum, x: RewardClaim, y: RewardClaim)
    requires EncodeClaim(c, x) == EncodeClaim(c, y)
    ensures x == y
  {
    ClaimRoundTrip(c, x, []);
    ClaimRoundTrip(c, y, []);
  }

  lemma HeaderEncodingInjective(x: BlockHeader, y: BlockHeader)
    requires HeaderTyped(x) && HeaderTyped(y) && EncodeHeader(x) == EncodeHeader(y)
    ensures x == y
  {
    HeaderRoundTrip(x, []);
    HeaderRoundTrip(y, []);
  }

  lemma DomainsSeparate(env: Env, hash: Preimage -> Hash, tx: Transaction, claim: RewardClaim)
    requires Hashes(env, hash) && NoCollisions(hash)
    ensures !IsNode(env, env.txId(tx)) && env.txId(tx) != env.merkleEmpty
    ensures !IsNode(env, env.claimId(claim)) && env.claimId(claim) != env.merkleEmpty
    ensures env.txId(tx) != env.claimId(claim)
  {
    hide EncodeTransaction, EncodeClaim, EncodeHeader, EncodeTemplate, EncodeShare, EncodeWitness;
  }

  lemma LeavesAreSeparate(env: Env, hash: Preimage -> Hash, claim: RewardClaim, txs: seq<Transaction>)
    requires Hashes(env, hash) && NoCollisions(hash) && Distinct(TransactionIds(env, txs))
    ensures Distinct(Leaves(env, Some(claim), txs))
    ensures LeavesSeparate(env, Leaves(env, Some(claim), txs))
  {
    hide Hashes, NoCollisions, IsNode;
    var ids := TransactionIds(env, txs);
    var leaves := Leaves(env, Some(claim), txs);
    assert leaves == [env.claimId(claim)] + ids;
    forall i | 0 <= i < |ids|
      ensures !IsNode(env, ids[i]) && ids[i] != env.merkleEmpty && ids[i] != env.claimId(claim)
      ensures !IsNode(env, env.claimId(claim)) && env.claimId(claim) != env.merkleEmpty
    {
      DomainsSeparate(env, hash, txs[i], claim);
    }
    if ids == [] {
      DomainsSeparate(env, hash, Transaction(0, 0, 0, 0, 0, 0, [], []), claim);
    }
    forall i | 0 <= i < |leaves| ensures !IsNode(env, leaves[i]) && leaves[i] != env.merkleEmpty {
      if i > 0 {
        assert leaves[i] == ids[i - 1];
      } else if ids != [] {
        assert !IsNode(env, ids[0]);
      }
    }
    forall i, j | 0 <= i < j < |leaves| ensures leaves[i] != leaves[j] {
      assert leaves[j] == ids[j - 1];
      assert i > 0 ==> leaves[i] == ids[i - 1];
    }
  }

  lemma TransactionIdBinds(env: Env, hash: Preimage -> Hash, p: Transaction, q: Transaction)
    requires Hashes(env, hash) && NoCollisions(hash) && TransactionBounded(p) && TransactionBounded(q)
    requires env.txId(p) == env.txId(q)
    ensures p == q
  {
    hide EncodeTransaction, EncodeClaim, EncodeHeader, EncodeTemplate, EncodeShare, EncodeWitness;
    TransactionEncodingInjective(env.checksum, p, q);
  }

  lemma ClaimIdBinds(env: Env, hash: Preimage -> Hash, p: RewardClaim, q: RewardClaim)
    requires Hashes(env, hash) && NoCollisions(hash) && env.claimId(p) == env.claimId(q)
    ensures p == q
  {
    hide EncodeTransaction, EncodeClaim, EncodeHeader, EncodeTemplate, EncodeShare, EncodeWitness;
    ClaimEncodingInjective(env.checksum, p, q);
  }

  lemma NodesAreInjective(env: Env, hash: Preimage -> Hash)
    requires Hashes(env, hash) && NoCollisions(hash)
    ensures NodesInjective(env) && !IsNode(env, env.merkleEmpty)
  {
  }

  lemma BodyTransactionsBounded(env: Env, b: Block)
    requires ValidBody(env, b)
    ensures forall i :: 0 <= i < |b.transactions| ==> TransactionBounded(b.transactions[i])
  {
    hide EncodeTransaction;
    TransactionsBounded(env.checksum, b.transactions);
    forall i | 0 <= i < |b.transactions| ensures TransactionBounded(b.transactions[i]) {
      assert b.transactions[i] in b.transactions;
      assert Fits(TransactionBounded, TransactionEncoder(env.checksum), MAX_CONSENSUS_ALLOCATION)(b.transactions[i]);
    }
  }

  /** Leaf lists determine claim and transactions. */
  lemma LeavesDetermine(env: Env, hash: Preimage -> Hash, p: RewardClaim, s: seq<Transaction>, q: RewardClaim, t: seq<Transaction>)
    requires Hashes(env, hash) && NoCollisions(hash)
    requires forall i :: 0 <= i < |s| ==> TransactionBounded(s[i])
    requires forall i :: 0 <= i < |t| ==> TransactionBounded(t[i])
    requires Leaves(env, Some(p), s) == Leaves(env, Some(q), t)
    ensures p == q && s == t
  {
    hide Hashes, NoCollisions, TransactionBounded;
    var x, y := Leaves(env, Some(p), s), Leaves(env, Some(q), t);
    assert x[0] == env.claimId(p) && y[0] == env.claimId(q);
    ClaimIdBinds(env, hash, p, q);
    assert |x| == |s| + 1 && |y| == |t| + 1;
    forall i | 0 <= i < |s| ensures s[i] == t[i] {
      assert x[i + 1] == env.txId(s[i]) && y[i + 1] == env.txId(t[i]);
      TransactionIdBinds(env, hash, s[i], t[i]);
    }
  }

  /** Same Merkle root, same claim and transactions. */
  lemma RootBindsTransactions(env: Env, hash: Preimage -> Hash, b: Block, d: Block)
    requires Hashes(env, hash) && NoCollisions(hash) && ValidBody(env, b) && ValidBody(env, d)
    requires TransactionRoot(env, b) == TransactionRoot(env, d)
    ensures b.rewardClaim == d.rewardClaim && b.transactions == d.transactions
  {
    NodesAreInjective(env, hash);
    BodyTransactionsBounded(env, b);
    BodyTransactionsBounded(env, d);
    hide Hashes, NoCollisions, TransactionBounded, MerkleRoot, LeavesSeparate, NodesInjective, IsNode, Distinct, WitnessShapeOk, BlockTyped, Leaves;
    var p, q := b.rewardClaim.value, d.rewardClaim.value;
    LeavesAreSeparate(env, hash, p, b.transactions);
    LeavesAreSeparate(env, hash, q, d.transactions);
    MerkleRootInjective(env, Leaves(env, Some(p), b.transactions), Leaves(env, Some(q), d.transactions));
    LeavesDetermine(env, hash, p, b.transactions, q, d.transactions);
  }

  /** Blocks that passed validation and have the same id are the same block. */
  lemma IdBindsBlock(env: Env, hash: Preimage -> Hash, b: Block, d: Block)
    requires Hashes(env, hash) && NoCollisions(hash) && ValidBody(env, b) && ValidBody(env, d)
    requires BlockId(env, b) == BlockId(env, d)
    ensures b == d
  {
    hide EncodeTransaction, EncodeClaim, EncodeHeader, EncodeTemplate, EncodeShare, EncodeWitness;
    HeaderEncodingInjective(b.header, d.header);
    RootBindsTransactions(env, hash, b, d);
    WitnessEncodingInjective(env.checksum, b.workshareWitness, d.workshareWitness);
  }

  lemma IdsDoBind(env: Env, hash: Preimage -> Hash)
    requires Hashes(env, hash) && NoCollisions(hash)
    ensures IdsBind(env)
  {
    hide Hashes, NoCollisions, ValidBody;
    forall b, d | ValidBody(env, b) && ValidBody(env, d) && BlockId(env, b) == BlockId(env, d) ensures b == d {
      IdBindsBlock(env, hash, b, d);
    }
  }
}
