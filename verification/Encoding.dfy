/** Encoders and decoders of the consensus objects (src/consensus/types.rs, src/crypto.rs): decoding
    undoes encoding, nothing has two encodings, and the sizes used by the limits are exact. */
module Encoding {
  import opened Base
  import opened Params
  import opened Bytes
  import opened Difficulty
  import opened Types
  import opened Codec

  // ------------------------------------------------------------------ hash and address

  function EncodeHash(h: Hash): bytes {
    BE(h, 32)
  }

  function DecodeHash(s: bytes): Parsed<Hash> {
    var (head, rest) :- Take(s, 32);
    Ok((FromBE(head), rest))
  }

  lemma HashRoundTrip(h: Hash, rest: bytes)
    requires HashTyped(h)
    ensures DecodeHash(EncodeHash(h) + rest) == Ok((h, rest))
  {
    TakePrefix(BE(h, 32), rest);
    TwoPow256();
    BERoundTrip(h, 32);
  }

  lemma HashCanonical(s: bytes)
    requires DecodeHash(s).Ok?
    ensures HashTyped(DecodeHash(s).value.0)
    ensures s == EncodeHash(DecodeHash(s).value.0) + DecodeHash(s).value.1
  {
    TakeCanonical(s, 32);
    BECanonical(s[..32]);
    TwoPow256();
  }

  function DecodeAddress(c: Checksum, s: bytes): Parsed<Address> {
    var (head, rest) :- Take(s, 25);
    match AddressFromBytes(c, head)
    case None => Err(NonCanonical)
    case Some(a) => Ok((a, rest))
  }

  lemma AddressReads(c: Checksum, a: Address, rest: bytes)
    ensures DecodeAddress(c, AddressBytes(c, a) + rest) == Ok((a, rest))
  {
    TakePrefix(AddressBytes(c, a), rest);
    AddressRoundTrip(c, a);
  }

  lemma AddressReadsBack(c: Checksum, s: bytes)
    requires DecodeAddress(c, s).Ok?
    ensures s == AddressBytes(c, DecodeAddress(c, s).value.0) + DecodeAddress(c, s).value.1
  {
    TakeCanonical(s, 25);
    AddressCanonical(c, s[..25]);
  }

  // ---------------------------------------------------------------------- transaction

  function EncodeTransaction(c: Checksum, tx: Transaction): bytes {
    LE(tx.version, 2) + (AddressBytes(c, tx.sender) + (AddressBytes(c, tx.recipient) + (LE(tx.amount, 8) + (LE(tx.fee, 8)
    + (LE(tx.nonce, 8) + (Framed(tx.publicKey) + Framed(tx.signature)))))))
  }

  function DecodeTransaction(c: Checksum, s: bytes): Parsed<Transaction> {
    var (version, s) :- ReadU16(s);
    var (sender, s) :- DecodeAddress(c, s);
    var (recipient, s) :- DecodeAddress(c, s);
    var (amount, s) :- ReadU64(s);
    var (fee, s) :- ReadU64(s);
    var (nonce, s) :- ReadU64(s);
    var (publicKey, s) :- ReadBytes(s, 65);
    var (signature, s) :- ReadBytes(s, 64);
    var tx := Transaction(version, sender, recipient, amount, fee, nonce, publicKey, signature);
    if TransactionSize(tx) > MAX_TRANSACTION_BYTES then Err(LimitExceeded(TransactionSize(tx), MAX_TRANSACTION_BYTES)) else Ok((tx, s))
  }

  predicate TransactionOk(tx: Transaction) {
    |tx.publicKey| <= 65 && |tx.signature| <= 64
  }

  lemma TransactionSizeIs(c: Checksum, tx: Transaction)
    ensures |EncodeTransaction(c, tx)| == TransactionSize(tx)
  {
    hide LE, AddressBytes;
  }

  lemma TransactionRoundTrip(c: Checksum, tx: Transaction, rest: bytes)
    requires TransactionOk(tx)
    ensures DecodeTransaction(c, EncodeTransaction(c, tx) + rest) == Ok((tx, rest))
  {
    hide LE, AddressBytes, Framed, ReadU16, ReadU64, ReadBytes, DecodeAddress;
    var s8 := rest;
    var s7 := Framed(tx.signature) + s8;
    var s6 := Framed(tx.publicKey) + s7;
    var s5 := LE(tx.nonce, 8) + s6;
    var s4 := LE(tx.fee, 8) + s5;
    var s3 := LE(tx.amount, 8) + s4;
    var s2 := AddressBytes(c, tx.recipient) + s3;
    var s1 := AddressBytes(c, tx.sender) + s2;
    assert EncodeTransaction(c, tx) + rest == LE(tx.version, 2) + s1;
    U16RoundTrip(tx.version, s1);
    AddressReads(c, tx.sender, s2);
    AddressReads(c, tx.recipient, s3);
    U64RoundTrip(tx.amount, s4);
    U64RoundTrip(tx.fee, s5);
    U64RoundTrip(tx.nonce, s6);
    BytesRoundTrip(tx.publicKey, 65, s7);
    BytesRoundTrip(tx.signature, 64, s8);
  }

  lemma TransactionCanonical(c: Checksum, s: bytes)
    requires DecodeTransaction(c, s).Ok?
    ensures TransactionOk(DecodeTransaction(c, s).value.0)
    ensures s == EncodeTransaction(c, DecodeTransaction(c, s).value.0) + DecodeTransaction(c, s).value.1
  {
    hide LE, AddressBytes, Framed, ReadU16, ReadU64, ReadBytes, DecodeAddress;
    U16Canonical(s);
    var s1 := ReadU16(s).value.1;
    AddressReadsBack(c, s1);
    var s2 := DecodeAddress(c, s1).value.1;
    AddressReadsBack(c, s2);
    var s3 := DecodeAddress(c, s2).value.1;
    U64Canonical(s3);
    var s4 := ReadU64(s3).value.1;
    U64Canonical(s4);
    var s5 := ReadU64(s4).value.1;
    U64Canonical(s5);
    var s6 := ReadU64(s5).value.1;
    BytesCanonical(s6, 65);
    var s7 := ReadBytes(s6, 65).value.1;
    BytesCanonical(s7, 64);
    var (tx, rest) := DecodeTransaction(c, s).value;
    assert s6 == Framed(tx.publicKey) + (Framed(tx.signature) + rest);
    assert s3 == LE(tx.amount, 8) + (LE(tx.fee, 8) + (LE(tx.nonce, 8) + s6));
    assert s == LE(tx.version, 2) + (AddressBytes(c, tx.sender) + (AddressBytes(c, tx.recipient) + s3));
  }

  // --------------------------------------------------------------------- reward claim

  function EncodeClaim(c: Checksum, x: RewardClaim): bytes {
    LE(x.version, 2) + (LE(x.height, 8) + (AddressBytes(c, x.finder) + (LE(x.amount, 8) + LE(x.extranonce, 8))))
  }

  function DecodeClaim(c: Checksum, s: bytes): Parsed<RewardClaim> {
    var (version, s) :- ReadU16(s);
    var (height, s) :- ReadU64(s);
    var (finder, s) :- DecodeAddress(c, s);
    var (amount, s) :- ReadU64(s);
    var (extranonce, s) :- ReadU64(s);
    Ok((RewardClaim(version, height, finder, amount, extranonce), s))
  }

  lemma ClaimRoundTrip(c: Checksum, x: RewardClaim, rest: bytes)
    ensures |EncodeClaim(c, x)| == CLAIM_SIZE
    ensures DecodeClaim(c, EncodeClaim(c, x) + rest) == Ok((x, rest))
  {
    hide LE, AddressBytes, ReadU16, ReadU64, DecodeAddress;
    var s5 := rest;
    var s4 := LE(x.extranonce, 8) + s5;
    var s3 := LE(x.amount, 8) + s4;
    var s2 := AddressBytes(c, x.finder) + s3;
    var s1 := LE(x.height, 8) + s2;
    assert EncodeClaim(c, x) + rest == LE(x.version, 2) + s1;
    U16RoundTrip(x.version, s1);
    U64RoundTrip(x.height, s2);
    AddressReads(c, x.finder, s3);
    U64RoundTrip(x.amount, s4);
    U64RoundTrip(x.extranonce, s5);
  }

  lemma ClaimCanonical(c: Checksum, s: bytes)
    requires DecodeClaim(c, s).Ok?
    ensures s == EncodeClaim(c, DecodeClaim(c, s).value.0) + DecodeClaim(c, s).value.1
  {
    hide LE, AddressBytes, ReadU16, ReadU64, DecodeAddress;
    U16Canonical(s);
    var s1 := ReadU16(s).value.1;
    U64Canonical(s1);
    var s2 := ReadU64(s1).value.1;
    AddressReadsBack(c, s2);
    var s3 := DecodeAddress(c, s2).value.1;
    U64Canonical(s3);
    var s4 := ReadU64(s3).value.1;
    U64Canonical(s4);
    var (x, rest) := DecodeClaim(c, s).value;
    assert s2 == AddressBytes(c, x.finder) + (LE(x.amount, 8) + (LE(x.extranonce, 8) + rest));
    assert s == LE(x.version, 2) + (LE(x.height, 8) + s2);
  }

  // --------------------------------------------------------------------------- header

  function EncodeHeader(h: BlockHeader): bytes {
    LE(h.version, 2) + (LE(h.protocol, 2) + (LE(h.height, 8) + (EncodeHash(h.previousBlock) + (EncodeHash(h.transactionsRoot)
    + (EncodeHash(h.stateRoot) + (EncodeHash(h.workshareRoot) + (LE(h.timestamp, 8) + (LE(h.bits, 4) + LE(h.nonce, 8)))))))))
  }

  function DecodeHeader(s: bytes): Parsed<BlockHeader> {
    var (version, s) :- ReadU16(s);
    var (protocol, s) :- ReadU16(s);
    var (height, s) :- ReadU64(s);
    var (previousBlock, s) :- DecodeHash(s);
    var (transactionsRoot, s) :- DecodeHash(s);
    var (stateRoot, s) :- DecodeHash(s);
    var (workshareRoot, s) :- DecodeHash(s);
    var (timestamp, s) :- ReadU64(s);
    var (bits, s) :- ReadU32(s);
    var (nonce, s) :- ReadU64(s);
    Ok((BlockHeader(version, protocol, height, previousBlock, transactionsRoot, stateRoot, workshareRoot, timestamp, bits, nonce), s))
  }

  lemma HeaderRoundTrip(h: BlockHeader, rest: bytes)
    requires HeaderTyped(h)
    ensures |EncodeHeader(h)| == HEADER_SIZE
    ensures DecodeHeader(EncodeHeader(h) + rest) == Ok((h, rest))
  {
    assert |EncodeHeader(h)| == HEADER_SIZE;
    hide LE, EncodeHash, ReadU16, ReadU32, ReadU64, DecodeHash;
    var s10 := rest;
    var s9 := LE(h.nonce, 8) + s10;
    var s8 := LE(h.bits, 4) + s9;
    var s7 := LE(h.timestamp, 8) + s8;
    var s6 := EncodeHash(h.workshareRoot) + s7;
    var s5 := EncodeHash(h.stateRoot) + s6;
    var s4 := EncodeHash(h.transactionsRoot) + s5;
    var s3 := EncodeHash(h.previousBlock) + s4;
    var s2 := LE(h.height, 8) + s3;
    var s1 := LE(h.protocol, 2) + s2;
    assert EncodeHeader(h) + rest == LE(h.version, 2) + s1;
    U16RoundTrip(h.version, s1);
    U16RoundTrip(h.protocol, s2);
    U64RoundTrip(h.height, s3);
    HashRoundTrip(h.previousBlock, s4);
    HashRoundTrip(h.transactionsRoot, s5);
    HashRoundTrip(h.stateRoot, s6);
    HashRoundTrip(h.workshareRoot, s7);
    U64RoundTrip(h.timestamp, s8);
    U32RoundTrip(h.bits, s9);
    U64RoundTrip(h.nonce, s10);
  }

  lemma HeaderCanonical(s: bytes)
    requires DecodeHeader(s).Ok?
    ensures HeaderTyped(DecodeHeader(s).value.0)
    ensures s == EncodeHeader(DecodeHeader(s).value.0) + DecodeHeader(s).value.1
  {
    hide LE, EncodeHash, ReadU16, ReadU32, ReadU64, DecodeHash;
    U16Canonical(s);
    var s1 := ReadU16(s).value.1;
    U16Canonical(s1);
    var s2 := ReadU16(s1).value.1;
    U64Canonical(s2);
    var s3 := ReadU64(s2).value.1;
    HashCanonical(s3);
    var s4 := DecodeHash(s3).value.1;
    HashCanonical(s4);
    var s5 := DecodeHash(s4).value.1;
    HashCanonical(s5);
    var s6 := DecodeHash(s5).value.1;
    HashCanonical(s6);
    var s7 := DecodeHash(s6).value.1;
    U64Canonical(s7);
    var s8 := ReadU64(s7).value.1;
    U32Canonical(s8);
    var s9 := ReadU32(s8).value.1;
    U64Canonical(s9);
    var (h, rest) := DecodeHeader(s).value;
    assert s7 == LE(h.timestamp, 8) + (LE(h.bits, 4) + (LE(h.nonce, 8) + rest));
    assert s3 == EncodeHash(h.previousBlock) + (EncodeHash(h.transactionsRoot) + (EncodeHash(h.stateRoot) + (EncodeHash(h.workshareRoot) + s7)));
    assert s == LE(h.version, 2) + (LE(h.protocol, 2) + (LE(h.height, 8) + s3));
  }

  // ------------------------------------------------------------- lists of transactions

  function TransactionEncoder(c: Checksum): Transaction -> bytes {
    tx => EncodeTransaction(c, tx)
  }

  function TransactionDecoder(c: Checksum): bytes -> Parsed<Transaction> {
    s => DecodeTransaction(c, s)
  }

  lemma TransactionLaws(c: Checksum)
    ensures RoundTrips(TransactionOk, TransactionEncoder(c), TransactionDecoder(c))
    ensures Canonical(TransactionOk, TransactionEncoder(c), TransactionDecoder(c))
  {
    hide EncodeTransaction, DecodeTransaction;
    forall tx, rest | TransactionOk(tx)
      ensures TransactionDecoder(c)(TransactionEncoder(c)(tx) + rest) == Ok((tx, rest))
    {
      TransactionRoundTrip(c, tx, rest);
    }
    forall s | TransactionDecoder(c)(s).Ok?
      ensures TransactionOk(TransactionDecoder(c)(s).value.0)
      ensures s == TransactionEncoder(c)(TransactionDecoder(c)(s).value.0) + TransactionDecoder(c)(s).value.1
    {
      TransactionCanonical(c, s);
    }
  }

  function EncodeTransactions(c: Checksum, txs: seq<Transaction>): bytes {
    Vector(TransactionEncoder(c), txs)
  }

  function DecodeTransactions(c: Checksum, s: bytes): Parsed<seq<Transaction>> {
    ReadVector(TransactionDecoder(c), s, MAX_BLOCK_TRANSACTIONS, MAX_TRANSACTION_BYTES)
  }

  predicate TransactionsOk(txs: seq<Transaction>) {
    |txs| <= MAX_BLOCK_TRANSACTIONS && forall tx :: tx in txs ==> TransactionOk(tx)
  }

  lemma {:induction false} TransactionsSizeIs(c: Checksum, txs: seq<Transaction>)
    ensures |EncodeTransactions(c, txs)| == 4 + TransactionsSize(txs)
  {
    hide EncodeTransaction, LE;
    if txs != [] {
      var front, tx := txs[..|txs| - 1], txs[|txs| - 1];
      TransactionsSizeIs(c, front);
      assert front + [tx] == txs;
      ConcatSnoc(Frame(TransactionEncoder(c)), front, tx);
      TransactionSizeIs(c, tx);
    }
  }

  lemma TransactionsRoundTrip(c: Checksum, txs: seq<Transaction>, rest: bytes)
    requires TransactionsOk(txs)
    ensures DecodeTransactions(c, EncodeTransactions(c, txs) + rest) == Ok((txs, rest))
  {
    TransactionLaws(c);
    hide EncodeTransaction, DecodeTransaction, Vector, ReadVector;
    forall tx | tx in txs ensures Fits(TransactionOk, TransactionEncoder(c), MAX_TRANSACTION_BYTES)(tx) {
      TransactionSizeIs(c, tx);
    }
    VectorRoundTrip(TransactionOk, TransactionEncoder(c), TransactionDecoder(c), MAX_BLOCK_TRANSACTIONS, MAX_TRANSACTION_BYTES, txs, rest);
  }

  lemma TransactionsCanonical(c: Checksum, s: bytes)
    requires DecodeTransactions(c, s).Ok?
    ensures TransactionsOk(DecodeTransactions(c, s).value.0)
    ensures s == EncodeTransactions(c, DecodeTransactions(c, s).value.0) + DecodeTransactions(c, s).value.1
  {
    TransactionLaws(c);
    hide EncodeTransaction, DecodeTransaction, Vector, ReadVector;
    VectorCanonical(TransactionOk, TransactionEncoder(c), TransactionDecoder(c), s, MAX_BLOCK_TRANSACTIONS, MAX_TRANSACTION_BYTES);
    var txs := DecodeTransactions(c, s).value.0;
    forall tx | tx in txs ensures TransactionOk(tx) {
      assert Fits(TransactionOk, TransactionEncoder(c), MAX_TRANSACTION_BYTES)(tx);
    }
  }

  // ------------------------------------------------------------------------- template

  function EncodeTemplate(c: Checksum, t: BlockTemplate): bytes {
    LE(t.version, 2) + (LE(t.height, 8) + (EncodeHash(t.parent) + EncodeTransactions(c, t.transactions)))
  }

  function DecodeTemplate(c: Checksum, s: bytes): Parsed<BlockTemplate> {
    var (version, s) :- ReadU16(s);
    var (height, s) :- ReadU64(s);
    var (parent, s) :- DecodeHash(s);
    var (transactions, s) :- DecodeTransactions(c, s);
    Ok((BlockTemplate(version, height, parent, transactions), s))
  }

  predicate TemplateOk(t: BlockTemplate) {
    HashTyped(t.parent) && TransactionsOk(t.transactions)
  }

  lemma TemplateSizeIs(c: Checksum, t: BlockTemplate)
    ensures |EncodeTemplate(c, t)| == TemplateSize(t)
  {
    hide LE, EncodeTransactions;
    TransactionsSizeIs(c, t.transactions);
  }

  lemma TemplateRoundTrip(c: Checksum, t: BlockTemplate, rest: bytes)
    requires TemplateOk(t)
    ensures DecodeTemplate(c, EncodeTemplate(c, t) + rest) == Ok((t, rest))
  {
    hide LE, EncodeHash, EncodeTransactions, ReadU16, ReadU64, DecodeHash, DecodeTransactions;
    var s3 := EncodeTransactions(c, t.transactions) + rest;
    var s2 := EncodeHash(t.parent) + s3;
    var s1 := LE(t.height, 8) + s2;
    assert EncodeTemplate(c, t) + rest == LE(t.version, 2) + s1;
    U16RoundTrip(t.version, s1);
    U64RoundTrip(t.height, s2);
    HashRoundTrip(t.parent, s3);
    TransactionsRoundTrip(c, t.transactions, rest);
  }

  lemma TemplateCanonical(c: Checksum, s: bytes)
    requires DecodeTemplate(c, s).Ok?
    ensures TemplateOk(DecodeTemplate(c, s).value.0)
    ensures s == EncodeTemplate(c, DecodeTemplate(c, s).value.0) + DecodeTemplate(c, s).value.1
  {
    hide LE, EncodeHash, EncodeTransactions, ReadU16, ReadU64, DecodeHash, DecodeTransactions;
    U16Canonical(s);
    var s1 := ReadU16(s).value.1;
    U64Canonical(s1);
    var s2 := ReadU64(s1).value.1;
    HashCanonical(s2);
    var s3 := DecodeHash(s2).value.1;
    TransactionsCanonical(c, s3);
    var (t, rest) := DecodeTemplate(c, s).value;
    assert s == LE(t.version, 2) + (LE(t.height, 8) + (EncodeHash(t.parent) + (EncodeTransactions(c, t.transactions) + rest)));
  }

  // ------------------------------------------------------------------------ workshare

  function EncodeShare(c: Checksum, w: Workshare): bytes {
    LE(w.version, 2) + (EncodeHash(w.previousWorkshare) + (EncodeHash(w.templateId) + (AddressBytes(c, w.miner)
    + (LE(w.extranonce, 8) + EncodeHeader(w.candidateHeader)))))
  }

  function DecodeShare(c: Checksum, s: bytes): Parsed<Workshare> {
    var (version, s) :- ReadU16(s);
    var (previousWorkshare, s) :- DecodeHash(s);
    var (templateId, s) :- DecodeHash(s);
    var (miner, s) :- DecodeAddress(c, s);
    var (extranonce, s) :- ReadU64(s);
    var (candidateHeader, s) :- DecodeHeader(s);
    Ok((Workshare(version, previousWorkshare, templateId, miner, extranonce, candidateHeader), s))
  }

  predicate ShareOk(w: Workshare) {
    HashTyped(w.previousWorkshare) && HashTyped(w.templateId) && HeaderTyped(w.candidateHeader)
  }

  lemma ShareSizeIs(c: Checksum, w: Workshare)
    ensures |EncodeShare(c, w)| == WORKSHARE_SIZE
  {
    assert |EncodeHeader(w.candidateHeader)| == HEADER_SIZE;
    assert |EncodeHash(w.templateId)| == 32;
  }

  lemma ShareRoundTrip(c: Checksum, w: Workshare, rest: bytes)
    requires ShareOk(w)
    ensures DecodeShare(c, EncodeShare(c, w) + rest) == Ok((w, rest))
  {
    hide LE, EncodeHash, AddressBytes, EncodeHeader, ReadU16, ReadU64, DecodeHash, DecodeAddress, DecodeHeader;
    var s5 := EncodeHeader(w.candidateHeader) + rest;
    var s4 := LE(w.extranonce, 8) + s5;
    var s3 := AddressBytes(c, w.miner) + s4;
    var s2 := EncodeHash(w.templateId) + s3;
    var s1 := EncodeHash(w.previousWorkshare) + s2;
    assert EncodeShare(c, w) + rest == LE(w.version, 2) + s1;
    U16RoundTrip(w.version, s1);
    HashRoundTrip(w.previousWorkshare, s2);
    HashRoundTrip(w.templateId, s3);
    AddressReads(c, w.miner, s4);
    U64RoundTrip(w.extranonce, s5);
    HeaderRoundTrip(w.candidateHeader, rest);
  }

  lemma ShareCanonical(c: Checksum, s: bytes)
    requires DecodeShare(c, s).Ok?
    ensures ShareOk(DecodeShare(c, s).value.0)
    ensures s == EncodeShare(c, DecodeShare(c, s).value.0) + DecodeShare(c, s).value.1
  {
    hide LE, EncodeHash, AddressBytes, EncodeHeader, ReadU16, ReadU64, DecodeHash, DecodeAddress, DecodeHeader;
    U16Canonical(s);
    var s1 := ReadU16(s).value.1;
    HashCanonical(s1);
    var s2 := DecodeHash(s1).value.1;
    HashCanonical(s2);
    var s3 := DecodeHash(s2).value.1;
    AddressReadsBack(c, s3);
    var s4 := DecodeAddress(c, s3).value.1;
    U64Canonical(s4);
    var s5 := ReadU64(s4).value.1;
    HeaderCanonical(s5);
    var (w, rest) := DecodeShare(c, s).value;
    assert s3 == AddressBytes(c, w.miner) + (LE(w.extranonce, 8) + (EncodeHeader(w.candidateHeader) + rest));
    assert s == LE(w.version, 2) + (EncodeHash(w.previousWorkshare) + (EncodeHash(w.templateId) + s3));
  }

  // -------------------------------------------------------------------------- witness

  const MAX_SHARE_FRAME: nat := 512

  function TemplateEncoder(c: Checksum): BlockTemplate -> bytes {
    t => EncodeTemplate(c, t)
  }

  function TemplateDecoder(c: Checksum): bytes -> Parsed<BlockTemplate> {
    s => DecodeTemplate(c, s)
  }

  function ShareEncoder(c: Checksum): Workshare -> bytes {
    w => EncodeShare(c, w)
  }

  function ShareDecoder(c: Checksum): bytes -> Parsed<Workshare> {
    s => DecodeShare(c, s)
  }

  lemma TemplateLaws(c: Checksum)
    ensures RoundTrips(TemplateOk, TemplateEncoder(c), TemplateDecoder(c))
    ensures Canonical(TemplateOk, TemplateEncoder(c), TemplateDecoder(c))
  {
    hide EncodeTemplate, DecodeTemplate;
    forall t, rest | TemplateOk(t)
      ensures TemplateDecoder(c)(TemplateEncoder(c)(t) + rest) == Ok((t, rest))
    {
      TemplateRoundTrip(c, t, rest);
    }
    forall s | TemplateDecoder(c)(s).Ok?
      ensures TemplateOk(TemplateDecoder(c)(s).value.0)
      ensures s == TemplateEncoder(c)(TemplateDecoder(c)(s).value.0) + TemplateDecoder(c)(s).value.1
    {
      TemplateCanonical(c, s);
    }
  }

  lemma ShareLaws(c: Checksum)
    ensures RoundTrips(ShareOk, ShareEncoder(c), ShareDecoder(c))
    ensures Canonical(ShareOk, ShareEncoder(c), ShareDecoder(c))
  {
    hide EncodeShare, DecodeShare;
    forall w, rest | ShareOk(w)
      ensures ShareDecoder(c)(ShareEncoder(c)(w) + rest) == Ok((w, rest))
    {
      ShareRoundTrip(c, w, rest);
    }
    forall s | ShareDecoder(c)(s).Ok?
      ensures ShareOk(ShareDecoder(c)(s).value.0)
      ensures s == ShareEncoder(c)(ShareDecoder(c)(s).value.0) + ShareDecoder(c)(s).value.1
    {
      ShareCanonical(c, s);
    }
  }

  function EncodeWitness(c: Checksum, w: WorkshareWitness): bytes {
    LE(w.version, 2) + (Vector(TemplateEncoder(c), w.templates) + Vector(ShareEncoder(c), w.workshares))
  }

  function DecodeWitness(c: Checksum, s: bytes): Parsed<WorkshareWitness> {
    var (version, s) :- ReadU16(s);
    var (templates, s) :- ReadVector(TemplateDecoder(c), s, MAX_TEMPLATES_PER_BLOCK, MAX_TEMPLATE_BYTES);
    var (workshares, s) :- ReadVector(ShareDecoder(c), s, MAX_WORKSHARES_PER_BLOCK, MAX_SHARE_FRAME);
    Ok((WorkshareWitness(version, templates, workshares), s))
  }

  /** What the decoder admits: the counts, the template limit, and the limits inside. */
  predicate WitnessOk(w: WorkshareWitness) {
    && |w.templates| <= MAX_TEMPLATES_PER_BLOCK && |w.workshares| <= MAX_WORKSHARES_PER_BLOCK
    && (forall t :: t in w.templates ==> TemplateOk(t) && TemplateSize(t) <= MAX_TEMPLATE_BYTES)
    && (forall s :: s in w.workshares ==> ShareOk(s))
  }

  lemma {:induction false} TemplatesSizeIs(c: Checksum, ts: seq<BlockTemplate>)
    ensures |Vector(TemplateEncoder(c), ts)| == 4 + TemplatesSize(ts)
  {
    hide EncodeTemplate, LE;
    if ts != [] {
      var front, t := ts[..|ts| - 1], ts[|ts| - 1];
      TemplatesSizeIs(c, front);
      assert front + [t] == ts;
      ConcatSnoc(Frame(TemplateEncoder(c)), front, t);
      TemplateSizeIs(c, t);
    }
  }

  lemma {:induction false} SharesSizeIs(c: Checksum, ws: seq<Workshare>)
    ensures |Vector(ShareEncoder(c), ws)| == 4 + |ws| * (4 + WORKSHARE_SIZE)
  {
    hide EncodeShare, LE;
    if ws != [] {
      var front, w := ws[..|ws| - 1], ws[|ws| - 1];
      SharesSizeIs(c, front);
      assert front + [w] == ws;
      ConcatSnoc(Frame(ShareEncoder(c)), front, w);
      ShareSizeIs(c, w);
    }
  }

  lemma WitnessSizeIs(c: Checksum, w: WorkshareWitness)
    ensures |EncodeWitness(c, w)| == WitnessSize(w)
  {
    hide LE, Vector;
    TemplatesSizeIs(c, w.templates);
    SharesSizeIs(c, w.workshares);
  }

  lemma WitnessRoundTrip(c: Checksum, w: WorkshareWitness, rest: bytes)
    requires WitnessOk(w)
    ensures DecodeWitness(c, EncodeWitness(c, w) + rest) == Ok((w, rest))
  {
    TemplateLaws(c);
    ShareLaws(c);
    hide LE, ReadU16, Vector, ReadVector, EncodeTemplate, DecodeTemplate, EncodeShare, DecodeShare, TemplateOk, ShareOk, TemplateSize;
    forall t | t in w.templates ensures Fits(TemplateOk, TemplateEncoder(c), MAX_TEMPLATE_BYTES)(t) {
      TemplateSizeIs(c, t);
    }
    forall s | s in w.workshares ensures Fits(ShareOk, ShareEncoder(c), MAX_SHARE_FRAME)(s) {
      ShareSizeIs(c, s);
    }
    var s2 := Vector(ShareEncoder(c), w.workshares) + rest;
    var s1 := Vector(TemplateEncoder(c), w.templates) + s2;
    assert EncodeWitness(c, w) + rest == LE(w.version, 2) + s1;
    U16RoundTrip(w.version, s1);
    VectorRoundTrip(TemplateOk, TemplateEncoder(c), TemplateDecoder(c), MAX_TEMPLATES_PER_BLOCK, MAX_TEMPLATE_BYTES, w.templates, s2);
    VectorRoundTrip(ShareOk, ShareEncoder(c), ShareDecoder(c), MAX_WORKSHARES_PER_BLOCK, MAX_SHARE_FRAME, w.workshares, rest);
  }

  lemma WitnessCanonical(c: Checksum, s: bytes)
    requires DecodeWitness(c, s).Ok?
    ensures WitnessOk(DecodeWitness(c, s).value.0)
    ensures s == EncodeWitness(c, DecodeWitness(c, s).value.0) + DecodeWitness(c, s).value.1
  {
    TemplateLaws(c);
    ShareLaws(c);
    hide LE, ReadU16, Vector, ReadVector, EncodeTemplate, DecodeTemplate, EncodeShare, DecodeShare, TemplateOk, ShareOk, TemplateSize;
    U16Canonical(s);
    var s1 := ReadU16(s).value.1;
    VectorCanonical(TemplateOk, TemplateEncoder(c), TemplateDecoder(c), s1, MAX_TEMPLATES_PER_BLOCK, MAX_TEMPLATE_BYTES);
    var s2 := ReadVector(TemplateDecoder(c), s1, MAX_TEMPLATES_PER_BLOCK, MAX_TEMPLATE_BYTES).value.1;
    VectorCanonical(ShareOk, ShareEncoder(c), ShareDecoder(c), s2, MAX_WORKSHARES_PER_BLOCK, MAX_SHARE_FRAME);
    var (w, rest) := DecodeWitness(c, s).value;
    forall t | t in w.templates ensures TemplateOk(t) && TemplateSize(t) <= MAX_TEMPLATE_BYTES {
      assert Fits(TemplateOk, TemplateEncoder(c), MAX_TEMPLATE_BYTES)(t);
      TemplateSizeIs(c, t);
    }
    forall x | x in w.workshares ensures ShareOk(x) {
      assert Fits(ShareOk, ShareEncoder(c), MAX_SHARE_FRAME)(x);
    }
    assert s == LE(w.version, 2) + (Vector(TemplateEncoder(c), w.templates) + (Vector(ShareEncoder(c), w.workshares) + rest));
  }

  // ---------------------------------------------------------------------------- block

  function WitnessEncoder(c: Checksum): WorkshareWitness -> bytes {
    w => EncodeWitness(c, w)
  }

  function WitnessDecoder(c: Checksum): bytes -> Parsed<WorkshareWitness> {
    s => DecodeWitness(c, s)
  }

  lemma WitnessLaws(c: Checksum)
    ensures RoundTrips(WitnessOk, WitnessEncoder(c), WitnessDecoder(c))
    ensures Canonical(WitnessOk, WitnessEncoder(c), WitnessDecoder(c))
  {
    hide EncodeWitness, DecodeWitness, WitnessOk;
    forall w, rest | WitnessOk(w)
      ensures WitnessDecoder(c)(WitnessEncoder(c)(w) + rest) == Ok((w, rest))
    {
      WitnessRoundTrip(c, w, rest);
    }
    forall s | WitnessDecoder(c)(s).Ok?
      ensures WitnessOk(WitnessDecoder(c)(s).value.0)
      ensures s == WitnessEncoder(c)(WitnessDecoder(c)(s).value.0) + WitnessDecoder(c)(s).value.1
    {
      WitnessCanonical(c, s);
    }
  }

  function EncodeClaimOption(c: Checksum, claim: Option<RewardClaim>): bytes {
    match claim
    case None => [0]
    case Some(x) => [1] + EncodeClaim(c, x)
  }

  function DecodeClaimOption(c: Checksum, s: bytes): Parsed<Option<RewardClaim>> {
    var (tag, s) :- ReadU8(s);
    if tag == 0 then Ok((None, s))
    else if tag == 1 then
      var (x, s) :- DecodeClaim(c, s);
      Ok((Some(x), s))
    else Err(InvalidTag(tag))
  }

  lemma ClaimOptionLaws(c: Checksum, claim: Option<RewardClaim>, s: bytes, rest: bytes)
    ensures DecodeClaimOption(c, EncodeClaimOption(c, claim) + rest) == Ok((claim, rest))
    ensures |EncodeClaimOption(c, claim)| == 1 + if claim.Some? then CLAIM_SIZE else 0
    ensures DecodeClaimOption(c, s).Ok? ==>
              s == EncodeClaimOption(c, DecodeClaimOption(c, s).value.0) + DecodeClaimOption(c, s).value.1
  {
    hide EncodeClaim, DecodeClaim, ReadU8;
    match claim {
      case None =>
        U8RoundTrip(0, rest);
      case Some(x) =>
        U8RoundTrip(1, EncodeClaim(c, x) + rest);
        assert EncodeClaimOption(c, claim) + rest == [1] + (EncodeClaim(c, x) + rest);
        ClaimRoundTrip(c, x, rest);
    }
    if DecodeClaimOption(c, s).Ok? {
      U8Canonical(s);
      var (tag, s1) := ReadU8(s).value;
      if tag == 1 {
        ClaimCanonical(c, s1);
        var (x, tail) := DecodeClaim(c, s1).value;
        assert s == ([1] + EncodeClaim(c, x)) + tail;
      }
    }
  }

  function EncodeBlock(c: Checksum, b: Block): bytes {
    EncodeHeader(b.header) + (EncodeClaimOption(c, b.rewardClaim) + (EncodeTransactions(c, b.transactions)
    + Framed(EncodeWitness(c, b.workshareWitness))))
  }

  function DecodeBlock(c: Checksum, s: bytes): Parsed<Block> {
    var (header, s) :- DecodeHeader(s);
    var (rewardClaim, s) :- DecodeClaimOption(c, s);
    var (transactions, s) :- DecodeTransactions(c, s);
    var (workshareWitness, s) :- ReadFramed(WitnessDecoder(c), s, MAX_WORKSHARE_WITNESS_BYTES);
    Ok((Block(header, rewardClaim, transactions, workshareWitness), s))
  }

  predicate BlockOk(b: Block) {
    && HeaderTyped(b.header) && TransactionsOk(b.transactions) && WitnessOk(b.workshareWitness)
    && WitnessSize(b.workshareWitness) <= MAX_WORKSHARE_WITNESS_BYTES
  }

  lemma BlockSizeIs(c: Checksum, b: Block)
    ensures |EncodeBlock(c, b)| == BlockSize(b)
  {
    assert |EncodeHeader(b.header)| == HEADER_SIZE;
    hide LE, EncodeHeader, EncodeClaimOption, EncodeTransactions, EncodeWitness;
    ClaimOptionLaws(c, b.rewardClaim, [], []);
    TransactionsSizeIs(c, b.transactions);
    WitnessSizeIs(c, b.workshareWitness);
  }

  lemma BlockRoundTrip(c: Checksum, b: Block, rest: bytes)
    requires BlockOk(b)
    ensures DecodeBlock(c, EncodeBlock(c, b) + rest) == Ok((b, rest))
  {
    WitnessLaws(c);
    WitnessSizeIs(c, b.workshareWitness);
    hide EncodeHeader, DecodeHeader, EncodeClaimOption, DecodeClaimOption, EncodeTransactions, DecodeTransactions, EncodeWitness,
      DecodeWitness, Framed, ReadFramed, WitnessOk, TransactionsOk, HeaderTyped, WitnessSize;
    var s3 := Framed(EncodeWitness(c, b.workshareWitness)) + rest;
    var s2 := EncodeTransactions(c, b.transactions) + s3;
    var s1 := EncodeClaimOption(c, b.rewardClaim) + s2;
    assert EncodeBlock(c, b) + rest == EncodeHeader(b.header) + s1;
    HeaderRoundTrip(b.header, s1);
    ClaimOptionLaws(c, b.rewardClaim, [], s2);
    TransactionsRoundTrip(c, b.transactions, s3);
    FramedRoundTrip(WitnessOk, WitnessEncoder(c), WitnessDecoder(c), MAX_WORKSHARE_WITNESS_BYTES, b.workshareWitness, rest);
  }

  lemma BlockCanonical(c: Checksum, s: bytes)
    requires DecodeBlock(c, s).Ok?
    ensures BlockOk(DecodeBlock(c, s).value.0)
    ensures s == EncodeBlock(c, DecodeBlock(c, s).value.0) + DecodeBlock(c, s).value.1
  {
    WitnessLaws(c);
    hide EncodeHeader, DecodeHeader, EncodeClaimOption, DecodeClaimOption, EncodeTransactions, DecodeTransactions, EncodeWitness,
      DecodeWitness, Framed, ReadFramed, WitnessOk, TransactionsOk, HeaderTyped, WitnessSize;
    HeaderCanonical(s);
    var s1 := DecodeHeader(s).value.1;
    ClaimOptionLaws(c, None, s1, []);
    var s2 := DecodeClaimOption(c, s1).value.1;
    TransactionsCanonical(c, s2);
    var s3 := DecodeTransactions(c, s2).value.1;
    FramedCanonical(WitnessOk, WitnessEncoder(c), WitnessDecoder(c), MAX_WORKSHARE_WITNESS_BYTES, s3);
    var (b, rest) := DecodeBlock(c, s).value;
    WitnessSizeIs(c, b.workshareWitness);
    assert s == EncodeHeader(b.header) + (EncodeClaimOption(c, b.rewardClaim) + (EncodeTransactions(c, b.transactions)
      + (Framed(EncodeWitness(c, b.workshareWitness)) + rest)));
  }

  function BlockEncoder(c: Checksum): Block -> bytes {
    b => EncodeBlock(c, b)
  }

  function BlockDecoder(c: Checksum): bytes -> Parsed<Block> {
    s => DecodeBlock(c, s)
  }

  lemma BlockLaws(c: Checksum)
    ensures RoundTrips(BlockOk, BlockEncoder(c), BlockDecoder(c))
    ensures Canonical(BlockOk, BlockEncoder(c), BlockDecoder(c))
  {
    hide EncodeBlock, DecodeBlock, BlockOk;
    forall b, rest | BlockOk(b)
      ensures BlockDecoder(c)(BlockEncoder(c)(b) + rest) == Ok((b, rest))
    {
      BlockRoundTrip(c, b, rest);
    }
    forall s | BlockDecoder(c)(s).Ok?
      ensures BlockOk(BlockDecoder(c)(s).value.0)
      ensures s == BlockEncoder(c)(BlockDecoder(c)(s).value.0) + BlockDecoder(c)(s).value.1
    {
      BlockCanonical(c, s);
    }
  }

  /** `consensus_decode` of a block: what is accepted is exactly the encodings of in-limit blocks. */
  lemma BlockDecodesExactly(c: Checksum, s: bytes, b: Block)
    ensures DecodeAll(BlockDecoder(c), s) == Ok(b) <==>
            BlockOk(b) && BlockSize(b) <= MAX_CONSENSUS_ALLOCATION && s == EncodeBlock(c, b)
  {
    BlockLaws(c);
    BlockSizeIs(c, b);
    hide EncodeBlock, DecodeBlock, BlockOk, BlockSize;
    if DecodeAll(BlockDecoder(c), s).Ok? {
      DecodeAllCanonical(BlockOk, BlockEncoder(c), BlockDecoder(c), s);
    }
    if BlockOk(b) && BlockSize(b) <= MAX_CONSENSUS_ALLOCATION {
      DecodeAllRoundTrip(BlockOk, BlockEncoder(c), BlockDecoder(c), b);
    }
  }
}
