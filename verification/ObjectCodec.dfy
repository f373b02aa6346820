/** The encoders and decoders of src/consensus/types.rs as the source runs them, over a `Writer` that
    grows and a `Reader` that advances, proved against the value-level codec of module Encoding. */
module ObjectCodec {
  import opened Base
  import opened Params
  import opened Bytes
  import opened Difficulty
  import opened Types
  import opened Codec
  import opened Encoding

  // ------------------------------------------------------------------------- encoding

  method WriteHash(w: Writer, h: Hash)
    modifies w
    ensures w.data == old(w.data) + EncodeHash(h)
  {
    w.Fixed(BE(h, 32));
  }

  method WriteTransaction(w: Writer, c: Checksum, tx: Transaction)
    requires |tx.publicKey| < 0x1_0000_0000 && |tx.signature| < 0x1_0000_0000
    modifies w
    ensures w.data == old(w.data) + EncodeTransaction(c, tx)
  {
    hide LE, Framed, AddressBytes;
    w.U16(tx.version);
    w.Fixed(AddressBytes(c, tx.sender));
    w.Fixed(AddressBytes(c, tx.recipient));
    w.U64(tx.amount);
    w.U64(tx.fee);
    w.U64(tx.nonce);
    w.WriteBytes(tx.publicKey);
    w.WriteBytes(tx.signature);
  }

  method WriteClaim(w: Writer, c: Checksum, x: RewardClaim)
    modifies w
    ensures w.data == old(w.data) + EncodeClaim(c, x)
  {
    hide LE, AddressBytes;
    w.U16(x.version);
    w.U64(x.height);
    w.Fixed(AddressBytes(c, x.finder));
    w.U64(x.amount);
    w.U64(x.extranonce);
  }

  method WriteHeader(w: Writer, h: BlockHeader)
    modifies w
    ensures w.data == old(w.data) + EncodeHeader(h)
  {
    hide LE, EncodeHash;
    w.U16(h.version);
    w.U16(h.protocol);
    w.U64(h.height);
    WriteHash(w, h.previousBlock);
    WriteHash(w, h.transactionsRoot);
    WriteHash(w, h.stateRoot);
    WriteHash(w, h.workshareRoot);
    w.U64(h.timestamp);
    w.U32(h.bits);
    w.U64(h.nonce);
  }

  /** Counts and frames fit their 32-bit prefixes, which the source asserts. */
  ghost predicate Writable(c: Checksum, txs: seq<Transaction>) {
    |txs| < 0x1_0000_0000 && forall tx :: tx in txs ==> TransactionSize(tx) < 0x1_0000_0000
  }

  lemma WritableFrames(c: Checksum, txs: seq<Transaction>)
    requires Writable(c, txs)
    ensures forall tx :: tx in txs ==> |TransactionEncoder(c)(tx)| < 0x1_0000_0000
  {
    hide EncodeTransaction, TransactionSize;
    forall tx | tx in txs ensures |TransactionEncoder(c)(tx)| < 0x1_0000_0000 {
      TransactionSizeIs(c, tx);
    }
  }

  method WriteTransactions(w: Writer, c: Checksum, txs: seq<Transaction>)
    requires Writable(c, txs)
    modifies w
    ensures w.data == old(w.data) + EncodeTransactions(c, txs)
  {
    hide EncodeTransaction, Vector;
    WritableFrames(c, txs);
    w.WriteVector(TransactionEncoder(c), txs);
  }

  method WriteTemplate(w: Writer, c: Checksum, t: BlockTemplate)
    requires Writable(c, t.transactions)
    modifies w
    ensures w.data == old(w.data) + EncodeTemplate(c, t)
  {
    hide LE, EncodeHash, EncodeTransactions;
    w.U16(t.version);
    w.U64(t.height);
    WriteHash(w, t.parent);
    WriteTransactions(w, c, t.transactions);
  }

  method WriteShare(w: Writer, c: Checksum, s: Workshare)
    modifies w
    ensures w.data == old(w.data) + EncodeShare(c, s)
  {
    hide LE, EncodeHash, EncodeHeader, AddressBytes;
    w.U16(s.version);
    WriteHash(w, s.previousWorkshare);
    WriteHash(w, s.templateId);
    w.Fixed(AddressBytes(c, s.miner));
    w.U64(s.extranonce);
    WriteHeader(w, s.candidateHeader);
  }

  method WriteWitness(w: Writer, c: Checksum, x: WorkshareWitness)
    requires |x.templates| < 0x1_0000_0000 && |x.workshares| < 0x1_0000_0000
    requires forall t :: t in x.templates ==> TemplateSize(t) < 0x1_0000_0000
    modifies w
    ensures w.data == old(w.data) + EncodeWitness(c, x)
  {
    hide LE, Vector, EncodeTemplate, EncodeShare, TemplateSize;
    forall t | t in x.templates ensures |TemplateEncoder(c)(t)| < 0x1_0000_0000 { TemplateSizeIs(c, t); }
    forall s | s in x.workshares ensures |ShareEncoder(c)(s)| < 0x1_0000_0000 { ShareSizeIs(c, s); }
    w.U16(x.version);
    w.WriteVector(TemplateEncoder(c), x.templates);
    w.WriteVector(ShareEncoder(c), x.workshares);
  }

  method WriteBlock(w: Writer, c: Checksum, b: Block)
    requires Writable(c, b.transactions) && WitnessSize(b.workshareWitness) < 0x1_0000_0000
    modifies w
    ensures w.data == old(w.data) + EncodeBlock(c, b)
  {
    hide EncodeHeader, EncodeTransactions, Framed, EncodeWitness, EncodeClaim, WitnessSize;
    WriteHeader(w, b.header);
    match b.rewardClaim {
      case Some(claim) =>
        w.U8(1);
        WriteClaim(w, c, claim);
      case None =>
        w.U8(0);
    }
    assert w.data == old(w.data) + (EncodeHeader(b.header) + EncodeClaimOption(c, b.rewardClaim));
    WriteTransactions(w, c, b.transactions);
    WitnessSizeIs(c, b.workshareWitness);
    w.WriteBytes(EncodeWitness(c, b.workshareWitness));
  }

  // ------------------------------------------------------------------------- decoding

  method ReadHashFrom(r: Reader) returns (h: Result<Hash, CodecError>)
    requires r.Valid()
    modifies r
    ensures r.Valid()
    ensures h.Ok? ==> DecodeHash(old(r.Rest())) == Ok((h.value, r.Rest()))
    ensures h.Err? ==> DecodeHash(old(r.Rest())) == Err(h.error)
  {
    var head :- r.TakeBytes(32);
    return Ok(FromBE(head));
  }

  method ReadAddressFrom(r: Reader, c: Checksum) returns (a: Result<Address, CodecError>)
    requires r.Valid()
    modifies r
    ensures r.Valid()
    ensures a.Ok? ==> DecodeAddress(c, old(r.Rest())) == Ok((a.value, r.Rest()))
    ensures a.Err? ==> DecodeAddress(c, old(r.Rest())) == Err(a.error)
  {
    var head :- r.TakeBytes(25);
    hide AddressFromBytes;
    match AddressFromBytes(c, head) {
      case None => return Err(NonCanonical);
      case Some(found) => return Ok(found);
    }
  }

  method ReadTransactionFrom(r: Reader, c: Checksum) returns (x: Result<Transaction, CodecError>)
    requires r.Valid()
    modifies r
    ensures r.Valid()
    ensures x.Ok? ==> DecodeTransaction(c, old(r.Rest())) == Ok((x.value, r.Rest()))
    ensures x.Err? ==> DecodeTransaction(c, old(r.Rest())) == Err(x.error)
  {
    hide ReadU16, ReadU64, ReadBytes, DecodeAddress;
    var version :- r.U16();
    var sender :- ReadAddressFrom(r, c);
    var recipient :- ReadAddressFrom(r, c);
    var amount :- r.U64();
    var fee :- r.U64();
    var nonce :- r.U64();
    var publicKey :- r.ReadFrame(65);
    var signature :- r.ReadFrame(64);
    var tx := Transaction(version, sender, recipient, amount, fee, nonce, publicKey, signature);
    if TransactionSize(tx) > MAX_TRANSACTION_BYTES {
      return Err(LimitExceeded(TransactionSize(tx), MAX_TRANSACTION_BYTES));
    }
    return Ok(tx);
  }

  method ReadClaimFrom(r: Reader, c: Checksum) returns (x: Result<RewardClaim, CodecError>)
    requires r.Valid()
    modifies r
    ensures r.Valid()
    ensures x.Ok? ==> DecodeClaim(c, old(r.Rest())) == Ok((x.value, r.Rest()))
    ensures x.Err? ==> DecodeClaim(c, old(r.Rest())) == Err(x.error)
  {
    hide ReadU16, ReadU64, DecodeAddress;
    var version :- r.U16();
    var height :- r.U64();
    var finder :- ReadAddressFrom(r, c);
    var amount :- r.U64();
    var extranonce :- r.U64();
    return Ok(RewardClaim(version, height, finder, amount, extranonce));
  }

  method ReadHeaderFrom(r: Reader) returns (x: Result<BlockHeader, CodecError>)
    requires r.Valid()
    modifies r
    ensures r.Valid()
    ensures x.Ok? ==> DecodeHeader(old(r.Rest())) == Ok((x.value, r.Rest()))
    ensures x.Err? ==> DecodeHeader(old(r.Rest())) == Err(x.error)
  {
    hide ReadU16, ReadU32, ReadU64, DecodeHash;
    var version :- r.U16();
    var protocol :- r.U16();
    var height :- r.U64();
    var previousBlock :- ReadHashFrom(r);
    var transactionsRoot :- ReadHashFrom(r);
    var stateRoot :- ReadHashFrom(r);
    var workshareRoot :- ReadHashFrom(r);
    var timestamp :- r.U64();
    var bits :- r.U32();
    var nonce :- r.U64();
    return Ok(BlockHeader(version, protocol, height, previousBlock, transactionsRoot, stateRoot, workshareRoot, timestamp, bits, nonce));
  }

  method ReadTemplateFrom(r: Reader, c: Checksum) returns (x: Result<BlockTemplate, CodecError>)
    requires r.Valid()
    modifies r
    ensures r.Valid()
    ensures x.Ok? ==> DecodeTemplate(c, old(r.Rest())) == Ok((x.value, r.Rest()))
    ensures x.Err? ==> DecodeTemplate(c, old(r.Rest())) == Err(x.error)
  {
    hide ReadU16, ReadU64, DecodeHash, ReadVector;
    var version :- r.U16();
    var height :- r.U64();
    var parent :- ReadHashFrom(r);
    var transactions :- r.Vector(TransactionDecoder(c), MAX_BLOCK_TRANSACTIONS, MAX_TRANSACTION_BYTES);
    return Ok(BlockTemplate(version, height, parent, transactions));
  }

  method ReadShareFrom(r: Reader, c: Checksum) returns (x: Result<Workshare, CodecError>)
    requires r.Valid()
    modifies r
    ensures r.Valid()
    ensures x.Ok? ==> DecodeShare(c, old(r.Rest())) == Ok((x.value, r.Rest()))
    ensures x.Err? ==> DecodeShare(c, old(r.Rest())) == Err(x.error)
  {
    hide ReadU16, ReadU64, DecodeHash, DecodeAddress, DecodeHeader;
    var version :- r.U16();
    var previousWorkshare :- ReadHashFrom(r);
    var templateId :- ReadHashFrom(r);
    var miner :- ReadAddressFrom(r, c);
    var extranonce :- r.U64();
    var candidateHeader :- ReadHeaderFrom(r);
    return Ok(Workshare(version, previousWorkshare, templateId, miner, extranonce, candidateHeader));
  }

  method ReadWitnessFrom(r: Reader, c: Checksum) returns (x: Result<WorkshareWitness, CodecError>)
    requires r.Valid()
    modifies r
    ensures r.Valid()
    ensures x.Ok? ==> DecodeWitness(c, old(r.Rest())) == Ok((x.value, r.Rest()))
    ensures x.Err? ==> DecodeWitness(c, old(r.Rest())) == Err(x.error)
  {
    hide ReadU16, ReadVector;
    var version :- r.U16();
    var templates :- r.Vector(TemplateDecoder(c), MAX_TEMPLATES_PER_BLOCK, MAX_TEMPLATE_BYTES);
    var workshares :- r.Vector(ShareDecoder(c), MAX_WORKSHARES_PER_BLOCK, MAX_SHARE_FRAME);
    return Ok(WorkshareWitness(version, templates, workshares));
  }

  method ReadClaimOptionFrom(r: Reader, c: Checksum) returns (x: Result<Option<RewardClaim>, CodecError>)
    requires r.Valid()
    modifies r
    ensures r.Valid()
    ensures x.Ok? ==> DecodeClaimOption(c, old(r.Rest())) == Ok((x.value, r.Rest()))
    ensures x.Err? ==> DecodeClaimOption(c, old(r.Rest())) == Err(x.error)
  {
    hide DecodeClaim;
    var tag :- r.TakeBytes(1);
    if tag[0] == 0 {
      return Ok(None);
    } else if tag[0] == 1 {
      var claim :- ReadClaimFrom(r, c);
      return Ok(Some(claim));
    }
    return Err(InvalidTag(tag[0]));
  }

  method ReadBlockFrom(r: Reader, c: Checksum) returns (x: Result<Block, CodecError>)
    requires r.Valid()
    modifies r
    ensures r.Valid()
    ensures x.Ok? ==> DecodeBlock(c, old(r.Rest())) == Ok((x.value, r.Rest()))
    ensures x.Err? ==> DecodeBlock(c, old(r.Rest())) == Err(x.error)
  {
    hide DecodeHeader, DecodeClaimOption, ReadVector, ReadBytes, DecodeAll, DecodeWitness;
    var header :- ReadHeaderFrom(r);
    var rewardClaim :- ReadClaimOptionFrom(r, c);
    var transactions :- r.Vector(TransactionDecoder(c), MAX_BLOCK_TRANSACTIONS, MAX_TRANSACTION_BYTES);
    var inner :- r.ReadFrame(MAX_WORKSHARE_WITNESS_BYTES);
    var workshareWitness :- DecodeAll(WitnessDecoder(c), inner);
    return Ok(Block(header, rewardClaim, transactions, workshareWitness));
  }
}
