/** Peer messages and their frames (src/p2p.rs): one byte string for every in-limit message, and one
    message for every accepted byte string. */
module Wire {
  import opened Base
  import opened Params
  import opened Bytes
  import opened Difficulty
  import opened Types
  import opened Codec
  import opened Encoding

  const WIRE_MAGIC: bytes := [0x50, 0x52, 0x54, 0x39]
  const MAX_WIRE_FRAME: nat := MAX_BLOCK_BYTES + 64 * 1024
  const MAX_PEER_URLS: nat := 256
  const MAX_HEADERS: nat := 2_000
  const MAX_LOCATOR: nat := 64
  const MAX_HELLO: nat := 2_048

  /** Strings are their bytes; which bytes are UTF-8 is a parameter. */
  type Utf8 = bytes -> bool

  datatype ObjectKind = BlockKind | TransactionKind | WorkshareKind | TemplateKind

  datatype Hello = Hello(
    protocol: u16, chainId: bytes, genesis: Hash, nodePublicKey: bytes, timestamp: u64, challenge: Hash,
    responseTo: Hash, height: u64, tip: Hash, cumulativeWork: bytes, listenUrl: bytes, signature: bytes)

  datatype WireMessage =
    | Greeting(hello: Hello)
    | Inventory(kind: ObjectKind, id: Hash)
    | GetData(kind: ObjectKind, id: Hash)
    | BlockMessage(block: Block)
    | TransactionMessage(transaction: Transaction)
    | WorkshareMessage(share: Workshare)
    | TemplateMessage(template: BlockTemplate)
    | GetHeaders(locator: seq<Hash>, stop: Hash)
    | Headers(headers: seq<BlockHeader>)
    | Ping(nonce: u64)
    | Pong(nonce: u64)
    | Peers(peers: seq<bytes>)

  // -------------------------------------------------------------------------- strings

  lemma StringRoundTrip(utf8: Utf8, a: bytes, max: nat, rest: bytes)
    requires |a| <= max && |a| <= MAX_CONSENSUS_ALLOCATION && utf8(a)
    ensures ReadString(utf8, Framed(a) + rest, max) == Ok((a, rest))
  {
    BytesRoundTrip(a, max, rest);
  }

  lemma StringCanonical(utf8: Utf8, s: bytes, max: nat)
    requires ReadString(utf8, s, max).Ok?
    ensures var (a, rest) := ReadString(utf8, s, max).value;
            |a| <= max && |a| <= MAX_CONSENSUS_ALLOCATION && utf8(a) && s == Framed(a) + rest
  {
    BytesCanonical(s, max);
  }

  // ---------------------------------------------------------------------------- hello

  function EncodeHello(h: Hello): bytes {
    LE(h.protocol, 2) + (Framed(h.chainId) + (EncodeHash(h.genesis) + (Framed(h.nodePublicKey) + (LE(h.timestamp, 8)
    + (EncodeHash(h.challenge) + (EncodeHash(h.responseTo) + (LE(h.height, 8) + (EncodeHash(h.tip) + (h.cumulativeWork
    + (Framed(h.listenUrl) + Framed(h.signature)))))))))))
  }

  function DecodeHello(utf8: Utf8, s: bytes): Parsed<Hello> {
    var (protocol, s) :- ReadU16(s);
    var (chainId, s) :- ReadString(utf8, s, 64);
    var (genesis, s) :- DecodeHash(s);
    var (nodePublicKey, s) :- ReadBytes(s, 33);
    var (timestamp, s) :- ReadU64(s);
    var (challenge, s) :- DecodeHash(s);
    var (responseTo, s) :- DecodeHash(s);
    var (height, s) :- ReadU64(s);
    var (tip, s) :- DecodeHash(s);
    var (cumulativeWork, s) :- Take(s, 32);
    var (listenUrl, s) :- ReadString(utf8, s, 512);
    var (signature, s) :- ReadBytes(s, 64);
    Ok((Hello(protocol, chainId, genesis, nodePublicKey, timestamp, challenge, responseTo, height, tip, cumulativeWork, listenUrl, signature), s))
  }

  predicate HelloOk(utf8: Utf8, h: Hello) {
    && |h.chainId| <= 64 && utf8(h.chainId) && |h.nodePublicKey| <= 33
    && |h.cumulativeWork| == 32 && |h.listenUrl| <= 512 && utf8(h.listenUrl) && |h.signature| <= 64
    && HashTyped(h.genesis) && HashTyped(h.challenge) && HashTyped(h.responseTo) && HashTyped(h.tip)
  }

  lemma HelloFits(utf8: Utf8, h: Hello)
    requires HelloOk(utf8, h)
    ensures |EncodeHello(h)| <= MAX_HELLO
  {
    hide LE;
  }

  lemma HelloRoundTrip(utf8: Utf8, h: Hello, rest: bytes)
    requires HelloOk(utf8, h)
    ensures DecodeHello(utf8, EncodeHello(h) + rest) == Ok((h, rest))
  {
    hide LE, Framed, EncodeHash, ReadU16, ReadU64, ReadBytes, ReadString, DecodeHash, Take, HashTyped;
    var s11 := Framed(h.signature) + rest;
    var s10 := Framed(h.listenUrl) + s11;
    var s9 := h.cumulativeWork + s10;
    var s8 := EncodeHash(h.tip) + s9;
    var s7 := LE(h.height, 8) + s8;
    var s6 := EncodeHash(h.responseTo) + s7;
    var s5 := EncodeHash(h.challenge) + s6;
    var s4 := LE(h.timestamp, 8) + s5;
    var s3 := Framed(h.nodePublicKey) + s4;
    var s2 := EncodeHash(h.genesis) + s3;
    var s1 := Framed(h.chainId) + s2;
    assert EncodeHello(h) + rest == LE(h.protocol, 2) + s1;
    U16RoundTrip(h.protocol, s1);
    StringRoundTrip(utf8, h.chainId, 64, s2);
    HashRoundTrip(h.genesis, s3);
    BytesRoundTrip(h.nodePublicKey, 33, s4);
    U64RoundTrip(h.timestamp, s5);
    HashRoundTrip(h.challenge, s6);
    HashRoundTrip(h.responseTo, s7);
    U64RoundTrip(h.height, s8);
    HashRoundTrip(h.tip, s9);
    TakePrefix(h.cumulativeWork, s10);
    StringRoundTrip(utf8, h.listenUrl, 512, s11);
    BytesRoundTrip(h.signature, 64, rest);
  }

  lemma HelloCanonical(utf8: Utf8, s: bytes)
    requires DecodeHello(utf8, s).Ok?
    ensures HelloOk(utf8, DecodeHello(utf8, s).value.0)
    ensures s == EncodeHello(DecodeHello(utf8, s).value.0) + DecodeHello(utf8, s).value.1
  {
    hide LE, Framed, EncodeHash, ReadU16, ReadU64, ReadBytes, ReadString, DecodeHash, Take, HashTyped;
    U16Canonical(s);
    var s1 := ReadU16(s).value.1;
    StringCanonical(utf8, s1, 64);
    var s2 := ReadString(utf8, s1, 64).value.1;
    HashCanonical(s2);
    var s3 := DecodeHash(s2).value.1;
    BytesCanonical(s3, 33);
    var s4 := ReadBytes(s3, 33).value.1;
    U64Canonical(s4);
    var s5 := ReadU64(s4).value.1;
    HashCanonical(s5);
    var s6 := DecodeHash(s5).value.1;
    HashCanonical(s6);
    var s7 := DecodeHash(s6).value.1;
    U64Canonical(s7);
    var s8 := ReadU64(s7).value.1;
    HashCanonical(s8);
    var s9 := DecodeHash(s8).value.1;
    TakeCanonical(s9, 32);
    var s10 := Take(s9, 32).value.1;
    StringCanonical(utf8, s10, 512);
    var s11 := ReadString(utf8, s10, 512).value.1;
    BytesCanonical(s11, 64);
    var (h, rest) := DecodeHello(utf8, s).value;
    assert s8 == EncodeHash(h.tip) + (h.cumulativeWork + (Framed(h.listenUrl) + (Framed(h.signature) + rest)));
    assert s4 == LE(h.timestamp, 8) + (EncodeHash(h.challenge) + (EncodeHash(h.responseTo) + (LE(h.height, 8) + s8)));
    assert s == LE(h.protocol, 2) + (Framed(h.chainId) + (EncodeHash(h.genesis) + (Framed(h.nodePublicKey) + s4)));
  }

  // ----------------------------------------------------------------- kinds and references

  function KindByte(kind: ObjectKind): byte {
    match kind
    case BlockKind => 1
    case TransactionKind => 2
    case WorkshareKind => 3
    case TemplateKind => 4
  }

  function KindOf(tag: byte): Result<ObjectKind, CodecError> {
    if tag == 1 then Ok(BlockKind)
    else if tag == 2 then Ok(TransactionKind)
    else if tag == 3 then Ok(WorkshareKind)
    else if tag == 4 then Ok(TemplateKind)
    else Err(InvalidTag(tag))
  }

  function EncodeReference(kind: ObjectKind, id: Hash): bytes {
    [KindByte(kind)] + EncodeHash(id)
  }

  function DecodeReference(s: bytes): Parsed<(ObjectKind, Hash)> {
    var (tag, s) :- ReadU8(s);
    var kind :- KindOf(tag);
    var (id, s) :- DecodeHash(s);
    Ok(((kind, id), s))
  }

  lemma ReferenceLaws(kind: ObjectKind, id: Hash, s: bytes, rest: bytes)
    ensures HashTyped(id) ==> DecodeReference(EncodeReference(kind, id) + rest) == Ok(((kind, id), rest))
    ensures DecodeReference(s).Ok? ==>
              var ((k, h), tail) := DecodeReference(s).value; HashTyped(h) && s == EncodeReference(k, h) + tail
  {
    hide EncodeHash, DecodeHash, ReadU8, HashTyped;
    var s1 := EncodeHash(id) + rest;
    assert EncodeReference(kind, id) + rest == [KindByte(kind)] + s1;
    U8RoundTrip(KindByte(kind), s1);
    if HashTyped(id) {
      HashRoundTrip(id, rest);
    }
    if DecodeReference(s).Ok? {
      U8Canonical(s);
      HashCanonical(ReadU8(s).value.1);
      var ((k, h), tail) := DecodeReference(s).value;
      assert s == [KindByte(k)] + (EncodeHash(h) + tail);
    }
  }

  // ------------------------------------------------------------------ unframed vectors

  function HashEncoder(): Hash -> bytes {
    h => EncodeHash(h)
  }

  function HashDecoder(): bytes -> Parsed<Hash> {
    s => DecodeHash(s)
  }

  function HeaderEncoder(): BlockHeader -> bytes {
    h => EncodeHeader(h)
  }

  function HeaderDecoder(): bytes -> Parsed<BlockHeader> {
    s => DecodeHeader(s)
  }

  lemma HashLaws()
    ensures RoundTrips(HashTyped, HashEncoder(), HashDecoder())
    ensures Canonical(HashTyped, HashEncoder(), HashDecoder())
  {
    hide EncodeHash, DecodeHash, HashTyped;
    forall h: Hash, rest | HashTyped(h) ensures HashDecoder()(HashEncoder()(h) + rest) == Ok((h, rest)) {
      HashRoundTrip(h, rest);
    }
    forall s | HashDecoder()(s).Ok?
      ensures HashTyped(HashDecoder()(s).value.0)
      ensures s == HashEncoder()(HashDecoder()(s).value.0) + HashDecoder()(s).value.1
    {
      HashCanonical(s);
    }
  }

  lemma HeaderLaws()
    ensures RoundTrips(HeaderTyped, HeaderEncoder(), HeaderDecoder())
    ensures Canonical(HeaderTyped, HeaderEncoder(), HeaderDecoder())
  {
    hide EncodeHeader, DecodeHeader, HeaderTyped;
    forall h, rest | HeaderTyped(h) ensures HeaderDecoder()(HeaderEncoder()(h) + rest) == Ok((h, rest)) {
      HeaderRoundTrip(h, rest);
    }
    forall s | HeaderDecoder()(s).Ok?
      ensures HeaderTyped(HeaderDecoder()(s).value.0)
      ensures s == HeaderEncoder()(HeaderDecoder()(s).value.0) + HeaderDecoder()(s).value.1
    {
      HeaderCanonical(s);
    }
  }

  /** A count, then the elements one after another. */
  function Plain<T>(encode: T -> bytes, xs: seq<T>): bytes {
    LE(|xs|, 4) + Concat(encode, xs)
  }

  function ReadPlain<T>(decode: bytes -> Parsed<T>, s: bytes, max: nat): Parsed<seq<T>> {
    var (n, rest) :- ReadCount(s, max);
    ReadMany(decode, rest, n)
  }

  lemma PlainRoundTrip<T(!new)>(ok: T -> bool, encode: T -> bytes, decode: bytes -> Parsed<T>, max: nat, xs: seq<T>, rest: bytes)
    requires RoundTrips(ok, encode, decode)
    requires |xs| <= max < 0x1_0000_0000 && forall x :: x in xs ==> ok(x)
    ensures ReadPlain(decode, Plain(encode, xs) + rest, max) == Ok((xs, rest))
  {
    var body := Concat(encode, xs) + rest;
    assert Plain(encode, xs) + rest == LE(|xs|, 4) + body;
    CountRoundTrip(|xs|, max, body);
    ManyRoundTrip(ok, encode, decode, xs, rest);
  }

  lemma PlainCanonical<T(!new)>(ok: T -> bool, encode: T -> bytes, decode: bytes -> Parsed<T>, max: nat, s: bytes)
    requires Canonical(ok, encode, decode) && ReadPlain(decode, s, max).Ok?
    ensures var (xs, rest) := ReadPlain(decode, s, max).value;
            && |xs| <= max && (forall x :: x in xs ==> ok(x))
            && s == Plain(encode, xs) + rest
  {
    CountCanonical(s, max);
    var (n, body) := ReadCount(s, max).value;
    ManyCanonical(ok, encode, decode, body, n);
    var (xs, rest) := ReadPlain(decode, s, max).value;
    assert s == LE(n, 4) + (Concat(encode, xs) + rest);
  }

  // ---------------------------------------------------------------------------- peers

  function StringEncoder(): bytes -> bytes {
    (x: bytes) => Framed(x)
  }

  predicate NoRepeats(xs: seq<bytes>) {
    forall i, j :: 0 <= i < j < |xs| ==> xs[i] != xs[j]
  }

  /** The peer loop: `unique` holds what was read before. */
  function ReadPeers(utf8: Utf8, s: bytes, n: nat, unique: set<bytes>): Parsed<seq<bytes>>
    decreases n
  {
    if n == 0 then Ok(([], s))
    else
      var (peer, s) :- ReadString(utf8, s, 512);
      if peer in unique then Err(NonCanonical)
      else
        var (peers, s) :- ReadPeers(utf8, s, n - 1, unique + {peer});
        Ok(([peer] + peers, s))
  }

  predicate PeersOk(utf8: Utf8, xs: seq<bytes>) {
    forall x :: x in xs ==> |x| <= 512 && utf8(x)
  }

  lemma {:induction false} PeersRead(utf8: Utf8, xs: seq<bytes>, unique: set<bytes>, rest: bytes)
    requires PeersOk(utf8, xs) && NoRepeats(xs) && forall x :: x in xs ==> x !in unique
    ensures ReadPeers(utf8, Concat(StringEncoder(), xs) + rest, |xs|, unique) == Ok((xs, rest))
    decreases |xs|
  {
    hide Framed, ReadString;
    var s := Concat(StringEncoder(), xs) + rest;
    if xs == [] {
      assert s == rest;
    } else {
      var t := Concat(StringEncoder(), xs[1..]) + rest;
      assert xs[0] in xs;
      assert s == Framed(xs[0]) + t;
      StringRoundTrip(utf8, xs[0], 512, t);
      forall x | x in xs[1..] ensures x !in unique + {xs[0]} {
        var i :| 0 <= i < |xs[1..]| && xs[1..][i] == x;
        assert xs[i + 1] == x && xs[0] != xs[i + 1];
      }
      PeersRead(utf8, xs[1..], unique + {xs[0]}, rest);
      assert [xs[0]] + xs[1..] == xs;
    }
  }

  lemma {:induction false} PeersReadBack(utf8: Utf8, s: bytes, n: nat, unique: set<bytes>)
    requires ReadPeers(utf8, s, n, unique).Ok?
    ensures var (xs, rest) := ReadPeers(utf8, s, n, unique).value;
            && |xs| == n && PeersOk(utf8, xs) && NoRepeats(xs) && (forall x :: x in xs ==> x !in unique)
            && s == Concat(StringEncoder(), xs) + rest
    decreases n
  {
    hide Framed, ReadString;
    if n == 0 {
      assert s == [] + s;
    } else {
      StringCanonical(utf8, s, 512);
      var (peer, t) := ReadString(utf8, s, 512).value;
      PeersReadBack(utf8, t, n - 1, unique + {peer});
      var (tail, rest) := ReadPeers(utf8, t, n - 1, unique + {peer}).value;
      var xs := [peer] + tail;
      assert xs[1..] == tail;
      assert s == Framed(peer) + (Concat(StringEncoder(), tail) + rest);
      assert forall x :: x in xs ==> x == peer || x in tail;
    }
  }

  function EncodePeers(xs: seq<bytes>): bytes {
    LE(|xs|, 4) + Concat(StringEncoder(), xs)
  }

  function DecodePeers(utf8: Utf8, s: bytes): Parsed<seq<bytes>> {
    var (n, rest) :- ReadCount(s, MAX_PEER_URLS);
    ReadPeers(utf8, rest, n, {})
  }

  lemma PeersRoundTrip(utf8: Utf8, xs: seq<bytes>, rest: bytes)
    requires |xs| <= MAX_PEER_URLS && PeersOk(utf8, xs) && NoRepeats(xs)
    ensures DecodePeers(utf8, EncodePeers(xs) + rest) == Ok((xs, rest))
  {
    var body := Concat(StringEncoder(), xs) + rest;
    assert EncodePeers(xs) + rest == LE(|xs|, 4) + body;
    CountRoundTrip(|xs|, MAX_PEER_URLS, body);
    PeersRead(utf8, xs, {}, rest);
  }

  lemma PeersCanonical(utf8: Utf8, s: bytes)
    requires DecodePeers(utf8, s).Ok?
    ensures var (xs, rest) := DecodePeers(utf8, s).value;
            |xs| <= MAX_PEER_URLS && PeersOk(utf8, xs) && NoRepeats(xs) && s == EncodePeers(xs) + rest
  {
    CountCanonical(s, MAX_PEER_URLS);
    var (n, body) := ReadCount(s, MAX_PEER_URLS).value;
    PeersReadBack(utf8, body, n, {});
    var (xs, rest) := DecodePeers(utf8, s).value;
    assert s == LE(n, 4) + (Concat(StringEncoder(), xs) + rest);
  }

  // ------------------------------------------------------------------------- messages

  function HelloEncoder(): Hello -> bytes {
    h => EncodeHello(h)
  }

  function HelloDecoder(utf8: Utf8): bytes -> Parsed<Hello> {
    s => DecodeHello(utf8, s)
  }

  function HelloOks(utf8: Utf8): Hello -> bool {
    h => HelloOk(utf8, h)
  }

  lemma HelloLaws(utf8: Utf8)
    ensures RoundTrips(HelloOks(utf8), HelloEncoder(), HelloDecoder(utf8))
    ensures Canonical(HelloOks(utf8), HelloEncoder(), HelloDecoder(utf8))
  {
    hide EncodeHello, DecodeHello, HelloOk;
    forall h, rest | HelloOks(utf8)(h) ensures HelloDecoder(utf8)(HelloEncoder()(h) + rest) == Ok((h, rest)) {
      HelloRoundTrip(utf8, h, rest);
    }
    forall s | HelloDecoder(utf8)(s).Ok?
      ensures HelloOks(utf8)(HelloDecoder(utf8)(s).value.0)
      ensures s == HelloEncoder()(HelloDecoder(utf8)(s).value.0) + HelloDecoder(utf8)(s).value.1
    {
      HelloCanonical(utf8, s);
    }
  }

  function EncodeLocator(locator: seq<Hash>, stop: Hash): bytes {
    Plain(HashEncoder(), locator) + EncodeHash(stop)
  }

  function DecodeLocator(s: bytes): Parsed<(seq<Hash>, Hash)> {
    var (locator, s) :- ReadPlain(HashDecoder(), s, MAX_LOCATOR);
    var (stop, s) :- DecodeHash(s);
    Ok(((locator, stop), s))
  }

  predicate LocatorOk(locator: seq<Hash>, stop: Hash) {
    |locator| <= MAX_LOCATOR && (forall h :: h in locator ==> HashTyped(h)) && HashTyped(stop)
  }

  lemma LocatorLaws(locator: seq<Hash>, stop: Hash, s: bytes, rest: bytes)
    ensures LocatorOk(locator, stop) ==> DecodeLocator(EncodeLocator(locator, stop) + rest) == Ok(((locator, stop), rest))
    ensures DecodeLocator(s).Ok? ==>
              var ((l, h), tail) := DecodeLocator(s).value; LocatorOk(l, h) && s == EncodeLocator(l, h) + tail
  {
    HashLaws();
    hide EncodeHash, DecodeHash, HashTyped, Plain, ReadPlain, RoundTrips, Canonical, HashEncoder, HashDecoder;
    if LocatorOk(locator, stop) {
      var s1 := EncodeHash(stop) + rest;
      assert EncodeLocator(locator, stop) + rest == Plain(HashEncoder(), locator) + s1;
      PlainRoundTrip(HashTyped, HashEncoder(), HashDecoder(), MAX_LOCATOR, locator, s1);
      HashRoundTrip(stop, rest);
    }
    if DecodeLocator(s).Ok? {
      PlainCanonical(HashTyped, HashEncoder(), HashDecoder(), MAX_LOCATOR, s);
      var s1 := ReadPlain(HashDecoder(), s, MAX_LOCATOR).value.1;
      HashCanonical(s1);
      var ((l, h), tail) := DecodeLocator(s).value;
      assert s == Plain(HashEncoder(), l) + (EncodeHash(h) + tail);
    }
  }

  function EncodeMessage(c: Checksum, m: WireMessage): bytes {
    match m
    case Greeting(hello) => [1] + Framed(EncodeHello(hello))
    case Inventory(kind, id) => [2] + EncodeReference(kind, id)
    case GetData(kind, id) => [3] + EncodeReference(kind, id)
    case BlockMessage(block) => [4] + Framed(EncodeBlock(c, block))
    case TransactionMessage(tx) => [5] + Framed(EncodeTransaction(c, tx))
    case WorkshareMessage(share) => [6] + Framed(EncodeShare(c, share))
    case TemplateMessage(t) => [7] + Framed(EncodeTemplate(c, t))
    case GetHeaders(locator, stop) => [8] + EncodeLocator(locator, stop)
    case Headers(headers) => [9] + Plain(HeaderEncoder(), headers)
    case Ping(nonce) => [10] + LE(nonce, 8)
    case Pong(nonce) => [11] + LE(nonce, 8)
    case Peers(peers) => [12] + EncodePeers(peers)
  }

  function DecodeObject(c: Checksum, utf8: Utf8, tag: byte, s: bytes): Parsed<WireMessage> {
    if tag == 1 then var (hello, s) :- ReadFramed(HelloDecoder(utf8), s, MAX_HELLO); Ok((Greeting(hello), s))
    else if tag == 4 then var (block, s) :- ReadFramed(BlockDecoder(c), s, MAX_BLOCK_BYTES); Ok((BlockMessage(block), s))
    else if tag == 5 then var (tx, s) :- ReadFramed(TransactionDecoder(c), s, MAX_TRANSACTION_BYTES); Ok((TransactionMessage(tx), s))
    else if tag == 6 then var (share, s) :- ReadFramed(ShareDecoder(c), s, MAX_SHARE_FRAME); Ok((WorkshareMessage(share), s))
    else if tag == 7 then var (t, s) :- ReadFramed(TemplateDecoder(c), s, MAX_TEMPLATE_BYTES); Ok((TemplateMessage(t), s))
    else Err(InvalidTag(tag))
  }

  function DecodeRequest(utf8: Utf8, tag: byte, s: bytes): Parsed<WireMessage> {
    if tag == 2 then var ((kind, id), s) :- DecodeReference(s); Ok((Inventory(kind, id), s))
    else if tag == 3 then var ((kind, id), s) :- DecodeReference(s); Ok((GetData(kind, id), s))
    else if tag == 8 then var ((locator, stop), s) :- DecodeLocator(s); Ok((GetHeaders(locator, stop), s))
    else if tag == 9 then var (headers, s) :- ReadPlain(HeaderDecoder(), s, MAX_HEADERS); Ok((Headers(headers), s))
    else if tag == 10 then var (nonce, s) :- ReadU64(s); Ok((Ping(nonce), s))
    else if tag == 11 then var (nonce, s) :- ReadU64(s); Ok((Pong(nonce), s))
    else if tag == 12 then var (peers, s) :- DecodePeers(utf8, s); Ok((Peers(peers), s))
    else Err(InvalidTag(tag))
  }

  predicate CarriesObject(tag: byte) {
    tag == 1 || 4 <= tag <= 7
  }

  function DecodeMessage(c: Checksum, utf8: Utf8, s: bytes): Parsed<WireMessage> {
    var (tag, s) :- ReadU8(s);
    if CarriesObject(tag) then DecodeObject(c, utf8, tag, s) else DecodeRequest(utf8, tag, s)
  }

  /** The limits of the decoder on each kind of message. */
  predicate MessageOk(utf8: Utf8, m: WireMessage) {
    match m
    case Greeting(hello) => HelloOk(utf8, hello)
    case Inventory(_, id) => HashTyped(id)
    case GetData(_, id) => HashTyped(id)
    case BlockMessage(block) => BlockOk(block) && BlockSize(block) <= MAX_BLOCK_BYTES
    case TransactionMessage(tx) => TransactionOk(tx)
    case WorkshareMessage(share) => ShareOk(share)
    case TemplateMessage(t) => TemplateOk(t) && TemplateSize(t) <= MAX_TEMPLATE_BYTES
    case GetHeaders(locator, stop) => LocatorOk(locator, stop)
    case Headers(headers) => |headers| <= MAX_HEADERS && forall h :: h in headers ==> HeaderTyped(h)
    case Ping(_) => true
    case Pong(_) => true
    case Peers(peers) => |peers| <= MAX_PEER_URLS && PeersOk(utf8, peers) && NoRepeats(peers)
  }

  function Tag(m: WireMessage): byte {
    match m
    case Greeting(_) => 1
    case Inventory(_, _) => 2
    case GetData(_, _) => 3
    case BlockMessage(_) => 4
    case TransactionMessage(_) => 5
    case WorkshareMessage(_) => 6
    case TemplateMessage(_) => 7
    case GetHeaders(_, _) => 8
    case Headers(_) => 9
    case Ping(_) => 10
    case Pong(_) => 11
    case Peers(_) => 12
  }

  /** The bytes after the tag. */
  function Payload(c: Checksum, m: WireMessage): bytes {
    EncodeMessage(c, m)[1..]
  }

  lemma TagLeads(c: Checksum, m: WireMessage)
    ensures EncodeMessage(c, m) == [Tag(m)] + Payload(c, m)
  {
    hide EncodeHello, EncodeReference, EncodeBlock, EncodeTransaction, EncodeShare, EncodeTemplate, EncodeLocator, EncodePeers, Plain, Framed, LE;
  }

  lemma ObjectRoundTrip(c: Checksum, utf8: Utf8, m: WireMessage, rest: bytes)
    requires MessageOk(utf8, m) && CarriesObject(Tag(m))
    ensures DecodeObject(c, utf8, Tag(m), Payload(c, m) + rest) == Ok((m, rest))
  {
    HelloLaws(utf8);
    BlockLaws(c);
    TransactionLaws(c);
    ShareLaws(c);
    TemplateLaws(c);
    hide EncodeHello, DecodeHello, EncodeBlock, EncodeTransaction, EncodeShare, EncodeTemplate, Framed, ReadFramed, RoundTrips, Canonical,
         HelloOk, BlockOk, TransactionOk, ShareOk, TemplateOk, BlockSize, TemplateSize;
    match m {
      case Greeting(hello) =>
        HelloFits(utf8, hello);
        FramedRoundTrip(HelloOks(utf8), HelloEncoder(), HelloDecoder(utf8), MAX_HELLO, hello, rest);
      case BlockMessage(block) =>
        BlockSizeIs(c, block);
        FramedRoundTrip(BlockOk, BlockEncoder(c), BlockDecoder(c), MAX_BLOCK_BYTES, block, rest);
      case TransactionMessage(tx) =>
        TransactionSizeIs(c, tx);
        TransactionFits(tx);
        FramedRoundTrip(TransactionOk, TransactionEncoder(c), TransactionDecoder(c), MAX_TRANSACTION_BYTES, tx, rest);
      case WorkshareMessage(share) =>
        ShareSizeIs(c, share);
        FramedRoundTrip(ShareOk, ShareEncoder(c), ShareDecoder(c), MAX_SHARE_FRAME, share, rest);
      case TemplateMessage(t) =>
        TemplateSizeIs(c, t);
        FramedRoundTrip(TemplateOk, TemplateEncoder(c), TemplateDecoder(c), MAX_TEMPLATE_BYTES, t, rest);
      case _ =>
    }
  }

  lemma TransactionFits(tx: Transaction)
    requires TransactionOk(tx)
    ensures TransactionSize(tx) <= MAX_TRANSACTION_BYTES
  {
  }

  lemma RequestRoundTrip(c: Checksum, utf8: Utf8, m: WireMessage, rest: bytes)
    requires MessageOk(utf8, m) && !CarriesObject(Tag(m))
    ensures DecodeRequest(utf8, Tag(m), Payload(c, m) + rest) == Ok((m, rest))
  {
    HeaderLaws();
    hide EncodeReference, DecodeReference, EncodeLocator, DecodeLocator, Plain, ReadPlain, EncodePeers, DecodePeers, LE, ReadU64,
         RoundTrips, Canonical, HashTyped, HeaderTyped, LocatorOk, PeersOk, NoRepeats;
    match m {
      case Inventory(kind, id) => ReferenceLaws(kind, id, [], rest);
      case GetData(kind, id) => ReferenceLaws(kind, id, [], rest);
      case GetHeaders(locator, stop) => LocatorLaws(locator, stop, [], rest);
      case Headers(headers) => PlainRoundTrip(HeaderTyped, HeaderEncoder(), HeaderDecoder(), MAX_HEADERS, headers, rest);
      case Ping(nonce) => U64RoundTrip(nonce, rest);
      case Pong(nonce) => U64RoundTrip(nonce, rest);
      case Peers(peers) => PeersRoundTrip(utf8, peers, rest);
      case _ =>
    }
  }

  lemma ObjectCanonical(c: Checksum, utf8: Utf8, tag: byte, s: bytes)
    requires DecodeObject(c, utf8, tag, s).Ok?
    ensures var (m, rest) := DecodeObject(c, utf8, tag, s).value;
            MessageOk(utf8, m) && Tag(m) == tag && s == Payload(c, m) + rest
  {
    HelloLaws(utf8);
    BlockLaws(c);
    TransactionLaws(c);
    ShareLaws(c);
    TemplateLaws(c);
    hide EncodeHello, DecodeHello, EncodeBlock, EncodeTransaction, EncodeShare, EncodeTemplate, Framed, ReadFramed, RoundTrips, Canonical,
         HelloOk, BlockOk, TransactionOk, ShareOk, TemplateOk, BlockSize, TemplateSize;
    var (m, rest) := DecodeObject(c, utf8, tag, s).value;
    if tag == 1 {
      FramedCanonical(HelloOks(utf8), HelloEncoder(), HelloDecoder(utf8), MAX_HELLO, s);
    } else if tag == 4 {
      FramedCanonical(BlockOk, BlockEncoder(c), BlockDecoder(c), MAX_BLOCK_BYTES, s);
      BlockSizeIs(c, m.block);
    } else if tag == 5 {
      FramedCanonical(TransactionOk, TransactionEncoder(c), TransactionDecoder(c), MAX_TRANSACTION_BYTES, s);
    } else if tag == 6 {
      FramedCanonical(ShareOk, ShareEncoder(c), ShareDecoder(c), MAX_SHARE_FRAME, s);
    } else {
      FramedCanonical(TemplateOk, TemplateEncoder(c), TemplateDecoder(c), MAX_TEMPLATE_BYTES, s);
      TemplateSizeIs(c, m.template);
    }
  }

  lemma RequestCanonical(c: Checksum, utf8: Utf8, tag: byte, s: bytes)
    requires DecodeRequest(utf8, tag, s).Ok?
    ensures var (m, rest) := DecodeRequest(utf8, tag, s).value;
            MessageOk(utf8, m) && Tag(m) == tag && s == Payload(c, m) + rest
  {
    HeaderLaws();
    hide EncodeReference, DecodeReference, EncodeLocator, DecodeLocator, Plain, ReadPlain, EncodePeers, DecodePeers, LE, ReadU64,
         RoundTrips, Canonical, HashTyped, HeaderTyped, LocatorOk, PeersOk, NoRepeats;
    if tag == 2 || tag == 3 {
      ReferenceLaws(BlockKind, 0, s, []);
    } else if tag == 8 {
      LocatorLaws([], 0, s, []);
    } else if tag == 9 {
      PlainCanonical(HeaderTyped, HeaderEncoder(), HeaderDecoder(), MAX_HEADERS, s);
    } else if tag == 10 || tag == 11 {
      U64Canonical(s);
    } else {
      PeersCanonical(utf8, s);
    }
  }

  lemma MessageRoundTrip(c: Checksum, utf8: Utf8, m: WireMessage, rest: bytes)
    requires MessageOk(utf8, m)
    ensures DecodeMessage(c, utf8, EncodeMessage(c, m) + rest) == Ok((m, rest))
  {
    hide EncodeMessage, MessageOk, DecodeObject, DecodeRequest, Payload, ReadU8, Tag;
    TagLeads(c, m);
    var s := Payload(c, m) + rest;
    assert EncodeMessage(c, m) + rest == [Tag(m)] + s;
    U8RoundTrip(Tag(m), s);
    if CarriesObject(Tag(m)) {
      ObjectRoundTrip(c, utf8, m, rest);
    } else {
      RequestRoundTrip(c, utf8, m, rest);
    }
  }

  lemma MessageCanonical(c: Checksum, utf8: Utf8, s: bytes)
    requires DecodeMessage(c, utf8, s).Ok?
    ensures MessageOk(utf8, DecodeMessage(c, utf8, s).value.0)
    ensures s == EncodeMessage(c, DecodeMessage(c, utf8, s).value.0) + DecodeMessage(c, utf8, s).value.1
  {
    hide EncodeMessage, MessageOk, DecodeObject, DecodeRequest, Payload, ReadU8, Tag;
    U8Canonical(s);
    var (tag, t) := ReadU8(s).value;
    if CarriesObject(tag) {
      ObjectCanonical(c, utf8, tag, t);
    } else {
      RequestCanonical(c, utf8, tag, t);
    }
    var (m, rest) := DecodeMessage(c, utf8, s).value;
    TagLeads(c, m);
    assert s == [tag] + (Payload(c, m) + rest);
  }

  // --------------------------------------------------------------------------- frames

  function EncodeFrame(c: Checksum, m: WireMessage): bytes {
    WIRE_MAGIC + EncodeMessage(c, m)
  }

  function DecodeFrame(c: Checksum, utf8: Utf8, s: bytes): Result<WireMessage, CodecError> {
    if |s| > MAX_WIRE_FRAME then Err(LimitExceeded(|s|, MAX_WIRE_FRAME))
    else
      var (magic, s) :- Take(s, 4);
      if magic != WIRE_MAGIC then Err(NonCanonical)
      else
        var (m, s) :- DecodeMessage(c, utf8, s);
        if s != [] then Err(TrailingBytes(|s|)) else Ok(m)
  }

  lemma {:induction false} ConcatWidth<T(!new)>(encode: T -> bytes, xs: seq<T>, width: nat)
    requires forall x :: x in xs ==> |encode(x)| <= width
    ensures |Concat(encode, xs)| <= |xs| * width
    decreases |xs|
  {
    if xs != [] {
      assert xs[0] in xs;
      ConcatWidth(encode, xs[1..], width);
      assert |xs| * width == width + (|xs| - 1) * width;
    }
  }

  /** In-limit messages always fit a frame. */
  lemma MessageFits(c: Checksum, utf8: Utf8, m: WireMessage)
    requires MessageOk(utf8, m)
    ensures |EncodeFrame(c, m)| <= MAX_WIRE_FRAME
  {
    hide EncodeHello, EncodeHash, EncodeHeader, EncodeBlock, EncodeTransaction, EncodeShare, EncodeTemplate, LE, HelloOk, BlockOk, ShareOk,
         TemplateOk, BlockSize, TemplateSize, HashTyped, HeaderTyped, NoRepeats, Concat;
    match m {
      case Greeting(hello) => HelloFits(utf8, hello);
      case Inventory(kind, id) => HashWidth(id);
      case GetData(kind, id) => HashWidth(id);
      case BlockMessage(block) => BlockSizeIs(c, block);
      case TransactionMessage(tx) =>
        TransactionSizeIs(c, tx);
        TransactionFits(tx);
      case WorkshareMessage(share) => ShareSizeIs(c, share);
      case TemplateMessage(t) => TemplateSizeIs(c, t);
      case GetHeaders(locator, stop) =>
        HashWidth(stop);
        forall h | h in locator ensures |HashEncoder()(h)| <= 32 { HashWidth(h); }
        ConcatWidth(HashEncoder(), locator, 32);
      case Headers(headers) =>
        forall h | h in headers ensures |HeaderEncoder()(h)| <= HEADER_SIZE { HeaderWidth(h); }
        ConcatWidth(HeaderEncoder(), headers, HEADER_SIZE);
      case Ping(_) =>
      case Pong(_) =>
      case Peers(peers) =>
        ConcatWidth(StringEncoder(), peers, 516);
    }
  }

  lemma HashWidth(h: Hash)
    ensures |EncodeHash(h)| == 32
  {
  }

  lemma HeaderWidth(h: BlockHeader)
    ensures |EncodeHeader(h)| == HEADER_SIZE
  {
  }

  /** Frames and in-limit messages correspond one to one. */
  lemma FrameDecodesExactly(c: Checksum, utf8: Utf8, s: bytes, m: WireMessage)
    ensures DecodeFrame(c, utf8, s) == Ok(m) <==> MessageOk(utf8, m) && s == EncodeFrame(c, m)
  {
    hide EncodeMessage, DecodeMessage, MessageOk;
    if MessageOk(utf8, m) && s == EncodeFrame(c, m) {
      MessageFits(c, utf8, m);
      TakePrefix(WIRE_MAGIC, EncodeMessage(c, m));
      MessageRoundTrip(c, utf8, m, []);
      assert EncodeMessage(c, m) + [] == EncodeMessage(c, m);
    }
    if DecodeFrame(c, utf8, s).Ok? {
      TakeCanonical(s, 4);
      var t := Take(s, 4).value.1;
      MessageCanonical(c, utf8, t);
      var x := DecodeMessage(c, utf8, t).value.0;
      assert t == EncodeMessage(c, x) + [];
    }
  }
}
