/** Fixed-width integers as bytes: little-endian for wire integers, big-endian for the values
    whose byte order is their numeric order (hashes, addresses). */
module Bytes {
  import opened Base
  import opened Arith

  type bytes = seq<byte>

  function LE(n: nat, width: nat): (s: bytes)
    ensures |s| == width
  {
    if width == 0 then [] else [n % 0x100] + LE(n / 0x100, width - 1)
  }

  function FromLE(s: bytes): nat {
    if s == [] then 0 else s[0] + 0x100 * FromLE(s[1..])
  }

  function BE(n: nat, width: nat): (s: bytes)
    ensures |s| == width
  {
    if width == 0 then [] else BE(n / 0x100, width - 1) + [n % 0x100]
  }

  function FromBE(s: bytes): nat {
    if s == [] then 0 else FromBE(s[..|s| - 1]) * 0x100 + s[|s| - 1]
  }

  lemma {:induction false} LERoundTrip(n: nat, width: nat)
    requires n < P256(width)
    ensures FromLE(LE(n, width)) == n
  {
    if width > 0 {
      LERoundTrip(n / 0x100, width - 1);
      assert LE(n, width)[1..] == LE(n / 0x100, width - 1);
    }
  }

  lemma {:induction false} LECanonical(s: bytes)
    ensures FromLE(s) < P256(|s|)
    ensures LE(FromLE(s), |s|) == s
  {
    if s != [] {
      LECanonical(s[1..]);
      var n := FromLE(s);
      assert n / 0x100 == FromLE(s[1..]) && n % 0x100 == s[0];
    }
  }

  lemma {:induction false} BERoundTrip(n: nat, width: nat)
    requires n < P256(width)
    ensures FromBE(BE(n, width)) == n
  {
    if width > 0 {
      BERoundTrip(n / 0x100, width - 1);
      assert BE(n, width)[..width - 1] == BE(n / 0x100, width - 1);
    }
  }

  lemma {:induction false} BECanonical(s: bytes)
    ensures FromBE(s) < P256(|s|)
    ensures BE(FromBE(s), |s|) == s
  {
    if s != [] {
      var front := s[..|s| - 1];
      BECanonical(front);
      var n := FromBE(s);
      assert n / 0x100 == FromBE(front) && n % 0x100 == s[|s| - 1];
      assert s == front + [s[|s| - 1]];
    }
  }

  lemma LEInjective(n: nat, m: nat, width: nat)
    requires n < P256(width) && m < P256(width)
    requires LE(n, width) == LE(m, width)
    ensures n == m
  {
    LERoundTrip(n, width);
    LERoundTrip(m, width);
  }

  lemma Widths()
    ensures P256(1) == 0x100
    ensures P256(2) == 0x1_0000
    ensures P256(4) == 0x1_0000_0000
    ensures P256(8) == 0x1_0000_0000_0000_0000
    ensures P256(20) == 0x1_0000_0000_0000_0000_0000_0000_0000_0000_0000_0000
  {
    P256Add(2, 2);
    P256Add(4, 4);
    P256Add(8, 4);
    P256Add(8, 12);
  }

  // ------------------------------------------------------------------- byte order

  /** The order Rust derives on byte arrays. */
  predicate LexLess(a: bytes, b: bytes) {
    if b == [] then false
    else if a == [] then true
    else if a[0] != b[0] then a[0] < b[0]
    else LexLess(a[1..], b[1..])
  }

  lemma {:induction false} FromBEHead(s: bytes)
    requires s != []
    ensures FromBE(s) == s[0] * P256(|s| - 1) + FromBE(s[1..])
  {
    if |s| == 1 {
      assert s[..0] == [] && s[1..] == [];
    } else {
      var front := s[..|s| - 1];
      FromBEHead(front);
      assert s[1..][..|s| - 2] == front[1..];
      assert s[0] * P256(|s| - 2) * 0x100 == s[0] * P256(|s| - 1);
    }
  }

  /** On strings of one length, byte order is the order of the big-endian values. */
  lemma {:induction false} LexIsNumeric(a: bytes, b: bytes)
    requires |a| == |b|
    ensures LexLess(a, b) <==> FromBE(a) < FromBE(b)
  {
    if a != [] {
      FromBEHead(a);
      FromBEHead(b);
      LexIsNumeric(a[1..], b[1..]);
      BECanonical(a[1..]);
      BECanonical(b[1..]);
      if a[0] < b[0] {
        MulStrict(a[0], b[0], P256(|a| - 1));
      } else if b[0] < a[0] {
        MulStrict(b[0], a[0], P256(|a| - 1));
      }
    }
  }

  // -------------------------------------------------------------------- addresses

  const ADDRESS_VERSION: byte := 55

  /** An address is carried as its 20-byte key hash; version and checksum are functions of it. */
  type Address = a: nat | a < 0x1_0000_0000_0000_0000_0000_0000_0000_0000_0000_0000

  /** The first four bytes of the double hash of version and key hash. */
  type Checksum = Address -> u32

  /** `Address::from_public_key_hash`: the 25 stored bytes. */
  function AddressBytes(checksum: Checksum, a: Address): (s: bytes)
    ensures |s| == 25
  {
    [ADDRESS_VERSION] + BE(a, 20) + BE(checksum(a), 4)
  }

  /** `Address::from_bytes`. */
  function AddressFromBytes(checksum: Checksum, s: bytes): Option<Address>
    requires |s| == 25
  {
    BECanonical(s[1..21]);
    Widths();
    var a: Address := FromBE(s[1..21]);
    if s[0] != ADDRESS_VERSION then None
    else if BE(checksum(a), 4) != s[21..] then None
    else Some(a)
  }

  lemma AddressRoundTrip(checksum: Checksum, a: Address)
    ensures AddressFromBytes(checksum, AddressBytes(checksum, a)) == Some(a)
  {
    var s := AddressBytes(checksum, a);
    assert s[1..21] == BE(a, 20);
    assert s[21..] == BE(checksum(a), 4);
    Widths();
    BERoundTrip(a, 20);
  }

  lemma AddressCanonical(checksum: Checksum, s: bytes)
    requires |s| == 25 && AddressFromBytes(checksum, s).Some?
    ensures AddressBytes(checksum, AddressFromBytes(checksum, s).value) == s
  {
    BECanonical(s[1..21]);
    assert s == [s[0]] + s[1..21] + s[21..];
  }

  /** The derived order on the 25 bytes is the order of key hashes, whatever the checksum. */
  lemma AddressOrder(checksum: Checksum, a: Address, b: Address)
    ensures LexLess(AddressBytes(checksum, a), AddressBytes(checksum, b)) <==> a < b
  {
    var x, y := AddressBytes(checksum, a), AddressBytes(checksum, b);
    assert x == [ADDRESS_VERSION] + (BE(a, 20) + BE(checksum(a), 4));
    assert y == [ADDRESS_VERSION] + (BE(b, 20) + BE(checksum(b), 4));
    assert x[1..] == BE(a, 20) + BE(checksum(a), 4);
    assert y[1..] == BE(b, 20) + BE(checksum(b), 4);
    Widths();
    BERoundTrip(a, 20);
    BERoundTrip(b, 20);
    if a == b {
      LexIsNumeric(x, y);
    } else {
      LexPrefix(BE(a, 20), BE(b, 20), BE(checksum(a), 4), BE(checksum(b), 4));
      LexIsNumeric(BE(a, 20), BE(b, 20));
    }
  }

  lemma {:induction false} LexPrefix(a: bytes, b: bytes, s: bytes, t: bytes)
    requires |a| == |b| && a != b
    ensures LexLess(a + s, b + t) <==> LexLess(a, b)
  {
    if a[0] == b[0] {
      assert a[1..] != b[1..] by {
        assert a == [a[0]] + a[1..] && b == [b[0]] + b[1..];
      }
      assert (a + s)[1..] == a[1..] + s && (b + t)[1..] == b[1..] + t;
      LexPrefix(a[1..], b[1..], s, t);
    }
  }

  /** The scan from the least to the greatest address covers every valid address. */
  lemma AddressRangeIsComplete(checksum: Checksum, a: Address)
    ensures !LexLess(AddressBytes(checksum, a), AddressBytes(checksum, 0))
    ensures !LexLess(AddressBytes(checksum, 0xffff_ffff_ffff_ffff_ffff_ffff_ffff_ffff_ffff_ffff), AddressBytes(checksum, a))
  {
    AddressOrder(checksum, a, 0);
    AddressOrder(checksum, 0xffff_ffff_ffff_ffff_ffff_ffff_ffff_ffff_ffff_ffff, a);
  }
}
