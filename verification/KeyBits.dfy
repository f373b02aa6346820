/** Node indices as the source stores them: 32 bytes with everything past the depth cleared
    (`bit`, `toggle_bit`, `prefix` in src/consensus/state.rs). They name the same nodes as the bit
    strings of SparseMerkle.dfy, one for one. */
module KeyBits {
  import opened Base
  import opened SparseMerkle

  type Octets = s: seq<bv8> | |s| == 32 witness seq(32, _ => 0 as bv8)

  // ----------------------------------------------------------------------- one byte

  function ByteBit(b: bv8, i: nat): bool
    requires i < 8
  {
    (b >> (7 - i)) & 1 == 1
  }

  function Mask(r: nat): bv8
    requires 0 < r < 8
  {
    0xff << (8 - r)
  }

  lemma MaskedBit(b: bv8, r: nat, i: nat)
    requires 0 < r < 8 && i < 8
    ensures ByteBit(b & Mask(r), i) <==> i < r && ByteBit(b, i)
  {
    var m := Mask(r);
    if r < 4 {
      assert if r == 1 then m == 0x80 else if r == 2 then m == 0xc0 else m == 0xe0;
    } else {
      assert if r == 4 then m == 0xf0 else if r == 5 then m == 0xf8 else if r == 6 then m == 0xfc else m == 0xfe;
    }
    MaskedBitOf(b, m, r, i);
  }

  lemma MaskedBitOf(b: bv8, m: bv8, r: nat, i: nat)
    requires 0 < r < 8 && i < 8
    requires m == if r == 1 then 0x80 else if r == 2 then 0xc0 else if r == 3 then 0xe0 else if r == 4 then 0xf0
                  else if r == 5 then 0xf8 else if r == 6 then 0xfc else 0xfe
    ensures ByteBit(b & m, i) <==> i < r && ByteBit(b, i)
  {
    var t := 7 - i;
    assert t == 0 || t == 1 || t == 2 || t == 3 || t == 4 || t == 5 || t == 6 || t == 7;
  }

  lemma FlippedBit(b: bv8, r: nat, i: nat)
    requires r < 8 && i < 8
    ensures ByteBit(b ^ (1 << (7 - r)), i) <==> if i == r then !ByteBit(b, i) else ByteBit(b, i)
  {
    var s, t := 7 - r, 7 - i;
    assert s == 0 || s == 1 || s == 2 || s == 3 || s == 4 || s == 5 || s == 6 || s == 7;
    assert t == 0 || t == 1 || t == 2 || t == 3 || t == 4 || t == 5 || t == 6 || t == 7;
  }

  lemma BitsDetermineByte(a: bv8, b: bv8)
    requires forall i: nat :: i < 8 ==> ByteBit(a, i) == ByteBit(b, i)
    ensures a == b
  {
    assert ByteBit(a, 0) == ByteBit(b, 0) && ByteBit(a, 1) == ByteBit(b, 1) && ByteBit(a, 2) == ByteBit(b, 2) && ByteBit(a, 3) == ByteBit(b, 3);
    assert ByteBit(a, 4) == ByteBit(b, 4) && ByteBit(a, 5) == ByteBit(b, 5) && ByteBit(a, 6) == ByteBit(b, 6) && ByteBit(a, 7) == ByteBit(b, 7);
  }

  // --------------------------------------------------------------------- 32-byte keys

  /** `bit`. */
  function Bit(key: Octets, depth: nat): bool
    requires depth < 256
  {
    ByteBit(key[depth / 8], depth % 8)
  }

  /** The key as a path from the root. */
  function BitsOf(key: Octets): (k: Key)
    ensures |k| == 256
    ensures forall i: nat :: i < 256 ==> k[i] == Bit(key, i)
  {
    seq(256, i requires 0 <= i < 256 => Bit(key, i))
  }

  lemma BitsDetermineKey(a: Octets, b: Octets)
    requires BitsOf(a) == BitsOf(b)
    ensures a == b
  {
    hide ByteBit;
    forall j | 0 <= j < 32 ensures a[j] == b[j] {
      forall i: nat | i < 8 ensures ByteBit(a[j], i) == ByteBit(b[j], i) {
        assert (8 * j + i) / 8 == j && (8 * j + i) % 8 == i;
        assert BitsOf(a)[8 * j + i] == Bit(a, 8 * j + i) && BitsOf(b)[8 * j + i] == Bit(b, 8 * j + i);
      }
      BitsDetermineByte(a[j], b[j]);
    }
  }

  /** `prefix`, byte by byte. */
  function PrefixByte(key: Octets, depth: nat, j: nat): bv8
    requires depth <= 256 && j < 32
  {
    if j < depth / 8 then key[j]
    else if j == depth / 8 && depth % 8 != 0 then key[j] & Mask(depth % 8)
    else 0
  }

  function Prefix(key: Octets, depth: nat): (r: Octets)
    requires depth <= 256
    ensures forall j: nat :: j < 32 ==> r[j] == PrefixByte(key, depth, j)
  {
    seq(32, j requires 0 <= j < 32 => PrefixByte(key, depth, j))
  }

  /** `toggle_bit` on values. */
  function Toggle(key: Octets, depth: nat): Octets
    requires depth < 256
  {
    key[depth / 8 := key[depth / 8] ^ (1 << (7 - depth % 8))]
  }

  /** `prefix` on the bytes of a local copy: mask one byte, clear the rest. */
  method KeepPrefix(key: array<bv8>, depth: nat)
    requires key.Length == 32 && depth <= 256
    modifies key
    ensures key[..] == Prefix(old(key[..]), depth)
  {
    hide Mask;
    var full, remaining := depth / 8, depth % 8;
    ghost var before: Octets := key[..];
    if full < 32 {
      var clear := full;
      if remaining != 0 {
        key[full] := key[full] & Mask(remaining);
        clear := full + 1;
      }
      for j := clear to 32
        invariant forall i: nat :: i < j ==> key[i] == PrefixByte(before, depth, i)
        invariant forall i: nat :: j <= i < 32 ==> key[i] == before[i]
      {
        key[j] := 0;
      }
    }
  }

  // ------------------------------------------------------------------ indices as paths

  function Zeros(n: nat): Key {
    seq(n, _ => false)
  }

  /** These bytes are the stored form of this bit string. */
  predicate Represents(index: Octets, path: Key) {
    |path| <= 256 && BitsOf(index) == path + Zeros(256 - |path|)
  }

  lemma PrefixBits(key: Octets, depth: nat, i: nat)
    requires depth <= 256 && i < 256
    ensures Bit(Prefix(key, depth), i) <==> i < depth && Bit(key, i)
  {
    hide Mask, ByteBit;
    var j, k := i / 8, i % 8;
    if j == depth / 8 && depth % 8 != 0 {
      MaskedBit(key[j], depth % 8, k);
    } else if j >= depth / 8 {
      ZeroBit(k);
    }
  }

  lemma ZeroBit(i: nat)
    requires i < 8
    ensures !ByteBit(0, i)
  {
    var t := 7 - i;
    assert t == 0 || t == 1 || t == 2 || t == 3 || t == 4 || t == 5 || t == 6 || t == 7;
  }

  /** `prefix(key, depth)` stores the first `depth` bits of the key. */
  lemma PrefixRepresents(key: Octets, depth: nat)
    requires depth <= 256
    ensures Represents(Prefix(key, depth), BitsOf(key)[..depth])
  {
    hide Bit, Prefix;
    var path := BitsOf(key)[..depth];
    forall i: nat | i < 256 ensures BitsOf(Prefix(key, depth))[i] == (path + Zeros(256 - depth))[i] {
      PrefixBits(key, depth, i);
    }
  }

  lemma ToggleBits(key: Octets, depth: nat, i: nat)
    requires depth < 256 && i < 256
    ensures Bit(Toggle(key, depth), i) <==> if i == depth then !Bit(key, i) else Bit(key, i)
  {
    hide ByteBit;
    if i / 8 == depth / 8 {
      FlippedBit(key[i / 8], depth % 8, i % 8);
      assert i % 8 == depth % 8 ==> i == depth;
    }
  }

  /** `toggle_bit`: one bit of the array flips and no other changes. */
  method ToggleBit(key: array<bv8>, depth: nat)
    requires key.Length == 32 && depth < 256
    modifies key
    ensures key[..] == Toggle(old(key[..]), depth)
    ensures forall i: nat :: i < 256 ==> (Bit(key[..], i) <==> if i == depth then !Bit(old(key[..]), i) else Bit(old(key[..]), i))
  {
    ghost var before: Octets := key[..];
    key[depth / 8] := key[depth / 8] ^ (1 << (7 - depth % 8));
    assert key[..] == Toggle(before, depth);
    hide Bit, Toggle;
    forall i: nat | i < 256 ensures Bit(key[..], i) <==> if i == depth then !Bit(before, i) else Bit(before, i) {
      ToggleBits(before, depth, i);
    }
  }

  /** Toggling the last bit of a child's index gives its sibling's. */
  lemma SiblingRepresents(key: Octets, depth: nat)
    requires depth < 256
    ensures Represents(Toggle(Prefix(key, depth + 1), depth), BitsOf(key)[..depth] + [!BitsOf(key)[depth]])
  {
    hide Bit, Prefix, Toggle;
    var index := Toggle(Prefix(key, depth + 1), depth);
    var path := BitsOf(key)[..depth] + [!BitsOf(key)[depth]];
    forall i: nat | i < 256 ensures BitsOf(index)[i] == (path + Zeros(256 - |path|))[i] {
      PrefixBits(key, depth + 1, i);
      ToggleBits(Prefix(key, depth + 1), depth, i);
    }
  }

  /** At one depth, stored indices and bit strings correspond one to one, so the table of cached nodes
      can be read as a table over paths. */
  lemma IndicesArePaths(a: Octets, p: Key, b: Octets, q: Key)
    requires Represents(a, p) && Represents(b, q) && |p| == |q|
    ensures a == b <==> p == q
  {
    if a == b {
      assert p == BitsOf(a)[..|p|] && q == BitsOf(b)[..|q|];
    }
    if p == q {
      BitsDetermineKey(a, b);
    }
  }

  /** The left child is the key's own side exactly when `bit` is zero. */
  lemma OwnSide(key: Octets, depth: nat)
    requires depth < 256
    ensures BitsOf(key)[..depth + 1] == BitsOf(key)[..depth] + [Bit(key, depth)]
    ensures Prefix(key, 256) == key
  {
    PrefixRepresents(key, 256);
    assert BitsOf(key)[..256] == BitsOf(key);
    assert BitsOf(Prefix(key, 256)) == BitsOf(key) + Zeros(0);
    BitsDetermineKey(Prefix(key, 256), key);
  }
}
