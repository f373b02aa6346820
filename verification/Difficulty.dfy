/** Target arithmetic of src/consensus/difficulty.rs: the ASERT rule, the compact `bits` form,
    the work of a target and the workshare window. 256-bit values are naturals below TWO_256. */
module Difficulty {
  import opened Base
  import opened Arith
  import opened Params

  const TWO_256: nat := 0x1_00000000_00000000_00000000_00000000_00000000_00000000_00000000_00000000
  const INITIAL_TARGET: nat := 0x3ffff_ffffffff_ffffffff_ffffffff_ffffffff_ffffffff_ffffffff_ffffffff
  const POW_LIMIT: nat := 0xffffff_ffffffff_ffffffff_ffffffff_ffffffff_ffffffff_ffffffff_ffffffff

  lemma Pow2Of256()
    ensures Pow2(256) == TWO_256
    ensures Pow2(248) == POW_LIMIT + 1
  {
    hide Pow2;
    Pow2Values();
    Pow2Add(64, 64);
    Pow2Add(128, 128);
    Pow2Add(8, 248);
  }

  // ==================================================================== ASERT

  /** The cubic numerator of the fixed-point approximation of 2^(f/65536). */
  function Cubic(fraction: nat): nat {
    var square := Product(fraction, fraction);
    195_766_423_245_049 * fraction + 971_821_376 * square + 5_127 * Product(square, fraction) + 0x8000_0000_0000
  }

  lemma CubicIs(f: nat)
    ensures Cubic(f) == 195_766_423_245_049 * f + 971_821_376 * (f * f) + 5_127 * (f * f * f) + 0x8000_0000_0000
  {
    hide Product;
    ProductIs(f, f);
    ProductIs(f * f, f);
  }

  function Factor(fraction: nat): nat {
    65_536 + Cubic(fraction) / 0x1_0000_0000_0000
  }

  function Drift(parentHeight: nat, parentTimestamp: nat, launchTimestamp: nat): int
    requires parentHeight >= 1
  {
    (parentTimestamp - launchTimestamp) - (parentHeight - 1) * TARGET_BLOCK_TIME
  }

  function Exponent(drift: int): int {
    drift * 65_536 / ASERT_HALF_LIFE
  }

  /** `u512_to_u256_clamped`: the value when it fits 256 bits and the maximum, else the maximum. */
  function Clamped(value: nat, maximum: nat): nat {
    if value >= TWO_256 then maximum else Min(value, maximum)
  }

  /** Multiplication by a possibly negative power of two, rounding down. */
  function Shift(x: nat, s: int): nat {
    if s >= 0 then Times(x, Pow2(s)) else Quotient(x, Pow2(-s))
  }

  /** The truncated product before any shift. */
  function Scaled(fraction: nat): nat {
    INITIAL_TARGET * Factor(fraction) / 65_536
  }

  /** `required_target`: shifts are applied to the truncated product, with early exits where a
      left shift would leave the permitted range and a cap on the length of a right shift. */
  function RequiredTarget(parentHeight: u64, parentTimestamp: u64, launchTimestamp: u64): nat {
    if parentHeight <= 1 then INITIAL_TARGET
    else
      var exponent := Exponent(Drift(parentHeight, parentTimestamp, launchTimestamp));
      var shifts := exponent / 65_536;
      var fraction := exponent % 65_536;
      var target := Scaled(fraction);
      if shifts < 0 then
        Max(Clamped(Shift(target, -(Min(-shifts, 511) as int)), POW_LIMIT), 1)
      else if shifts >= 256 then POW_LIMIT
      else if target > Shift(POW_LIMIT, -shifts) then POW_LIMIT
      else Max(Clamped(Shift(target, shifts), POW_LIMIT), 1)
  }

  /** The unclamped target: floor(floor(T0 * factor / 2^16) * 2^shifts). */
  function RawTarget(exponent: int): nat {
    Shift(Scaled(exponent % 65_536), exponent / 65_536)
  }

  function Clamp(value: nat): nat {
    Max(Min(value, POW_LIMIT), 1)
  }

  lemma PowersMono(f: nat, g: nat)
    requires f <= g
    ensures f * f <= g * g
    ensures f * f * f <= g * g * g
  {
    MulMono(f, g, f);
    MulMono(f, g, g);
    assert f * g == g * f;
    MulMono(f * f, g * g, f);
    MulMono(f, g, g * g);
    assert f * (g * g) == g * g * f;
    assert g * (g * g) == g * g * g;
  }

  lemma CubicMono(f: nat, g: nat)
    requires f <= g
    ensures Cubic(f) <= Cubic(g)
  {
    hide Cubic;
    CubicIs(f);
    CubicIs(g);
    PowersMono(f, g);
  }

  lemma FactorMono(f: nat, g: nat)
    requires f <= g
    ensures Factor(f) <= Factor(g)
  {
    hide Cubic;
    CubicMono(f, g);
    DivMono(Cubic(f), Cubic(g), 0x1_0000_0000_0000);
  }

  lemma FactorBounds(f: nat)
    requires f < 65_536
    ensures Factor(0) == 65_536
    ensures 65_536 <= Factor(f) <= 131_072
  {
    hide Cubic;
    CubicIs(0);
    assert Cubic(0) == 0x8000_0000_0000;
    FactorMono(0, f);
    FactorMono(f, 65_535);
    CubicIs(65_535);
    assert Cubic(65_535) == 195_766_423_245_049 * 65_535 + 971_821_376 * 4_294_836_225
                            + 5_127 * 281_462_092_005_375 + 0x8000_0000_0000;
  }

  lemma ScaledBounds(f: nat)
    requires f < 65_536
    ensures Scaled(0) == INITIAL_TARGET
    ensures INITIAL_TARGET <= Scaled(f) <= 2 * INITIAL_TARGET
  {
    hide Factor;
    FactorBounds(f);
    FactorBounds(0);
    MulMono(65_536, Factor(f), INITIAL_TARGET);
    MulMono(Factor(f), 131_072, INITIAL_TARGET);
    assert INITIAL_TARGET * Factor(f) == Factor(f) * INITIAL_TARGET;
    DivMono(65_536 * INITIAL_TARGET, INITIAL_TARGET * Factor(f), 65_536);
    DivMono(INITIAL_TARGET * Factor(f), 131_072 * INITIAL_TARGET, 65_536);
    MulDivExact(INITIAL_TARGET, 65_536);
    MulDivExact(2 * INITIAL_TARGET, 65_536);
  }

  lemma ScaledMono(f: nat, g: nat)
    requires f <= g
    ensures Scaled(f) <= Scaled(g)
  {
    hide Factor;
    FactorMono(f, g);
    MulMono(Factor(f), Factor(g), INITIAL_TARGET);
    DivMono(INITIAL_TARGET * Factor(f), INITIAL_TARGET * Factor(g), 65_536);
  }

  /** The early exits and the 511-bit cap change nothing: the rule is a plain clamp. */
  lemma RequiredTargetIsClamp(parentHeight: u64, parentTimestamp: u64, launchTimestamp: u64)
    requires parentHeight > 1
    ensures RequiredTarget(parentHeight, parentTimestamp, launchTimestamp)
         == Clamp(RawTarget(Exponent(Drift(parentHeight, parentTimestamp, launchTimestamp))))
  {
    var e := Exponent(Drift(parentHeight, parentTimestamp, launchTimestamp));
    var s := e / 65_536;
    var f := e % 65_536;
    var x := Scaled(f);
    ScaledBounds(f);
    if s < 0 {
      LongRightShift(x, -s);
      QuotientAtMost(x, Pow2(-s));
    } else if s >= 256 {
      HugeLeftShift(x, s);
    } else {
      LeftShiftGuard(x, s);
    }
  }

  lemma LongRightShift(x: nat, k: nat)
    requires x <= 2 * INITIAL_TARGET && k > 0
    ensures Shift(x, -(Min(k, 511) as int)) == Shift(x, -(k as int))
  {
    if k > 511 {
      Pow2Of256();
      Pow2Mono(256, 511);
      Pow2Mono(256, k);
      QuotientUnique(x, Pow2(511), 0, x);
      QuotientUnique(x, Pow2(k), 0, x);
    }
  }

  lemma LeftShiftGuard(x: nat, s: nat)
    ensures x > Shift(POW_LIMIT, -(s as int)) <==> Shift(x, s) > POW_LIMIT
  {
    if s == 0 {
      assert Pow2(0) == 1;
    } else {
      QuotientBelow(x, POW_LIMIT, Pow2(s));
    }
  }

  lemma HugeLeftShift(x: nat, s: nat)
    requires x > 0 && s >= 256
    ensures Shift(x, s) > POW_LIMIT
  {
    Pow2Of256();
    Pow2Mono(256, s);
    MulMono(1, x, Pow2(s));
  }

  lemma ShiftMonoX(x: nat, y: nat, s: int)
    requires x <= y
    ensures Shift(x, s) <= Shift(y, s)
  {
    if s >= 0 {
      MulMono(x, y, Pow2(s));
    } else {
      DivMono(x, y, Pow2(-s));
    }
  }

  lemma ShiftDouble(x: nat, s: int)
    ensures Shift(2 * x, s) == Shift(x, s + 1)
  {
    if s >= 0 {
      assert 2 * x * Pow2(s) == x * (2 * Pow2(s));
    } else if s == -1 {
      assert Pow2(1) == 2;
    } else {
      MulDivCancel(x, 2, Pow2(-s - 1));
      assert x * 2 == 2 * x;
    }
  }

  lemma ShiftUp(x: nat, s: int)
    ensures 2 * Shift(x, s) <= Shift(x, s + 1) <= 2 * Shift(x, s) + 1
  {
    if s >= 0 {
      assert x * (2 * Pow2(s)) == 2 * (x * Pow2(s));
    } else if s == -1 {
      assert Pow2(1) == 2;
    } else {
      DivDiv(x, Pow2(-s - 1), 2);
    }
  }

  lemma {:induction false} ShiftMonoS(x: nat, s: int, t: int)
    requires s <= t
    ensures Shift(x, s) <= Shift(x, t)
    decreases t - s
  {
    if s < t {
      ShiftUp(x, s);
      ShiftMonoS(x, s + 1, t);
    }
  }

  /** The unclamped target never falls as the exponent grows, across shift boundaries too. */
  lemma RawTargetMono(e: int, g: int)
    requires e <= g
    ensures RawTarget(e) <= RawTarget(g)
  {
    var s, f := e / 65_536, e % 65_536;
    var t, h := g / 65_536, g % 65_536;
    assert s <= t;
    if s == t {
      ScaledMono(f, h);
      ShiftMonoX(Scaled(f), Scaled(h), s);
    } else {
      ScaledBounds(f);
      ScaledBounds(h);
      ShiftMonoX(Scaled(f), 2 * INITIAL_TARGET, s);
      ShiftDouble(INITIAL_TARGET, s);
      ShiftMonoS(INITIAL_TARGET, s + 1, t);
      ShiftMonoX(INITIAL_TARGET, Scaled(h), t);
    }
  }

  /** A later parent never makes the next block harder. */
  lemma TargetGrowsWithTime(h: u64, earlier: u64, later: u64, launch: u64)
    requires earlier <= later
    ensures RequiredTarget(h, earlier, launch) <= RequiredTarget(h, later, launch)
  {
    if h > 1 {
      RequiredTargetIsClamp(h, earlier, launch);
      RequiredTargetIsClamp(h, later, launch);
      RawTargetMono(Exponent(Drift(h, earlier, launch)), Exponent(Drift(h, later, launch)));
    }
  }

  /** At one timestamp a taller parent never makes the next block easier, from height 2 on. */
  lemma TargetFallsWithHeight(low: u64, high: u64, timestamp: u64, launch: u64)
    requires 2 <= low <= high
    ensures RequiredTarget(high, timestamp, launch) <= RequiredTarget(low, timestamp, launch)
  {
    RequiredTargetIsClamp(low, timestamp, launch);
    RequiredTargetIsClamp(high, timestamp, launch);
    RawTargetMono(Exponent(Drift(high, timestamp, launch)), Exponent(Drift(low, timestamp, launch)));
  }

  /** Heights 0 and 1 are pinned to the initial target, so above them a taller parent is no easier
      exactly when the chain is not behind its schedule. */
  lemma PinnedHeightsFallIff(low: u64, high: u64, timestamp: u64, launch: u64)
    requires low <= 1 < high
    ensures RequiredTarget(high, timestamp, launch) <= RequiredTarget(low, timestamp, launch)
       <==> timestamp <= launch + (high - 1) * TARGET_BLOCK_TIME
  {
    RequiredTargetIsClamp(high, timestamp, launch);
    var d := Drift(high, timestamp, launch);
    ScaledBounds(0);
    assert RawTarget(0) == INITIAL_TARGET by { assert Pow2(0) == 1; }
    if d <= 0 {
      RawTargetMono(Exponent(d), 0);
    } else {
      RawTargetMono(1, Exponent(d));
      CubicIs(1);
      assert Cubic(1) / 0x1_0000_0000_0000 == 1;
      assert Factor(1) == 65_537;
      assert RawTarget(1) > INITIAL_TARGET by { assert Pow2(0) == 1; }
    }
  }

  /** Only the time since launch matters. */
  lemma TargetIsTranslationInvariant(h: u64, timestamp: u64, launch: u64, delta: nat)
    requires timestamp + delta <= U64_MAX && launch + delta <= U64_MAX
    ensures RequiredTarget(h, timestamp + delta, launch + delta) == RequiredTarget(h, timestamp, launch)
  {
    if h > 1 {
      assert Drift(h, timestamp + delta, launch + delta) == Drift(h, timestamp, launch);
    }
  }

  lemma RawTargetDoubles(e: int)
    ensures 2 * RawTarget(e) <= RawTarget(e + 65_536) <= 2 * RawTarget(e) + 1
  {
    var s, f := e / 65_536, e % 65_536;
    assert (e + 65_536) / 65_536 == s + 1 && (e + 65_536) % 65_536 == f;
    ShiftUp(Scaled(f), s);
  }

  /** One more half-life doubles the target to within one unit, as long as neither end is clamped. */
  lemma HalfLifeDoubles(h: u64, timestamp: u64, launch: u64)
    requires h > 1
    requires timestamp + ASERT_HALF_LIFE <= U64_MAX
    requires RawTarget(Exponent(Drift(h, timestamp, launch))) >= 1
    requires RawTarget(Exponent(Drift(h, timestamp + ASERT_HALF_LIFE, launch))) <= POW_LIMIT
    ensures var now := RequiredTarget(h, timestamp, launch);
            2 * now <= RequiredTarget(h, timestamp + ASERT_HALF_LIFE, launch) <= 2 * now + 1
  {
    var d := Drift(h, timestamp, launch);
    assert Drift(h, timestamp + ASERT_HALF_LIFE, launch) == d + ASERT_HALF_LIFE;
    assert Exponent(d + ASERT_HALF_LIFE) == Exponent(d) + 65_536;
    hide RequiredTarget, RawTarget, Exponent, Drift;
    RequiredTargetIsClamp(h, timestamp, launch);
    RequiredTargetIsClamp(h, timestamp + ASERT_HALF_LIFE, launch);
    RawTargetDoubles(Exponent(d));
  }

  lemma RequiredTargetInRange(h: u64, timestamp: u64, launch: u64)
    ensures 1 <= RequiredTarget(h, timestamp, launch) <= POW_LIMIT
  {
    if h > 1 {
      RequiredTargetIsClamp(h, timestamp, launch);
    }
  }

  // ============================================================ compact `bits` form

  /** The big-endian bytes of a number without leading zeros. */
  function Significant(t: nat): (s: seq<byte>)
    ensures (t == 0) == (s == [])
    ensures s != [] ==> s[0] != 0
  {
    if t == 0 then [] else Significant(t / 0x100) + [t % 0x100]
  }

  function ByteOr0(s: seq<byte>, i: nat): byte {
    if i < |s| then s[i] else 0
  }

  function TargetSize(t: nat): nat
    requires t > 0
  {
    var significant := Significant(t);
    if significant[0] >= 0x80 then |significant| + 1 else |significant|
  }

  function TargetWord(t: nat): nat
    requires t > 0
  {
    var significant := Significant(t);
    if significant[0] >= 0x80 then significant[0] * 0x100 + ByteOr0(significant, 1)
    else significant[0] * 0x1_0000 + ByteOr0(significant, 1) * 0x100 + ByteOr0(significant, 2)
  }

  function TargetToBits(t: nat): nat {
    if t == 0 then 0 else TargetSize(t) * 0x100_0000 + TargetWord(t)
  }

  function Unscale(size: nat, word: nat): nat {
    if size <= 3 then Quotient(word, P256(3 - size)) else Times(word, P256(size - 3))
  }

  function BitsToTarget(bits: nat): Option<nat> {
    var size := bits / 0x100_0000;
    var word := bits % 0x80_0000;
    if word == 0 || bits / 0x80_0000 % 2 != 0 || size == 0 || size > 33 || (size == 33 && word > 0xffff) then None
    else
      var target := Unscale(size, word);
      if TargetToBits(target) == bits then Some(target) else None
  }

  /** The mantissa a target has at a given size, as one division or multiplication. */
  function Scale(t: nat, size: nat): nat {
    if size >= 3 then Quotient(t, P256(size - 3)) else Times(t, P256(3 - size))
  }

  function Value(s: seq<byte>): nat {
    if s == [] then 0 else Value(s[..|s| - 1]) * 0x100 + s[|s| - 1]
  }

  lemma {:induction false} LeadingBytes(t: nat, j: nat)
    requires j <= |Significant(t)|
    ensures Value(Significant(t)[..j]) == t / P256(|Significant(t)| - j)
  {
    var s := Significant(t);
    if t == 0 {
      assert P256(0) == 1;
    } else {
      var r := Significant(t / 0x100);
      if j == |s| {
        assert s[..j] == s;
        LeadingBytes(t / 0x100, |r|);
        assert r[..|r|] == r;
        assert s[..|s| - 1] == r;
        assert P256(0) == 1;
      } else {
        assert s[..j] == r[..j];
        LeadingBytes(t / 0x100, j);
        DivDiv(t, 0x100, P256(|r| - j));
      }
    }
  }

  lemma {:induction false} SizeBounds(t: nat)
    requires t > 0
    ensures P256(|Significant(t)| - 1) <= t < P256(|Significant(t)|)
  {
    var n := |Significant(t)|;
    LeadingBytes(t, 0);
    DivMod(t, P256(n));
    LeadingBytes(t, 1);
    var s := Significant(t);
    assert s[..1] == [s[0]];
    assert s[..1][..0] == [];
    QuotientBelow(1, t, P256(n - 1));
  }

  lemma ShortValues(s: seq<byte>)
    requires |s| >= 1
    ensures Value(s[..1]) == s[0]
    ensures |s| >= 2 ==> Value(s[..2]) == (s[0] as nat) * 0x100 + s[1]
    ensures |s| >= 3 ==> Value(s[..3]) == (s[0] as nat) * 0x1_0000 + (s[1] as nat) * 0x100 + s[2]
  {
    assert s[..1][..0] == [];
    if |s| >= 2 {
      assert s[..2][..1] == s[..1];
      if |s| >= 3 {
        assert s[..3][..2] == s[..2];
      }
    }
  }

  /** The byte juggling of `target_to_bits` computes one scaling, normalised to 0x8000..0x7fffff. */
  lemma EncoderNormalises(t: nat)
    requires t > 0
    ensures TargetSize(t) >= 1
    ensures TargetWord(t) == Scale(t, TargetSize(t))
    ensures 0x8000 <= TargetWord(t) < 0x80_0000
  {
    var s := Significant(t);
    var n := |s|;
    ShortValues(s);
    assert P256(0) == 1 && P256(1) == 0x100 && P256(2) == 0x1_0000;
    LeadingBytes(t, n);
    LeadingBytes(t, 1);
    if n >= 2 { LeadingBytes(t, 2); }
    if n >= 3 { LeadingBytes(t, 3); }
    assert s[..n] == s;
  }

  /** Where the scaled mantissa is normalised, the size is the encoder's. */
  lemma SizeIsUnique(t: nat, size: nat)
    requires t > 0 && size >= 1
    requires 0x8000 <= Scale(t, size) < 0x80_0000
    ensures TargetSize(t) == size
  {
    var m := TargetSize(t);
    EncoderNormalises(t);
    if size < m {
      ScaleStep(t, size, m);
    } else if m < size {
      ScaleStep(t, m, size);
    }
  }

  /** A larger size divides the mantissa by at least 256. */
  lemma {:induction false} ScaleStep(t: nat, a: nat, b: nat)
    requires 1 <= a < b
    ensures Scale(t, b) <= Scale(t, a) / 0x100
    decreases b - a
  {
    assert P256(0) == 1 && P256(1) == 0x100 && P256(2) == 0x1_0000;
    if b == a + 1 {
      if a >= 3 {
        DivDiv(t, P256(a - 3), 0x100);
        assert P256(b - 3) == P256(a - 3) * 0x100;
      }
    } else {
      ScaleStep(t, a, b - 1);
      ScaleStep(t, b - 1, b);
    }
  }

  lemma TwoPow256()
    ensures P256(30) * 0x1_0000 == P256(32) == TWO_256
  {
    assert P256(8) == 0x1_0000_0000_0000_0000 by {
      assert P256(2) == 0x1_0000;
      assert P256(4) == 0x1_0000_0000;
      assert P256(6) == 0x1_0000_0000_0000;
    }
    P256Add(8, 8);
    P256Add(16, 16);
    assert P256(32) == 0x100 * P256(31);
    assert P256(31) == 0x100 * P256(30);
  }

  lemma SizeAtMost33(t: nat)
    requires 0 < t < TWO_256
    ensures TargetSize(t) <= 33
    ensures TargetSize(t) == 33 ==> TargetWord(t) <= 0xffff
  {
    var n := |Significant(t)|;
    SizeBounds(t);
    TwoPow256();
    if n > 32 {
      P256Mono(32, n - 1);
      assert false;
    }
    EncoderNormalises(t);
    if TargetSize(t) == 33 {
      QuotientBelow(0x1_0000, t, P256(30));
    }
  }

  /** The largest target the compact form can carry that does not exceed `t`. */
  function RoundDown(t: nat): nat
    requires t > 0
  {
    Unscale(TargetSize(t), TargetWord(t))
  }

  lemma RoundDownFacts(t: nat)
    requires t > 0
    ensures 0 < RoundDown(t) <= t
    ensures TargetSize(t) <= 3 ==> RoundDown(t) == t
    ensures TargetSize(t) > 3 ==> 0x8000 * P256(TargetSize(t) - 3) <= RoundDown(t)
    ensures TargetSize(t) > 3 ==> t < RoundDown(t) + P256(TargetSize(t) - 3)
    ensures Scale(RoundDown(t), TargetSize(t)) == TargetWord(t)
    ensures TargetToBits(RoundDown(t)) == TargetToBits(t)
  {
    var m := TargetSize(t);
    var w := TargetWord(t);
    EncoderNormalises(t);
    if m <= 3 {
      assert P256(0) == 1;
      MulDivExact(t, P256(3 - m));
    } else {
      var p := P256(m - 3);
      DivMod(t, p);
      MulMono(0x8000, w, p);
      MulDivExact(w, p);
    }
    SizeIsUnique(RoundDown(t), m);
    EncoderNormalises(RoundDown(t));
  }

  lemma BitsFields(size: nat, word: nat)
    requires word < 0x80_0000
    ensures var bits := size * 0x100_0000 + word;
            bits / 0x100_0000 == size && bits % 0x80_0000 == word && bits / 0x80_0000 % 2 == 0
  {
    var bits := size * 0x100_0000 + word;
    QuotientUnique(bits, 0x80_0000, 2 * size, word);
  }

  /** Encoding then decoding is total on nonzero 256-bit targets and rounds down. */
  lemma EncodeThenDecode(t: nat)
    requires 0 < t < TWO_256
    ensures BitsToTarget(TargetToBits(t)) == Some(RoundDown(t))
  {
    EncoderNormalises(t);
    SizeAtMost33(t);
    RoundDownFacts(t);
    BitsFields(TargetSize(t), TargetWord(t));
  }

  lemma DecodedIsFixed(bits: nat, t: nat)
    requires BitsToTarget(bits) == Some(t)
    ensures 0 < t < TWO_256
    ensures TargetToBits(t) == bits
    ensures RoundDown(t) == t
  {
    var size := bits / 0x100_0000;
    var word := bits % 0x80_0000;
    DecodedBelowTwo256(size, word);
    EncoderNormalises(t);
    BitsFields(TargetSize(t), TargetWord(t));
  }

  lemma DecodedBelowTwo256(size: nat, word: nat)
    requires size <= 33 && word < 0x80_0000 && (size == 33 ==> word <= 0xffff)
    ensures Unscale(size, word) < TWO_256
  {
    TwoPow256();
    if size <= 3 {
      QuotientAtMost(word, P256(3 - size));
    } else if size == 33 {
      MulStrict(word, 0x1_0000, P256(30));
    } else {
      P256Mono(size - 3, 29);
      assert P256(30) == 0x100 * P256(29);
      MulMono(P256(size - 3), P256(29), word);
      MulMono(word, 0x80_0000, P256(29));
      assert word * P256(size - 3) == P256(size - 3) * word;
    }
  }

  /** The decoder accepts exactly what the encoder produces. */
  lemma DecoderAcceptsExactlyEncodings(bits: nat)
    ensures BitsToTarget(bits).Some? <==> exists t :: 0 < t < TWO_256 && TargetToBits(t) == bits
  {
    if BitsToTarget(bits).Some? {
      DecodedIsFixed(bits, BitsToTarget(bits).value);
    }
    if t :| 0 < t < TWO_256 && TargetToBits(t) == bits {
      EncodeThenDecode(t);
    }
  }

  lemma SizeMono(t: nat, u: nat)
    requires 0 < t <= u
    ensures TargetSize(t) <= TargetSize(u)
  {
    var a, b := TargetSize(t), TargetSize(u);
    if b < a {
      EncoderNormalises(t);
      EncoderNormalises(u);
      if b >= 3 {
        DivMono(t, u, P256(b - 3));
      } else {
        MulMono(t, u, P256(3 - b));
      }
      ScaleStep(t, b, a);
    }
  }

  /** Rounding down is monotone. */
  lemma RoundDownMono(t: nat, u: nat)
    requires 0 < t <= u
    ensures RoundDown(t) <= RoundDown(u)
  {
    var a, b := TargetSize(t), TargetSize(u);
    RoundDownFacts(t);
    RoundDownFacts(u);
    EncoderNormalises(t);
    EncoderNormalises(u);
    SizeMono(t, u);
    if b > 3 {
      if a == b {
        DivMono(t, u, P256(a - 3));
        MulMono(TargetWord(t), TargetWord(u), P256(a - 3));
      } else if a <= 3 {
        P256Mono(1, b - 3);
        assert P256(1) == 0x100;
        assert P256(0) == 1;
        MulMono(1, P256(3 - a), t);
        assert t * P256(3 - a) == P256(3 - a) * t;
      } else {
        P256Mono(a - 2, b - 3);
        assert P256(a - 2) == 0x100 * P256(a - 3);
        MulMono(TargetWord(t), 0x80_0000, P256(a - 3));
        assert 0x80_0000 * P256(a - 3) == 0x8000 * P256(a - 2);
        MulMono(P256(a - 2), P256(b - 3), 0x8000);
      }
    }
  }

  /** Encode-then-decode is the greatest representable target not above the input; it is
      idempotent and monotone. */
  lemma RoundDownIsGreatest(t: nat, bits: nat, representable: nat)
    requires 0 < t < TWO_256
    requires BitsToTarget(bits) == Some(representable)
    ensures RoundDown(t) <= t
    ensures BitsToTarget(TargetToBits(t)) == Some(RoundDown(t))
    ensures RoundDown(RoundDown(t)) == RoundDown(t)
    ensures representable <= t <==> representable <= RoundDown(t)
  {
    EncodeThenDecode(t);
    RoundDownFacts(t);
    DecodedIsFixed(TargetToBits(t), RoundDown(t));
    DecodedIsFixed(bits, representable);
    if representable <= t {
      RoundDownMono(representable, t);
    }
  }

  // ------------------------------------------------------ next bits and share window

  function RequiredBits(parentHeight: u64, parentTimestamp: u64, launchTimestamp: u64): nat {
    TargetToBits(RequiredTarget(parentHeight, parentTimestamp, launchTimestamp))
  }

  /** The bits demanded of a block always decode, into the permitted range. */
  lemma RequiredBitsDecode(h: u64, timestamp: u64, launch: u64)
    ensures BitsToTarget(RequiredBits(h, timestamp, launch)) == Some(RoundDown(RequiredTarget(h, timestamp, launch)))
    ensures 1 <= RoundDown(RequiredTarget(h, timestamp, launch)) <= POW_LIMIT
  {
    RequiredTargetInRange(h, timestamp, launch);
    EncodeThenDecode(RequiredTarget(h, timestamp, launch));
    RoundDownFacts(RequiredTarget(h, timestamp, launch));
  }

  function WorkshareBits(blockBits: nat): Option<nat> {
    match BitsToTarget(blockBits)
    case None => None
    case Some(blockTarget) =>
      var shareTarget := Clamped(blockTarget * WORKSHARE_TARGET_MULTIPLIER, TWO_256 - 1);
      Some(TargetToBits(Max(shareTarget, 1)))
  }

  /** The decoded share target that block bits entitle a share to. */
  function ShareTarget(blockBits: nat): Option<nat> {
    match WorkshareBits(blockBits)
    case None => None
    case Some(bits) => BitsToTarget(bits)
  }

  lemma WorkshareBitsIs(bits: nat, t: nat)
    requires BitsToTarget(bits) == Some(t) && 0 < t
    ensures WorkshareBits(bits) == Some(TargetToBits(Min(32 * t, TWO_256 - 1)))
  {
    hide BitsToTarget, TargetToBits;
  }

  lemma ShareTargetIs(bits: nat, t: nat)
    requires BitsToTarget(bits) == Some(t)
    ensures t > 0
    ensures ShareTarget(bits) == Some(RoundDown(Min(32 * t, TWO_256 - 1)))
  {
    DecodedIsFixed(bits, t);
    hide BitsToTarget, TargetToBits, RoundDown, WorkshareBits;
    WorkshareBitsIs(bits, t);
    EncodeThenDecode(Min(32 * t, TWO_256 - 1));
  }

  /** Wherever the block bits decode so do the share bits. */
  lemma ShareTargetDecodes(bits: nat)
    ensures ShareTarget(bits).Some? <==> BitsToTarget(bits).Some?
    ensures ShareTarget(bits).Some? ==> 0 < ShareTarget(bits).value < TWO_256
  {
    hide BitsToTarget;
    if BitsToTarget(bits).Some? {
      var t := BitsToTarget(bits).value;
      ShareTargetIs(bits, t);
      RoundDownFacts(Min(32 * t, TWO_256 - 1));
    }
  }

  /** Truncation loses less than one part in 2^15. */
  lemma RoundDownLoss(t: nat)
    requires t > 0
    ensures 0x8000 * (t - RoundDown(t)) <= t
  {
    RoundDownFacts(t);
    var d := RoundDown(t);
    hide RoundDown, TargetSize, TargetWord;
    if TargetSize(t) > 3 {
      var p := P256(TargetSize(t) - 3);
      assert 0x8000 * (t - d) <= 0x8000 * p;
    }
  }

  /** For every block target up to the proof-of-work limit the share target lies in
      (31 * block target, 32 * block target]. */
  lemma ShareTargetWindow(bits: nat, blockTarget: nat)
    requires BitsToTarget(bits) == Some(blockTarget) && blockTarget <= POW_LIMIT
    ensures ShareTarget(bits).Some?
    ensures 31 * blockTarget < ShareTarget(bits).value <= 32 * blockTarget
  {
    hide BitsToTarget, ShareTarget, RoundDown, TargetSize, TargetWord, TargetToBits, Scale;
    ShareTargetIs(bits, blockTarget);
    RoundDownFacts(32 * blockTarget);
    RoundDownLoss(32 * blockTarget);
  }

  lemma SmallScales(t: nat)
    ensures Scale(t, 1) == 0x1_0000 * t && Scale(t, 2) == 0x100 * t && Scale(t, 3) == t
  {
    assert P256(0) == 1 && P256(1) == 0x100 && P256(2) == 0x1_0000;
    hide P256;
  }

  lemma ShortSize(u: nat)
    requires 0 < u < 0x80_0000
    ensures TargetSize(u) <= 3 && RoundDown(u) == u
  {
    hide TargetSize, TargetWord, RoundDown, Scale;
    SmallScales(u);
    if u < 0x80 {
      SizeIsUnique(u, 1);
    } else if u < 0x8000 {
      SizeIsUnique(u, 2);
    } else {
      SizeIsUnique(u, 3);
    }
    RoundDownFacts(u);
  }

  /** Targets of one or two bytes: no bits are pushed out. */
  lemma ShortTimesThirtyTwo(t: nat)
    requires t > 0 && TargetSize(t) < 3
    ensures RoundDown(32 * t) == 32 * t && TargetWord(t) % 8 == 0
  {
    hide TargetSize, TargetWord, RoundDown, Scale;
    EncoderNormalises(t);
    SmallScales(t);
    var w := TargetWord(t);
    if TargetSize(t) == 1 {
      assert w == 8 * (0x2000 * t);
    } else {
      assert w == 8 * (0x20 * t);
    }
    assert w % 8 == 0;
    ShortSize(32 * t);
  }

  lemma LongScales(w: nat, p: nat, m: nat)
    requires m >= 3 && p == P256(m - 3)
    ensures Scale(32 * (w * p), m) == 32 * w && Scale(32 * (w * p), m + 1) == w / 8
  {
    assert P256(m - 2) == 0x100 * p;
    hide P256;
    assert 32 * (w * p) == (32 * w) * p;
    MulDivExact(32 * w, p);
    DivDiv(32 * (w * p), p, 0x100);
    assert p * 0x100 == 0x100 * p;
    assert 32 * w / 0x100 == w / 8;
  }

  lemma LongTimesThirtyTwo(t: nat, w: nat, p: nat, m: nat)
    requires t > 0 && m >= 3 && p == P256(m - 3) && t == w * p && 0x8000 <= w < 0x80_0000
    ensures RoundDown(32 * t) == 32 * t <==> w < 0x4_0000 || w % 8 == 0
  {
    hide TargetSize, TargetWord, Scale;
    EncoderNormalises(32 * t);
    LongScales(w, p, m);
    if w < 0x4_0000 {
      SizeIsUnique(32 * t, m);
      UnscaleLong(32 * w, m);
    } else {
      SizeIsUnique(32 * t, m + 1);
      UnscaleLong(w / 8, m + 1);
      assert P256(m - 2) == 0x100 * p;
      hide P256, Unscale;
      assert RoundDown(32 * t) == (w / 8 * 0x100) * p;
      SameMultiple(w / 8 * 0x100, 32 * w, p);
    }
  }

  lemma UnscaleLong(w: nat, m: nat)
    requires m >= 3
    ensures Unscale(m, w) == w * P256(m - 3)
  {
    assert P256(0) == 1;
  }

  lemma SameMultiple(a: nat, b: nat, p: nat)
    requires p > 0
    ensures a * p == b * p <==> a == b
  {
    if a < b { MulStrict(a, b, p); }
    if b < a { MulStrict(b, a, p); }
  }

  /** Multiplying by 32 shifts the mantissa of a compact target by five bits: nothing is lost when they
      stay within the word, or when the three bits pushed out of it are zero. */
  lemma TimesThirtyTwoFits(t: nat)
    requires 0 < t && RoundDown(t) == t
    ensures RoundDown(32 * t) == 32 * t <==> TargetWord(t) < 0x4_0000 || TargetWord(t) % 8 == 0
  {
    hide TargetSize, TargetWord, Scale, P256;
    EncoderNormalises(t);
    var m, w := TargetSize(t), TargetWord(t);
    if m < 3 {
      ShortTimesThirtyTwo(t);
    } else {
      UnscaleLong(w, m);
      hide Unscale;
      LongTimesThirtyTwo(t, w, P256(m - 3), m);
    }
  }

  /** Share bits reach the full 32 times the block target exactly when the mantissa allows it. */
  lemma ShareTargetExactIff(bits: nat, blockTarget: nat)
    requires BitsToTarget(bits) == Some(blockTarget) && blockTarget <= POW_LIMIT
    ensures ShareTarget(bits) == Some(32 * blockTarget) <==> bits % 0x80_0000 < 0x4_0000 || bits % 8 == 0
  {
    hide BitsToTarget, ShareTarget, RoundDown, TargetSize, TargetWord, Scale;
    ShareTargetIs(bits, blockTarget);
    DecodedIsFixed(bits, blockTarget);
    EncoderNormalises(blockTarget);
    BitsFields(TargetSize(blockTarget), TargetWord(blockTarget));
    TimesThirtyTwoFits(blockTarget);
  }

  lemma ShareTargetCanFallShort()
    ensures var bits := TargetToBits(0x7f_ffff);
            BitsToTarget(bits) == Some(0x7f_ffff) && ShareTarget(bits) == Some(0xfff_ff00) && 0xfff_ff00 < 32 * 0x7f_ffff
  {
    hide BitsToTarget, TargetToBits, WorkshareBits, TargetSize, TargetWord;
    assert P256(1) == 0x100;
    SizeIsUnique(0x7f_ffff, 3);
    SizeIsUnique(0xfff_ffe0, 4);
    EncoderNormalises(0x7f_ffff);
    EncoderNormalises(0xfff_ffe0);
    EncodeThenDecode(0x7f_ffff);
    ShareTargetIs(TargetToBits(0x7f_ffff), 0x7f_ffff);
  }

  // ------------------------------------------------------------------------- work

  function TargetWork(target: nat): nat
    requires target < TWO_256
  {
    if target == TWO_256 - 1 then 1
    else (TWO_256 - 1 - target) / (target + 1) + 1
  }

  /** The complement form avoids a 257-bit dividend and still computes floor(2^256 / (t + 1)). */
  lemma TargetWorkIsQuotient(target: nat)
    requires target < TWO_256
    ensures TargetWork(target) == TWO_256 / (target + 1) >= 1
    ensures target > 0 ==> TargetWork(target) < TWO_256
  {
    var d := target + 1;
    if target == TWO_256 - 1 {
      assert TWO_256 == d;
      QuotientUnique(TWO_256, d, 1, 0);
    } else {
      var q := (TWO_256 - d) / d;
      DivMod(TWO_256 - d, d);
      assert (q + 1) * d == q * d + d;
      QuotientUnique(TWO_256, d, q + 1, (TWO_256 - d) % d);
      if target > 0 {
        DivMod(TWO_256, d);
        MulMono(2, d, q + 1);
        assert d * (q + 1) == (q + 1) * d;
      }
    }
  }

  /** A smaller target never carries less work. */
  lemma TargetWorkAntitone(t: nat, u: nat)
    requires t <= u < TWO_256
    ensures TargetWork(u) <= TargetWork(t)
  {
    TargetWorkIsQuotient(t);
    TargetWorkIsQuotient(u);
    DivMod(TWO_256, u + 1);
    MulMono(t + 1, u + 1, TargetWork(u));
    assert (t + 1) * TargetWork(u) == TargetWork(u) * (t + 1);
    assert (u + 1) * TargetWork(u) == TargetWork(u) * (u + 1);
    QuotientBelow(TargetWork(u), TWO_256, t + 1);
  }
}
