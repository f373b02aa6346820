/** The binary codec of src/codec.rs. Parsing is a function from the remaining bytes to a value and
    the bytes after it; `Writer` and `Reader` are the mutable forms, proved against those functions. */
module Codec {
  import opened Base
  import opened Bytes

  const MAX_CONSENSUS_ALLOCATION: nat := 8 * 1024 * 1024

  datatype CodecError =
    | EndOfInput
    | LimitExceeded(actual: nat, limit: nat)
    | InvalidTag(tag: byte)
    | NonCanonical
    | TrailingBytes(count: nat)
    | InvalidUtf8

  /** A value and what is left of the input. */
  type Parsed<T> = Result<(T, bytes), CodecError>

  // --------------------------------------------------------------------- primitives

  function Take(s: bytes, count: nat): Parsed<bytes> {
    if count > |s| then Err(EndOfInput) else Ok((s[..count], s[count..]))
  }

  function ReadLE(s: bytes, width: nat): Parsed<nat> {
    match Take(s, width)
    case Err(e) => Err(e)
    case Ok((head, rest)) => Ok((FromLE(head), rest))
  }

  function ReadU8(s: bytes): (r: Parsed<byte>) {
    match Take(s, 1)
    case Err(e) => Err(e)
    case Ok((head, rest)) => Ok((head[0], rest))
  }

  function ReadU16(s: bytes): Parsed<u16> {
    ReadLEBound(s, 2);
    match ReadLE(s, 2)
    case Err(e) => Err(e)
    case Ok((n, rest)) => Ok((n, rest))
  }

  function ReadU32(s: bytes): Parsed<u32> {
    ReadLEBound(s, 4);
    match ReadLE(s, 4)
    case Err(e) => Err(e)
    case Ok((n, rest)) => Ok((n, rest))
  }

  function ReadU64(s: bytes): Parsed<u64> {
    ReadLEBound(s, 8);
    match ReadLE(s, 8)
    case Err(e) => Err(e)
    case Ok((n, rest)) => Ok((n, rest))
  }

  lemma ReadLEBound(s: bytes, width: nat)
    requires width == 2 || width == 4 || width == 8
    ensures ReadLE(s, width).Ok? ==>
              && ReadLE(s, width).value.0 < P256(width)
              && P256(2) == 0x1_0000 && P256(4) == 0x1_0000_0000 && P256(8) == 0x1_0000_0000_0000_0000
  {
    Widths();
    if width <= |s| {
      LECanonical(s[..width]);
    }
  }

  /** `Writer::bytes`: a length prefix and the bytes. */
  function Framed(s: bytes): bytes {
    LE(|s|, 4) + s
  }

  /** `Reader::bytes`. */
  function ReadBytes(s: bytes, max: nat): Parsed<bytes> {
    match ReadU32(s)
    case Err(e) => Err(e)
    case Ok((len, rest)) =>
      if len > max || len > MAX_CONSENSUS_ALLOCATION then Err(LimitExceeded(len, Min(max, MAX_CONSENSUS_ALLOCATION)))
      else Take(rest, len)
  }

  /** `Reader::vector_len`. */
  function ReadCount(s: bytes, max: nat): Parsed<nat> {
    match ReadU32(s)
    case Err(e) => Err(e)
    case Ok((len, rest)) => if len > max then Err(LimitExceeded(len, max)) else Ok((len, rest))
  }

  /** `Reader::string`, with well-formedness of UTF-8 as a predicate. */
  function ReadString(utf8: bytes -> bool, s: bytes, max: nat): Parsed<bytes> {
    match ReadBytes(s, max)
    case Err(e) => Err(e)
    case Ok((text, rest)) => if utf8(text) then Ok((text, rest)) else Err(InvalidUtf8)
  }

  /** `consensus_decode`: bounded input, nothing left over. */
  function DecodeAll<T>(decode: bytes -> Parsed<T>, s: bytes): Result<T, CodecError> {
    if |s| > MAX_CONSENSUS_ALLOCATION then Err(LimitExceeded(|s|, MAX_CONSENSUS_ALLOCATION))
    else
      match decode(s)
      case Err(e) => Err(e)
      case Ok((value, rest)) => if rest != [] then Err(TrailingBytes(|rest|)) else Ok(value)
  }

  // ----------------------------------------------------------------- laws of the primitives

  lemma TakePrefix(a: bytes, rest: bytes)
    ensures Take(a + rest, |a|) == Ok((a, rest))
  {
    assert (a + rest)[..|a|] == a && (a + rest)[|a|..] == rest;
  }

  lemma TakeCanonical(s: bytes, count: nat)
    requires Take(s, count).Ok?
    ensures |Take(s, count).value.0| == count
    ensures s == Take(s, count).value.0 + Take(s, count).value.1
  {
  }

  lemma U8RoundTrip(n: byte, rest: bytes)
    ensures ReadU8([n] + rest) == Ok((n, rest))
  {
    TakePrefix([n], rest);
  }

  lemma U16RoundTrip(n: u16, rest: bytes)
    ensures ReadU16(LE(n, 2) + rest) == Ok((n, rest))
  {
    TakePrefix(LE(n, 2), rest);
    Widths();
    LERoundTrip(n, 2);
  }

  lemma U32RoundTrip(n: u32, rest: bytes)
    ensures ReadU32(LE(n, 4) + rest) == Ok((n, rest))
  {
    TakePrefix(LE(n, 4), rest);
    Widths();
    LERoundTrip(n, 4);
  }

  lemma U64RoundTrip(n: u64, rest: bytes)
    ensures ReadU64(LE(n, 8) + rest) == Ok((n, rest))
  {
    TakePrefix(LE(n, 8), rest);
    Widths();
    LERoundTrip(n, 8);
  }

  lemma BytesRoundTrip(a: bytes, max: nat, rest: bytes)
    requires |a| <= max && |a| <= MAX_CONSENSUS_ALLOCATION
    ensures ReadBytes(Framed(a) + rest, max) == Ok((a, rest))
  {
    assert Framed(a) + rest == LE(|a|, 4) + (a + rest);
    U32RoundTrip(|a|, a + rest);
    TakePrefix(a, rest);
  }

  lemma CountRoundTrip(n: u32, max: nat, rest: bytes)
    requires n <= max
    ensures ReadCount(LE(n, 4) + rest, max) == Ok((n, rest))
  {
    U32RoundTrip(n, rest);
  }

  lemma U8Canonical(s: bytes)
    requires ReadU8(s).Ok?
    ensures s == [ReadU8(s).value.0] + ReadU8(s).value.1
  {
  }

  lemma LEReadCanonical(s: bytes, width: nat)
    requires ReadLE(s, width).Ok?
    ensures s == LE(ReadLE(s, width).value.0, width) + ReadLE(s, width).value.1
  {
    LECanonical(s[..width]);
  }

  lemma U16Canonical(s: bytes)
    requires ReadU16(s).Ok?
    ensures s == LE(ReadU16(s).value.0, 2) + ReadU16(s).value.1
  {
    LEReadCanonical(s, 2);
  }

  lemma U32Canonical(s: bytes)
    requires ReadU32(s).Ok?
    ensures s == LE(ReadU32(s).value.0, 4) + ReadU32(s).value.1
  {
    LEReadCanonical(s, 4);
  }

  lemma U64Canonical(s: bytes)
    requires ReadU64(s).Ok?
    ensures s == LE(ReadU64(s).value.0, 8) + ReadU64(s).value.1
  {
    LEReadCanonical(s, 8);
  }

  lemma BytesCanonical(s: bytes, max: nat)
    requires ReadBytes(s, max).Ok?
    ensures var (a, rest) := ReadBytes(s, max).value;
            |a| <= max && |a| <= MAX_CONSENSUS_ALLOCATION && s == Framed(a) + rest
  {
    U32Canonical(s);
    var (len, tail) := ReadU32(s).value;
    TakeCanonical(tail, len);
    var (a, rest) := ReadBytes(s, max).value;
    assert s == LE(|a|, 4) + (a + rest);
  }

  lemma CountCanonical(s: bytes, max: nat)
    requires ReadCount(s, max).Ok?
    ensures var (n, rest) := ReadCount(s, max).value;
            n <= max && n < 0x1_0000_0000 && s == LE(n, 4) + rest
  {
    U32Canonical(s);
  }

  // --------------------------------------------------------------------- codec laws

  /** Decoding undoes encoding on the values `ok` describes, whatever follows. */
  ghost predicate RoundTrips<T(!new)>(ok: T -> bool, encode: T -> bytes, decode: bytes -> Parsed<T>) {
    forall x, rest :: ok(x) ==> decode(encode(x) + rest) == Ok((x, rest))
  }

  /** Whatever is accepted is `ok` and is, byte for byte, the encoding of the result. */
  ghost predicate Canonical<T(!new)>(ok: T -> bool, encode: T -> bytes, decode: bytes -> Parsed<T>) {
    forall s :: decode(s).Ok? ==> ok(decode(s).value.0) && s == encode(decode(s).value.0) + decode(s).value.1
  }

  lemma DecodeAllRoundTrip<T(!new)>(ok: T -> bool, encode: T -> bytes, decode: bytes -> Parsed<T>, x: T)
    requires RoundTrips(ok, encode, decode) && ok(x) && |encode(x)| <= MAX_CONSENSUS_ALLOCATION
    ensures DecodeAll(decode, encode(x)) == Ok(x)
  {
    assert encode(x) + [] == encode(x);
  }

  lemma DecodeAllCanonical<T(!new)>(ok: T -> bool, encode: T -> bytes, decode: bytes -> Parsed<T>, s: bytes)
    requires Canonical(ok, encode, decode) && DecodeAll(decode, s).Ok?
    ensures ok(DecodeAll(decode, s).value) && encode(DecodeAll(decode, s).value) == s
  {
    assert encode(DecodeAll(decode, s).value) + [] == s;
  }

  /** An element behind its own length prefix. */
  function ReadFramed<T>(decode: bytes -> Parsed<T>, s: bytes, max: nat): Parsed<T> {
    match ReadBytes(s, max)
    case Err(e) => Err(e)
    case Ok((inner, rest)) =>
      match DecodeAll(decode, inner)
      case Err(e) => Err(e)
      case Ok(value) => Ok((value, rest))
  }

  lemma FramedRoundTrip<T(!new)>(ok: T -> bool, encode: T -> bytes, decode: bytes -> Parsed<T>, max: nat, x: T, rest: bytes)
    requires RoundTrips(ok, encode, decode) && ok(x) && |encode(x)| <= max && |encode(x)| <= MAX_CONSENSUS_ALLOCATION
    ensures ReadFramed(decode, Framed(encode(x)) + rest, max) == Ok((x, rest))
  {
    BytesRoundTrip(encode(x), max, rest);
    DecodeAllRoundTrip(ok, encode, decode, x);
  }

  lemma FramedCanonical<T(!new)>(ok: T -> bool, encode: T -> bytes, decode: bytes -> Parsed<T>, max: nat, s: bytes)
    requires Canonical(ok, encode, decode) && ReadFramed(decode, s, max).Ok?
    ensures var (x, rest) := ReadFramed(decode, s, max).value;
            && ok(x) && |encode(x)| <= max && |encode(x)| <= MAX_CONSENSUS_ALLOCATION
            && s == Framed(encode(x)) + rest
  {
    BytesCanonical(s, max);
    var (inner, rest) := ReadBytes(s, max).value;
    DecodeAllCanonical(ok, encode, decode, inner);
  }

  /** A run of `n` elements, read one after another. */
  function ReadMany<T>(decode: bytes -> Parsed<T>, s: bytes, n: nat): Parsed<seq<T>>
    decreases n
  {
    if n == 0 then Ok(([], s))
    else
      match decode(s)
      case Err(e) => Err(e)
      case Ok((x, rest)) =>
        match ReadMany(decode, rest, n - 1)
        case Err(e) => Err(e)
        case Ok((xs, tail)) => Ok(([x] + xs, tail))
  }

  function Concat<T>(encode: T -> bytes, xs: seq<T>): bytes {
    if xs == [] then [] else encode(xs[0]) + Concat(encode, xs[1..])
  }

  lemma {:induction false} ManyRoundTrip<T(!new)>(ok: T -> bool, encode: T -> bytes, decode: bytes -> Parsed<T>, xs: seq<T>, rest: bytes)
    requires RoundTrips(ok, encode, decode) && forall x :: x in xs ==> ok(x)
    ensures ReadMany(decode, Concat(encode, xs) + rest, |xs|) == Ok((xs, rest))
    decreases |xs|
  {
    if xs == [] {
      assert Concat(encode, xs) + rest == rest;
    } else {
      var tail := Concat(encode, xs[1..]) + rest;
      assert Concat(encode, xs) + rest == encode(xs[0]) + tail;
      assert xs[0] in xs;
      ManyRoundTrip(ok, encode, decode, xs[1..], rest);
      assert [xs[0]] + xs[1..] == xs;
    }
  }

  lemma {:induction false} ManyCanonical<T(!new)>(ok: T -> bool, encode: T -> bytes, decode: bytes -> Parsed<T>, s: bytes, n: nat)
    requires Canonical(ok, encode, decode) && ReadMany(decode, s, n).Ok?
    ensures var (xs, rest) := ReadMany(decode, s, n).value;
            && |xs| == n && (forall x :: x in xs ==> ok(x))
            && s == Concat(encode, xs) + rest
    decreases n
  {
    if n > 0 {
      var (x, tail) := decode(s).value;
      ManyCanonical(ok, encode, decode, tail, n - 1);
      var (xs, rest) := ReadMany(decode, tail, n - 1).value;
      var all := [x] + xs;
      assert all[1..] == xs;
      assert s == encode(x) + (Concat(encode, xs) + rest);
      assert s == Concat(encode, all) + rest;
    } else {
      assert s == [] + s;
    }
  }

  // ------------------------------------------------- counted vectors of framed elements

  function Frame<T>(encode: T -> bytes): T -> bytes {
    x => Framed(encode(x))
  }

  function FrameReader<T>(decode: bytes -> Parsed<T>, max: nat): bytes -> Parsed<T> {
    s => ReadFramed(decode, s, max)
  }

  /** What fits the element limit. */
  ghost function Fits<T>(ok: T -> bool, encode: T -> bytes, max: nat): T -> bool {
    x => ok(x) && |encode(x)| <= max && |encode(x)| <= MAX_CONSENSUS_ALLOCATION
  }

  /** A count, then each element behind its length. */
  function Vector<T>(encode: T -> bytes, xs: seq<T>): bytes {
    LE(|xs|, 4) + Concat(Frame(encode), xs)
  }

  function ReadVector<T>(decode: bytes -> Parsed<T>, s: bytes, maxCount: nat, max: nat): Parsed<seq<T>> {
    var (n, rest) :- ReadCount(s, maxCount);
    ReadMany(FrameReader(decode, max), rest, n)
  }

  lemma FramesObey<T(!new)>(ok: T -> bool, encode: T -> bytes, decode: bytes -> Parsed<T>, max: nat)
    ensures RoundTrips(ok, encode, decode) ==> RoundTrips(Fits(ok, encode, max), Frame(encode), FrameReader(decode, max))
    ensures Canonical(ok, encode, decode) ==> Canonical(Fits(ok, encode, max), Frame(encode), FrameReader(decode, max))
  {
    if RoundTrips(ok, encode, decode) {
      forall x, rest | Fits(ok, encode, max)(x)
        ensures FrameReader(decode, max)(Frame(encode)(x) + rest) == Ok((x, rest))
      {
        FramedRoundTrip(ok, encode, decode, max, x, rest);
      }
    }
    if Canonical(ok, encode, decode) {
      forall s | FrameReader(decode, max)(s).Ok?
        ensures var (x, rest) := FrameReader(decode, max)(s).value; Fits(ok, encode, max)(x) && s == Frame(encode)(x) + rest
      {
        FramedCanonical(ok, encode, decode, max, s);
      }
    }
  }

  lemma VectorRoundTrip<T(!new)>(ok: T -> bool, encode: T -> bytes, decode: bytes -> Parsed<T>, maxCount: nat, max: nat, xs: seq<T>, rest: bytes)
    requires RoundTrips(ok, encode, decode)
    requires |xs| <= maxCount < 0x1_0000_0000 && forall x :: x in xs ==> Fits(ok, encode, max)(x)
    ensures ReadVector(decode, Vector(encode, xs) + rest, maxCount, max) == Ok((xs, rest))
  {
    FramesObey(ok, encode, decode, max);
    var body := Concat(Frame(encode), xs) + rest;
    assert Vector(encode, xs) + rest == LE(|xs|, 4) + body;
    CountRoundTrip(|xs|, maxCount, body);
    ManyRoundTrip(Fits(ok, encode, max), Frame(encode), FrameReader(decode, max), xs, rest);
  }

  lemma VectorCanonical<T(!new)>(ok: T -> bool, encode: T -> bytes, decode: bytes -> Parsed<T>, s: bytes, maxCount: nat, max: nat)
    requires Canonical(ok, encode, decode) && ReadVector(decode, s, maxCount, max).Ok?
    ensures var (xs, rest) := ReadVector(decode, s, maxCount, max).value;
            && |xs| <= maxCount && (forall x :: x in xs ==> Fits(ok, encode, max)(x))
            && s == Vector(encode, xs) + rest
  {
    FramesObey(ok, encode, decode, max);
    CountCanonical(s, maxCount);
    var (n, body) := ReadCount(s, maxCount).value;
    ManyCanonical(Fits(ok, encode, max), Frame(encode), FrameReader(decode, max), body, n);
    var (xs, rest) := ReadVector(decode, s, maxCount, max).value;
    assert s == LE(n, 4) + (Concat(Frame(encode), xs) + rest);
  }

  lemma {:induction false} ConcatSnoc<T>(encode: T -> bytes, xs: seq<T>, x: T)
    ensures Concat(encode, xs + [x]) == Concat(encode, xs) + encode(x)
  {
    if xs == [] {
      assert ([] + [x])[1..] == [];
    } else {
      assert (xs + [x])[1..] == xs[1..] + [x];
      ConcatSnoc(encode, xs[1..], x);
    }
  }

  /** Having read `out`, with `left` elements to go from `rest`, the loop will return what `ReadMany` does. */
  ghost predicate Resumes<T(!new)>(decode: bytes -> Parsed<T>, start: bytes, n: nat, out: seq<T>, rest: bytes, left: nat) {
    ReadMany(decode, start, n) == match ReadMany(decode, rest, left)
                                  case Err(e) => Err(e)
                                  case Ok((xs, tail)) => Ok((out + xs, tail))
  }

  lemma ResumesAtStart<T(!new)>(decode: bytes -> Parsed<T>, start: bytes, n: nat)
    ensures Resumes(decode, start, n, [], start, n)
  {
    if ReadMany(decode, start, n).Ok? {
      var xs := ReadMany(decode, start, n).value.0;
      assert [] + xs == xs;
    }
  }

  lemma ResumesStep<T(!new)>(decode: bytes -> Parsed<T>, start: bytes, n: nat, out: seq<T>, rest: bytes, left: nat)
    requires Resumes(decode, start, n, out, rest, left) && left > 0
    ensures decode(rest).Err? ==> ReadMany(decode, start, n) == Err(decode(rest).error)
    ensures decode(rest).Ok? ==> Resumes(decode, start, n, out + [decode(rest).value.0], decode(rest).value.1, left - 1)
  {
    if decode(rest).Ok? {
      var (x, tail) := decode(rest).value;
      if ReadMany(decode, tail, left - 1).Ok? {
        var xs := ReadMany(decode, tail, left - 1).value.0;
        assert out + ([x] + xs) == (out + [x]) + xs;
      }
    }
  }

  lemma ResumesAtEnd<T(!new)>(decode: bytes -> Parsed<T>, start: bytes, n: nat, out: seq<T>, rest: bytes)
    requires Resumes(decode, start, n, out, rest, 0)
    ensures ReadMany(decode, start, n) == Ok((out, rest))
  {
    assert out + [] == out;
  }

  // ---------------------------------------------------------------- Writer and Reader

  class Writer {
    var data: bytes

    constructor ()
      ensures data == []
    {
      data := [];
    }

    method U8(value: byte)
      modifies this
      ensures data == old(data) + [value]
    {
      data := data + [value];
    }

    method U16(value: u16)
      modifies this
      ensures data == old(data) + LE(value, 2)
    {
      data := data + LE(value, 2);
    }

    method U32(value: u32)
      modifies this
      ensures data == old(data) + LE(value, 4)
    {
      data := data + LE(value, 4);
    }

    method U64(value: u64)
      modifies this
      ensures data == old(data) + LE(value, 8)
    {
      data := data + LE(value, 8);
    }

    method Fixed(value: bytes)
      modifies this
      ensures data == old(data) + value
    {
      data := data + value;
    }

    method WriteBytes(value: bytes)
      requires |value| < 0x1_0000_0000
      modifies this
      ensures data == old(data) + Framed(value)
    {
      U32(|value|);
      Fixed(value);
      assert old(data) + LE(|value|, 4) + value == old(data) + (LE(|value|, 4) + value);
    }

    /** The loop every vector encoder runs. */
    method WriteVector<T>(encode: T -> bytes, xs: seq<T>)
      requires |xs| < 0x1_0000_0000
      requires forall x :: x in xs ==> |encode(x)| < 0x1_0000_0000
      modifies this
      ensures data == old(data) + Vector(encode, xs)
    {
      U32(|xs|);
      ghost var start := data;
      for i := 0 to |xs|
        invariant data == start + Concat(Frame(encode), xs[..i])
      {
        ConcatSnoc(Frame(encode), xs[..i], xs[i]);
        assert xs[..i] + [xs[i]] == xs[..i + 1];
        WriteBytes(encode(xs[i]));
      }
      assert xs[..|xs|] == xs;
      assert start + Concat(Frame(encode), xs) == old(data) + (LE(|xs|, 4) + Concat(Frame(encode), xs));
    }
  }

  class Reader {
    const input: bytes
    var offset: nat

    predicate Valid()
      reads this
    {
      offset <= |input|
    }

    /** The unread bytes. */
    function Rest(): bytes
      reads this
      requires Valid()
    {
      input[offset..]
    }

    constructor (input: bytes)
      ensures Valid() && this.input == input && offset == 0
    {
      this.input := input;
      offset := 0;
    }

    method TakeBytes(count: nat) returns (r: Result<bytes, CodecError>)
      requires Valid()
      modifies this
      ensures Valid()
      ensures r.Ok? ==> Take(old(Rest()), count) == Ok((r.value, Rest()))
      ensures r.Err? ==> Take(old(Rest()), count) == Err(r.error) && offset == old(offset)
    {
      var end := offset + count;
      if end > |input| {
        return Err(EndOfInput);
      }
      var out := input[offset..end];
      assert out == Rest()[..count] && input[end..] == Rest()[count..];
      offset := end;
      return Ok(out);
    }

    method U16() returns (r: Result<u16, CodecError>)
      requires Valid()
      modifies this
      ensures Valid()
      ensures r.Ok? ==> ReadU16(old(Rest())) == Ok((r.value, Rest()))
      ensures r.Err? ==> ReadU16(old(Rest())) == Err(r.error)
    {
      ReadLEBound(Rest(), 2);
      var head :- TakeBytes(2);
      return Ok(FromLE(head));
    }

    method U32() returns (r: Result<u32, CodecError>)
      requires Valid()
      modifies this
      ensures Valid()
      ensures r.Ok? ==> ReadU32(old(Rest())) == Ok((r.value, Rest()))
      ensures r.Err? ==> ReadU32(old(Rest())) == Err(r.error)
    {
      ReadLEBound(Rest(), 4);
      var head :- TakeBytes(4);
      return Ok(FromLE(head));
    }

    method U64() returns (r: Result<u64, CodecError>)
      requires Valid()
      modifies this
      ensures Valid()
      ensures r.Ok? ==> ReadU64(old(Rest())) == Ok((r.value, Rest()))
      ensures r.Err? ==> ReadU64(old(Rest())) == Err(r.error)
    {
      ReadLEBound(Rest(), 8);
      var head :- TakeBytes(8);
      return Ok(FromLE(head));
    }

    method ReadFrame(max: nat) returns (r: Result<bytes, CodecError>)
      requires Valid()
      modifies this
      ensures Valid()
      ensures r.Ok? ==> ReadBytes(old(Rest()), max) == Ok((r.value, Rest()))
      ensures r.Err? ==> ReadBytes(old(Rest()), max) == Err(r.error)
    {
      var len :- U32();
      if len > max || len > MAX_CONSENSUS_ALLOCATION {
        return Err(LimitExceeded(len, Min(max, MAX_CONSENSUS_ALLOCATION)));
      }
      r := TakeBytes(len);
    }

    method VectorLen(max: nat) returns (r: Result<nat, CodecError>)
      requires Valid()
      modifies this
      ensures Valid()
      ensures r.Ok? ==> ReadCount(old(Rest()), max) == Ok((r.value, Rest()))
      ensures r.Err? ==> ReadCount(old(Rest()), max) == Err(r.error)
    {
      var len :- U32();
      if len > max {
        return Err(LimitExceeded(len, max));
      }
      return Ok(len);
    }

    /** The loop every vector decoder runs: the elements read so far, then the rest. */
    method Vector<T(!new)>(decode: bytes -> Parsed<T>, maxCount: nat, max: nat) returns (r: Result<seq<T>, CodecError>)
      requires Valid()
      modifies this
      ensures Valid()
      ensures r.Ok? ==> ReadVector(decode, old(Rest()), maxCount, max) == Ok((r.value, Rest()))
      ensures r.Err? ==> ReadVector(decode, old(Rest()), maxCount, max) == Err(r.error)
    {
      var n :- VectorLen(maxCount);
      var out: seq<T> := [];
      ghost var start, each := Rest(), FrameReader(decode, max);
      ResumesAtStart(each, start, n);
      hide Resumes, ReadMany, ReadBytes, DecodeAll;
      for i := 0 to n
        invariant Valid()
        invariant Resumes(each, start, n, out, Rest(), n - i)
      {
        ResumesStep(each, start, n, out, Rest(), n - i);
        var inner :- ReadFrame(max);
        var x :- DecodeAll(decode, inner);
        out := out + [x];
      }
      ResumesAtEnd(each, start, n, out, Rest());
      return Ok(out);
    }

    /** `finish`: accepts exactly when nothing is left. */
    method Finish() returns (r: Result<(), CodecError>)
      requires Valid()
      ensures r.Ok? <==> Rest() == []
      ensures r.Err? ==> r.error == TrailingBytes(|Rest()|)
    {
      if |input| - offset == 0 {
        return Ok(());
      }
      return Err(TrailingBytes(|input| - offset));
    }
  }
}
