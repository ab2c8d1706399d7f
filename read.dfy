/**
 * The bounds-checked byte cursor of `src/read.rs`: big-endian fixed-width
 * reads and exact-length `take`. Each returns the unread suffix and the value,
 * or `TruncatedTerm` when too few bytes remain.
 */
module Read {
  import opened Types

  function Pow256(n: nat): (p: nat)
    ensures p >= 1
  {
    if n == 0 then 1 else 256 * Pow256(n - 1)
  }

  /** Reference reading of a big-endian unsigned number: the most significant byte first. */
  function FromBigEndian(bytes: seq<uint8>): (v: nat)
    ensures v < Pow256(|bytes|)
    decreases |bytes|
  {
    if |bytes| == 0 then 0
    else
      var v := FromBigEndian(bytes[..|bytes| - 1]) * 256 + bytes[|bytes| - 1];
      assert v < Pow256(|bytes|) by {
        assert FromBigEndian(bytes[..|bytes| - 1]) + 1 <= Pow256(|bytes| - 1);
      }
      v
  }

  /** The big-endian encoding of `v` in exactly `width` bytes (the inverse of `FromBigEndian`). */
  function ToBigEndian(v: nat, width: nat): (bytes: seq<uint8>)
    requires v < Pow256(width)
    ensures |bytes| == width
    decreases width
  {
    if width == 0 then [] else ToBigEndian(v / 256, width - 1) + [v % 256]
  }

  lemma {:induction false} FromToBigEndian(v: nat, width: nat)
    requires v < Pow256(width)
    ensures FromBigEndian(ToBigEndian(v, width)) == v
    decreases width
  {
    if width != 0 {
      var bytes := ToBigEndian(v, width);
      assert bytes[..width - 1] == ToBigEndian(v / 256, width - 1);
      FromToBigEndian(v / 256, width - 1);
    }
  }

  /** Splits `len` bytes off the front of `input`: `(rest, taken)`. */
  function Take(input: seq<uint8>, len: nat): (r: IResult<seq<uint8>>)
    ensures r.Ok? <==> |input| >= len
    ensures r.Ok? ==> |r.value.1| == len && r.value.1 + r.value.0 == input
    ensures r.Err? ==> r.error == TruncatedTerm
  {
    if |input| >= len then
      assert input[..len] + input[len..] == input;
      Ok((input[len..], input[..len]))
    else Err(TruncatedTerm)
  }

  /** `take` splits a concatenation back at the join. */
  lemma TakeSplit(taken: seq<uint8>, rest: seq<uint8>)
    ensures Take(taken + rest, |taken|) == Ok((rest, taken))
  {
    assert (taken + rest)[..|taken|] == taken;
    assert (taken + rest)[|taken|..] == rest;
  }

  function BeU8(input: seq<uint8>): (r: IResult<uint8>)
    ensures r.Ok? <==> |input| >= 1
    ensures r.Ok? ==> r.value == (input[1..], input[0])
    ensures r.Err? ==> r.error == TruncatedTerm
  {
    if |input| >= 1 then Ok((input[1..], input[0])) else Err(TruncatedTerm)
  }

  function BeU16(input: seq<uint8>): (r: IResult<uint16>)
    ensures r.Ok? <==> |input| >= 2
    ensures r.Ok? ==> r.value.0 == input[2..] && r.value.1 == FromBigEndian(input[..2])
    ensures r.Err? ==> r.error == TruncatedTerm
  {
    if |input| < 2 then Err(TruncatedTerm)
    else
      assert FromBigEndian(input[..2]) == (input[0] as int) * 0x100 + input[1] by {
        assert input[..2][..1] == [input[0]];
        assert [input[0]][..0] == [];
      }
      Ok((input[2..], (input[0] as int) * 0x100 + input[1]))
  }

  lemma BigEndian4(b: seq<uint8>)
    requires |b| == 4
    ensures FromBigEndian(b) == (b[0] as int) * 0x100_0000 + (b[1] as int) * 0x1_0000 + (b[2] as int) * 0x100 + b[3]
  {
    assert b[..3][..2][..1][..0] == [];
    assert b[..3][..2][..1] == [b[0]];
    assert b[..3][..2] == [b[0], b[1]];
    assert b[..3] == [b[0], b[1], b[2]];
  }

  /** The shifted bytes occupy disjoint bits, so the sum is the big-endian value and stays below 2^32. */
  function BeU32(input: seq<uint8>): (r: IResult<uint32>)
    ensures r.Ok? <==> |input| >= 4
    ensures r.Ok? ==> r.value.0 == input[4..] && r.value.1 == FromBigEndian(input[..4])
    ensures r.Err? ==> r.error == TruncatedTerm
  {
    if |input| < 4 then Err(TruncatedTerm)
    else
      BigEndian4(input[..4]);
      Ok((input[4..], (input[0] as int) * 0x100_0000 + (input[1] as int) * 0x1_0000 + (input[2] as int) * 0x100 + input[3]))
  }

  /** Two's-complement reinterpretation of a 32-bit pattern (`value as i32`). */
  function AsInt32(v: uint32): (i: int32)
    ensures 0 <= v < 0x8000_0000 ==> i == v
    ensures 0x8000_0000 <= v ==> i == v - 0x1_0000_0000
  {
    if v < 0x8000_0000 then v else v - 0x1_0000_0000
  }

  function BeI32(input: seq<uint8>): (r: IResult<int32>)
    ensures r.Ok? <==> |input| >= 4
    ensures r.Ok? ==> r.value.0 == input[4..] && r.value.1 == AsInt32(FromBigEndian(input[..4]))
    ensures r.Err? ==> r.error == TruncatedTerm
  {
    var (input, value) :- BeU32(input);
    Ok((input, AsInt32(value)))
  }

  lemma {:induction false} FromBigEndianAppend(a: seq<uint8>, b: seq<uint8>)
    ensures FromBigEndian(a + b) == FromBigEndian(a) * Pow256(|b|) + FromBigEndian(b)
    decreases |b|
  {
    if |b| == 0 {
      assert a + b == a;
    } else {
      var ab, front, last := a + b, b[..|b| - 1], b[|b| - 1];
      assert ab[..|ab| - 1] == a + front && ab[|ab| - 1] == last;
      FromBigEndianAppend(a, front);
      var x, p := FromBigEndian(a), Pow256(|front|);
      calc {
        FromBigEndian(ab);
        FromBigEndian(a + front) * 256 + last;
        (x * p + FromBigEndian(front)) * 256 + last;
        { Distribute(x, p, FromBigEndian(front)); }
        x * (p * 256) + (FromBigEndian(front) * 256 + last);
        x * Pow256(|b|) + FromBigEndian(b);
      }
    }
  }

  lemma Distribute(x: int, p: int, f: int)
    ensures (x * p + f) * 256 == x * (p * 256) + f * 256
  {
  }

  lemma BigEndian8(b: seq<uint8>)
    requires |b| == 8
    ensures FromBigEndian(b) == FromBigEndian(b[..4]) * 0x1_0000_0000 + FromBigEndian(b[4..])
  {
    assert b == b[..4] + b[4..];
    FromBigEndianAppend(b[..4], b[4..]);
  }

  function BeU64(input: seq<uint8>): (r: IResult<uint64>)
    ensures r.Ok? <==> |input| >= 8
    ensures r.Ok? ==> r.value.0 == input[8..] && r.value.1 == FromBigEndian(input[..8])
    ensures r.Err? ==> r.error == TruncatedTerm
  {
    if |input| < 8 then Err(TruncatedTerm)
    else
      BigEndian8(input[..8]);
      assert input[..8][..4] == input[..4] && input[..8][4..] == input[4..8];
      BigEndian4(input[..4]);
      BigEndian4(input[4..8]);
      Ok((input[8..],
          (input[0] as int) * 0x100_0000_0000_0000 + (input[1] as int) * 0x1_0000_0000_0000
          + (input[2] as int) * 0x100_0000_0000 + (input[3] as int) * 0x1_0000_0000
          + (input[4] as int) * 0x100_0000 + (input[5] as int) * 0x1_0000 + (input[6] as int) * 0x100 + input[7]))
  }

  /** Reading back what `ToBigEndian` wrote gives the value and exactly the bytes that followed. */
  lemma BeU16RoundTrip(v: uint16, rest: seq<uint8>)
    ensures BeU16(ToBigEndian(v, 2) + rest) == Ok((rest, v))
  {
    var bytes := ToBigEndian(v, 2) + rest;
    assert bytes[..2] == ToBigEndian(v, 2) && bytes[2..] == rest;
    FromToBigEndian(v, 2);
  }

  lemma BeU32RoundTrip(v: uint32, rest: seq<uint8>)
    ensures BeU32(ToBigEndian(v, 4) + rest) == Ok((rest, v))
  {
    var bytes := ToBigEndian(v, 4) + rest;
    assert bytes[..4] == ToBigEndian(v, 4) && bytes[4..] == rest;
    FromToBigEndian(v, 4);
  }

  lemma BeU64RoundTrip(v: uint64, rest: seq<uint8>)
    ensures BeU64(ToBigEndian(v, 8) + rest) == Ok((rest, v))
  {
    var bytes := ToBigEndian(v, 8) + rest;
    assert bytes[..8] == ToBigEndian(v, 8) && bytes[8..] == rest;
    FromToBigEndian(v, 8);
  }

  /** The 32-bit two's-complement pattern of `i`, read back by `BeI32`, gives `i`. */
  lemma BeI32RoundTrip(i: int32, rest: seq<uint8>)
    ensures BeI32(ToBigEndian(if i < 0 then i + 0x1_0000_0000 else i, 4) + rest) == Ok((rest, i))
  {
    BeU32RoundTrip(if i < 0 then i + 0x1_0000_0000 else i, rest);
  }

  // ---------------------------------------------------------------------------
  // `be_f64`: eight bytes read as a `u64` and turned into an `f64`.

  /** 2^53: the integers below it are exactly the ones every `f64` significand can hold. */
  const TWO_53: nat := 0x20_0000_0000_0000

  function Pow2(n: nat): (p: nat)
    ensures p >= 1
  {
    if n == 0 then 1 else 2 * Pow2(n - 1)
  }

  /** The number of low bits of `v` (from `s` on) that do not fit a 53-bit significand; at most 11 below 2^64. */
  function Excess(v: nat, s: nat): (e: nat)
    requires s <= 11
    ensures s <= e <= 11
    ensures e < 11 ==> v < TWO_53 * Pow2(e)
    decreases 11 - s
  {
    if s == 11 || v < TWO_53 * Pow2(s) then s else Excess(v, s + 1)
  }

  /** `v` rounded to a multiple of `unit`, to nearest with ties to the even multiple. */
  function RoundToMultiple(v: nat, unit: nat): (d: nat)
    requires unit >= 1
    ensures 2 * v <= 2 * d + unit && 2 * d <= 2 * v + unit
    ensures unit == 1 ==> d == v
  {
    var q, r := v / unit, v % unit;
    var below := q * unit;
    assert v == below + r && r < unit;
    if r * 2 > unit || (r * 2 == unit && q % 2 == 1) then
      assert (q + 1) * unit == below + unit;
      (q + 1) * unit
    else
      below
  }

  /**
   * The value of `v as f64` (a numeric conversion): `v` rounded to a 53-bit
   * significand, to nearest with ties to even. Every such value is an
   * integer, so the float is given by its integer value.
   */
  function NumericCast(v: uint64): (d: nat)
    ensures v < TWO_53 ==> d == v
    ensures 2 * v <= 2 * d + Pow2(Excess(v, 0)) && 2 * d <= 2 * v + Pow2(Excess(v, 0))
  {
    RoundToMultiple(v, Pow2(Excess(v, 0)))
  }

  /** `be_f64` as written: the eight bytes' unsigned value converted numerically by `value as f64`. */
  function BeF64AsWritten(input: seq<uint8>): (r: IResult<nat>)
    ensures r.Ok? <==> |input| >= 8
    ensures r.Ok? ==> r.value.0 == input[8..] && r.value.1 == NumericCast(FromBigEndian(input[..8]))
    ensures r.Err? ==> r.error == TruncatedTerm
  {
    var (input, value) :- BeU64(input);
    Ok((input, NumericCast(value)))
  }

  /**
   * `be_f64` corrected: the eight bytes are the IEEE 754 binary64 pattern
   * (what `f64::from_bits` reads). The float is represented by that pattern,
   * which is one-to-one with the `f64` values it encodes.
   */
  function BeF64(input: seq<uint8>): (r: IResult<uint64>)
    ensures r.Ok? <==> |input| >= 8
    ensures r.Ok? ==> r.value.0 == input[8..] && r.value.1 == FromBigEndian(input[..8])
    ensures r.Err? ==> r.error == TruncatedTerm
  {
    BeU64(input)
  }

  /** Every float pattern written big-endian reads back, so distinct floats stay distinct. */
  lemma BeF64RoundTrip(bits: uint64, rest: seq<uint8>)
    ensures BeF64(ToBigEndian(bits, 8) + rest) == Ok((rest, bits))
  {
    BeU64RoundTrip(bits, rest);
  }

  /**
   * The numeric conversion is not the float encoding: the bytes
   * `00 00 00 00 00 00 00 01`, the pattern of the smallest subnormal
   * (2^-1074), become the float 1.0, where the bit reading keeps the pattern.
   */
  lemma NumericCastMisreads()
    ensures BeF64AsWritten([0, 0, 0, 0, 0, 0, 0, 1]) == Ok(([], 1))
    ensures BeF64([0, 0, 0, 0, 0, 0, 0, 1]) == Ok(([], 1))
  {
    BeU64RoundTrip(1, []);
    assert ToBigEndian(1, 8) + [] == [0, 0, 0, 0, 0, 0, 0, 1];
  }

  /**
   * The numeric conversion is not one-to-one: the distinct patterns 2^53 and
   * 2^53 + 1 become the same float, where the corrected reader keeps them apart.
   */
  lemma NumericCastMerges()
    ensures BeF64AsWritten(ToBigEndian(TWO_53, 8)) == BeF64AsWritten(ToBigEndian(TWO_53 + 1, 8))
    ensures BeF64(ToBigEndian(TWO_53, 8)) != BeF64(ToBigEndian(TWO_53 + 1, 8))
  {
    BeU64RoundTrip(TWO_53, []);
    BeU64RoundTrip(TWO_53 + 1, []);
    assert ToBigEndian(TWO_53, 8) + [] == ToBigEndian(TWO_53, 8);
    assert ToBigEndian(TWO_53 + 1, 8) + [] == ToBigEndian(TWO_53 + 1, 8);
    CastAtTwo53();
  }

  /** Just above 2^53 the unit is 2, and 2^53 + 1 is a tie rounded to the even 2^53. */
  lemma CastAtTwo53()
    ensures NumericCast(TWO_53) == TWO_53 == NumericCast(TWO_53 + 1)
  {
    assert Pow2(1) == 2;
    assert Excess(TWO_53, 0) == 1 && Excess(TWO_53 + 1, 0) == 1;
    assert RoundToMultiple(TWO_53 + 1, 2) == TWO_53;
  }
}
