/** binary16 and binary32 patterns widened to the binary64 pattern of the same
    value (RFC 8949 section 3.3; `half_to_f64` in src/cbor.rs). */
module Ieee {
  import opened ByteStrings
  import opened Wrappers

  lemma {:induction false} Pow2Add(a: nat, b: nat)
    ensures Pow2(a) * Pow2(b) == Pow2(a + b)
  {
    if a > 0 { Pow2Add(a - 1, b); }
  }

  const TWO52 := 0x10_0000_0000_0000

  lemma {:induction false} Pow2Of52()
    ensures Pow2(52) == TWO52
  {
    assert Pow2(13) == 0x2000;
    Pow2Add(13, 13);
    Pow2Add(26, 26);
  }

  /** Sign, biased exponent and fraction packed into a binary64 pattern. */
  function Pack(sign: nat, biased: nat, fraction: nat): u64
    requires sign < 2 && biased < 2048 && fraction < TWO52
  {
    (sign * 2048 + biased) * TWO52 + fraction
  }

  function TopBit(n: nat): (k: nat)
    requires n > 0
    ensures Pow2(k) <= n < Pow2(k + 1)
  {
    if n == 1 then 0 else TopBit(n / 2) + 1
  }

  lemma {:induction false} Pow2Monotone(a: nat, b: nat)
    requires a <= b
    ensures Pow2(a) <= Pow2(b)
  {
    if a < b { Pow2Monotone(a, b - 1); }
  }

  lemma {:induction false} TopBitBelow(n: nat, w: nat)
    requires 0 < n < Pow2(w)
    ensures TopBit(n) < w
  {
    if TopBit(n) >= w { Pow2Monotone(w, TopBit(n)); }
  }

  lemma {:induction false} RestFits(n: nat)
    requires 0 < n < Pow2(52)
    ensures TopBit(n) < 52
    ensures 0 <= (n - Pow2(TopBit(n))) * Pow2(52 - TopBit(n)) < TWO52
  {
    TopBitBelow(n, 52);
    var k := TopBit(n);
    Pow2Add(k, 52 - k);
    Pow2Of52();
    Scale(n - Pow2(k), Pow2(k), Pow2(52 - k));
  }

  lemma {:induction false} Scale(a: int, b: int, c: int)
    requires 0 <= a < b && c >= 1
    ensures 0 <= a * c < b * c
  {
  }

  /** The fraction left of `n` once its top bit is the implicit one. */
  function Rest(n: nat): (f: nat)
    requires 0 < n < Pow2(52)
    ensures f < TWO52
  {
    RestFits(n);
    (n - Pow2(TopBit(n))) * Pow2(52 - TopBit(n))
  }

  /** The pattern of `n * 2^-unit`. */
  function Subnormal(sign: nat, n: nat, unit: nat, w: nat): u64
    requires sign < 2 && n < Pow2(w) && w <= 23 && unit <= 149
  {
    if n == 0 then Pack(sign, 0, 0)
    else
      TopBitBelow(n, w);
      Pow2Monotone(w, 52);
      Pack(sign, TopBit(n) + 1023 - unit, Rest(n))
  }

  /** Exponent 31 (NaN, infinity) has no binary64 value here. */
  function HalfToF64(half: nat): Option<u64>
    requires half < 0x1_0000
  {
    var sign, exp, frac := half / 0x8000, half / 0x400 % 32, half % 0x400;
    if exp == 0 then
      assert Pow2(10) == 0x400;
      Some(Subnormal(sign, frac, 24, 10))
    else if exp <= 30 then Some(Pack(sign, exp - 15 + 1023, frac * 0x400_0000_0000))
    else None
  }

  /** `f32 as f64`; a NaN keeps its payload and is quieted, as hardware does. */
  function SingleToF64(single: nat): u64
    requires single < 0x1_0000_0000
  {
    var sign, exp, frac := single / 0x8000_0000, single / 0x80_0000 % 256, single % 0x80_0000;
    if exp == 0 then
      assert Pow2(23) == 0x80_0000 by { assert Pow2(12) == 0x1000; }
      Subnormal(sign, frac, 149, 23)
    else if exp <= 254 then Pack(sign, exp - 127 + 1023, frac * 0x2000_0000)
    else if frac == 0 then Pack(sign, 2047, 0)
    else Pack(sign, 2047, (if frac < 0x40_0000 then frac + 0x40_0000 else frac) * 0x2000_0000)
  }

  // --- the widened value is the value -----------------------------------------------------

  /** A finite binary64's magnitude in units of 2^-1074, its smallest step. */
  ghost function Magnitude(bits: u64): nat {
    var biased, fraction := bits / TWO52 % 2048, bits % TWO52;
    if biased == 0 then fraction else (TWO52 + fraction) * Pow2(biased - 1)
  }

  /** The magnitude, in the same units, of a narrow float with `width` fraction bits whose
      smallest step is 2^-unit. */
  ghost function NarrowMagnitude(exp: nat, frac: nat, width: nat, unit: nat): nat
    requires unit <= 149
  {
    if exp == 0 then frac * Pow2(1074 - unit) else (Pow2(width) + frac) * Pow2(exp - 1 + 1074 - unit)
  }

  lemma {:induction false} Unpack(sign: nat, biased: nat, fraction: nat)
    requires sign < 2 && biased < 2048 && fraction < TWO52
    ensures var bits := Pack(sign, biased, fraction);
      bits / TWO52 % 2048 == biased && bits % TWO52 == fraction && bits / (2048 * TWO52) == sign
  {
    var bits, high := Pack(sign, biased, fraction), sign * 2048 + biased;
    assert bits / TWO52 == high && bits % TWO52 == fraction;
  }

  lemma {:induction false} Regroup(a: nat, b: nat, c: nat, d: nat)
    requires b * c == d
    ensures a * b * c == a * d
  {
  }

  lemma {:induction false} SubnormalExact(sign: nat, n: nat, unit: nat, w: nat)
    requires sign < 2 && n < Pow2(w) && w <= 23 && unit <= 149
    ensures var bits := Subnormal(sign, n, unit, w);
      && bits / (2048 * TWO52) == sign
      && bits / TWO52 % 2048 != 2047
      && Magnitude(bits) == n * Pow2(1074 - unit)
  {
    hide Pow2, TopBit, Pack;
    if n == 0 {
      Unpack(sign, 0, 0);
    } else {
      TopBitBelow(n, w);
      Pow2Monotone(w, 52);
      var k := TopBit(n);
      Unpack(sign, k + 1023 - unit, Rest(n));
      Pow2Of52();
      Pow2Add(k, 52 - k);
      Spread(Pow2(k), n, Pow2(52 - k));
      Pow2Add(52 - k, k + 1022 - unit);
      Regroup(n, Pow2(52 - k), Pow2(k + 1022 - unit), Pow2(1074 - unit));
    }
  }

  lemma {:induction false} Spread(top: nat, n: nat, c: nat)
    requires top <= n
    ensures top * c + (n - top) * c == n * c
  {
  }

  lemma {:induction false} Shifts()
    ensures Pow2(10) == 0x400 && Pow2(23) == 0x80_0000 && Pow2(29) == 0x2000_0000 && Pow2(42) == 0x400_0000_0000
  {
    assert Pow2(3) == 8 && Pow2(10) == 0x400 && Pow2(13) == 0x2000;
    Pow2Add(10, 13);
    Pow2Add(13, 16);
    Pow2Add(3, 13);
    Pow2Add(13, 29);
  }

  lemma {:induction false} NarrowSubnormal(frac: nat, width: nat, unit: nat)
    requires unit <= 149
    ensures NarrowMagnitude(0, frac, width, unit) == frac * Pow2(1074 - unit)
  {
  }

  /** A binary16 widens to the binary64 of exactly its value and sign. */
  lemma {:induction false} HalfIsExact(half: nat)
    requires half < 0x1_0000 && half / 0x400 % 32 <= 30
    ensures HalfToF64(half).Some?
    ensures var bits := HalfToF64(half).value;
      && bits / (2048 * TWO52) == half / 0x8000
      && bits / TWO52 % 2048 != 2047
      && Magnitude(bits) == NarrowMagnitude(half / 0x400 % 32, half % 0x400, 10, 24)
  {
    hide Pow2, Subnormal, Magnitude, NarrowMagnitude, Pack, HalfToF64;
    if half / 0x400 % 32 == 0 { HalfSubnormal(half); } else { HalfNormal(half); }
  }

  lemma {:induction false} HalfSubnormal(half: nat)
    requires half < 0x1_0000 && half / 0x400 % 32 == 0
    ensures HalfToF64(half).Some?
    ensures var bits := HalfToF64(half).value;
      && bits / (2048 * TWO52) == half / 0x8000
      && bits / TWO52 % 2048 != 2047
      && Magnitude(bits) == NarrowMagnitude(0, half % 0x400, 10, 24)
  {
    hide Pow2, Subnormal, Magnitude, NarrowMagnitude, Pack;
    Shifts();
    NarrowSubnormal(half % 0x400, 10, 24);
    SubnormalExact(half / 0x8000, half % 0x400, 24, 10);
  }

  lemma {:induction false} HalfNormal(half: nat)
    requires half < 0x1_0000 && 0 < half / 0x400 % 32 <= 30
    ensures HalfToF64(half).Some?
    ensures var bits := HalfToF64(half).value;
      && bits / (2048 * TWO52) == half / 0x8000
      && bits / TWO52 % 2048 != 2047
      && Magnitude(bits) == NarrowMagnitude(half / 0x400 % 32, half % 0x400, 10, 24)
  {
    hide Pow2, Subnormal, Magnitude, NarrowMagnitude, Pack;
    Shifts();
    NormalExact(half / 0x8000, half / 0x400 % 32, half % 0x400, 10, 24, 1008);
  }

  lemma {:induction false} NormalExact(sign: nat, exp: nat, frac: nat, width: nat, unit: nat, shift: nat)
    requires sign < 2 && 0 < exp && exp + shift < 2047 && width <= 23 && frac < Pow2(width) && unit <= 149
    requires shift + unit == 1022 + width
    ensures frac * Pow2(52 - width) < TWO52
    ensures var bits := Pack(sign, exp + shift, frac * Pow2(52 - width));
      && bits / (2048 * TWO52) == sign
      && bits / TWO52 % 2048 != 2047
      && Magnitude(bits) == NarrowMagnitude(exp, frac, width, unit)
  {
    hide Pow2, Pack;
    var c := Pow2(52 - width);
    Pow2Of52();
    Pow2Add(width, 52 - width);
    Scale(frac, Pow2(width), c);
    Unpack(sign, exp + shift, frac * c);
    Spread(frac, Pow2(width) + frac, c);
    Pow2Add(52 - width, exp + shift - 1);
    Regroup(Pow2(width) + frac, c, Pow2(exp + shift - 1), Pow2(exp - 1 + 1074 - unit));
  }

  /** A binary32 widens to the binary64 of its sign and exactly its magnitude; an infinity
      to the infinity of its sign, a NaN to a NaN. */
  lemma {:induction false} SingleIsExact(single: nat)
    requires single < 0x1_0000_0000
    ensures var bits := SingleToF64(single);
      var exp, frac := single / 0x80_0000 % 256, single % 0x80_0000;
      && bits / (2048 * TWO52) == single / 0x8000_0000
      && (bits / TWO52 % 2048 == 2047 <==> exp == 255)
      && (exp == 255 ==> (bits % TWO52 == 0 <==> frac == 0))
      && (exp < 255 ==> Magnitude(bits) == NarrowMagnitude(exp, frac, 23, 149))
  {
    hide Pow2, Subnormal, Magnitude, NarrowMagnitude, Pack;
    var sign, exp, frac := single / 0x8000_0000, single / 0x80_0000 % 256, single % 0x80_0000;
    Shifts();
    NarrowSubnormal(frac, 23, 149);
    if exp == 0 {
      SubnormalExact(sign, frac, 149, 23);
    } else if exp < 255 {
      NormalExact(sign, exp, frac, 23, 149, 896);
    } else {
      Unpack(sign, 2047, if frac == 0 then 0 else (if frac < 0x40_0000 then frac + 0x40_0000 else frac) * 0x2000_0000);
    }
  }
}
