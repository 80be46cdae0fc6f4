/** Text as Unicode scalar values and its UTF-8 bytes (RFC 3629). A Rust
    `String` is a sequence of scalar values, which is what `string` is here. */
module Utf8 {
  import opened Wrappers
  import opened ByteStrings

  /** A continuation byte carrying the low six bits of `n`. */
  function Cont(n: nat): byte {
    0x80 + n % 64
  }

  function EncodeChar(c: char): seq<byte> {
    var n := c as int;
    if n < 0x80 then [n]
    else if n < 0x800 then [0xC0 + n / 64, Cont(n)]
    else if n < 0x1_0000 then [0xE0 + n / 64 / 64, Cont(n / 64), Cont(n)]
    else [0xF0 + n / 64 / 64 / 64, Cont(n / 64 / 64), Cont(n / 64), Cont(n)]
  }

  function Encode(s: string): seq<byte> {
    if s == [] then [] else EncodeChar(s[0]) + Encode(s[1..])
  }

  predicate Tail(b: byte) {
    0x80 <= b < 0xC0
  }

  /** `high` shifted left by six bits with the payload of a continuation byte below it. */
  function Shift(high: int, b: byte): int {
    high * 64 + (b - 0x80)
  }

  function Point2(b: seq<byte>): int
    requires |b| >= 2
  {
    Shift(b[0] as int - 0xC0, b[1])
  }

  function Point3(b: seq<byte>): int
    requires |b| >= 3
  {
    Shift(Shift(b[0] as int - 0xE0, b[1]), b[2])
  }

  function Point4(b: seq<byte>): int
    requires |b| >= 4
  {
    Shift(Shift(Shift(b[0] as int - 0xF0, b[1]), b[2]), b[3])
  }

  /** The scalar value at the front of `b` and how many bytes it takes: no
      overlong form, no surrogate, nothing above U+10FFFF. */
  function DecodeChar(b: seq<byte>): (r: Option<(char, nat)>)
    ensures r.Some? ==> 1 <= r.value.1 <= |b|
  {
    if b == [] then None
    else if b[0] < 0x80 then Some((b[0] as char, 1))
    else if 0xC2 <= b[0] < 0xE0 && |b| >= 2 && Tail(b[1]) then Some((Point2(b) as char, 2))
    else if 0xE0 <= b[0] < 0xF0 && |b| >= 3 && Tail(b[1]) && Tail(b[2]) then
      var n := Point3(b);
      if 0x800 <= n && !(0xD800 <= n < 0xE000) then Some((n as char, 3)) else None
    else if 0xF0 <= b[0] < 0xF5 && |b| >= 4 && Tail(b[1]) && Tail(b[2]) && Tail(b[3]) then
      var n := Point4(b);
      if 0x1_0000 <= n < 0x11_0000 then Some((n as char, 4)) else None
    else None
  }

  /** `String::from_utf8`. */
  function Decode(b: seq<byte>): Option<string>
    decreases |b|
  {
    if b == [] then Some("")
    else match DecodeChar(b)
      case None => None
      case Some((c, n)) =>
        match Decode(b[n..])
        case None => None
        case Some(rest) => Some([c] + rest)
  }

  lemma {:induction false} ShiftCont(n: nat)
    ensures Tail(Cont(n)) && Shift(n / 64, Cont(n)) == n
  {
  }

  lemma {:induction false} ContShift(high: nat, b: byte)
    requires Tail(b)
    ensures Shift(high, b) / 64 == high && Cont(Shift(high, b)) == b
  {
  }

  lemma {:induction false} CharThere(c: char, tail: seq<byte>)
    ensures DecodeChar(EncodeChar(c) + tail) == Some((c, |EncodeChar(c)|))
  {
    hide DecodeChar, EncodeChar;
    var n := c as int;
    if n < 0x80 {
      CharThere1(c, tail);
    } else if n < 0x800 {
      CharThere2(c, tail);
    } else if n < 0x1_0000 {
      CharThere3(c, tail);
    } else {
      CharThere4(c, tail);
    }
  }

  lemma {:induction false} CharThere1(c: char, tail: seq<byte>)
    requires c as int < 0x80
    ensures DecodeChar(EncodeChar(c) + tail) == Some((c, |EncodeChar(c)|))
  {
  }

  lemma {:induction false} CharThere2(c: char, tail: seq<byte>)
    requires 0x80 <= c as int < 0x800
    ensures DecodeChar(EncodeChar(c) + tail) == Some((c, |EncodeChar(c)|))
  {
    hide Cont, Shift, Tail;
    var n := c as int;
    var b := EncodeChar(c) + tail;
    ShiftCont(n);
    assert b[0] == 0xC0 + n / 64 && b[1] == Cont(n);
    assert Point2(b) == n;
  }

  lemma {:induction false} CharThere3(c: char, tail: seq<byte>)
    requires 0x800 <= c as int < 0x1_0000
    ensures DecodeChar(EncodeChar(c) + tail) == Some((c, |EncodeChar(c)|))
  {
    hide Cont, Shift, Tail;
    var n := c as int;
    var b := EncodeChar(c) + tail;
    ShiftCont(n);
    ShiftCont(n / 64);
    assert b[0] == 0xE0 + n / 64 / 64 && b[1] == Cont(n / 64) && b[2] == Cont(n);
    assert Point3(b) == n;
  }

  lemma {:induction false} CharThere4(c: char, tail: seq<byte>)
    requires 0x1_0000 <= c as int
    ensures DecodeChar(EncodeChar(c) + tail) == Some((c, |EncodeChar(c)|))
  {
    hide Cont, Shift, Tail;
    var n := c as int;
    var b := EncodeChar(c) + tail;
    ShiftCont(n);
    ShiftCont(n / 64);
    ShiftCont(n / 64 / 64);
    assert b[0] == 0xF0 + n / 64 / 64 / 64 && b[1] == Cont(n / 64 / 64) && b[2] == Cont(n / 64) && b[3] == Cont(n);
    assert Point4(b) == n;
  }

  lemma {:induction false} CharBack(b: seq<byte>)
    requires DecodeChar(b).Some?
    ensures var (c, n) := DecodeChar(b).value; EncodeChar(c) == b[..n]
  {
    var (c, n) := DecodeChar(b).value;
    if n == 2 {
      ContShift(b[0] as int - 0xC0, b[1]);
    } else if n == 3 {
      ContShift(b[0] as int - 0xE0, b[1]);
      ContShift(Shift(b[0] as int - 0xE0, b[1]), b[2]);
    } else if n == 4 {
      ContShift(b[0] as int - 0xF0, b[1]);
      ContShift(Shift(b[0] as int - 0xF0, b[1]), b[2]);
      ContShift(Shift(Shift(b[0] as int - 0xF0, b[1]), b[2]), b[3]);
    }
  }

  lemma {:induction false} DecodeEncode(s: string)
    ensures Decode(Encode(s)) == Some(s)
  {
    if s != [] {
      CharThere(s[0], Encode(s[1..]));
      DecodeEncode(s[1..]);
      var head, b := EncodeChar(s[0]), Encode(s);
      assert b == head + Encode(s[1..]) && DecodeChar(b) == Some((s[0], |head|));
      assert b[|head|..] == Encode(s[1..]);
      assert [s[0]] + s[1..] == s;
    }
  }

  /** The decoder accepts a byte string exactly when it is the encoding of what it returns. */
  lemma {:induction false} EncodeDecode(b: seq<byte>)
    ensures Decode(b).Some? ==> Encode(Decode(b).value) == b
    decreases |b|
  {
    hide DecodeChar, EncodeChar;
    if Decode(b).Some? && b != [] {
      var (c, n) := DecodeChar(b).value;
      CharBack(b);
      EncodeDecode(b[n..]);
      assert Decode(b).value[1..] == Decode(b[n..]).value;
      assert b == b[..n] + b[n..];
    }
  }
}
