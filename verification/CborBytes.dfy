/** What given bytes decode to, said of the bytes alone (RFC 8949 section 3, as far as
    src/cbor.rs supports it): every width of head, every kind of value, every error; and
    which integers the encoder refuses. */
module CborBytes {
  import opened ByteStrings
  import opened Wrappers
  import opened CborValue
  import opened CborParse
  import opened CborRoundTrip
  import Ieee
  import Utf8

  // --- heads --------------------------------------------------------------------------

  /** A head of major type `major` and argument `n`, `len` bytes long in whatever width,
      stands at `pos`. */
  ghost predicate HeadAt(buf: seq<byte>, pos: nat, major: nat, n: nat, len: nat)
    requires major < 8
  {
    || (len == 1 && n <= 23 && At(buf, pos, [major * 32 + n]))
    || (len == 2 && n < 0x100 && At(buf, pos, [major * 32 + 24] + ToBE(n, 1)))
    || (len == 3 && n < 0x1_0000 && At(buf, pos, [major * 32 + 25] + ToBE(n, 2)))
    || (len == 5 && n < 0x1_0000_0000 && At(buf, pos, [major * 32 + 26] + ToBE(n, 4)))
    || (len == 9 && n < 0x1_0000_0000_0000_0000 && At(buf, pos, [major * 32 + 27] + ToBE(n, 8)))
  }

  lemma {:induction false} WideHeadReads(buf: seq<byte>, pos: nat, major: nat, ai: nat, n: nat, w: nat)
    requires major < 8 && 24 <= ai <= 27 && w == ArgWidth(ai) && n < Pow256(w)
    requires At(buf, pos, [major * 32 + ai] + ToBE(n, w))
    ensures pos < |buf| && buf[pos] / 32 == major && buf[pos] % 32 == ai
    ensures pos + 1 + w <= |buf| && FromBE(buf[pos + 1..pos + 1 + w]) == n
    ensures DecodeCount(buf, pos + 1, ai) == Ok(Parsed(n, pos + 1 + w))
  {
    hide ToBE, FromBE, Pow256;
    AtSplit(buf, pos, [major * 32 + ai], ToBE(n, w));
    AtIndex(buf, pos, [major * 32 + ai], 0);
    FromToBE(n, w);
  }

  /** A head of any width gives its major type and its argument, and is as long as it is. */
  lemma {:induction false} HeadAtReads(buf: seq<byte>, pos: nat, major: nat, n: nat, len: nat)
    requires major < 8 && HeadAt(buf, pos, major, n, len)
    ensures pos < pos + len <= |buf| && buf[pos] / 32 == major
    ensures DecodeCount(buf, pos + 1, buf[pos] % 32) == Ok(Parsed(n, pos + len))
  {
    hide ToBE, FromBE;
    Widths();
    if len == 1 {
      AtIndex(buf, pos, [major * 32 + n], 0);
    } else {
      WideHeadReads(buf, pos, major,
                    if len == 2 then 24 else if len == 3 then 25 else if len == 5 then 26 else 27, n, len - 1);
    }
  }

  /** The head that is written is the shortest of them. */
  lemma {:induction false} WrittenHead(buf: seq<byte>, pos: nat, major: nat, n: u64)
    requires major < 8 && At(buf, pos, Head(major, n))
    ensures HeadAt(buf, pos, major, n,
                   if n <= 23 then 1
                   else if n < 0x100 then 2
                   else if n < 0x1_0000 then 3
                   else if n < 0x1_0000_0000 then 5
                   else 9)
  {
    assert n <= 23 ==> Head(major, n) == [major * 32 + n];
  }

  // --- scalars -------------------------------------------------------------------------

  lemma {:induction false} IntReads(buf: seq<byte>, pos: nat, levels: nat, major: nat, n: nat, len: nat)
    requires levels > 0 && major <= 1 && HeadAt(buf, pos, major, n, len)
    ensures Parse(buf, pos, levels) == Ok(Parsed(Int(if major == 0 then n else -1 - n), pos + len))
  {
    hide HeadAt, DecodeCount;
    HeadAtReads(buf, pos, major, n, len);
  }

  lemma {:induction false} BytesRead(buf: seq<byte>, pos: nat, levels: nat, n: nat, len: nat)
    requires levels > 0 && HeadAt(buf, pos, 2, n, len)
    ensures Parse(buf, pos, levels) ==
      if pos + len + n <= |buf| then Ok(Parsed(Bytes(buf[pos + len..pos + len + n]), pos + len + n))
      else Err(Truncated)
  {
    hide HeadAt, DecodeCount;
    HeadAtReads(buf, pos, 2, n, len);
  }

  /** A text string is the text whose UTF-8 bytes it holds, if it holds any text's. */
  lemma {:induction false} TextReads(buf: seq<byte>, pos: nat, levels: nat, n: nat, len: nat)
    requires levels > 0 && HeadAt(buf, pos, 3, n, len)
    ensures pos + len + n > |buf| ==> Parse(buf, pos, levels) == Err(Truncated)
    ensures forall s :: pos + len + n <= |buf| && Utf8.Encode(s) == buf[pos + len..pos + len + n] ==>
      Parse(buf, pos, levels) == Ok(Parsed(Text(s), pos + len + n))
    ensures pos + len + n <= |buf| && (forall s :: Utf8.Encode(s) != buf[pos + len..pos + len + n]) ==>
      Parse(buf, pos, levels) == Err(InvalidUtf8)
  {
    hide HeadAt, DecodeCount, Utf8.Encode, Utf8.Decode;
    HeadAtReads(buf, pos, 3, n, len);
    if pos + len + n <= |buf| {
      var b := buf[pos + len..pos + len + n];
      forall s | Utf8.Encode(s) == b ensures Utf8.Decode(b) == Some(s) { Utf8.DecodeEncode(s); }
      Utf8.EncodeDecode(b);
    }
  }

  lemma {:induction false} NullReads(buf: seq<byte>, pos: nat, levels: nat)
    requires levels > 0 && At(buf, pos, [0xF6])
    ensures Parse(buf, pos, levels) == Ok(Parsed(Null, pos + 1))
  {
    AtIndex(buf, pos, [0xF6], 0);
  }

  // --- floats ------------------------------------------------------------------------------

  /** The float has this sign, and this magnitude in units of 2^-1074. */
  ghost predicate IsFloat(r: Result<Parsed<Value>, DecodeError>, next: nat, sign: nat, magnitude: nat) {
    && r.Ok? && r.value.next == next && r.value.value.Float?
    && var bits := r.value.value.bits;
      && bits / 0x8000_0000_0000_0000 == sign
      && bits / 0x10_0000_0000_0000 % 0x800 != 0x7FF
      && Ieee.Magnitude(bits) == magnitude
  }

  lemma {:induction false} NarrowParses(buf: seq<byte>, pos: nat, levels: nat, ai: nat, n: nat)
    requires levels > 0 && (ai == 25 || ai == 26) && n < Pow256(ArgWidth(ai))
    requires At(buf, pos, [224 + ai] + ToBE(n, ArgWidth(ai)))
    ensures n < (if ai == 25 then 0x1_0000 else 0x1_0000_0000)
    ensures ai == 25 ==>
      (match Ieee.HalfToF64(n)
       case Some(bits) => Parse(buf, pos, levels) == Ok(Parsed(Float(bits), pos + 3))
       case None => Parse(buf, pos, levels) == Err(UnrepresentableFloat))
    ensures ai == 26 ==> Parse(buf, pos, levels) == Ok(Parsed(Float(Ieee.SingleToF64(n)), pos + 5))
  {
    hide ToBE, FromBE, Ieee.HalfToF64, Ieee.SingleToF64;
    Widths();
    WideHeadReads(buf, pos, 7, ai, n, ArgWidth(ai));
  }

  /** A binary16 is the binary64 of exactly its value; an infinity or a NaN is refused. */
  lemma {:induction false} HalfReads(buf: seq<byte>, pos: nat, levels: nat, half: nat)
    requires levels > 0 && half < 0x1_0000 && At(buf, pos, [0xF9] + ToBE(half, 2))
    ensures var exp := half / 0x400 % 32;
      if exp == 31 then Parse(buf, pos, levels) == Err(UnrepresentableFloat)
      else IsFloat(Parse(buf, pos, levels), pos + 3, half / 0x8000, Ieee.NarrowMagnitude(exp, half % 0x400, 10, 24))
  {
    hide ToBE, FromBE, Parse, Ieee.Magnitude, Ieee.NarrowMagnitude, Ieee.Subnormal, Ieee.Pack;
    Widths();
    NarrowParses(buf, pos, levels, 25, half);
    if half / 0x400 % 32 <= 30 { Ieee.HalfIsExact(half); }
  }

  /** A binary32 is the binary64 of exactly its value; an infinity stays one, a NaN stays
      one. */
  lemma {:induction false} SingleReads(buf: seq<byte>, pos: nat, levels: nat, single: nat)
    requires levels > 0 && single < 0x1_0000_0000 && At(buf, pos, [0xFA] + ToBE(single, 4))
    ensures var exp, frac := single / 0x80_0000 % 256, single % 0x80_0000;
      var r := Parse(buf, pos, levels);
      && (exp < 255 ==>
        IsFloat(r, pos + 5, single / 0x8000_0000, Ieee.NarrowMagnitude(exp, frac, 23, 149)))
      && (exp == 255 ==>
        && r.Ok? && r.value.next == pos + 5 && r.value.value.Float?
        && r.value.value.bits / 0x8000_0000_0000_0000 == single / 0x8000_0000
        && r.value.value.bits / 0x10_0000_0000_0000 % 0x800 == 0x7FF
        && (r.value.value.bits % 0x10_0000_0000_0000 == 0 <==> frac == 0))
  {
    hide ToBE, FromBE, Parse, Ieee.Magnitude, Ieee.NarrowMagnitude, Ieee.SingleToF64;
    Widths();
    NarrowParses(buf, pos, levels, 26, single);
    Ieee.SingleIsExact(single);
  }

  lemma {:induction false} DoubleReads(buf: seq<byte>, pos: nat, levels: nat, bits: u64)
    requires levels > 0 && At(buf, pos, [0xFB] + ToBE(bits, 8))
    ensures Parse(buf, pos, levels) == Ok(Parsed(Float(bits), pos + 9))
  {
    hide ToBE, FromBE;
    Widths();
    WideHeadReads(buf, pos, 7, 27, bits, 8);
  }

  // --- containers --------------------------------------------------------------------------------

  /** The values stand one after another, value `i` from `starts[i]` to `starts[i + 1]`. */
  ghost predicate Laid(buf: seq<byte>, levels: nat, starts: seq<nat>, values: seq<Value>) {
    && |starts| == |values| + 1
    && forall i :: 0 <= i < |values| ==> Parse(buf, starts[i], levels) == Ok(Parsed(values[i], starts[i + 1]))
  }

  lemma {:induction false} ItemsLaid(buf: seq<byte>, levels: nat, starts: seq<nat>, values: seq<Value>, n: nat)
    requires Laid(buf, levels, starts, values) && |values| <= n
    ensures |values| == n ==> ParseItems(buf, starts[0], n, levels) == Ok(Parsed(values, starts[n]))
    ensures |values| < n && Parse(buf, starts[|values|], levels).Err? ==>
      ParseItems(buf, starts[0], n, levels) == Err(Parse(buf, starts[|values|], levels).error)
    decreases |values|
  {
    hide Parse;
    if values != [] {
      assert Parse(buf, starts[0], levels) == Ok(Parsed(values[0], starts[1]));
      assert Laid(buf, levels, starts[1..], values[1..]);
      ItemsLaid(buf, levels, starts[1..], values[1..], n - 1);
      assert values == [values[0]] + values[1..];
    }
  }

  /** A list is its items, one after another after its head; if one of them does not parse,
      its error is the list's. */
  lemma {:induction false} ListReads(buf: seq<byte>, pos: nat, levels: nat, n: nat, len: nat, starts: seq<nat>,
                                     items: seq<Value>)
    requires levels > 0 && HeadAt(buf, pos, 4, n, len)
    requires Laid(buf, levels - 1, starts, items) && starts[0] == pos + len && |items| <= n
    ensures |items| == n ==> Parse(buf, pos, levels) == Ok(Parsed(List(items), starts[n]))
    ensures |items| < n && Parse(buf, starts[|items|], levels - 1).Err? ==>
      Parse(buf, pos, levels) == Err(Parse(buf, starts[|items|], levels - 1).error)
  {
    hide HeadAt, DecodeCount, ParseItems, Laid;
    HeadAtReads(buf, pos, 4, n, len);
    ItemsLaid(buf, levels - 1, starts, items, n);
  }

  /** Keys and values in turn. */
  ghost function InTurn(es: seq<Entry>): seq<Value> {
    if es == [] then [] else [es[0].key, es[0].val] + InTurn(es[1..])
  }

  lemma {:induction false} EntriesLaid(buf: seq<byte>, levels: nat, starts: seq<nat>, es: seq<Entry>, rest: seq<Value>,
                                       n: nat)
    requires |rest| <= 1 && Laid(buf, levels, starts, InTurn(es) + rest) && |es| <= n
    ensures |es| == n && rest == [] ==> ParseEntries(buf, starts[0], n, levels) == Ok(Parsed(es, starts[|starts| - 1]))
    ensures |es| < n && Parse(buf, starts[|starts| - 1], levels).Err? ==>
      ParseEntries(buf, starts[0], n, levels) == Err(Parse(buf, starts[|starts| - 1], levels).error)
    decreases |es|
  {
    hide Parse;
    var values := InTurn(es) + rest;
    if es != [] {
      assert values[0] == es[0].key && values[1] == es[0].val;
      assert Parse(buf, starts[0], levels) == Ok(Parsed(values[0], starts[1]));
      assert Parse(buf, starts[1], levels) == Ok(Parsed(values[1], starts[2]));
      assert values[2..] == InTurn(es[1..]) + rest;
      assert Laid(buf, levels, starts[2..], values[2..]);
      EntriesLaid(buf, levels, starts[2..], es[1..], rest, n - 1);
      assert es == [es[0]] + es[1..];
    } else if rest != [] {
      assert values[0] == rest[0];
      assert Parse(buf, starts[0], levels) == Ok(Parsed(values[0], starts[1]));
    }
  }

  /** A map is its keys and values in turn, repeated keys resolved; if one of them does not
      parse, its error is the map's. */
  lemma {:induction false} MapReads(buf: seq<byte>, pos: nat, levels: nat, n: nat, len: nat, starts: seq<nat>,
                                    es: seq<Entry>, rest: seq<Value>)
    requires levels > 0 && HeadAt(buf, pos, 5, n, len) && |rest| <= 1 && |es| <= n
    requires Laid(buf, levels - 1, starts, InTurn(es) + rest) && starts[0] == pos + len
    ensures |es| == n && rest == [] ==> Parse(buf, pos, levels) == Ok(Parsed(Map(Resolve(es)), starts[|starts| - 1]))
    ensures |es| < n && Parse(buf, starts[|starts| - 1], levels - 1).Err? ==>
      Parse(buf, pos, levels) == Err(Parse(buf, starts[|starts| - 1], levels - 1).error)
  {
    hide HeadAt, DecodeCount, ParseEntries, Laid, Resolve, InTurn;
    HeadAtReads(buf, pos, 5, n, len);
    EntriesLaid(buf, levels - 1, starts, es, rest, n);
  }

  // --- what is refused ----------------------------------------------------------------------------

  /** Nothing, or a value nested too deep. */
  lemma {:induction false} NothingReads(buf: seq<byte>, pos: nat, levels: nat)
    ensures levels == 0 ==> Parse(buf, pos, levels) == Err(NestingTooDeep)
    ensures levels > 0 && pos >= |buf| ==> Parse(buf, pos, levels) == Err(Truncated)
  {
  }

  /** Tags; indefinite lengths and reserved widths; simple values other than null; heads
      cut short. */
  lemma {:induction false} HeadRefused(buf: seq<byte>, pos: nat, levels: nat)
    requires levels > 0 && pos < |buf|
    ensures var major, ai := buf[pos] / 32, buf[pos] % 32;
      var r := Parse(buf, pos, levels);
      && (major < 7 && ai >= 28 ==> r == Err(UnsupportedAdditionalInfoEncoding(ai)))
      && (major == 7 && ai !in {22, 25, 26, 27} ==> r == Err(UnsupportedAdditionalInfo(ai)))
      && (ai == 24 && major < 7 && pos + 2 > |buf| ==> r == Err(Truncated))
      && (ai == 25 && pos + 3 > |buf| ==> r == Err(Truncated))
      && (ai == 26 && pos + 5 > |buf| ==> r == Err(Truncated))
      && (ai == 27 && pos + 9 > |buf| ==> r == Err(Truncated))
  {
  }

  lemma {:induction false} TagRefused(buf: seq<byte>, pos: nat, levels: nat, n: nat, len: nat)
    requires levels > 0 && HeadAt(buf, pos, 6, n, len)
    ensures Parse(buf, pos, levels) == Err(UnsupportedMajorType(6))
  {
    hide HeadAt, DecodeCount;
    HeadAtReads(buf, pos, 6, n, len);
  }

  /** A buffer is decoded as its first value, nested at most 128 deep, with nothing after
      it. */
  lemma {:induction false} WholeBuffer(buf: seq<byte>)
    ensures Decode(buf) == match Parse(buf, 0, 129)
      case Err(e) => Err(e)
      case Ok(p) => if p.next == |buf| then Ok(p.value) else Err(TrailingBytes)
  {
  }

  /** An encoding with anything after it is refused for what is after it. */
  lemma {:induction false} TrailingRefused(v: Value, tail: seq<byte>)
    requires Proper(v) && Height(v) <= 128 && tail != []
    ensures Decode(Enc(v)) == Ok(Norm(v)) && Decode(Enc(v) + tail) == Err(TrailingBytes)
  {
    hide Enc, Parse, Norm, Height, Encodable, DistinctKeys;
    DecodeEnc(v);
    ParseEncWithTail(v, tail, 129);
  }

  // --- integers the encoder refuses --------------------------------------------------------------

  /** Every integer of a value, in the order the encoder meets them. */
  ghost function Integers(v: Value): seq<int>
    decreases v, 0
  {
    match v
    case Int(n) => [n]
    case List(items) => IntegersOf(items)
    case Map(es) => IntegersIn(es)
    case _ => []
  }

  ghost function IntegersOf(items: seq<Value>): seq<int>
    decreases items, 1
  {
    if items == [] then [] else Integers(items[0]) + IntegersOf(items[1..])
  }

  ghost function IntegersOfEntry(e: Entry): seq<int>
    decreases e, 2
  {
    Integers(e.key) + Integers(e.val)
  }

  ghost function IntegersIn(es: seq<Entry>): seq<int>
    decreases es, 3
  {
    if es == [] then [] else IntegersOfEntry(es[0]) + IntegersIn(es[1..])
  }

  /** The first of them that a head cannot carry. */
  ghost predicate FirstOutside(ns: seq<int>, bad: Option<int>) {
    match bad
    case None => forall i :: 0 <= i < |ns| ==> -0x1_0000_0000_0000_0000 <= ns[i] < 0x1_0000_0000_0000_0000
    case Some(n) =>
      && !(-0x1_0000_0000_0000_0000 <= n < 0x1_0000_0000_0000_0000)
      && exists k :: 0 <= k < |ns| && ns[k] == n
           && forall i :: 0 <= i < k ==> -0x1_0000_0000_0000_0000 <= ns[i] < 0x1_0000_0000_0000_0000
  }

  lemma {:induction false} OutsideOf(a: seq<int>, b: seq<int>, first: Option<int>, second: Option<int>)
    requires FirstOutside(a, first) && FirstOutside(b, second)
    ensures FirstOutside(a + b, if first.Some? then first else second)
  {
    if first.Some? {
      var k :| 0 <= k < |a| && a[k] == first.value
        && forall i :: 0 <= i < k ==> -0x1_0000_0000_0000_0000 <= a[i] < 0x1_0000_0000_0000_0000;
      assert (a + b)[k] == first.value;
    } else if second.Some? {
      var k :| 0 <= k < |b| && b[k] == second.value
        && forall i :: 0 <= i < k ==> -0x1_0000_0000_0000_0000 <= b[i] < 0x1_0000_0000_0000_0000;
      assert (a + b)[|a| + k] == second.value;
    }
  }

  /** The encoder refuses a value exactly for its first integer below -2^64 or from 2^64. */
  lemma {:induction false} FirstBadMeaning(v: Value)
    ensures FirstOutside(Integers(v), FirstBad(v))
    decreases v, 0
  {
    match v
    case Int(n) => assert [n][0] == n;
    case List(items) => FirstBadItemMeaning(items);
    case Map(es) => FirstBadEntryMeaning(es);
    case _ =>
  }

  lemma {:induction false} FirstBadItemMeaning(items: seq<Value>)
    ensures FirstOutside(IntegersOf(items), FirstBadItem(items))
    decreases items, 1
  {
    hide FirstOutside;
    if items == [] {
      NoneOutside();
    } else {
      FirstBadMeaning(items[0]);
      FirstBadItemMeaning(items[1..]);
      OutsideOf(Integers(items[0]), IntegersOf(items[1..]), FirstBad(items[0]), FirstBadItem(items[1..]));
    }
  }

  lemma {:induction false} NoneOutside()
    ensures FirstOutside([], None)
  {
  }

  lemma {:induction false} FirstBadOfEntryMeaning(e: Entry)
    ensures FirstOutside(IntegersOfEntry(e), FirstBadOfEntry(e))
    decreases e, 2
  {
    hide FirstOutside;
    FirstBadMeaning(e.key);
    FirstBadMeaning(e.val);
    OutsideOf(Integers(e.key), Integers(e.val), FirstBad(e.key), FirstBad(e.val));
  }

  lemma {:induction false} FirstBadEntryMeaning(es: seq<Entry>)
    ensures FirstOutside(IntegersIn(es), FirstBadEntry(es))
    decreases es, 3
  {
    hide FirstOutside;
    if es == [] {
      NoneOutside();
    } else {
      FirstBadOfEntryMeaning(es[0]);
      FirstBadEntryMeaning(es[1..]);
      OutsideOf(IntegersOfEntry(es[0]), IntegersIn(es[1..]), FirstBadOfEntry(es[0]), FirstBadEntry(es[1..]));
    }
  }
}
