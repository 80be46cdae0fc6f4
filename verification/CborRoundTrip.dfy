/** The canonical bytes of a value, with anything after them, parse to its normal
    form; what follows for the encoding and for re-encoding a decoded buffer. */
module CborRoundTrip {
  import opened ByteStrings
  import opened ByteOrder
  import opened Wrappers
  import opened CborValue
  import opened CborParse
  import opened CborSound
  import Utf8

  /** What parsing the encoding of `v` at `pos` gives. */
  ghost function Expected(v: Value, pos: nat, levels: nat): Result<Parsed<Value>, DecodeError> {
    if Height(v) < levels then Ok(Parsed(Norm(v), pos + |Enc(v)|)) else Err(NestingTooDeep)
  }

  /** Round trip at any position, with any bytes around, at any depth. */
  lemma {:induction false} ParseEnc(v: Value, buf: seq<byte>, pos: nat, levels: nat)
    requires Proper(v) && At(buf, pos, Enc(v))
    ensures Parse(buf, pos, levels) == Expected(v, pos, levels)
    decreases v, 0
  {
    if levels > 0 {
      match v
      case List(items) => ParseEncList(items, buf, pos, levels);
      case Map(es) => ParseEncMap(es, buf, pos, levels);
      case Bytes(b) => ParseEncBytes(b, buf, pos, levels);
      case Text(s) => ParseEncText(s, buf, pos, levels);
      case _ => ParseEncScalar(v, buf, pos, levels);
    }
  }

  lemma {:induction false} ParseEncScalar(v: Value, buf: seq<byte>, pos: nat, levels: nat)
    requires Proper(v) && At(buf, pos, Enc(v)) && levels > 0 && (v.Int? || v.Null? || v.Float?)
    ensures Parse(buf, pos, levels) == Expected(v, pos, levels)
  {
    match v
    case Int(n) =>
      ParseEncInt(n, buf, pos, levels);
    case Null =>
      AtIndex(buf, pos, [0xF6], 0);
    case Float(bits) =>
      hide Utf8.Decode, ParseItems, ParseEntries, Resolve, Head, DecodeCount, ToBE, FromBE;
      ParseFloat(bits, buf, pos);
  }

  lemma {:induction false} ParseEncInt(n: int, buf: seq<byte>, pos: nat, levels: nat)
    requires IntFits(n) && At(buf, pos, EncInt(n)) && levels > 0
    ensures Parse(buf, pos, levels) == Ok(Parsed(Int(n), pos + |EncInt(n)|))
  {
    hide Utf8.Decode, ParseItems, ParseEntries, Resolve, Head, DecodeCount, DecodeMajor7;
    HeadReads(if n >= 0 then 0 else 1, if n >= 0 then n else -1 - n, buf, pos);
  }

  lemma {:induction false} ParseFloat(bits: u64, buf: seq<byte>, pos: nat)
    requires At(buf, pos, [0xFB] + ToBE(bits, 8))
    ensures pos + 9 <= |buf| && buf[pos] == 0xFB && FromBE(buf[pos + 1..pos + 9]) == bits
  {
    AtSplit(buf, pos, [0xFB], ToBE(bits, 8));
    AtIndex(buf, pos, [0xFB], 0);
    Widths();
    FromToBE(bits, 8);
  }

  /** A byte or text string is found again after its head. */
  lemma {:induction false} ParseString(major: nat, b: seq<byte>, buf: seq<byte>, pos: nat)
    requires major < 8 && |b| < TWO64 && At(buf, pos, Head(major, |b|) + b)
    ensures At(buf, pos + |Head(major, |b|)|, b)
    ensures pos < |buf| && buf[pos] / 32 == major
    ensures DecodeCount(buf, pos + 1, buf[pos] % 32) == Ok(Parsed(|b|, pos + |Head(major, |b|)|))
  {
    AtSplit(buf, pos, Head(major, |b|), b);
    HeadReads(major, |b|, buf, pos);
  }

  lemma {:induction false} ParseEncBytes(b: seq<byte>, buf: seq<byte>, pos: nat, levels: nat)
    requires |b| < TWO64 && At(buf, pos, Enc(Bytes(b))) && levels > 0
    ensures Parse(buf, pos, levels) == Expected(Bytes(b), pos, levels)
  {
    hide Utf8.Decode, ParseItems, ParseEntries, Resolve, Head, DecodeCount, DecodeMajor7;
    ParseString(2, b, buf, pos);
  }

  lemma {:induction false} ParseEncText(s: string, buf: seq<byte>, pos: nat, levels: nat)
    requires |Utf8.Encode(s)| < TWO64 && At(buf, pos, Enc(Text(s))) && levels > 0
    ensures Parse(buf, pos, levels) == Expected(Text(s), pos, levels)
  {
    hide Utf8.Decode, Utf8.Encode, ParseItems, ParseEntries, Resolve, Head, DecodeCount, DecodeMajor7;
    ParseString(3, Utf8.Encode(s), buf, pos);
    Utf8.DecodeEncode(s);
  }

  /** A list head followed by `n` items. */
  lemma {:induction false} ParseListHead(n: u64, buf: seq<byte>, pos: nat, levels: nat)
    requires At(buf, pos, Head(4, n)) && levels > 0
    ensures Parse(buf, pos, levels) ==
      match ParseItems(buf, pos + |Head(4, n)|, n, levels - 1)
      case Ok(p) => Ok(Parsed(List(p.value), p.next))
      case Err(e) => Err(e)
  {
    hide ParseItems, Head, DecodeCount, DecodeMajor7;
    HeadReads(4, n, buf, pos);
  }

  lemma {:induction false} ProperItems(items: seq<Value>)
    requires Proper(List(items))
    ensures |items| < TWO64 && forall i :: 0 <= i < |items| ==> Proper(items[i])
  {
    hide Enc;
  }

  lemma {:induction false} ParseEncList(items: seq<Value>, buf: seq<byte>, pos: nat, levels: nat)
    requires Proper(List(items)) && At(buf, pos, Enc(List(items))) && levels > 0
    ensures Parse(buf, pos, levels) == Expected(List(items), pos, levels)
    decreases items, 2
  {
    hide Parse, ParseItems, Enc, Norm, Height, HeightItems, EncItems, NormItems, Head, Proper;
    ProperItems(items);
    ListParts(items);
    var h := Head(4, |items|);
    AtSplit(buf, pos, h, EncItems(items));
    ParseListHead(|items|, buf, pos, levels);
    ParseEncItems(items, buf, pos + |h|, levels - 1);
  }

  lemma {:induction false} ListParts(items: seq<Value>)
    requires |items| < TWO64
    ensures Enc(List(items)) == Head(4, |items|) + EncItems(items)
    ensures Norm(List(items)) == List(NormItems(items))
    ensures Height(List(items)) == HeightItems(items)
  {
    hide HeightItems, EncItems, NormItems, Head;
  }

  lemma {:induction false} ParseEncItems(items: seq<Value>, buf: seq<byte>, pos: nat, levels: nat)
    requires forall i :: 0 <= i < |items| ==> Proper(items[i])
    requires At(buf, pos, EncItems(items))
    ensures ParseItems(buf, pos, |items|, levels) ==
      if HeightItems(items) <= levels then Ok(Parsed(NormItems(items), pos + |EncItems(items)|))
        else Err(NestingTooDeep)
    decreases items, 1
  {
    hide Enc, Norm, Parse, Height, Encodable, DistinctKeys;
    if items != [] {
      var b := Enc(items[0]);
      AtSplit(buf, pos, b, EncItems(items[1..]));
      ParseEnc(items[0], buf, pos, levels);
      ParseEncItems(items[1..], buf, pos + |b|, levels);
    }
  }

  ghost predicate ProperEntry(e: Entry) {
    Proper(e.key) && Proper(e.val)
  }

  lemma {:induction false} ParseEncEntry(e: Entry, buf: seq<byte>, pos: nat, levels: nat)
    requires ProperEntry(e) && At(buf, pos, Enc(e.key) + Enc(e.val))
    ensures ParseEntry(buf, pos, levels) ==
      if HeightEntry(e) < levels
      then Ok(Parsed(NormEntry(e), pos + |Enc(e.key)| + |Enc(e.val)|))
      else Err(NestingTooDeep)
    decreases e, 1
  {
    hide Enc, Norm, Parse, Height;
    var k, v := Enc(e.key), Enc(e.val);
    AtSplit(buf, pos, k, v);
    ParseEnc(e.key, buf, pos, levels);
    ParseEnc(e.val, buf, pos + |k|, levels);
  }

  ghost predicate Below(order: seq<nat>, n: nat) {
    forall a :: 0 <= a < |order| ==> order[a] < n
  }

  /** Height of the entries at the indices of `order`, as children of one map. */
  ghost function HeightPicked(es: seq<Entry>, order: seq<nat>): nat
    requires Below(order, |es|)
  {
    if order == [] then 0 else Max(1 + HeightEntry(es[order[0]]), HeightPicked(es, order[1..]))
  }

  lemma {:induction false} PickCons<T>(s: seq<T>, order: seq<nat>)
    requires Below(order, |s|) && order != []
    ensures Pick(s, order) == [s[order[0]]] + Pick(s, order[1..])
  {
  }

  lemma {:induction false} ParseEncEntries(es: seq<Entry>, order: seq<nat>, buf: seq<byte>, pos: nat, levels: nat)
    requires (forall i :: 0 <= i < |es| ==> ProperEntry(es[i])) && Below(order, |es|)
    requires At(buf, pos, Join(Pick(EncEntries(es), order)))
    ensures ParseEntries(buf, pos, |order|, levels) ==
      if HeightPicked(es, order) <= levels
      then Ok(Parsed(Pick(NormEntries(es), order), pos + |Join(Pick(EncEntries(es), order))|))
      else Err(NestingTooDeep)
    decreases es, |order|
  {
    hide Enc, Norm, ParseEntry, HeightEntry, NormEntry, ProperEntry;
    if order != [] {
      var e, tail := es[order[0]], order[1..];
      PickCons(EncEntries(es), order);
      PickCons(NormEntries(es), order);
      var rest := Join(Pick(EncEntries(es), tail));
      assert Join(Pick(EncEntries(es), order)) == Enc(e.key) + Enc(e.val) + rest;
      AtSplit(buf, pos, Enc(e.key) + Enc(e.val), rest);
      ParseEncEntry(e, buf, pos, levels);
      ParseEncEntries(es, tail, buf, pos + |Enc(e.key) + Enc(e.val)|, levels);
    }
  }

  lemma {:induction false} HeightPickedAtMost(es: seq<Entry>, order: seq<nat>, h: nat)
    requires Below(order, |es|)
    ensures HeightPicked(es, order) <= h <==> forall a :: 0 <= a < |order| ==> HeightEntry(es[order[a]]) < h
  {
    if order != [] {
      HeightPickedAtMost(es, order[1..], h);
      assert order == [order[0]] + order[1..];
    }
  }

  lemma {:induction false} SameHeightInAnyOrder(es: seq<Entry>, h: nat)
    ensures HeightPicked(es, SortOrder(EntryKeys(es))) <= h <==> HeightEntries(es) <= h
  {
    var order := SortOrder(EntryKeys(es));
    HeightEntriesAtMost(es, h);
    HeightPickedAtMost(es, order, h);
    if HeightPicked(es, order) <= h {
      forall i | 0 <= i < |es| ensures HeightEntry(es[i]) < h {
        assert i in order;
        var a :| 0 <= a < |order| && order[a] == i;
      }
    }
  }

  /** A map's normal form keeps one entry per key, so resolving leaves it alone. */
  lemma {:induction false} NormResolved(es: seq<Entry>)
    requires DistinctKeys(Map(es))
    ensures Resolve(Norm(Map(es)).entries) == Norm(Map(es)).entries
  {
    forall i | 0 <= i < |es| ensures EncEntry(NormEntries(es)[i]) == EncEntry(es[i]) {
      EncNorm(es[i].key);
      EncNorm(es[i].val);
    }
    NormMapSorts(es);
    ResolveIdentity(Norm(Map(es)).entries);
  }

  lemma {:induction false} ProperEntries(es: seq<Entry>)
    requires Proper(Map(es))
    ensures |es| < TWO64 && forall i :: 0 <= i < |es| ==> ProperEntry(es[i])
  {
    hide Enc;
    forall i | 0 <= i < |es| ensures ProperEntry(es[i]) {
      assert Proper(es[i].key) && Proper(es[i].val);
    }
  }

  /** A map head followed by `n` entries. */
  lemma {:induction false} ParseMapHead(n: u64, buf: seq<byte>, pos: nat, levels: nat)
    requires At(buf, pos, Head(5, n)) && levels > 0
    ensures Parse(buf, pos, levels) ==
      match ParseEntries(buf, pos + |Head(5, n)|, n, levels - 1)
      case Ok(p) => Ok(Parsed(Map(Resolve(p.value)), p.next))
      case Err(e) => Err(e)
  {
    hide ParseEntries, Head, DecodeCount, DecodeMajor7, Resolve;
    HeadReads(5, n, buf, pos);
  }

  lemma {:induction false} ParseArrangedMap(es: seq<Entry>, order: seq<nat>, buf: seq<byte>, pos: nat, levels: nat)
    requires |order| == |es| < TWO64 && Below(order, |es|) && levels > 0
    requires forall i :: 0 <= i < |es| ==> ProperEntry(es[i])
    requires At(buf, pos, Head(5, |es|) + Join(Pick(EncEntries(es), order)))
    ensures Parse(buf, pos, levels) ==
      if HeightPicked(es, order) < levels
      then Ok(Parsed(Map(Resolve(Pick(NormEntries(es), order))),
                     pos + |Head(5, |es|) + Join(Pick(EncEntries(es), order))|))
      else Err(NestingTooDeep)
    decreases es, |es| + 1
  {
    hide Parse, ParseEntries, Head, Join, EncEntries, NormEntries, Resolve, HeightPicked, ProperEntry;
    var h, body := Head(5, |es|), Join(Pick(EncEntries(es), order));
    AtSplit(buf, pos, h, body);
    ParseMapHead(|es|, buf, pos, levels);
    ParseEncEntries(es, order, buf, pos + |h|, levels - 1);
  }

  /** The canonical bytes, height and normal form of a map, entry by entry. */
  lemma {:induction false} MapInOrder(es: seq<Entry>, levels: nat)
    requires |es| < TWO64
    ensures var order := SortOrder(EntryKeys(es));
      && Enc(Map(es)) == Head(5, |es|) + Join(Pick(EncEntries(es), order))
      && Norm(Map(es)) == Map(Pick(NormEntries(es), order))
      && Below(order, |es|)
      && |order| == |es|
      && (levels > 0 ==> (HeightPicked(es, order) < levels <==> Height(Map(es)) < levels))
  {
    hide Head, Join, EncEntries, NormEntries, HeightPicked, HeightEntries, SortOrder;
    if levels > 0 { SameHeightInAnyOrder(es, levels - 1); }
  }

  lemma {:induction false} ParseEncMap(es: seq<Entry>, buf: seq<byte>, pos: nat, levels: nat)
    requires Proper(Map(es)) && At(buf, pos, Enc(Map(es))) && levels > 0
    ensures Parse(buf, pos, levels) == Expected(Map(es), pos, levels)
    decreases es, |es| + 2
  {
    hide Enc, Norm, Height, Parse, SortOrder, EncEntries, NormEntries, Resolve, EntryKeys, ProperEntry, Head, Join,
      Encodable, DistinctKeys, HeightPicked;
    ProperEntries(es);
    NormResolved(es);
    MapInOrder(es, levels);
    ParseArrangedMap(es, SortOrder(EntryKeys(es)), buf, pos, levels);
  }

  // --- consequences ---------------------------------------------------------------

  /** Decoding an encoding: the normal form, or exactly `NestingTooDeep`. */
  lemma {:induction false} DecodeEnc(v: Value)
    requires Proper(v)
    ensures Decode(Enc(v)) == if Height(v) <= MAX_NESTING_DEPTH then Ok(Norm(v)) else Err(NestingTooDeep)
  {
    assert Enc(v)[0..|Enc(v)|] == Enc(v);
    ParseEnc(v, Enc(v), 0, MAX_NESTING_DEPTH + 1);
  }

  /** With bytes after it, an encoding is still the first value, and the rest is trailing. */
  lemma {:induction false} ParseEncWithTail(v: Value, tail: seq<byte>, levels: nat)
    requires Proper(v)
    ensures Parse(Enc(v) + tail, 0, levels) == Expected(v, 0, levels)
  {
    assert (Enc(v) + tail)[0..|Enc(v)|] == Enc(v);
    ParseEnc(v, Enc(v) + tail, 0, levels);
  }

  /** No encoding is a proper prefix of another; equal bytes mean equal normal forms. */
  lemma {:induction false} PrefixFree(v: Value, w: Value, tail: seq<byte>)
    requires Proper(v) && Proper(w) && Enc(w) == Enc(v) + tail
    ensures tail == [] && Norm(v) == Norm(w)
  {
    var levels := Max(Height(v), Height(w)) + 1;
    ParseEncWithTail(v, tail, levels);
    assert Enc(w) + [] == Enc(w);
    ParseEncWithTail(w, [], levels);
  }

  /** Two values encode alike exactly when they have the same normal form. */
  lemma {:induction false} SameBytesSameNorm(v: Value, w: Value)
    requires Proper(v) && Proper(w)
    ensures Enc(v) == Enc(w) <==> Norm(v) == Norm(w)
  {
    if Enc(v) == Enc(w) {
      assert Enc(w) == Enc(v) + [];
      PrefixFree(v, w, []);
    } else {
      EncNorm(v);
      EncNorm(w);
    }
  }

  /** The normal form is a value of the same kind: proper, no deeper, and its own normal form. */
  lemma {:induction false} NormProper(v: Value)
    requires Proper(v)
    ensures Proper(Norm(v)) && Height(Norm(v)) <= Height(v) && Norm(Norm(v)) == Norm(v)
  {
    var levels := Height(v) + 1;
    ParseEncWithTail(v, [], levels);
    ParseGood(Enc(v) + [], 0, levels);
    EncNorm(v);
    SameBytesSameNorm(v, Norm(v));
  }

  /** Whatever the decoder returns, the encoder accepts; decoding that again gives the
      same value in normal form, and one more round changes nothing. */
  lemma {:induction false} ReencodeDecoded(b: seq<byte>)
    requires Decode(b).Ok?
    ensures var v := Decode(b).value;
      && Proper(v)
      && Height(v) <= MAX_NESTING_DEPTH
      && Decode(Enc(v)) == Ok(Norm(v))
      && Enc(Norm(v)) == Enc(v)
      && |Enc(v)| <= 3 * |b|
  {
    var v := Decode(b).value;
    ParseGood(b, 0, MAX_NESTING_DEPTH + 1);
    DecodeEnc(v);
    EncNorm(v);
  }

  lemma {:induction false} ProperFirstBad(v: Value)
    requires Encodable(v)
    ensures FirstBad(v) == None
    decreases v
  {
    match v
    case List(items) =>
      forall i | 0 <= i < |items| ensures FirstBad(items[i]) == None { ProperFirstBad(items[i]); }
      NoBadItem(items);
    case Map(es) =>
      forall i | 0 <= i < |es| ensures FirstBadOfEntry(es[i]) == None {
        ProperFirstBad(es[i].key);
        ProperFirstBad(es[i].val);
      }
      NoBadEntry(es);
    case _ =>
  }

  lemma {:induction false} NoBadItem(items: seq<Value>)
    requires forall i :: 0 <= i < |items| ==> FirstBad(items[i]) == None
    ensures FirstBadItem(items) == None
  {
    if items != [] { NoBadItem(items[1..]); }
  }

  lemma {:induction false} NoBadEntry(es: seq<Entry>)
    requires forall i :: 0 <= i < |es| ==> FirstBadOfEntry(es[i]) == None
    ensures FirstBadEntry(es) == None
  {
    if es != [] { NoBadEntry(es[1..]); }
  }
}
