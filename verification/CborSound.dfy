/** What a successful parse guarantees: progress, a value the encoder accepts, the
    nesting limit, and a canonical form at most three times the bytes read. */
module CborSound {
  import opened ByteStrings
  import opened ByteOrder
  import opened Wrappers
  import opened CborValue
  import opened LastWrite
  import opened CborParse
  import Utf8

  // --- heads --------------------------------------------------------------------

  /** Every head the encoder writes is read back whole. */
  lemma {:induction false} HeadReads(major: nat, n: u64, buf: seq<byte>, pos: nat)
    requires major < 8 && At(buf, pos, Head(major, n))
    ensures pos < |buf| && buf[pos] / 32 == major
    ensures DecodeCount(buf, pos + 1, buf[pos] % 32) == Ok(Parsed(n, pos + |Head(major, n)|))
  {
    var first, rest := [major * 32 + AdditionalInfo(n)], ToBE(n, ExtraBytes(n));
    AtSplit(buf, pos, first, rest);
    AtIndex(buf, pos, first, 0);
    Widths();
    if n > 23 { FromToBE(n, ExtraBytes(n)); }
  }

  /** No head that reads as `n` is shorter than the one the encoder writes. */
  lemma {:induction false} HeadShortest(buf: seq<byte>, pos: nat, ai: nat, m: nat)
    requires DecodeCount(buf, pos, ai).Ok? && m <= DecodeCount(buf, pos, ai).value.value
    ensures var p := DecodeCount(buf, pos, ai).value;
      && m <= p.value < TWO64
      && pos <= p.next
      && ExtraBytes(m) <= p.next - pos
      && (p.next > pos ==> p.next <= |buf|)
  {
    Widths();
  }

  // --- sizes --------------------------------------------------------------------

  lemma {:induction false} JoinSnoc(kvs: seq<KV>, kv: KV)
    ensures Join(kvs + [kv]) == Join(kvs) + kv.key + kv.val
  {
    if kvs != [] {
      JoinSnoc(kvs[1..], kv);
      assert (kvs + [kv])[1..] == kvs[1..] + [kv];
    }
  }

  lemma {:induction false} InsertLength(kvs: seq<KV>, p: seq<nat>, i: nat)
    requires i < |kvs| && forall a :: 0 <= a < |p| ==> p[a] < |kvs|
    ensures |Join(Pick(kvs, Insert(p, Keys(kvs), i)))| == |Join(Pick(kvs, p))| + |kvs[i].key| + |kvs[i].val|
  {
    var r := Insert(p, Keys(kvs), i);
    if p != [] {
      var init, last := p[..|p| - 1], p[|p| - 1];
      assert Pick(kvs, p) == Pick(kvs, init) + [kvs[last]];
      JoinSnoc(Pick(kvs, init), kvs[last]);
      if Less(kvs[i].key, kvs[last].key) {
        InsertLength(kvs, init, i);
        var q := Insert(init, Keys(kvs), i);
        assert Pick(kvs, r) == Pick(kvs, q) + [kvs[last]];
        JoinSnoc(Pick(kvs, q), kvs[last]);
      } else {
        assert Pick(kvs, r) == Pick(kvs, p) + [kvs[i]];
        JoinSnoc(Pick(kvs, p), kvs[i]);
      }
    } else {
      assert Pick(kvs, r) == [] + [kvs[i]];
      JoinSnoc([], kvs[i]);
    }
  }

  lemma {:induction false} OrderLength(kvs: seq<KV>, n: nat)
    requires n <= |kvs|
    ensures |Join(Pick(kvs, OrderOfFirst(Keys(kvs), n)))| == |Join(kvs[..n])|
  {
    if n > 0 {
      OrderLength(kvs, n - 1);
      InsertLength(kvs, OrderOfFirst(Keys(kvs), n - 1), n - 1);
      assert kvs[..n] == kvs[..n - 1] + [kvs[n - 1]];
      JoinSnoc(kvs[..n - 1], kvs[n - 1]);
    }
  }

  /** Sorting moves bytes about; it makes none. */
  lemma {:induction false} SortedLength(kvs: seq<KV>)
    ensures |Join(Sorted(kvs))| == |Join(kvs)|
  {
    OrderLength(kvs, |kvs|);
    assert kvs[..|kvs|] == kvs;
  }

  ghost function EncLength(v: Value): nat {
    |Enc(v)|
  }

  lemma {:induction false} JoinWeight(es: seq<Entry>)
    ensures |Join(EncEntries(es))| == Weight(Rows(es), EncLength)
  {
    if es != [] {
      JoinWeight(es[1..]);
      assert Rows(es)[1..] == Rows(es[1..]);
    }
  }

  /** Resolving repeated keys never lengthens the canonical form. */
  lemma {:induction false} ResolveLength(raw: seq<Entry>)
    ensures |Join(Sorted(EncEntries(Resolve(raw))))| <= |Join(EncEntries(raw))|
  {
    SortedLength(EncEntries(Resolve(raw)));
    JoinWeight(raw);
    JoinWeight(Resolve(raw));
    ResolveDistinct(raw);
    FoldWeight(Rows(raw), EncLength);
  }

  // --- a successful parse ----------------------------------------------------------

  /** Everything a parse of `v` from `pos` to `next` guarantees. */
  ghost predicate Good(buf: seq<byte>, pos: nat, levels: nat, v: Value, next: nat) {
    && pos < next <= |buf|
    && Proper(v)
    && Height(v) < levels
    && |Enc(v)| <= 3 * (next - pos)
  }

  lemma {:induction false} ParseGood(buf: seq<byte>, pos: nat, levels: nat)
    ensures Parse(buf, pos, levels).Ok? ==>
      var p := Parse(buf, pos, levels).value; Good(buf, pos, levels, p.value, p.next)
    decreases levels, 0, 0
  {
    if Parse(buf, pos, levels).Ok? {
      var major, ai := buf[pos] / 32, buf[pos] % 32;
      if major == 4 {
        ListGood(buf, pos, levels);
      } else if major == 5 {
        MapGood(buf, pos, levels);
      } else {
        ScalarGood(buf, pos, levels);
      }
    }
  }

  lemma {:induction false} ScalarGood(buf: seq<byte>, pos: nat, levels: nat)
    requires Parse(buf, pos, levels).Ok? && buf[pos] / 32 !in {4, 5}
    ensures var p := Parse(buf, pos, levels).value; Good(buf, pos, levels, p.value, p.next)
  {
    var major, ai := buf[pos] / 32, buf[pos] % 32;
    var p := Parse(buf, pos, levels).value;
    if major == 7 {
      Major7Good(buf, pos, ai, levels);
    } else {
      var count := DecodeCount(buf, pos + 1, ai).value;
      if major <= 1 {
        IntGood(buf, pos, ai, levels, if major == 0 then count.value as int else -1 - count.value as int);
      } else {
        StringGood(buf, pos, ai, levels, p.value);
      }
    }
  }

  lemma {:induction false} IntGood(buf: seq<byte>, pos: nat, ai: nat, levels: nat, n: int)
    requires DecodeCount(buf, pos + 1, ai).Ok? && pos < |buf| && levels > 0
    requires n == DecodeCount(buf, pos + 1, ai).value.value || -1 - n == DecodeCount(buf, pos + 1, ai).value.value
    ensures Good(buf, pos, levels, Int(n), DecodeCount(buf, pos + 1, ai).value.next)
  {
    hide Head, DecodeCount;
    var c := DecodeCount(buf, pos + 1, ai).value.value;
    var major := if n >= 0 then 0 else 1;
    HeadShortest(buf, pos + 1, ai, c);
    assert Enc(Int(n)) == Head(major, c);
  }

  lemma {:induction false} StringGood(buf: seq<byte>, pos: nat, ai: nat, levels: nat, v: Value)
    requires DecodeCount(buf, pos + 1, ai).Ok? && pos < |buf| && levels > 0
    requires var c := DecodeCount(buf, pos + 1, ai).value;
      && c.next + c.value <= |buf|
      && var b := buf[c.next..c.next + c.value];
         v == Bytes(b) || (Utf8.Decode(b).Some? && v == Text(Utf8.Decode(b).value))
    ensures var c := DecodeCount(buf, pos + 1, ai).value;
      Good(buf, pos, levels, v, c.next + c.value)
  {
    hide Head, DecodeCount, Utf8.Decode, Utf8.Encode;
    var c := DecodeCount(buf, pos + 1, ai).value;
    var b := buf[c.next..c.next + c.value];
    HeadShortest(buf, pos + 1, ai, c.value);
    HeadShortest(buf, pos + 1, ai, c.value);
    Utf8.EncodeDecode(b);
    var major := if v.Bytes? then 2 else 3;
    assert Enc(v) == Head(major, Wrap(|b|)) + b;
  }

  lemma {:induction false} Major7Good(buf: seq<byte>, pos: nat, ai: nat, levels: nat)
    requires DecodeMajor7(buf, pos, ai).Ok? && pos < |buf| && levels > 0
    ensures var p := DecodeMajor7(buf, pos, ai).value; Good(buf, pos, levels, p.value, p.next)
  {
  }

  lemma {:induction false} ListGood(buf: seq<byte>, pos: nat, levels: nat)
    requires Parse(buf, pos, levels).Ok? && buf[pos] / 32 == 4
    ensures var p := Parse(buf, pos, levels).value; Good(buf, pos, levels, p.value, p.next)
    decreases levels - 1, 2, 0
  {
    hide ParseItems, EncItems, HeightItems, Head;
    var ai := buf[pos] % 32;
    var count := DecodeCount(buf, pos + 1, ai).value;
    var p := ParseItems(buf, count.next, count.value, levels - 1).value;
    assert Parse(buf, pos, levels).value == Parsed(List(p.value), p.next);
    HeadShortest(buf, pos + 1, ai, count.value);
    ParseItemsGood(buf, count.next, count.value, levels - 1);
    HeightItemsAtMost(p.value, levels - 1);
    ListLength(buf, pos, ai, count, p.value, p.next);
  }

  lemma {:induction false} ListLength(buf: seq<byte>, pos: nat, ai: nat, count: Parsed<nat>, items: seq<Value>,
                                      next: nat)
    requires DecodeCount(buf, pos + 1, ai) == Ok(count) && |items| == count.value
    requires count.next <= next && |EncItems(items)| <= 3 * (next - count.next)
    ensures |Enc(List(items))| <= 3 * (next - pos)
  {
    hide Head, DecodeCount, EncItems;
    HeadShortest(buf, pos + 1, ai, |items|);
    assert Wrap(|items|) == |items|;
  }

  lemma {:induction false} MapGood(buf: seq<byte>, pos: nat, levels: nat)
    requires Parse(buf, pos, levels).Ok? && buf[pos] / 32 == 5
    ensures var p := Parse(buf, pos, levels).value; Good(buf, pos, levels, p.value, p.next)
    decreases levels - 1, 2, 0
  {
    hide ParseEntries, Resolve, Encodable, DistinctKeys, HeightEntries, Head;
    var ai := buf[pos] % 32;
    var count := DecodeCount(buf, pos + 1, ai).value;
    var p := ParseEntries(buf, count.next, count.value, levels - 1).value;
    assert Parse(buf, pos, levels).value == Parsed(Map(Resolve(p.value)), p.next);
    HeadShortest(buf, pos + 1, ai, count.value);
    ParseEntriesGood(buf, count.next, count.value, levels - 1);
    ResolvedGood(buf, count.next, levels - 1, p);
    MapLength(buf, pos, ai, count, Resolve(p.value), p.next);
  }

  lemma {:induction false} MapLength(buf: seq<byte>, pos: nat, ai: nat, count: Parsed<nat>, es: seq<Entry>, next: nat)
    requires DecodeCount(buf, pos + 1, ai) == Ok(count) && |es| <= count.value
    requires count.next <= next && |Join(Sorted(EncEntries(es)))| <= 3 * (next - count.next)
    ensures |Enc(Map(es))| <= 3 * (next - pos)
  {
    hide Head, DecodeCount, EncEntries, Sorted, Join;
    HeadShortest(buf, pos + 1, ai, |es|);
    assert Wrap(|es|) == |es|;
  }

  ghost predicate GoodItems(buf: seq<byte>, pos: nat, levels: nat, items: seq<Value>, next: nat) {
    && pos <= next <= |buf|
    && (forall i :: 0 <= i < |items| ==> Proper(items[i]) && Height(items[i]) < levels)
    && |EncItems(items)| <= 3 * (next - pos)
  }

  lemma {:induction false} ParseItemsGood(buf: seq<byte>, pos: nat, n: nat, levels: nat)
    requires pos <= |buf|
    ensures ParseItems(buf, pos, n, levels).Ok? ==>
      var p := ParseItems(buf, pos, n, levels).value; |p.value| == n && GoodItems(buf, pos, levels, p.value, p.next)
    decreases levels, 1, n
  {
    if n > 0 && ParseItems(buf, pos, n, levels).Ok? {
      hide Parse, Encodable, DistinctKeys, Height, Enc;
      ParseGood(buf, pos, levels);
      ParseItemsGood(buf, Parse(buf, pos, levels).value.next, n - 1, levels);
    }
  }

  ghost predicate GoodEntry(e: Entry, levels: nat) {
    Proper(e.key) && Proper(e.val) && HeightEntry(e) < levels
  }

  ghost predicate GoodEntries(buf: seq<byte>, pos: nat, levels: nat, es: seq<Entry>, next: nat) {
    && pos <= next <= |buf|
    && (forall i :: 0 <= i < |es| ==> GoodEntry(es[i], levels))
    && |Join(EncEntries(es))| <= 3 * (next - pos)
  }

  lemma {:induction false} ParseEntryGood(buf: seq<byte>, pos: nat, levels: nat)
    ensures ParseEntry(buf, pos, levels).Ok? ==>
      var p := ParseEntry(buf, pos, levels).value;
      && pos < p.next <= |buf|
      && GoodEntry(p.value, levels)
      && |Enc(p.value.key) + Enc(p.value.val)| <= 3 * (p.next - pos)
    decreases levels, 1, 0
  {
    hide Parse, Enc, Encodable, DistinctKeys, Height;
    if ParseEntry(buf, pos, levels).Ok? {
      ParseGood(buf, pos, levels);
      ParseGood(buf, Parse(buf, pos, levels).value.next, levels);
    }
  }

  lemma {:induction false} ParseEntriesGood(buf: seq<byte>, pos: nat, n: nat, levels: nat)
    requires pos <= |buf|
    ensures ParseEntries(buf, pos, n, levels).Ok? ==>
      var p := ParseEntries(buf, pos, n, levels).value; |p.value| == n && GoodEntries(buf, pos, levels, p.value, p.next)
    decreases levels, 1, n
  {
    hide ParseEntry, Enc, GoodEntry;
    if n > 0 && ParseEntries(buf, pos, n, levels).Ok? {
      var e := ParseEntry(buf, pos, levels).value;
      ParseEntryGood(buf, pos, levels);
      ParseEntriesGood(buf, e.next, n - 1, levels);
      JoinCons(e.value, ParseEntries(buf, e.next, n - 1, levels).value.value);
    }
  }

  lemma {:induction false} JoinCons(e: Entry, es: seq<Entry>)
    ensures Join(EncEntries([e] + es)) == Enc(e.key) + Enc(e.val) + Join(EncEntries(es))
  {
    assert EncEntries([e] + es)[1..] == EncEntries(es);
  }

  lemma {:induction false} ResolvedEntriesGood(raw: seq<Entry>, levels: nat)
    requires forall i :: 0 <= i < |raw| ==> GoodEntry(raw[i], levels)
    ensures forall i :: 0 <= i < |Resolve(raw)| ==> GoodEntry(Resolve(raw)[i], levels)
  {
    hide Resolve, Rows;
    var firsts, lasts := ResolveMeaning(raw);
    forall i | 0 <= i < |Resolve(raw)| ensures GoodEntry(Resolve(raw)[i], levels) {
      assert GoodEntry(raw[firsts[i]], levels) && GoodEntry(raw[lasts[i]], levels);
    }
  }

  lemma {:induction false} GoodEntriesProper(es: seq<Entry>, levels: nat)
    requires |es| < TWO64 && DistinctEntries(es)
    requires forall i :: 0 <= i < |es| ==> GoodEntry(es[i], levels)
    ensures Proper(Map(es)) && Height(Map(es)) <= levels
  {
    HeightEntriesAtMost(es, levels);
  }

  lemma {:induction false} ResolvedGood(buf: seq<byte>, pos: nat, levels: nat, p: Parsed<seq<Entry>>)
    requires GoodEntries(buf, pos, levels, p.value, p.next) && |p.value| < TWO64
    ensures var es := Resolve(p.value);
      && |es| <= |p.value|
      && Proper(Map(es))
      && Height(Map(es)) <= levels
      && |Join(Sorted(EncEntries(es)))| <= 3 * (p.next - pos)
  {
    ResolveDistinct(p.value);
    ResolvedEntriesGood(p.value, levels);
    GoodEntriesProper(Resolve(p.value), levels);
    ResolveLength(p.value);
  }
}
