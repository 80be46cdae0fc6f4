/** The CBOR value, its canonical bytes, and its normal form (src/cbor.rs). */
module CborValue {
  import opened ByteStrings
  import opened ByteOrder
  import opened Wrappers
  import Utf8

  /** The shapes the wire format supports. A float is its binary64 pattern. */
  datatype Value =
    | Int(n: int)
    | Bytes(b: seq<byte>)
    | Text(s: string)
    | List(items: seq<Value>)
    | Map(entries: seq<Entry>)
    | Null
    | Float(bits: u64)

  datatype Entry = Entry(key: Value, val: Value)

  // --- canonical bytes ----------------------------------------------------------

  /** Bytes the count `n` takes after the first byte of its head. */
  function ExtraBytes(n: nat): nat {
    if n <= 23 then 0 else if n <= 0xFF then 1 else if n <= 0xFFFF then 2 else if n <= 0xFFFF_FFFF then 4 else 8
  }

  /** Low five bits of the first byte: the count itself, or how wide it is. */
  function AdditionalInfo(n: nat): (ai: nat)
    ensures ai < 28
  {
    if n <= 23 then n else if n <= 0xFF then 24 else if n <= 0xFFFF then 25 else if n <= 0xFFFF_FFFF then 26 else 27
  }

  /** Major type and count with the shortest argument that holds the count. */
  function Head(major: nat, n: u64): (h: seq<byte>)
    requires major < 8
    ensures |h| == 1 + ExtraBytes(n)
  {
    [major * 32 + AdditionalInfo(n)] + ToBE(n, ExtraBytes(n))
  }

  function EncInt(n: int): seq<byte> {
    if n >= 0 then Head(0, Wrap(n)) else Head(1, Wrap(-1 - n))
  }

  /** The canonical bytes of `v`, as the format defines them. */
  function Enc(v: Value): seq<byte>
    decreases v, 0
  {
    match v
    case Int(n) => EncInt(n)
    case Bytes(b) => Head(2, Wrap(|b|)) + b
    case Text(s) => var b := Utf8.Encode(s); Head(3, Wrap(|b|)) + b
    case List(items) => Head(4, Wrap(|items|)) + EncItems(items)
    case Map(entries) => Head(5, Wrap(|entries|)) + Join(Sorted(EncEntries(entries)))
    case Null => [0xF6]
    case Float(bits) => [0xFB] + ToBE(bits, 8)
  }

  function EncItems(items: seq<Value>): seq<byte>
    decreases items, 1
  {
    if items == [] then [] else Enc(items[0]) + EncItems(items[1..])
  }

  function EncEntry(e: Entry): KV
    decreases e, 2
  {
    KV(Enc(e.key), Enc(e.val))
  }

  function EncEntries(es: seq<Entry>): (r: seq<KV>)
    ensures |r| == |es| && forall i :: 0 <= i < |r| ==> r[i] == EncEntry(es[i])
    decreases es, 3
  {
    if es == [] then [] else [EncEntry(es[0])] + EncEntries(es[1..])
  }

  function Join(kvs: seq<KV>): seq<byte> {
    if kvs == [] then [] else kvs[0].key + kvs[0].val + Join(kvs[1..])
  }

  // --- which values the format can carry ---------------------------------------------

  predicate IntFits(n: int) {
    -TWO64 <= n < TWO64
  }

  /** Integers in range; lengths that a 64-bit `usize` can hold. */
  predicate Encodable(v: Value) {
    match v
    case Int(n) => IntFits(n)
    case Bytes(b) => |b| < TWO64
    case Text(s) => |Utf8.Encode(s)| < TWO64
    case List(items) => |items| < TWO64 && forall i :: 0 <= i < |items| ==> Encodable(items[i])
    case Map(es) =>
      |es| < TWO64 && forall i :: 0 <= i < |es| ==> Encodable(es[i].key) && Encodable(es[i].val)
    case Null => true
    case Float(_) => true
  }

  ghost predicate DistinctEntries(es: seq<Entry>) {
    DistinctKVs(EncEntries(es))
  }

  /** No map, at any level, holds two keys with the same encoding. */
  ghost predicate DistinctKeys(v: Value) {
    match v
    case List(items) => forall i :: 0 <= i < |items| ==> DistinctKeys(items[i])
    case Map(es) =>
      && DistinctEntries(es)
      && forall i :: 0 <= i < |es| ==> DistinctKeys(es[i].key) && DistinctKeys(es[i].val)
    case _ => true
  }

  ghost predicate Proper(v: Value) {
    Encodable(v) && DistinctKeys(v)
  }

  /** The first out-of-range integer the encoder meets. */
  function FirstBad(v: Value): Option<int>
    decreases v, 0
  {
    match v
    case Int(n) => if IntFits(n) then None else Some(n)
    case List(items) => FirstBadItem(items)
    case Map(es) => FirstBadEntry(es)
    case _ => None
  }

  function FirstBadItem(items: seq<Value>): Option<int>
    decreases items, 1
  {
    if items == [] then None
    else match FirstBad(items[0])
      case Some(n) => Some(n)
      case None => FirstBadItem(items[1..])
  }

  function FirstBadOfEntry(e: Entry): Option<int>
    decreases e, 2
  {
    match FirstBad(e.key)
    case Some(n) => Some(n)
    case None => FirstBad(e.val)
  }

  function FirstBadEntry(es: seq<Entry>): Option<int>
    decreases es, 3
  {
    if es == [] then None
    else match FirstBadOfEntry(es[0])
      case Some(n) => Some(n)
      case None => FirstBadEntry(es[1..])
  }

  // --- nesting ----------------------------------------------------------------

  function Max(a: nat, b: nat): nat {
    if a < b then b else a
  }

  /** A scalar or an empty container is 0 high. */
  function Height(v: Value): nat
    decreases v, 0
  {
    match v
    case List(items) => HeightItems(items)
    case Map(es) => HeightEntries(es)
    case _ => 0
  }

  function HeightItems(items: seq<Value>): nat
    decreases items, 1
  {
    if items == [] then 0 else Max(1 + Height(items[0]), HeightItems(items[1..]))
  }

  function HeightEntry(e: Entry): nat
    decreases e, 2
  {
    Max(Height(e.key), Height(e.val))
  }

  function HeightEntries(es: seq<Entry>): nat
    decreases es, 3
  {
    if es == [] then 0 else Max(1 + HeightEntry(es[0]), HeightEntries(es[1..]))
  }

  lemma {:induction false} HeightItemsAtMost(items: seq<Value>, h: nat)
    ensures HeightItems(items) <= h <==> forall i :: 0 <= i < |items| ==> Height(items[i]) < h
  {
    if items != [] {
      HeightItemsAtMost(items[1..], h);
      assert items == [items[0]] + items[1..];
    }
  }

  lemma {:induction false} HeightEntriesAtMost(es: seq<Entry>, h: nat)
    ensures HeightEntries(es) <= h <==>
      forall i :: 0 <= i < |es| ==> HeightEntry(es[i]) < h
  {
    if es != [] {
      HeightEntriesAtMost(es[1..], h);
      assert es == [es[0]] + es[1..];
    }
  }

  // --- normal form ----------------------------------------------------------------

  function EntryKeys(es: seq<Entry>): (r: seq<seq<byte>>)
    ensures r == Keys(EncEntries(es))
  {
    Keys(EncEntries(es))
  }

  /** Every map's entries in the bytewise order of their encoded keys. */
  function Norm(v: Value): Value
    decreases v, 0
  {
    match v
    case List(items) => List(NormItems(items))
    case Map(es) => Map(Pick(NormEntries(es), SortOrder(EntryKeys(es))))
    case _ => v
  }

  function NormItems(items: seq<Value>): (r: seq<Value>)
    ensures |r| == |items| && forall i :: 0 <= i < |r| ==> r[i] == Norm(items[i])
    decreases items, 1
  {
    if items == [] then [] else [Norm(items[0])] + NormItems(items[1..])
  }

  function NormEntry(e: Entry): Entry
    decreases e, 2
  {
    Entry(Norm(e.key), Norm(e.val))
  }

  function NormEntries(es: seq<Entry>): (r: seq<Entry>)
    ensures |r| == |es| && forall i :: 0 <= i < |r| ==> r[i] == NormEntry(es[i])
    decreases es, 3
  {
    if es == [] then [] else [NormEntry(es[0])] + NormEntries(es[1..])
  }

  // --- map order does not show in the bytes -------------------------------------------

  /** Entries whose encodings are the same set, with no key twice, encode alike. */
  lemma {:induction false} MapForgetsOrder(es: seq<Entry>, fs: seq<Entry>)
    requires DistinctEntries(es) && DistinctEntries(fs)
    requires SameMembers(EncEntries(es), EncEntries(fs))
    ensures |es| == |fs| && Enc(Map(es)) == Enc(Map(fs))
  {
    SortedForgetsOrder(EncEntries(es), EncEntries(fs));
    assert |Sorted(EncEntries(es))| == |es|;
  }

  /** What the encoder emits for a map: its entries, keys strictly ascending bytewise. */
  lemma {:induction false} EmittedKeysAscend(es: seq<Entry>)
    requires DistinctEntries(es)
    ensures exists kvs: seq<KV> ::
      && Ascending(kvs)
      && SameMembers(kvs, EncEntries(es))
      && |kvs| == |es|
      && Enc(Map(es)) == Head(5, Wrap(|es|)) + Join(kvs)
  {
    var kvs := Sorted(EncEntries(es));
    SortedAscending(EncEntries(es));
    SortedMembers(EncEntries(es));
    assert Enc(Map(es)) == Head(5, Wrap(|es|)) + Join(kvs);
  }

  lemma {:induction false} EncItemsAlike(xs: seq<Value>, ys: seq<Value>)
    requires |xs| == |ys| && forall i :: 0 <= i < |xs| ==> Enc(xs[i]) == Enc(ys[i])
    ensures EncItems(xs) == EncItems(ys)
  {
    if xs != [] {
      assert Enc(xs[0]) == Enc(ys[0]);
      EncItemsAlike(xs[1..], ys[1..]);
    }
  }

  /** `w` is `v` with the entries of any of its maps, inside keys too, in another order. */
  ghost predicate Reordered(v: Value, w: Value)
    decreases v
  {
    match v
    case List(items) =>
      && w.List?
      && |w.items| == |items|
      && forall i :: 0 <= i < |items| ==> Reordered(items[i], w.items[i])
    case Map(es) =>
      && w.Map?
      && exists p: seq<nat> :: ReorderedBy(es, w.entries, p)
    case _ => w == v
  }

  ghost predicate ReorderedEntry(e: Entry, f: Entry)
    decreases e
  {
    Reordered(e.key, f.key) && Reordered(e.val, f.val)
  }

  ghost predicate ReorderedBy(es: seq<Entry>, fs: seq<Entry>, p: seq<nat>)
    decreases es
  {
    && |es| == |fs|
    && IsPermutation(p, |es|)
    && forall i :: 0 <= i < |es| ==> ReorderedEntry(es[i], fs[p[i]])
  }

  lemma {:induction false} ReorderedEncodesAlike(v: Value, w: Value)
    requires DistinctKeys(v) && Reordered(v, w)
    ensures Enc(v) == Enc(w)
    decreases v
  {
    match v
    case List(items) =>
      forall i | 0 <= i < |items| ensures Enc(items[i]) == Enc(w.items[i]) {
        ReorderedEncodesAlike(items[i], w.items[i]);
      }
      EncItemsAlike(items, w.items);
    case Map(es) =>
      var fs := w.entries;
      var p: seq<nat> :| ReorderedBy(es, fs, p);
      forall i | 0 <= i < |es| ensures EncEntries(es)[i] == EncEntries(fs)[p[i]] {
        assert ReorderedEntry(es[i], fs[p[i]]);
        ReorderedEncodesAlike(es[i].key, fs[p[i]].key);
        ReorderedEncodesAlike(es[i].val, fs[p[i]].val);
      }
      RearrangedMembers(EncEntries(es), EncEntries(fs), p);
      MapForgetsOrder(es, fs);
    case _ =>
  }

  // --- the normal form encodes alike -------------------------------------------------

  lemma {:induction false} EncNorm(v: Value)
    requires DistinctKeys(v)
    ensures Enc(Norm(v)) == Enc(v)
    decreases v
  {
    match v
    case List(items) =>
      forall i | 0 <= i < |items| ensures Enc(NormItems(items)[i]) == Enc(items[i]) {
        EncNorm(items[i]);
      }
      EncItemsAlike(NormItems(items), items);
    case Map(es) =>
      forall i | 0 <= i < |es| ensures EncEntry(NormEntries(es)[i]) == EncEntry(es[i]) {
        EncNorm(es[i].key);
        EncNorm(es[i].val);
      }
      NormMapSorts(es);
    case _ =>
  }

  /** The encoded entries of a map's normal form are its own, sorted. */
  lemma {:induction false} NormMapSorts(es: seq<Entry>)
    requires DistinctEntries(es)
    requires forall i :: 0 <= i < |es| ==> EncEntry(NormEntries(es)[i]) == EncEntry(es[i])
    ensures var fs := Norm(Map(es)).entries;
      && EncEntries(fs) == Sorted(EncEntries(es))
      && DistinctEntries(fs)
      && Enc(Map(fs)) == Enc(Map(es))
  {
    var fs := Norm(Map(es)).entries;
    assert EncEntries(fs) == Sorted(EncEntries(es));
    SortedAgain(EncEntries(es));
  }
}
