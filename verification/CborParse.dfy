/** What the decoder accepts and returns, as a plain recursive parser: no
    canonical bytes, no key index, map entries folded one after another
    (src/cbor.rs). The shipped decoder is proved equal to it in CborDecoder. */
module CborParse {
  import opened ByteStrings
  import opened Wrappers
  import opened CborValue
  import opened LastWrite
  import Ieee
  import Utf8

  datatype DecodeError =
    | Truncated
    | UnsupportedMajorType(major: nat)
    | UnsupportedAdditionalInfo(ai: nat)
    | UnsupportedAdditionalInfoEncoding(ai: nat)
    | TrailingBytes
    | InvalidUtf8
    | UnrepresentableFloat
    | NestingTooDeep

  /** A parsed value and the position just past it. */
  datatype Parsed<+T> = Parsed(value: T, next: nat)

  const MAX_NESTING_DEPTH := 128

  // --- heads and scalars ----------------------------------------------------------

  function ArgWidth(ai: nat): nat {
    if ai == 24 then 1 else if ai == 25 then 2 else if ai == 26 then 4 else 8
  }

  function DecodeCount(buf: seq<byte>, pos: nat, ai: nat): Result<Parsed<nat>, DecodeError> {
    if ai <= 23 then Ok(Parsed(ai, pos))
    else if ai <= 27 then
      var w := ArgWidth(ai);
      if pos + w <= |buf| then Ok(Parsed(FromBE(buf[pos..pos + w]), pos + w)) else Err(Truncated)
    else Err(UnsupportedAdditionalInfoEncoding(ai))
  }

  function DecodeMajor7(buf: seq<byte>, pos: nat, ai: nat): Result<Parsed<Value>, DecodeError> {
    if ai == 22 then Ok(Parsed(Null, pos + 1))
    else if ai == 25 then
      if pos + 3 <= |buf| then
        Widths();
        match Ieee.HalfToF64(FromBE(buf[pos + 1..pos + 3]))
        case Some(bits) => Ok(Parsed(Float(bits), pos + 3))
        case None => Err(UnrepresentableFloat)
      else Err(Truncated)
    else if ai == 26 then
      if pos + 5 <= |buf| then
        Widths();
        Ok(Parsed(Float(Ieee.SingleToF64(FromBE(buf[pos + 1..pos + 5]))), pos + 5))
      else Err(Truncated)
    else if ai == 27 then
      if pos + 9 <= |buf| then
        Widths();
        Ok(Parsed(Float(FromBE(buf[pos + 1..pos + 9])), pos + 9))
      else Err(Truncated)
    else Err(UnsupportedAdditionalInfo(ai))
  }

  // --- duplicate keys ------------------------------------------------------------

  function RowOf(e: Entry): Row<Value, Value> {
    Row(Enc(e.key), e.key, e.val)
  }

  /** A key is identified by its canonical bytes. */
  function Rows(es: seq<Entry>): (r: seq<Row<Value, Value>>)
    ensures |r| == |es| && forall i :: 0 <= i < |r| ==> r[i] == RowOf(es[i])
  {
    if es == [] then [] else [RowOf(es[0])] + Rows(es[1..])
  }

  function Entries(rows: seq<Row<Value, Value>>): (r: seq<Entry>)
    ensures |r| == |rows| && forall i :: 0 <= i < |r| ==> r[i] == Entry(rows[i].key, rows[i].val)
  {
    if rows == [] then [] else [Entry(rows[0].key, rows[0].val)] + Entries(rows[1..])
  }

  /** The entries of a map as read, with repeated keys resolved. */
  function Resolve(raw: seq<Entry>): seq<Entry> {
    Entries(Fold(Rows(raw)))
  }

  // --- the parser ------------------------------------------------------------------

  /** One value at `pos`; `levels` more levels of nesting are allowed. */
  function Parse(buf: seq<byte>, pos: nat, levels: nat): Result<Parsed<Value>, DecodeError>
    decreases levels, 1, 0
  {
    if levels == 0 then Err(NestingTooDeep)
    else if pos + 1 > |buf| then Err(Truncated)
    else if buf[pos] / 32 == 7 then DecodeMajor7(buf, pos, buf[pos] % 32)
    else
      var count :- DecodeCount(buf, pos + 1, buf[pos] % 32);
      ParseBody(buf, count.next, buf[pos] / 32, count.value, levels)
  }

  /** The rest of a value whose head said `major` and `n`. */
  function ParseBody(buf: seq<byte>, pos: nat, major: nat, n: nat, levels: nat): Result<Parsed<Value>, DecodeError>
    requires levels > 0
    decreases levels, 0, 0
  {
    if major == 0 then Ok(Parsed(Int(n), pos))
    else if major == 1 then Ok(Parsed(Int(-1 - n), pos))
    else if major == 2 then
      if pos + n <= |buf| then Ok(Parsed(Bytes(buf[pos..pos + n]), pos + n)) else Err(Truncated)
    else if major == 3 then
      if pos + n <= |buf| then
        match Utf8.Decode(buf[pos..pos + n])
        case Some(s) => Ok(Parsed(Text(s), pos + n))
        case None => Err(InvalidUtf8)
      else Err(Truncated)
    else if major == 4 then
      var items :- ParseItems(buf, pos, n, levels - 1);
      Ok(Parsed(List(items.value), items.next))
    else if major == 5 then
      var raw :- ParseEntries(buf, pos, n, levels - 1);
      Ok(Parsed(Map(Resolve(raw.value)), raw.next))
    else Err(UnsupportedMajorType(major))
  }

  function ParseItems(buf: seq<byte>, pos: nat, n: nat, levels: nat): Result<Parsed<seq<Value>>, DecodeError>
    decreases levels, 2, n
  {
    if n == 0 then Ok(Parsed([], pos))
    else
      var item :- Parse(buf, pos, levels);
      var rest :- ParseItems(buf, item.next, n - 1, levels);
      Ok(Parsed([item.value] + rest.value, rest.next))
  }

  function ParseEntry(buf: seq<byte>, pos: nat, levels: nat): Result<Parsed<Entry>, DecodeError>
    decreases levels, 2, 0
  {
    var k :- Parse(buf, pos, levels);
    var v :- Parse(buf, k.next, levels);
    Ok(Parsed(Entry(k.value, v.value), v.next))
  }

  function ParseEntries(buf: seq<byte>, pos: nat, n: nat, levels: nat): Result<Parsed<seq<Entry>>, DecodeError>
    decreases levels, 3, n
  {
    if n == 0 then Ok(Parsed([], pos))
    else
      var e :- ParseEntry(buf, pos, levels);
      var rest :- ParseEntries(buf, e.next, n - 1, levels);
      Ok(Parsed([e.value] + rest.value, rest.next))
  }

  /** The whole buffer is one value, nested no deeper than the limit. */
  function Decode(buf: seq<byte>): Result<Value, DecodeError> {
    var p :- Parse(buf, 0, MAX_NESTING_DEPTH + 1);
    if p.next == |buf| then Ok(p.value) else Err(TrailingBytes)
  }

  // --- resolved entries ----------------------------------------------------------

  /** Every row is identified by the canonical bytes of the key it holds. */
  ghost predicate Labelled(rows: seq<Row<Value, Value>>) {
    forall i :: 0 <= i < |rows| ==> rows[i].id == Enc(rows[i].key)
  }

  lemma {:induction false} PutLabelled(rows: seq<Row<Value, Value>>, e: Entry)
    requires Labelled(rows)
    ensures Labelled(Put(rows, RowOf(e)))
  {
  }

  lemma {:induction false} FoldLabelled(raw: seq<Entry>)
    ensures Labelled(Fold(Rows(raw)))
  {
    if raw != [] {
      var init := raw[..|raw| - 1];
      FoldLabelled(init);
      PutLabelled(Fold(Rows(init)), raw[|raw| - 1]);
      assert Rows(raw)[..|raw| - 1] == Rows(init);
    }
  }

  lemma {:induction false} RowsSnoc(raw: seq<Entry>, e: Entry)
    ensures Fold(Rows(raw + [e])) == Put(Fold(Rows(raw)), RowOf(e))
  {
    assert Rows(raw + [e]) == Rows(raw) + [RowOf(e)];
    FoldSnoc(Rows(raw), RowOf(e));
  }

  lemma {:induction false} LabelledKeys(rows: seq<Row<Value, Value>>)
    requires Labelled(rows) && DistinctIds(rows)
    ensures DistinctEntries(Entries(rows)) && Rows(Entries(rows)) == rows
  {
    var kvs := EncEntries(Entries(rows));
    assert forall i :: 0 <= i < |rows| ==> kvs[i].key == rows[i].id;
  }

  lemma {:induction false} ResolveDistinct(raw: seq<Entry>)
    ensures DistinctEntries(Resolve(raw)) && |Resolve(raw)| <= |raw|
    ensures Rows(Resolve(raw)) == Fold(Rows(raw))
  {
    FoldLabelled(raw);
    FoldDistinct(Rows(raw));
    LabelledKeys(Fold(Rows(raw)));
  }

  /** Entries with no repeated key are left as they are. */
  lemma {:induction false} ResolveIdentity(es: seq<Entry>)
    requires DistinctEntries(es)
    ensures Resolve(es) == es
  {
    var kvs := EncEntries(es);
    forall i, j | 0 <= i < j < |es| ensures Rows(es)[i].id != Rows(es)[j].id {
      assert kvs[i].key != kvs[j].key;
    }
    FoldOfDistinct(Rows(es));
    assert Entries(Rows(es)) == es;
  }

  /** Resolving keeps, for each distinct key in the order first seen, the key as first
      written and the value as last written. */
  lemma {:induction false} ResolveMeaning(raw: seq<Entry>) returns (firsts: seq<nat>, lasts: seq<nat>)
    ensures |firsts| == |lasts| == |Resolve(raw)|
    ensures forall i :: 0 <= i < |firsts| ==> firsts[i] < |raw| && lasts[i] < |raw|
    ensures forall i :: 0 <= i < |firsts| ==> Resolve(raw)[i] == Entry(raw[firsts[i]].key, raw[lasts[i]].val)
    ensures Resolves(Rows(raw), Rows(Resolve(raw)), firsts, lasts)
  {
    firsts, lasts := FoldResolves(Rows(raw));
    ResolveDistinct(raw);
    forall i | 0 <= i < |firsts|
      ensures firsts[i] < |raw| && lasts[i] < |raw|
      ensures Resolve(raw)[i] == Entry(raw[firsts[i]].key, raw[lasts[i]].val)
    {
      assert Resolved(Rows(raw), Fold(Rows(raw))[i], firsts[i], lasts[i]);
    }
  }
}
