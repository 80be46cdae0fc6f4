/** The decoder as shipped: recursive descent with loops over list items and map
    entries, canonical bytes built bottom-up only where a key needs them, and a
    hash index from key bytes to slots (src/cbor.rs). Ghost results count the calls
    made to `DecodeOne` and the canonical bytes written. */
module CborDecoder {
  import opened ByteStrings
  import opened ByteOrder
  import opened Wrappers
  import opened CborValue
  import opened LastWrite
  import opened CborParse
  import opened CborSound
  import opened CborEncoder
  import opened CborRoundTrip
  import Utf8

  /** A value, its canonical bytes when asked for, and the next position. */
  datatype Decoded = Decoded(value: Value, canon: seq<byte>, next: nat)

  function Levels(depth: nat): nat {
    if depth > MAX_NESTING_DEPTH then 0 else MAX_NESTING_DEPTH + 1 - depth
  }

  /** The shipped result is the parser's, with canonical bytes exactly as the encoder
      would write them when they were asked for. */
  function Carry(r: Result<Parsed<Value>, DecodeError>, needCanon: bool): Result<Decoded, DecodeError> {
    match r
    case Ok(p) => Ok(Decoded(p.value, if needCanon then Enc(p.value) else [], p.next))
    case Err(e) => Err(e)
  }

  // --- work ---------------------------------------------------------------------

  /** Bytes a decode that starts at `pos` got through: what it consumed, or on an
      error at most everything that was left. */
  function Span<T>(buf: seq<byte>, pos: nat, r: Result<Parsed<T>, DecodeError>): int {
    (if r.Ok? then r.value.next else |buf|) - pos
  }

  function Budget(levels: nat, length: int): int {
    3 * levels * length
  }

  lemma {:induction false} BudgetAdds(levels: nat, a: int, b: int)
    ensures Budget(levels, a) + Budget(levels, b) == Budget(levels, a + b)
  {
  }

  lemma {:induction false} BudgetGrows(levels: nat, a: int, b: int)
    requires 0 <= a <= b
    ensures 0 <= Budget(levels, a) <= Budget(levels, b)
  {
    BudgetAdds(levels, a, b - a);
    assert levels * (b - a) >= 0 && levels * a >= 0;
  }

  lemma {:induction false} BudgetLevel(levels: nat, a: int)
    ensures Budget(levels, a) + 3 * a == Budget(levels + 1, a)
  {
  }

  // --- the index ------------------------------------------------------------------

  /** Every id points at its row and every row is pointed at. */
  ghost predicate Indexed<K, V>(index: map<seq<byte>, nat>, rows: seq<Row<K, V>>) {
    && (forall i :: 0 <= i < |rows| ==> rows[i].id in index && index[rows[i].id] == i)
    && (forall id :: id in index ==> index[id] < |rows| && rows[index[id]].id == id)
  }

  /** A lookup finds the slot a search over all rows would find. */
  lemma {:induction false} IndexFinds<K, V>(index: map<seq<byte>, nat>, rows: seq<Row<K, V>>, id: seq<byte>)
    requires Indexed(index, rows) && DistinctIds(rows)
    ensures SlotOf(rows, id) == if id in index then index[id] else |rows|
  {
    var i := SlotOf(rows, id);
    if i < |rows| { assert rows[i].id in index; }
  }

  lemma {:induction false} IndexGrows<K, V>(index: map<seq<byte>, nat>, rows: seq<Row<K, V>>, r: Row<K, V>)
    requires Indexed(index, rows) && r.id !in index
    ensures Indexed(index[r.id := |rows|], rows + [r])
  {
  }

  // --- what the loops keep ----------------------------------------------------------

  /** `xs` read so far, then whatever the rest gives. */
  ghost function Prepend<T>(xs: seq<T>, r: Result<Parsed<seq<T>>, DecodeError>): Result<Parsed<seq<T>>, DecodeError> {
    match r
    case Ok(p) => Ok(Parsed(xs + p.value, p.next))
    case Err(e) => Err(e)
  }

  ghost predicate Within(levels: nat, span: int, ok: bool, calls: nat, written: nat) {
    && calls <= span + (if ok then 0 else 1)
    && written <= Budget(levels, span)
  }

  /** Bounds for a container's children together with the container's own bytes. */
  ghost predicate WithinContainer(levels: nat, span: int, ok: bool, headBytes: nat, calls: nat, written: nat) {
    && 0 <= span
    && calls <= span + (if ok then 0 else 1)
    && written <= Budget(levels, span) + headBytes + 3 * span
  }

  lemma {:induction false} ContainerWork(levels: nat, inner: int, outer: int, ok: bool, headBytes: nat, calls: nat,
                                         written: nat)
    requires WithinContainer(levels, inner, ok, headBytes, calls, written)
    requires outer >= inner + headBytes && headBytes >= 1
    ensures Within(levels + 1, outer, ok, calls + 1, written)
  {
    BudgetGrows(levels, inner, outer);
    BudgetLevel(levels, outer);
  }

  lemma {:induction false} WorkAdds(levels: nat, a: int, b: int, ok: bool, calls: nat, more: nat, written: nat,
                                    extra: nat)
    requires calls <= a && written <= Budget(levels, a) && Within(levels, b, ok, more, extra)
    ensures Within(levels, a + b, ok, calls + more, written + extra)
  {
    BudgetAdds(levels, a, b);
  }

  lemma {:induction false} EncItemsSnoc(items: seq<Value>, v: Value)
    ensures EncItems(items + [v]) == EncItems(items) + Enc(v)
  {
    hide Enc;
    if items != [] {
      EncItemsSnoc(items[1..], v);
      assert (items + [v])[1..] == items[1..] + [v];
    }
  }

  /** One more item read: what remains, what was read, and its size. */
  lemma {:induction false} ItemRead(buf: seq<byte>, pos: nat, n: nat, levels: nat, items: seq<Value>)
    requires n > 0 && Parse(buf, pos, levels).Ok?
    ensures var p := Parse(buf, pos, levels).value;
      && Good(buf, pos, levels, p.value, p.next)
      && Prepend(items, ParseItems(buf, pos, n, levels)) ==
        Prepend(items + [p.value], ParseItems(buf, p.next, n - 1, levels))
      && EncItems(items + [p.value]) == EncItems(items) + Enc(p.value)
  {
    hide Parse, Enc;
    var p := Parse(buf, pos, levels).value;
    ParseGood(buf, pos, levels);
    EncItemsSnoc(items, p.value);
    var rest := ParseItems(buf, p.next, n - 1, levels);
    if rest.Ok? {
      assert items + ([p.value] + rest.value.value) == (items + [p.value]) + rest.value.value;
    }
  }

  lemma {:induction false} ItemRefused(buf: seq<byte>, pos: nat, n: nat, levels: nat)
    requires n > 0 && Parse(buf, pos, levels).Err?
    ensures ParseItems(buf, pos, n, levels) == Err(Parse(buf, pos, levels).error)
  {
    hide Parse;
  }

  lemma {:induction false} EmptyPrepend<T>(r: Result<Parsed<seq<T>>, DecodeError>)
    ensures Prepend([], r) == r
  {
    if r.Ok? { assert [] + r.value.value == r.value.value; }
  }

  lemma {:induction false} NoMoreItems(buf: seq<byte>, pos: nat, levels: nat, items: seq<Value>)
    ensures Prepend(items, ParseItems(buf, pos, 0, levels)) == Ok(Parsed(items, pos))
    ensures EncItems([]) == []
  {
    assert items + [] == items;
  }

  lemma {:induction false} EntryRead(buf: seq<byte>, pos: nat, n: nat, levels: nat, raw: seq<Entry>)
    requires n > 0 && ParseEntry(buf, pos, levels).Ok?
    ensures var p := ParseEntry(buf, pos, levels).value;
      Prepend(raw, ParseEntries(buf, pos, n, levels)) ==
        Prepend(raw + [p.value], ParseEntries(buf, p.next, n - 1, levels))
  {
    hide ParseEntry;
    var p := ParseEntry(buf, pos, levels).value;
    var rest := ParseEntries(buf, p.next, n - 1, levels);
    if rest.Ok? {
      assert raw + ([p.value] + rest.value.value) == (raw + [p.value]) + rest.value.value;
    }
  }

  lemma {:induction false} EntryRefused(buf: seq<byte>, pos: nat, n: nat, levels: nat)
    requires n > 0 && ParseEntry(buf, pos, levels).Err?
    ensures ParseEntries(buf, pos, n, levels) == Err(ParseEntry(buf, pos, levels).error)
  {
    hide ParseEntry;
  }

  // --- the decoder ------------------------------------------------------------------

  /** What is due from a decode of the value at `pos`: the parser's answer, with
      canonical bytes if asked for, within the work bound. */
  ghost predicate Due(buf: seq<byte>, pos: nat, depth: nat, needCanon: bool, r: Result<Decoded, DecodeError>,
                      calls: nat, written: nat) {
    var p := Parse(buf, pos, Levels(depth));
    r == Carry(p, needCanon) && Within(Levels(depth), Span(buf, pos, p), p.Ok?, calls, written)
  }

  lemma {:induction false} RefusalDue(buf: seq<byte>, pos: nat, depth: nat, needCanon: bool, e: DecodeError)
    requires pos <= |buf| && Parse(buf, pos, Levels(depth)) == Err(e)
    ensures Due(buf, pos, depth, needCanon, Err(e), 1, 0)
  {
    hide Parse;
    BudgetGrows(Levels(depth), 0, |buf| - pos);
  }

  lemma {:induction false} ValueDue(buf: seq<byte>, pos: nat, depth: nat, p: Parsed<Value>)
    requires Parse(buf, pos, Levels(depth)) == Ok(p)
    ensures FirstBad(p.value) == None && p.next > pos
    ensures |Enc(p.value)| <= Budget(Levels(depth), p.next - pos)
  {
    hide Parse, Enc;
    ParseGood(buf, pos, Levels(depth));
    ProperFirstBad(p.value);
    var span := p.next - pos;
    BudgetLevel(Levels(depth) - 1, span);
    BudgetGrows(Levels(depth) - 1, 0, span);
  }

  /** A scalar with its own canonical bytes; the encoder cannot refuse it. */
  method ScalarCanonicalBytes(value: Value, next: nat, needCanon: bool, ghost buf: seq<byte>, ghost pos: nat,
                              ghost depth: nat)
    returns (r: Result<Decoded, DecodeError>, ghost calls: nat, ghost written: nat)
    requires Parse(buf, pos, Levels(depth)) == Ok(Parsed(value, next))
    ensures r == Ok(Decoded(value, if needCanon then Enc(value) else [], next))
    ensures Due(buf, pos, depth, needCanon, r, calls, written)
  {
    hide Enc, FirstBad, Parse;
    ValueDue(buf, pos, depth, Parsed(value, next));
    if needCanon {
      var out := new ByteBuf();
      var outcome := EncodeValue(value, out);
      assert outcome.Ok?;
      assert [] + Enc(value) == Enc(value);
      return Ok(Decoded(value, out.bytes, next)), 1, |out.bytes|;
    }
    return Ok(Decoded(value, [], next)), 1, 0;
  }

  /** Agrees with the parser at every depth, with or without canonical bytes, and
      stays within the work bound whether it succeeds or fails. */
  method DecodeOne(buf: seq<byte>, pos: nat, depth: nat, needCanon: bool)
    returns (r: Result<Decoded, DecodeError>, ghost calls: nat, ghost written: nat)
    requires pos <= |buf|
    ensures r == Carry(Parse(buf, pos, Levels(depth)), needCanon)
    ensures Due(buf, pos, depth, needCanon, r, calls, written)
    decreases Levels(depth), 1
  {
    hide Enc, ParseItems, ParseEntries, Resolve, DecodeMajor7, DecodeCount, Utf8.Decode, Within, Span, Carry;
    if depth > MAX_NESTING_DEPTH {
      RefusalDue(buf, pos, depth, needCanon, NestingTooDeep);
      return Err(NestingTooDeep), 1, 0;
    }
    if pos + 1 > |buf| {
      RefusalDue(buf, pos, depth, needCanon, Truncated);
      return Err(Truncated), 1, 0;
    }
    var major, ai := buf[pos] / 32, buf[pos] % 32;
    if major == 7 {
      var m := DecodeMajor7(buf, pos, ai);
      if m.Err? {
        RefusalDue(buf, pos, depth, needCanon, m.error);
        return Err(m.error), 1, 0;
      }
      r, calls, written := ScalarCanonicalBytes(m.value.value, m.value.next, needCanon, buf, pos, depth);
      return;
    }
    var count := DecodeCount(buf, pos + 1, ai);
    if count.Err? {
      RefusalDue(buf, pos, depth, needCanon, count.error);
      return Err(count.error), 1, 0;
    }
    HeadShortest(buf, pos + 1, ai, count.value.value);
    r, calls, written := DecodeRest(buf, pos, count.value.next, count.value.value, major, depth, needCanon);
  }

  /** The `match major` of the source. */
  method DecodeRest(buf: seq<byte>, ghost pos: nat, next: nat, n: u64, major: nat, depth: nat, needCanon: bool)
    returns (r: Result<Decoded, DecodeError>, ghost calls: nat, ghost written: nat)
    requires depth <= MAX_NESTING_DEPTH && pos + 1 <= next <= |buf| && 1 + ExtraBytes(n) <= next - pos
    requires Parse(buf, pos, Levels(depth)) == ParseBody(buf, next, major, n, Levels(depth))
    ensures r == Carry(Parse(buf, pos, Levels(depth)), needCanon)
    ensures Due(buf, pos, depth, needCanon, r, calls, written)
    decreases Levels(depth), 0
  {
    hide Enc, Parse, ParseItems, ParseEntries, Resolve, DecodeMajor7, DecodeCount, Utf8.Decode, Within, Span, Carry;
    if major == 0 {
      r, calls, written := ScalarCanonicalBytes(Int(n), next, needCanon, buf, pos, depth);
    } else if major == 1 {
      r, calls, written := ScalarCanonicalBytes(Int(-1 - n), next, needCanon, buf, pos, depth);
    } else if major == 2 {
      if next + n > |buf| {
        RefusalDue(buf, pos, depth, needCanon, Truncated);
        return Err(Truncated), 1, 0;
      }
      r, calls, written := ScalarCanonicalBytes(Bytes(buf[next..next + n]), next + n, needCanon, buf, pos, depth);
    } else if major == 3 {
      if next + n > |buf| {
        RefusalDue(buf, pos, depth, needCanon, Truncated);
        return Err(Truncated), 1, 0;
      }
      var text := Utf8.Decode(buf[next..next + n]);
      if text.None? {
        RefusalDue(buf, pos, depth, needCanon, InvalidUtf8);
        return Err(InvalidUtf8), 1, 0;
      }
      r, calls, written := ScalarCanonicalBytes(Text(text.value), next + n, needCanon, buf, pos, depth);
    } else if major == 4 {
      r, calls, written := DecodeList(buf, next, n, depth + 1, needCanon);
      ListDue(buf, pos, next, n, depth, needCanon, r, calls, written);
      calls := calls + 1;
    } else if major == 5 {
      r, calls, written := DecodeMap(buf, next, n, depth + 1, needCanon);
      MapDue(buf, pos, next, n, depth, needCanon, r, calls, written);
      calls := calls + 1;
    } else {
      RefusalDue(buf, pos, depth, needCanon, UnsupportedMajorType(major));
      return Err(UnsupportedMajorType(major)), 1, 0;
    }
  }

  ghost function CarryList(r: Result<Parsed<seq<Value>>, DecodeError>, needCanon: bool): Result<Decoded, DecodeError> {
    match r
    case Ok(p) => Ok(Decoded(List(p.value), if needCanon then Enc(List(p.value)) else [], p.next))
    case Err(e) => Err(e)
  }

  ghost function CarryMap(r: Result<Parsed<seq<Entry>>, DecodeError>, needCanon: bool): Result<Decoded, DecodeError> {
    match r
    case Ok(p) => Ok(Decoded(Map(Resolve(p.value)), if needCanon then Enc(Map(Resolve(p.value))) else [], p.next))
    case Err(e) => Err(e)
  }

  lemma {:induction false} ListDue(buf: seq<byte>, pos: nat, next: nat, n: u64, depth: nat, needCanon: bool,
                                   r: Result<Decoded, DecodeError>, calls: nat, written: nat)
    requires depth <= MAX_NESTING_DEPTH && pos + 1 <= next <= |buf| && 1 + ExtraBytes(n) <= next - pos
    requires Parse(buf, pos, Levels(depth)) == ParseBody(buf, next, 4, n, Levels(depth))
    requires var p := ParseItems(buf, next, n, Levels(depth + 1));
      && r == CarryList(p, needCanon)
      && WithinContainer(Levels(depth + 1), Span(buf, next, p), p.Ok?, 1 + ExtraBytes(n), calls, written)
    ensures Due(buf, pos, depth, needCanon, r, calls + 1, written)
  {
    hide Parse, Enc, ParseItems;
    var p := ParseItems(buf, next, n, Levels(depth + 1));
    ContainerWork(Levels(depth + 1), Span(buf, next, p), Span(buf, pos, p), p.Ok?, 1 + ExtraBytes(n), calls, written);
  }

  lemma {:induction false} MapDue(buf: seq<byte>, pos: nat, next: nat, n: u64, depth: nat, needCanon: bool,
                                  r: Result<Decoded, DecodeError>, calls: nat, written: nat)
    requires depth <= MAX_NESTING_DEPTH && pos + 1 <= next <= |buf| && 1 + ExtraBytes(n) <= next - pos
    requires Parse(buf, pos, Levels(depth)) == ParseBody(buf, next, 5, n, Levels(depth))
    requires var p := ParseEntries(buf, next, n, Levels(depth + 1));
      && r == CarryMap(p, needCanon)
      && WithinContainer(Levels(depth + 1), Span(buf, next, p), p.Ok?, 1 + ExtraBytes(n), calls, written)
    ensures Due(buf, pos, depth, needCanon, r, calls + 1, written)
  {
    hide Parse, Enc, ParseEntries, Resolve;
    var p := ParseEntries(buf, next, n, Levels(depth + 1));
    ContainerWork(Levels(depth + 1), Span(buf, next, p), Span(buf, pos, p), p.Ok?, 1 + ExtraBytes(n), calls, written);
  }

  /** Part of a container's children are read: work so far, within `length` bytes. */
  ghost predicate WorkSoFar(levels: nat, length: int, calls: nat, written: nat) {
    calls <= length && written <= Budget(levels, length)
  }

  /** The state of the list loop after some items. */
  ghost predicate ListSoFar(buf: seq<byte>, start: nat, count: u64, levels: nat, needCanon: bool,
                            pos: nat, left: nat, items: seq<Value>, canon: seq<byte>) {
    && start <= pos <= |buf|
    && ParseItems(buf, start, count, levels) == Prepend(items, ParseItems(buf, pos, left, levels))
    && canon == (if needCanon then Head(4, count) + EncItems(items) else [])
    && |EncItems(items)| <= 3 * (pos - start)
    && |items| + left == count
  }

  lemma {:induction false} ListStart(buf: seq<byte>, start: nat, count: u64, levels: nat, needCanon: bool)
    requires start <= |buf|
    ensures ListSoFar(buf, start, count, levels, needCanon, start, count, [], if needCanon then Head(4, count) else [])
  {
    hide ParseItems, Head;
    EmptyPrepend(ParseItems(buf, start, count, levels));
    assert Head(4, count) + [] == Head(4, count);
  }

  lemma {:induction false} ListStep(buf: seq<byte>, start: nat, count: u64, levels: nat, needCanon: bool,
                                    pos: nat, left: nat, items: seq<Value>, canon: seq<byte>)
    requires ListSoFar(buf, start, count, levels, needCanon, pos, left, items, canon) && left > 0
    requires Parse(buf, pos, levels).Ok?
    ensures var p := Parse(buf, pos, levels).value;
      ListSoFar(buf, start, count, levels, needCanon, p.next, left - 1, items + [p.value],
                if needCanon then canon + Enc(p.value) else [])
  {
    hide Parse, ParseItems, EncItems, Enc, Head, Proper, Height, Prepend;
    ItemRead(buf, pos, left, levels, items);
  }

  lemma {:induction false} ListDone(buf: seq<byte>, start: nat, count: u64, levels: nat, needCanon: bool,
                                    pos: nat, items: seq<Value>, canon: seq<byte>, calls: nat, written: nat)
    requires ListSoFar(buf, start, count, levels, needCanon, pos, 0, items, canon)
    requires WorkSoFar(levels, pos - start, calls, written)
    ensures var p := ParseItems(buf, start, count, levels);
      && p == Ok(Parsed(items, pos))
      && CarryList(p, needCanon) == Ok(Decoded(List(items), canon, pos))
      && WithinContainer(levels, Span(buf, start, p), true, 1 + ExtraBytes(count), calls, written + |canon|)
  {
    hide EncItems, Head;
    NoMoreItems(buf, pos, levels, items);
  }

  lemma {:induction false} ListRefused(buf: seq<byte>, start: nat, count: u64, levels: nat, needCanon: bool,
                                       pos: nat, left: nat, items: seq<Value>, canon: seq<byte>, calls: nat,
                                       written: nat)
    requires ListSoFar(buf, start, count, levels, needCanon, pos, left, items, canon) && left > 0
    requires Parse(buf, pos, levels).Err? && Within(levels, |buf| - start, false, calls, written)
    ensures var p := ParseItems(buf, start, count, levels);
      && p == Err(Parse(buf, pos, levels).error)
      && WithinContainer(levels, Span(buf, start, p), false, 1 + ExtraBytes(count), calls, written + |canon|)
  {
    hide EncItems, Head, Parse, ParseItems;
    ItemRefused(buf, pos, left, levels);
  }

  method DecodeList(buf: seq<byte>, start: nat, count: u64, depth: nat, needCanon: bool)
    returns (r: Result<Decoded, DecodeError>, ghost calls: nat, ghost written: nat)
    requires start <= |buf|
    ensures r == CarryList(ParseItems(buf, start, count, Levels(depth)), needCanon)
    ensures var p := ParseItems(buf, start, count, Levels(depth));
      WithinContainer(Levels(depth), Span(buf, start, p), p.Ok?, 1 + ExtraBytes(count), calls, written)
    decreases Levels(depth), 2
  {
    hide Enc, Parse, ParseItems, Head, ListSoFar, WithinContainer;
    ghost var levels := Levels(depth);
    var items: seq<Value> := [];
    var canon := new ByteBuf();
    if needCanon {
      EncodeHead(4, count, canon);
      assert [] + Head(4, count) == Head(4, count);
    }
    var pos := start;
    calls, written := 0, 0;
    BudgetGrows(levels, 0, 0);
    ListStart(buf, start, count, levels, needCanon);
    var i := 0;
    while i < count
      invariant 0 <= i <= count && start <= pos <= |buf|
      invariant ListSoFar(buf, start, count, levels, needCanon, pos, count - i, items, canon.bytes)
      invariant WorkSoFar(levels, pos - start, calls, written)
      invariant !needCanon ==> canon.bytes == []
    {
      var item, c, w := DecodeOne(buf, pos, depth, needCanon);
      ghost var p := Parse(buf, pos, levels);
      WorkAdds(levels, pos - start, Span(buf, pos, p), p.Ok?, calls, c, written, w);
      calls, written := calls + c, written + w;
      if item.Err? {
        ListRefused(buf, start, count, levels, needCanon, pos, count - i, items, canon.bytes, calls, written);
        return Err(item.error), calls, written + |canon.bytes|;
      }
      ListStep(buf, start, count, levels, needCanon, pos, count - i, items, canon.bytes);
      ParseGood(buf, pos, levels);
      if needCanon { canon.Extend(item.value.canon); }
      items := items + [item.value.value];
      pos := item.value.next;
      i := i + 1;
    }
    ListDone(buf, start, count, levels, needCanon, pos, items, canon.bytes, calls, written);
    return Ok(Decoded(List(items), canon.bytes, pos)), calls, written + |canon.bytes|;
  }

  // --- maps ---------------------------------------------------------------------------

  /** Every slot's value has its canonical bytes at the same index. */
  ghost predicate ValuesEncoded(rows: seq<Row<Value, Value>>, valsCanon: seq<seq<byte>>) {
    |valsCanon| == |rows| && forall i :: 0 <= i < |rows| ==> valsCanon[i] == Enc(rows[i].val)
  }

  /** The slots, the index into them, and the canonical bytes kept beside them. */
  ghost predicate MapState(rows: seq<Row<Value, Value>>, pairs: seq<Entry>, index: map<seq<byte>, nat>,
                           valsCanon: seq<seq<byte>>, needCanon: bool) {
    && pairs == Entries(rows)
    && DistinctIds(rows)
    && Labelled(rows)
    && Indexed(index, rows)
    && (needCanon ==> ValuesEncoded(rows, valsCanon))
  }

  /** Rows with the same ids serve the same index. */
  lemma {:induction false} SameIds(rows: seq<Row<Value, Value>>, after: seq<Row<Value, Value>>,
                                   index: map<seq<byte>, nat>)
    requires DistinctIds(rows) && Indexed(index, rows)
    requires |after| == |rows| && forall i :: 0 <= i < |rows| ==> after[i].id == rows[i].id
    ensures DistinctIds(after) && Indexed(index, after)
  {
  }

  lemma {:induction false} EntryReplaced(rows: seq<Row<Value, Value>>, i: nat, val: Value)
    requires Labelled(rows) && i < |rows|
    ensures var after := rows[i := Row(rows[i].id, rows[i].key, val)];
      Labelled(after) && Entries(after) == Entries(rows)[i := Entry(rows[i].key, val)]
  {
    hide Enc;
  }

  lemma {:induction false} RowReplaced(rows: seq<Row<Value, Value>>, index: map<seq<byte>, nat>, i: nat, val: Value)
    requires DistinctIds(rows) && Labelled(rows) && Indexed(index, rows) && i < |rows|
    ensures var after := rows[i := Row(rows[i].id, rows[i].key, val)];
      && DistinctIds(after)
      && Labelled(after)
      && Indexed(index, after)
      && Entries(after) == Entries(rows)[i := Entry(rows[i].key, val)]
  {
    hide DistinctIds, Labelled, Indexed, Entries;
    SameIds(rows, rows[i := Row(rows[i].id, rows[i].key, val)], index);
    EntryReplaced(rows, i, val);
  }

  lemma {:induction false} EntryAppended(rows: seq<Row<Value, Value>>, r: Row<Value, Value>)
    ensures Entries(rows + [r]) == Entries(rows) + [Entry(r.key, r.val)]
  {
  }

  lemma {:induction false} RowAppended(rows: seq<Row<Value, Value>>, index: map<seq<byte>, nat>, r: Row<Value, Value>)
    requires DistinctIds(rows) && Labelled(rows) && Indexed(index, rows) && r.id !in index && r.id == Enc(r.key)
    ensures DistinctIds(rows + [r]) && Labelled(rows + [r]) && Indexed(index[r.id := |rows|], rows + [r])
    ensures Entries(rows + [r]) == Entries(rows) + [Entry(r.key, r.val)]
  {
    hide Enc, Entries;
    IndexGrows(index, rows, r);
    EntryAppended(rows, r);
    assert forall i :: 0 <= i < |rows| ==> rows[i].id != r.id;
    hide Indexed;
  }

  /** A key the index knows: its slot takes the new value. */
  lemma {:induction false} PutKnown(rows: seq<Row<Value, Value>>, pairs: seq<Entry>, index: map<seq<byte>, nat>,
                                    valsCanon: seq<seq<byte>>, needCanon: bool, e: Entry)
    requires MapState(rows, pairs, index, valsCanon, needCanon) && Enc(e.key) in index
    ensures var i := index[Enc(e.key)];
      && i < |pairs|
      && (needCanon ==> i < |valsCanon|)
      && MapState(Put(rows, RowOf(e)), pairs[i := Entry(pairs[i].key, e.val)], index,
                  if needCanon then valsCanon[i := Enc(e.val)] else valsCanon, needCanon)
  {
    hide Enc, Labelled, DistinctIds, SlotOf, Entries;
    var i := index[Enc(e.key)];
    IndexFinds(index, rows, Enc(e.key));
    RowReplaced(rows, index, i, e.val);
    assert Put(rows, RowOf(e)) == rows[i := Row(rows[i].id, rows[i].key, e.val)];
    hide Indexed, Put, RowOf;
  }

  /** A key the index does not know: a new slot at the end. */
  lemma {:induction false} PutNew(rows: seq<Row<Value, Value>>, pairs: seq<Entry>, index: map<seq<byte>, nat>,
                                  valsCanon: seq<seq<byte>>, needCanon: bool, e: Entry)
    requires MapState(rows, pairs, index, valsCanon, needCanon) && Enc(e.key) !in index
    ensures MapState(Put(rows, RowOf(e)), pairs + [e], index[Enc(e.key) := |pairs|],
                     if needCanon then valsCanon + [Enc(e.val)] else valsCanon, needCanon)
  {
    hide Enc, Labelled, DistinctIds, SlotOf, Entries, Indexed;
    IndexFinds(index, rows, Enc(e.key));
    RowAppended(rows, index, RowOf(e));
    assert Put(rows, RowOf(e)) == rows + [RowOf(e)];
    assert Entry(e.key, e.val) == e;
    hide Put;
  }

  /** The state of the map loop after some entries. */
  ghost predicate MapSoFar(buf: seq<byte>, start: nat, count: u64, levels: nat, pos: nat, left: nat, raw: seq<Entry>) {
    && start <= pos <= |buf|
    && ParseEntries(buf, start, count, levels) == Prepend(raw, ParseEntries(buf, pos, left, levels))
    && |Join(EncEntries(raw))| <= 3 * (pos - start)
    && |raw| + left == count
  }

  lemma {:induction false} MapStart(buf: seq<byte>, start: nat, count: u64, levels: nat)
    requires start <= |buf|
    ensures MapSoFar(buf, start, count, levels, start, count, [])
    ensures MapState(Fold(Rows([])), [], map[], [], true) && MapState(Fold(Rows([])), [], map[], [], false)
  {
    hide ParseEntries;
    EmptyPrepend(ParseEntries(buf, start, count, levels));
    assert Rows([]) == [];
  }

  lemma {:induction false} JoinEntriesSnoc(raw: seq<Entry>, e: Entry)
    ensures Join(EncEntries(raw + [e])) == Join(EncEntries(raw)) + Enc(e.key) + Enc(e.val)
  {
    hide Enc;
    assert EncEntries(raw + [e]) == EncEntries(raw) + [EncEntry(e)];
    JoinSnoc(EncEntries(raw), EncEntry(e));
  }

  lemma {:induction false} MapStep(buf: seq<byte>, start: nat, count: u64, levels: nat, pos: nat, left: nat,
                                   raw: seq<Entry>)
    requires MapSoFar(buf, start, count, levels, pos, left, raw) && left > 0 && ParseEntry(buf, pos, levels).Ok?
    ensures var p := ParseEntry(buf, pos, levels).value;
      && MapSoFar(buf, start, count, levels, p.next, left - 1, raw + [p.value])
      && Fold(Rows(raw + [p.value])) == Put(Fold(Rows(raw)), RowOf(p.value))
  {
    hide ParseEntry, ParseEntries, Enc, EncEntries, Join, GoodEntry, Prepend, Fold, Rows, RowOf, Put;
    var p := ParseEntry(buf, pos, levels).value;
    EntryRead(buf, pos, left, levels, raw);
    ParseEntryGood(buf, pos, levels);
    JoinEntriesSnoc(raw, p.value);
    RowsSnoc(raw, p.value);
  }

  lemma {:induction false} NoMoreEntries(buf: seq<byte>, pos: nat, levels: nat, raw: seq<Entry>)
    ensures Prepend(raw, ParseEntries(buf, pos, 0, levels)) == Ok(Parsed(raw, pos))
  {
    assert raw + [] == raw;
  }

  lemma {:induction false} ExtraBytesGrow(m: nat, n: nat)
    requires m <= n
    ensures ExtraBytes(m) <= ExtraBytes(n)
  {
  }

  lemma {:induction false} ResolvedLength(raw: seq<Entry>, length: nat)
    requires |Join(EncEntries(raw))| <= length && |raw| < TWO64
    ensures |Enc(Map(Resolve(raw)))| <= 1 + ExtraBytes(|raw|) + length
  {
    hide EncEntries, Join, Sorted, Resolve, Head, ExtraBytes, Enc;
    ResolveLength(raw);
    ResolveDistinct(raw);
    ExtraBytesGrow(|Resolve(raw)|, |raw|);
    EncMapLength(Resolve(raw));
  }

  lemma {:induction false} EncMapLength(es: seq<Entry>)
    requires |es| < TWO64
    ensures |Enc(Map(es))| == 1 + ExtraBytes(|es|) + |Join(Sorted(EncEntries(es)))|
  {
    hide EncEntries, Join, Sorted, ExtraBytes, ToBE, AdditionalInfo;
  }

  lemma {:induction false} MapDone(buf: seq<byte>, start: nat, count: u64, levels: nat, pos: nat, raw: seq<Entry>,
                                   calls: nat, written: nat)
    requires MapSoFar(buf, start, count, levels, pos, 0, raw) && WorkSoFar(levels, pos - start, calls, written)
    ensures var p := ParseEntries(buf, start, count, levels);
      && p == Ok(Parsed(raw, pos))
      && WithinContainer(levels, Span(buf, start, p), true, 1 + ExtraBytes(count), calls,
                         written + |Enc(Map(Resolve(raw)))|)
  {
    hide EncEntries, Enc, Join, Resolve, ExtraBytes;
    NoMoreEntries(buf, pos, levels, raw);
    ResolvedLength(raw, 3 * (pos - start));
  }

  lemma {:induction false} MapRefused(buf: seq<byte>, start: nat, count: u64, levels: nat, pos: nat, left: nat,
                                      raw: seq<Entry>, calls: nat, written: nat)
    requires MapSoFar(buf, start, count, levels, pos, left, raw) && left > 0 && ParseEntry(buf, pos, levels).Err?
    requires Within(levels, |buf| - start, false, calls, written)
    ensures var p := ParseEntries(buf, start, count, levels);
      && p == Err(ParseEntry(buf, pos, levels).error)
      && WithinContainer(levels, Span(buf, start, p), false, 1 + ExtraBytes(count), calls, written)
  {
    hide EncEntries, ParseEntry, ParseEntries, Join, ExtraBytes;
    EntryRefused(buf, pos, left, levels);
  }

  /** Key and value of one entry; the key's canonical bytes always, the value's if asked. */
  method DecodeEntry(buf: seq<byte>, pos: nat, depth: nat, needCanon: bool)
    returns (r: Result<(Decoded, Decoded), DecodeError>, ghost calls: nat, ghost written: nat)
    requires pos <= |buf|
    ensures var p := ParseEntry(buf, pos, Levels(depth));
      Within(Levels(depth), Span(buf, pos, p), p.Ok?, calls, written)
    ensures var p := ParseEntry(buf, pos, Levels(depth));
      && (p.Err? ==> r == Err(p.error))
      && (p.Ok? ==>
            && pos <= p.value.next <= |buf|
            && r.Ok?
            && r.value.0.value == p.value.value.key
            && r.value.0.canon == Enc(p.value.value.key)
            && r.value.1 == Decoded(p.value.value.val, if needCanon then Enc(p.value.value.val) else [], p.value.next))
    decreases Levels(depth), 2
  {
    hide Enc, Parse, Within;
    ghost var levels := Levels(depth);
    ghost var pk := Parse(buf, pos, levels);
    var k, c, w := DecodeOne(buf, pos, depth, true);
    if k.Err? { return Err(k.error), c, w; }
    ParseGood(buf, pos, levels);
    assert c <= pk.value.next - pos && w <= Budget(levels, pk.value.next - pos) by {
      WithinMeans(levels, pk.value.next - pos, c, w);
    }
    var v, c2, w2 := DecodeOne(buf, k.value.next, depth, needCanon);
    ghost var pv := Parse(buf, k.value.next, levels);
    WorkAdds(levels, pk.value.next - pos, Span(buf, k.value.next, pv), pv.Ok?, c, c2, w, w2);
    if v.Err? { return Err(v.error), c + c2, w + w2; }
    ParseGood(buf, k.value.next, levels);
    return Ok((k.value, v.value)), c + c2, w + w2;
  }

  lemma {:induction false} WithinMeans(levels: nat, span: int, calls: nat, written: nat)
    requires Within(levels, span, true, calls, written)
    ensures calls <= span && written <= Budget(levels, span)
  {
  }

  method DecodeMap(buf: seq<byte>, start: nat, count: u64, depth: nat, needCanon: bool)
    returns (r: Result<Decoded, DecodeError>, ghost calls: nat, ghost written: nat)
    requires start <= |buf|
    ensures r == CarryMap(ParseEntries(buf, start, count, Levels(depth)), needCanon)
    ensures var p := ParseEntries(buf, start, count, Levels(depth));
      WithinContainer(Levels(depth), Span(buf, start, p), p.Ok?, 1 + ExtraBytes(count), calls, written)
    decreases Levels(depth), 3
  {
    hide Enc, Parse, ParseEntry, ParseEntries, MapSoFar, MapState, WithinContainer, Fold, Rows, Put, RowOf, Entries,
      Budget;
    ghost var levels := Levels(depth);
    var pairs: seq<Entry> := [];
    var indexOfKey: map<seq<byte>, nat> := map[];
    var valsCanon: seq<seq<byte>> := [];
    ghost var raw: seq<Entry> := [];
    var pos := start;
    calls, written := 0, 0;
    BudgetGrows(levels, 0, 0);
    MapStart(buf, start, count, levels);
    var i := 0;
    while i < count
      invariant 0 <= i <= count && start <= pos <= |buf|
      invariant MapSoFar(buf, start, count, levels, pos, count - i, raw)
      invariant MapState(Fold(Rows(raw)), pairs, indexOfKey, valsCanon, needCanon)
      invariant WorkSoFar(levels, pos - start, calls, written)
    {
      var entry, c, w := DecodeEntry(buf, pos, depth, needCanon);
      ghost var p := ParseEntry(buf, pos, levels);
      WorkAdds(levels, pos - start, Span(buf, pos, p), p.Ok?, calls, c, written, w);
      calls, written := calls + c, written + w;
      if entry.Err? {
        MapRefused(buf, start, count, levels, pos, count - i, raw, calls, written);
        return Err(entry.error), calls, written;
      }
      var (k, v) := entry.value;
      ghost var e := p.value.value;
      MapStep(buf, start, count, levels, pos, count - i, raw);
      if k.canon in indexOfKey {
        PutKnown(Fold(Rows(raw)), pairs, indexOfKey, valsCanon, needCanon, e);
        var slot := indexOfKey[k.canon];
        pairs := pairs[slot := Entry(pairs[slot].key, v.value)];
        if needCanon { valsCanon := valsCanon[slot := v.canon]; }
      } else {
        PutNew(Fold(Rows(raw)), pairs, indexOfKey, valsCanon, needCanon, e);
        indexOfKey := indexOfKey[k.canon := |pairs|];
        pairs := pairs + [Entry(k.value, v.value)];
        if needCanon { valsCanon := valsCanon + [v.canon]; }
      }
      raw := raw + [e];
      pos := v.next;
      i := i + 1;
    }
    MapDone(buf, start, count, levels, pos, raw, calls, written);
    assert pairs == Resolve(raw) by { PairsResolved(raw, pairs, indexOfKey, valsCanon, needCanon); }
    if !needCanon {
      NoCanonWithin(levels, pos - start, 1 + ExtraBytes(count), calls, written, |Enc(Map(pairs))|);
      return Ok(Decoded(Map(pairs), [], pos)), calls, written;
    }
    var canon := CanonicalMap(indexOfKey, valsCanon, Fold(Rows(raw)), pairs);
    return Ok(Decoded(Map(pairs), canon, pos)), calls, written + |canon|;
  }

  lemma {:induction false} PairsResolved(raw: seq<Entry>, pairs: seq<Entry>, index: map<seq<byte>, nat>,
                                         valsCanon: seq<seq<byte>>, needCanon: bool)
    requires MapState(Fold(Rows(raw)), pairs, index, valsCanon, needCanon)
    ensures pairs == Resolve(raw)
  {
  }

  lemma {:induction false} NoCanonWithin(levels: nat, span: int, headBytes: nat, calls: nat, written: nat, extra: nat)
    requires WithinContainer(levels, span, true, headBytes, calls, written + extra)
    ensures WithinContainer(levels, span, true, headBytes, calls, written)
  {
  }

  // --- canonical bytes of a map -----------------------------------------------------

  /** The entries an arrangement of the index stands for. */
  ghost function ArrangedKVs(order: seq<(seq<byte>, nat)>, valsCanon: seq<seq<byte>>): (r: seq<KV>)
    requires forall j :: 0 <= j < |order| ==> order[j].1 < |valsCanon|
    ensures |r| == |order| && forall j :: 0 <= j < |r| ==> r[j] == KV(order[j].0, valsCanon[order[j].1])
  {
    seq(|order|, j requires 0 <= j < |order| => KV(order[j].0, valsCanon[order[j].1]))
  }

  function OrderKeys(order: seq<(seq<byte>, nat)>): (r: seq<seq<byte>>)
    ensures |r| == |order| && forall j :: 0 <= j < |r| ==> r[j] == order[j].0
  {
    seq(|order|, j requires 0 <= j < |order| => order[j].0)
  }

  /** `order` lists the index, each key once, in some arrangement. */
  ghost predicate Lists(order: seq<(seq<byte>, nat)>, index: map<seq<byte>, nat>) {
    && (forall j :: 0 <= j < |order| ==> order[j].0 in index && order[j].1 == index[order[j].0])
    && (forall a, b :: 0 <= a < b < |order| ==> order[a].0 != order[b].0)
    && (forall k :: k in index ==> (k, index[k]) in order)
  }

  /** Walks the index in whatever order the hash map yields it. */
  method ListIndex(index: map<seq<byte>, nat>) returns (order: seq<(seq<byte>, nat)>)
    ensures Lists(order, index)
  {
    order := [];
    var rest := index.Keys;
    while rest != {}
      invariant rest <= index.Keys
      invariant forall j :: 0 <= j < |order| ==>
        order[j].0 in index && order[j].0 !in rest && order[j].1 == index[order[j].0]
      invariant forall a, b :: 0 <= a < b < |order| ==> order[a].0 != order[b].0
      invariant forall k :: k in index ==> k in rest || (k, index[k]) in order
      decreases |rest|
    {
      var k :| k in rest;
      order := order + [(k, index[k])];
      rest := rest - {k};
    }
  }

  /** The rows' ids and the values' bytes are the map's encoded entries. */
  lemma {:induction false} RowsEncoded(rows: seq<Row<Value, Value>>, pairs: seq<Entry>, index: map<seq<byte>, nat>,
                                       valsCanon: seq<seq<byte>>)
    requires MapState(rows, pairs, index, valsCanon, true)
    ensures |EncEntries(pairs)| == |rows| == |valsCanon| && DistinctKVs(EncEntries(pairs))
    ensures forall i :: 0 <= i < |rows| ==> EncEntries(pairs)[i] == KV(rows[i].id, valsCanon[i])
    ensures Indexed(index, rows) && DistinctIds(rows)
  {
    hide Enc, Indexed;
  }

  /** Any listing of the index stands for exactly the map's encoded entries. */
  lemma {:induction false} ListedMembers(order: seq<(seq<byte>, nat)>, index: map<seq<byte>, nat>,
                                         valsCanon: seq<seq<byte>>, rows: seq<Row<Value, Value>>, pairs: seq<Entry>)
    requires MapState(rows, pairs, index, valsCanon, true) && Lists(order, index)
    ensures (forall j :: 0 <= j < |order| ==> order[j].1 < |valsCanon|)
    ensures SameMembers(ArrangedKVs(order, valsCanon), EncEntries(pairs))
    ensures DistinctKVs(ArrangedKVs(order, valsCanon)) && DistinctKVs(EncEntries(pairs))
  {
    hide Enc, EncEntries, MapState, DistinctIds;
    RowsEncoded(rows, pairs, index, valsCanon);
    var listed, kvs := ArrangedKVs(order, valsCanon), EncEntries(pairs);
    forall x | x in listed ensures x in kvs {
      var j :| 0 <= j < |listed| && listed[j] == x;
      assert kvs[order[j].1] == x;
    }
    forall x | x in kvs ensures x in listed {
      var i :| 0 <= i < |kvs| && kvs[i] == x;
      assert rows[i].id in index;
      var j :| 0 <= j < |order| && order[j] == (rows[i].id, i);
      assert listed[j] == x;
    }
  }

  /** Sorting the listing sorts what it stands for. */
  lemma {:induction false} SortedListing(order: seq<(seq<byte>, nat)>, valsCanon: seq<seq<byte>>)
    requires forall j :: 0 <= j < |order| ==> order[j].1 < |valsCanon|
    ensures ArrangedKVs(Pick(order, SortOrder(OrderKeys(order))), valsCanon) == Sorted(ArrangedKVs(order, valsCanon))
  {
    assert OrderKeys(order) == Keys(ArrangedKVs(order, valsCanon));
    hide SortOrder, OrderKeys, Keys;
  }

  method CanonicalMap(index: map<seq<byte>, nat>, valsCanon: seq<seq<byte>>, ghost rows: seq<Row<Value, Value>>,
                      ghost pairs: seq<Entry>)
    returns (canon: seq<byte>)
    requires MapState(rows, pairs, index, valsCanon, true)
    ensures canon == Enc(Map(pairs))
  {
    hide Sorted, SortOrder, OrderKeys, EncEntries, Head, MapState, Lists, DistinctKVs, SameMembers;
    var order := ListIndex(index);
    ListedMembers(order, index, valsCanon, rows, pairs);
    SortedForgetsOrder(ArrangedKVs(order, valsCanon), EncEntries(pairs));
    SortedListing(order, valsCanon);
    order := Pick(order, SortOrder(OrderKeys(order)));
    ghost var sorted := ArrangedKVs(order, valsCanon);
    assert sorted == Sorted(EncEntries(pairs)) && |order| == |pairs|;
    assert Enc(Map(pairs)) == Head(5, Wrap(|order|)) + Join(sorted);
    hide Enc, Pick, ArrangedKVs;
    var out := new ByteBuf();
    EncodeHead(5, Wrap(|order|), out);
    assert [] + Head(5, Wrap(|order|)) == Head(5, Wrap(|order|));
    EmitListing(order, valsCanon, out);
    canon := out.bytes;
  }

  method EmitListing(order: seq<(seq<byte>, nat)>, valsCanon: seq<seq<byte>>, out: ByteBuf)
    requires forall j :: 0 <= j < |order| ==> order[j].1 < |valsCanon|
    modifies out
    ensures out.bytes == old(out.bytes) + Join(ArrangedKVs(order, valsCanon))
  {
    ghost var kvs := ArrangedKVs(order, valsCanon);
    var i := 0;
    while i < |order|
      invariant 0 <= i <= |order|
      invariant out.bytes + Join(kvs[i..]) == old(out.bytes) + Join(kvs)
    {
      assert kvs[i..][0] == kvs[i] && kvs[i..][1..] == kvs[i + 1..];
      ghost var before := out.bytes;
      out.Extend(order[i].0);
      out.Extend(valsCanon[order[i].1]);
      assert out.bytes + Join(kvs[i + 1..]) == before + Join(kvs[i..]);
      i := i + 1;
    }
    assert out.bytes == out.bytes + Join(kvs[i..]);
  }

  // --- the entry point --------------------------------------------------------------

  /** `decode`: the parser's answer on the whole buffer, without canonical bytes. */
  method Decode(buf: seq<byte>) returns (r: Result<Value, DecodeError>)
    ensures r == CborParse.Decode(buf)
  {
    hide Parse, Enc;
    var d, calls, written := DecodeOne(buf, 0, 0, false);
    if d.Err? { return Err(d.error); }
    if d.value.next != |buf| { return Err(TrailingBytes); }
    return Ok(d.value.value);
  }
}
