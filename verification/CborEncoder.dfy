/** The encoder as shipped: it appends to an output buffer, encodes each map entry
    into buffers of its own, and sorts them by key bytes (src/cbor.rs). */
module CborEncoder {
  import opened ByteStrings
  import opened ByteOrder
  import opened Wrappers
  import opened CborValue
  import Utf8

  /** A `Vec<u8>` that is only appended to. */
  class ByteBuf {
    var bytes: seq<byte>

    constructor ()
      ensures bytes == []
    {
      bytes := [];
    }

    method Extend(more: seq<byte>)
      modifies this
      ensures bytes == old(bytes) + more
    {
      bytes := bytes + more;
    }
  }

  /** `Ok`, or the first integer that is out of range. */
  function Outcome(bad: Option<int>): Result<(), int> {
    match bad
    case None => Ok(())
    case Some(n) => Err(n)
  }

  method EncodeHead(major: nat, n: u64, out: ByteBuf)
    requires major < 8
    modifies out
    ensures out.bytes == old(out.bytes) + Head(major, n)
  {
    if n <= 23 {
      out.Extend([major * 32 + n]);
    } else if n <= 0xFF {
      out.Extend([major * 32 + 24]);
      out.Extend(ToBE(n, 1));
    } else if n <= 0xFFFF {
      out.Extend([major * 32 + 25]);
      out.Extend(ToBE(n, 2));
    } else if n <= 0xFFFF_FFFF {
      out.Extend([major * 32 + 26]);
      out.Extend(ToBE(n, 4));
    } else {
      out.Extend([major * 32 + 27]);
      out.Extend(ToBE(n, 8));
    }
  }

  method EncodeInt(n: int, out: ByteBuf) returns (r: Result<(), int>)
    modifies out
    ensures r == Outcome(FirstBad(Int(n)))
    ensures r.Ok? ==> out.bytes == old(out.bytes) + EncInt(n)
  {
    hide Head;
    if n >= 0 {
      if n < TWO64 {
        EncodeHead(0, n, out);
        return Ok(());
      }
      return Err(n);
    }
    var count := -1 - n;
    if 0 <= count < TWO64 {
      EncodeHead(1, count, out);
      return Ok(());
    }
    return Err(n);
  }

  /** Appends exactly the canonical bytes, or reports the first bad integer. */
  method EncodeValue(value: Value, out: ByteBuf) returns (r: Result<(), int>)
    modifies out
    ensures r == Outcome(FirstBad(value))
    ensures r.Ok? ==> out.bytes == old(out.bytes) + Enc(value)
    decreases value, 0
  {
    hide Head, EncItems, EncEntries, Sorted, Join, Utf8.Encode, FirstBadItem, FirstBadEntry, ToBE;
    match value
    case Int(n) =>
      r := EncodeInt(n, out);
    case Bytes(b) =>
      EncodeHead(2, Wrap(|b|), out);
      out.Extend(b);
      return Ok(());
    case Text(s) =>
      var b := Utf8.Encode(s);
      EncodeHead(3, Wrap(|b|), out);
      out.Extend(b);
      return Ok(());
    case List(items) =>
      r := EncodeList(items, out);
    case Map(entries) =>
      r := EncodeMap(entries, out);
    case Null =>
      out.Extend([0xF6]);
      return Ok(());
    case Float(bits) =>
      out.Extend([0xFB]);
      out.Extend(ToBE(bits, 8));
      return Ok(());
  }

  method EncodeList(items: seq<Value>, out: ByteBuf) returns (r: Result<(), int>)
    modifies out
    ensures r == Outcome(FirstBadItem(items))
    ensures r.Ok? ==> out.bytes == old(out.bytes) + Head(4, Wrap(|items|)) + EncItems(items)
    decreases items, 1
  {
    hide Head, Enc, FirstBad;
    EncodeHead(4, Wrap(|items|), out);
    ghost var start := out.bytes;
    var i := 0;
    while i < |items|
      invariant 0 <= i <= |items|
      invariant FirstBadItem(items) == FirstBadItem(items[i..])
      invariant out.bytes + EncItems(items[i..]) == start + EncItems(items)
    {
      assert items[i..][0] == items[i] && items[i..][1..] == items[i + 1..];
      ghost var before := out.bytes;
      var outcome := EncodeValue(items[i], out);
      if outcome.Err? { return outcome; }
      assert out.bytes + EncItems(items[i + 1..]) == before + (Enc(items[i]) + EncItems(items[i + 1..]));
      i := i + 1;
    }
    return Ok(());
  }

  /** Key and value of one entry, each in a buffer of its own. */
  method EncodePair(e: Entry) returns (r: Result<KV, int>)
    ensures FirstBadOfEntry(e).None? ==> r == Ok(EncEntry(e))
    ensures FirstBadOfEntry(e).Some? ==> r == Err(FirstBadOfEntry(e).value)
    decreases e, 0
  {
    hide Enc, FirstBad;
    var kbuf := new ByteBuf();
    var outcome := EncodeValue(e.key, kbuf);
    if outcome.Err? { return Err(outcome.error); }
    var vbuf := new ByteBuf();
    outcome := EncodeValue(e.val, vbuf);
    if outcome.Err? { return Err(outcome.error); }
    assert [] + Enc(e.key) == Enc(e.key) && [] + Enc(e.val) == Enc(e.val);
    return Ok(KV(kbuf.bytes, vbuf.bytes));
  }

  method EncodePairs(entries: seq<Entry>) returns (r: Result<seq<KV>, int>)
    ensures FirstBadEntry(entries).None? ==> r == Ok(EncEntries(entries))
    ensures FirstBadEntry(entries).Some? ==> r == Err(FirstBadEntry(entries).value)
    decreases entries, 1
  {
    hide EncEntry, FirstBadOfEntry;
    var encoded: seq<KV> := [];
    var i := 0;
    while i < |entries|
      invariant 0 <= i <= |entries|
      invariant FirstBadEntry(entries) == FirstBadEntry(entries[i..])
      invariant encoded == EncEntries(entries)[..i]
    {
      assert entries[i..][0] == entries[i] && entries[i..][1..] == entries[i + 1..];
      var pair := EncodePair(entries[i]);
      if pair.Err? { return Err(pair.error); }
      encoded := encoded + [pair.value];
      i := i + 1;
    }
    assert encoded == EncEntries(entries);
    return Ok(encoded);
  }

  method EncodeMap(entries: seq<Entry>, out: ByteBuf) returns (r: Result<(), int>)
    modifies out
    ensures r == Outcome(FirstBadEntry(entries))
    ensures r.Ok? ==>
      out.bytes == old(out.bytes) + Head(5, Wrap(|entries|)) + Join(Sorted(EncEntries(entries)))
    decreases entries, 2
  {
    hide Head, EncEntries, FirstBadEntry, Sorted;
    var pairs := EncodePairs(entries);
    if pairs.Err? { return Err(pairs.error); }
    var encoded := Sorted(pairs.value);
    EncodeHead(5, Wrap(|encoded|), out);
    ghost var start := out.bytes;
    var i := 0;
    while i < |encoded|
      invariant 0 <= i <= |encoded|
      invariant out.bytes + Join(encoded[i..]) == start + Join(encoded)
    {
      assert encoded[i..][0] == encoded[i] && encoded[i..][1..] == encoded[i + 1..];
      ghost var before := out.bytes;
      out.Extend(encoded[i].key);
      out.Extend(encoded[i].val);
      assert out.bytes + Join(encoded[i + 1..]) == before + Join(encoded[i..]);
      i := i + 1;
    }
    return Ok(());
  }

  /** The canonical bytes, or the first out-of-range integer. */
  method Encode(value: Value) returns (r: Result<seq<byte>, int>)
    ensures FirstBad(value).None? ==> r == Ok(Enc(value))
    ensures FirstBad(value).Some? ==> r == Err(FirstBad(value).value)
  {
    hide Enc, FirstBad;
    var out := new ByteBuf();
    var outcome := EncodeValue(value, out);
    if outcome.Err? { return Err(outcome.error); }
    assert [] + Enc(value) == Enc(value);
    return Ok(out.bytes);
  }
}
