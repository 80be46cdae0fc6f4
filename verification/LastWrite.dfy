/** A list of keyed rows read in order: a repeated key keeps the slot and the key
    it was first written with, and takes the last value (src/cbor.rs, decode_map). */
module LastWrite {
  import opened ByteStrings

  /** `id` identifies the key; two keys are the same when their ids are. */
  datatype Row<+K, +V> = Row(id: seq<byte>, key: K, val: V)

  /** The slot holding `id`, or the number of slots. */
  function SlotOf<K, V>(rows: seq<Row<K, V>>, id: seq<byte>): (i: nat)
    ensures i <= |rows|
    ensures i < |rows| ==> rows[i].id == id
    ensures forall j :: 0 <= j < i ==> rows[j].id != id
  {
    if rows == [] || rows[0].id == id then 0 else 1 + SlotOf(rows[1..], id)
  }

  function Put<K, V>(rows: seq<Row<K, V>>, r: Row<K, V>): seq<Row<K, V>> {
    var i := SlotOf(rows, r.id);
    if i < |rows| then rows[i := Row(r.id, rows[i].key, r.val)] else rows + [r]
  }

  function Fold<K, V>(raw: seq<Row<K, V>>): seq<Row<K, V>> {
    if raw == [] then [] else Put(Fold(raw[..|raw| - 1]), raw[|raw| - 1])
  }

  ghost predicate DistinctIds<K, V>(rows: seq<Row<K, V>>) {
    forall i, j :: 0 <= i < j < |rows| ==> rows[i].id != rows[j].id
  }

  lemma {:induction false} FoldDistinct<K, V>(raw: seq<Row<K, V>>)
    ensures DistinctIds(Fold(raw)) && |Fold(raw)| <= |raw|
  {
    if raw != [] { FoldDistinct(raw[..|raw| - 1]); }
  }

  lemma {:induction false} FoldSnoc<K, V>(raw: seq<Row<K, V>>, r: Row<K, V>)
    ensures Fold(raw + [r]) == Put(Fold(raw), r)
  {
    assert (raw + [r])[..|raw|] == raw;
  }

  lemma {:induction false} FoldOfDistinct<K, V>(raw: seq<Row<K, V>>)
    requires DistinctIds(raw)
    ensures Fold(raw) == raw
  {
    if raw != [] {
      var init, r := raw[..|raw| - 1], raw[|raw| - 1];
      assert DistinctIds(init);
      FoldOfDistinct(init);
      PutUnknown(init, r);
      assert raw == init + [r];
    }
  }

  lemma {:induction false} PutUnknown<K, V>(rows: seq<Row<K, V>>, r: Row<K, V>)
    requires forall j :: 0 <= j < |rows| ==> rows[j].id != r.id
    ensures Put(rows, r) == rows + [r]
  {
  }

  // --- what the fold means ------------------------------------------------------

  ghost predicate IsFirst<K, V>(raw: seq<Row<K, V>>, f: nat) {
    f < |raw| && forall i :: 0 <= i < f ==> raw[i].id != raw[f].id
  }

  ghost predicate IsLast<K, V>(raw: seq<Row<K, V>>, l: nat) {
    l < |raw| && forall i :: l < i < |raw| ==> raw[i].id != raw[l].id
  }

  /** `r` has the key as first written and the value as last written. */
  ghost predicate Resolved<K, V>(raw: seq<Row<K, V>>, r: Row<K, V>, f: nat, l: nat) {
    && IsFirst(raw, f)
    && IsLast(raw, l)
    && raw[f].id == raw[l].id
    && r == Row(raw[f].id, raw[f].key, raw[l].val)
  }

  ghost predicate HasSlot<K, V>(rows: seq<Row<K, V>>, id: seq<byte>) {
    exists i :: 0 <= i < |rows| && rows[i].id == id
  }

  /** `firsts` and `lasts` say where each slot's key and value were written; slots
      stand in the order of first writing; every key written has a slot. */
  ghost predicate Resolves<K, V>(raw: seq<Row<K, V>>, rows: seq<Row<K, V>>, firsts: seq<nat>, lasts: seq<nat>) {
    && |firsts| == |lasts| == |rows|
    && (forall i :: 0 <= i < |rows| ==> Resolved(raw, rows[i], firsts[i], lasts[i]))
    && (forall i, j :: 0 <= i < j < |rows| ==> firsts[i] < firsts[j])
    && (forall r :: 0 <= r < |raw| ==> HasSlot(rows, raw[r].id))
  }

  lemma {:induction false} FoldResolves<K, V>(raw: seq<Row<K, V>>) returns (firsts: seq<nat>, lasts: seq<nat>)
    ensures Resolves(raw, Fold(raw), firsts, lasts)
  {
    if raw == [] { return [], []; }
    var init, r := raw[..|raw| - 1], raw[|raw| - 1];
    firsts, lasts := FoldResolves(init);
    assert raw == init + [r];
    FoldDistinct(init);
    var i := SlotOf(Fold(init), r.id);
    if i < |Fold(init)| {
      PutRepeated(init, Fold(init), firsts, lasts, r);
      lasts := lasts[i := |init|];
    } else {
      PutFresh(init, Fold(init), firsts, lasts, r);
      firsts, lasts := firsts + [|init|], lasts + [|init|];
    }
  }

  lemma {:induction false} ResolvedStill<K, V>(raw: seq<Row<K, V>>, r: Row<K, V>, row: Row<K, V>, f: nat, l: nat)
    requires Resolved(raw, row, f, l) && row.id != r.id
    ensures Resolved(raw + [r], row, f, l)
  {
  }

  lemma {:induction false} ResolvedAnew<K, V>(raw: seq<Row<K, V>>, r: Row<K, V>, row: Row<K, V>, f: nat, l: nat)
    requires Resolved(raw, row, f, l) && row.id == r.id
    ensures Resolved(raw + [r], Row(r.id, row.key, r.val), f, |raw|)
  {
  }

  lemma {:induction false} SlotsKept<K, V>(raw: seq<Row<K, V>>, rows: seq<Row<K, V>>, r: Row<K, V>,
                                           after: seq<Row<K, V>>)
    requires forall k :: 0 <= k < |raw| ==> HasSlot(rows, raw[k].id)
    requires |rows| <= |after| && forall i :: 0 <= i < |rows| ==> after[i].id == rows[i].id
    requires HasSlot(after, r.id)
    ensures forall k :: 0 <= k < |raw| + 1 ==> HasSlot(after, (raw + [r])[k].id)
  {
    forall k | 0 <= k < |raw| ensures HasSlot(after, raw[k].id) {
      assert HasSlot(rows, raw[k].id);
      var s :| 0 <= s < |rows| && rows[s].id == raw[k].id;
      assert after[s].id == raw[k].id;
    }
  }

  /** A key in no slot is its own first and last occurrence. */
  lemma {:induction false} PutFresh<K, V>(raw: seq<Row<K, V>>, rows: seq<Row<K, V>>, firsts: seq<nat>,
                                          lasts: seq<nat>, r: Row<K, V>)
    requires Resolves(raw, rows, firsts, lasts) && SlotOf(rows, r.id) == |rows|
    ensures Resolves(raw + [r], Put(rows, r), firsts + [|raw|], lasts + [|raw|])
  {
    var all, after := raw + [r], rows + [r];
    forall k | 0 <= k < |raw| ensures raw[k].id != r.id {
      assert HasSlot(rows, raw[k].id);
    }
    assert Resolved(all, r, |raw|, |raw|);
    hide SlotOf, Resolved;
    assert after[|rows|].id == r.id;
    SlotsKept(raw, rows, r, after);
    forall j | 0 <= j < |rows| ensures Resolved(all, rows[j], firsts[j], lasts[j]) {
      ResolvedStill(raw, r, rows[j], firsts[j], lasts[j]);
    }
    assert forall j :: 0 <= j < |rows| ==> firsts[j] < |raw| by {
      forall j | 0 <= j < |rows| ensures firsts[j] < |raw| { FirstInside(raw, rows[j], firsts[j], lasts[j]); }
    }
  }

  lemma {:induction false} FirstInside<K, V>(raw: seq<Row<K, V>>, row: Row<K, V>, f: nat, l: nat)
    requires Resolved(raw, row, f, l)
    ensures f < |raw|
  {
  }

  /** A key already in a slot leaves first occurrences alone and becomes the last. */
  lemma {:induction false} PutRepeated<K, V>(raw: seq<Row<K, V>>, rows: seq<Row<K, V>>, firsts: seq<nat>,
                                             lasts: seq<nat>, r: Row<K, V>)
    requires Resolves(raw, rows, firsts, lasts) && DistinctIds(rows) && SlotOf(rows, r.id) < |rows|
    ensures Resolves(raw + [r], Put(rows, r), firsts, lasts[SlotOf(rows, r.id) := |raw|])
  {
    hide SlotOf, Resolved;
    var i, all, after := SlotOf(rows, r.id), raw + [r], Put(rows, r);
    forall j | 0 <= j < |rows| ensures Resolved(all, after[j], firsts[j], if j == i then |raw| else lasts[j]) {
      if j == i {
        ResolvedAnew(raw, r, rows[j], firsts[j], lasts[j]);
      } else {
        ResolvedStill(raw, r, rows[j], firsts[j], lasts[j]);
      }
    }
    assert after[i].id == r.id;
    SlotsKept(raw, rows, r, after);
  }

  // --- size ---------------------------------------------------------------------

  /** Bytes of the ids together with what `w` weighs the values at. */
  ghost function Weight<K, V>(rows: seq<Row<K, V>>, w: V -> nat): nat {
    if rows == [] then 0 else |rows[0].id| + w(rows[0].val) + Weight(rows[1..], w)
  }

  lemma {:induction false} PutWeight<K, V>(rows: seq<Row<K, V>>, r: Row<K, V>, w: V -> nat)
    ensures Weight(Put(rows, r), w) <= Weight(rows, w) + |r.id| + w(r.val)
  {
    if rows != [] {
      if rows[0].id == r.id {
        assert Put(rows, r)[1..] == rows[1..];
      } else {
        PutWeight(rows[1..], r, w);
        assert Put(rows, r)[1..] == Put(rows[1..], r);
        assert Put(rows, r)[0] == rows[0];
      }
    }
  }

  lemma {:induction false} WeightSnoc<K, V>(rows: seq<Row<K, V>>, r: Row<K, V>, w: V -> nat)
    ensures Weight(rows + [r], w) == Weight(rows, w) + |r.id| + w(r.val)
  {
    if rows != [] {
      WeightSnoc(rows[1..], r, w);
      assert (rows + [r])[1..] == rows[1..] + [r];
    }
  }

  /** Dropping overwritten values never makes the rows larger. */
  lemma {:induction false} FoldWeight<K, V>(raw: seq<Row<K, V>>, w: V -> nat)
    ensures Weight(Fold(raw), w) <= Weight(raw, w)
  {
    if raw != [] {
      var init, r := raw[..|raw| - 1], raw[|raw| - 1];
      FoldWeight(init, w);
      PutWeight(Fold(init), r, w);
      assert raw == init + [r];
      WeightSnoc(init, r, w);
    }
  }
}
