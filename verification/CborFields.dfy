/** Fields of a map by text key: `Value::get`, `without` and `with_field`
    (src/cbor.rs), and how they stand up to normalisation. */
module CborFields {
  import opened ByteStrings
  import opened ByteOrder
  import opened Wrappers
  import opened CborValue
  import opened CborRoundTrip
  import Utf8

  predicate Named(e: Entry, key: string) {
    e.key == Text(key)
  }

  /** The first entry named `key`, or the number of entries. */
  function Find(es: seq<Entry>, key: string): (i: nat)
    ensures i <= |es|
    ensures i < |es| ==> Named(es[i], key)
    ensures forall j :: 0 <= j < i ==> !Named(es[j], key)
  {
    if es == [] || Named(es[0], key) then 0 else 1 + Find(es[1..], key)
  }

  function Get(v: Value, key: string): Option<Value> {
    match v
    case Map(es) => var i := Find(es, key); if i < |es| then Some(es[i].val) else None
    case _ => None
  }

  predicate Dropped(e: Entry, keys: set<string>) {
    e.key.Text? && e.key.s in keys
  }

  function Filter(es: seq<Entry>, keys: set<string>): seq<Entry> {
    if es == [] then []
    else if Dropped(es[0], keys) then Filter(es[1..], keys)
    else [es[0]] + Filter(es[1..], keys)
  }

  function Without(v: Value, keys: set<string>): Value {
    match v
    case Map(es) => Map(Filter(es, keys))
    case _ => v
  }

  /** Replaces the first field of that name in place, or adds one at the end. */
  function WithField(v: Value, key: string, val: Value): Value {
    match v
    case Map(es) =>
      var i := Find(es, key);
      Map(if i < |es| then es[i := Entry(es[i].key, val)] else es + [Entry(Text(key), val)])
    case _ => v
  }

  // --- reading after writing ------------------------------------------------------

  lemma {:induction false} FindIs(es: seq<Entry>, key: string, i: nat)
    requires i < |es| && Named(es[i], key) && forall j :: 0 <= j < i ==> !Named(es[j], key)
    ensures Find(es, key) == i
  {
  }

  lemma {:induction false} GetWithField(v: Value, key: string, val: Value)
    requires v.Map?
    ensures Get(WithField(v, key, val), key) == Some(val)
  {
    var es := v.entries;
    var i := Find(es, key);
    FindIs(WithField(v, key, val).entries, key, i);
  }

  lemma {:induction false} GetOtherField(v: Value, key: string, val: Value, other: string)
    requires other != key
    ensures Get(WithField(v, key, val), other) == Get(v, other)
  {
    if v.Map? {
      var es := v.entries;
      var fs := WithField(v, key, val).entries;
      var i := Find(es, other);
      if i < |es| {
        FindIs(fs, other, i);
      } else {
        assert forall j :: 0 <= j < |fs| ==> !Named(fs[j], other);
      }
    }
  }

  // --- no key twice ------------------------------------------------------------------

  /** A proper value that encodes as a text does is that text. */
  lemma {:induction false} EncodesAsText(v: Value, key: string)
    requires Proper(v) && |Utf8.Encode(key)| < TWO64 && Enc(v) == Enc(Text(key))
    ensures v == Text(key)
  {
    hide Enc, Utf8.Encode;
    assert Proper(Text(key));
    SameBytesSameNorm(v, Text(key));
  }

  lemma {:induction false} DistinctNames(es: seq<Entry>, i: nat, j: nat)
    requires DistinctEntries(es) && i < |es| && j < |es| && i != j
    ensures es[i].key != es[j].key
  {
    hide Enc;
    var kvs := EncEntries(es);
    if i < j {
      assert kvs[i].key != kvs[j].key;
    } else {
      assert kvs[j].key != kvs[i].key;
    }
  }

  /** Setting a field keeps a map proper: no second entry under the same key. */
  lemma {:induction false} WithFieldProper(v: Value, key: string, val: Value)
    requires v.Map? && Proper(v) && Proper(val) && |v.entries| + 1 < TWO64 && |Utf8.Encode(key)| < TWO64
    ensures Proper(WithField(v, key, val))
    ensures |WithField(v, key, val).entries| <= |v.entries| + 1
    ensures Height(WithField(v, key, val)) <= Max(Height(v), 1 + Height(val))
  {
    hide Enc, Utf8.Encode, Height, HeightEntries;
    var es := v.entries;
    var i, fs := Find(es, key), WithField(v, key, val).entries;
    ProperEntries(es);
    assert Proper(Text(key));
    assert forall j :: 0 <= j < |fs| ==> ProperEntry(fs[j]);
    FieldStaysDistinct(es, key, val);
    WithFieldHeight(v, key, val);
    EntriesProper(fs);
  }

  lemma {:induction false} EntriesProper(es: seq<Entry>)
    requires |es| < TWO64 && DistinctEntries(es) && forall i :: 0 <= i < |es| ==> ProperEntry(es[i])
    ensures Proper(Map(es))
  {
    hide Enc;
  }

  lemma {:induction false} FieldStaysDistinct(es: seq<Entry>, key: string, val: Value)
    requires DistinctEntries(es) && |Utf8.Encode(key)| < TWO64 && forall i :: 0 <= i < |es| ==> ProperEntry(es[i])
    ensures DistinctEntries(WithField(Map(es), key, val).entries)
  {
    hide Enc, Utf8.Encode;
    var i, fs := Find(es, key), WithField(Map(es), key, val).entries;
    var kvs, after := EncEntries(es), EncEntries(fs);
    if i < |es| {
      assert forall j :: 0 <= j < |es| ==> after[j].key == kvs[j].key;
    } else {
      assert forall j :: 0 <= j < |es| ==> after[j].key == kvs[j].key;
      forall j | 0 <= j < |es| ensures kvs[j].key != after[|es|].key {
        assert ProperEntry(es[j]) && !Named(es[j], key);
        if Enc(es[j].key) == Enc(Text(key)) { EncodesAsText(es[j].key, key); }
      }
    }
  }

  lemma {:induction false} WithFieldHeight(v: Value, key: string, val: Value)
    requires v.Map?
    ensures Height(WithField(v, key, val)) <= Max(Height(v), 1 + Height(val))
  {
    hide HeightEntries;
    var es, fs := v.entries, WithField(v, key, val).entries;
    var h := Max(HeightEntries(es), 1 + Height(val));
    HeightEntriesAtMost(es, h);
    HeightEntriesAtMost(fs, h);
  }

  // --- fields of the normal form -----------------------------------------------------

  function NormOption(o: Option<Value>): Option<Value> {
    match o
    case Some(v) => Some(Norm(v))
    case None => None
  }

  lemma {:induction false} NormPicks(es: seq<Entry>)
    ensures Norm(Map(es)).Map?
    ensures var fs, order := Norm(Map(es)).entries, SortOrder(EntryKeys(es));
      && |fs| == |es| == |order|
      && (forall j :: 0 <= j < |order| ==> order[j] < |es| && fs[j] == NormEntry(es[order[j]]))
      && forall i: nat :: i < |es| ==> i in order
  {
    hide SortOrder, NormEntry;
  }

  /** Every entry of the normal form is one of the map's, and the other way round. */
  lemma {:induction false} NormMembers(es: seq<Entry>)
    ensures var fs := Norm(Map(es)).entries;
      && |fs| == |es|
      && (forall i :: 0 <= i < |es| ==> NormEntry(es[i]) in fs)
      && (forall j :: 0 <= j < |fs| ==> exists i :: 0 <= i < |es| && fs[j] == NormEntry(es[i]))
  {
    hide Norm, NormEntry, SortOrder, EntryKeys, Pick, NormEntries;
    NormPicks(es);
    var fs, order := Norm(Map(es)).entries, SortOrder(EntryKeys(es));
    forall i | 0 <= i < |es| ensures NormEntry(es[i]) in fs {
      assert i in order;
      var j :| 0 <= j < |order| && order[j] == i;
      assert fs[j] == NormEntry(es[i]);
    }
    forall j | 0 <= j < |fs| ensures exists i :: 0 <= i < |es| && fs[j] == NormEntry(es[i]) {
      assert fs[j] == NormEntry(es[order[j]]);
    }
  }

  lemma {:induction false} GetAt(es: seq<Entry>, key: string, i: nat)
    requires DistinctEntries(es) && i < |es| && Named(es[i], key)
    ensures Get(Map(es), key) == Some(es[i].val)
  {
    hide Enc, DistinctEntries;
    var f := Find(es, key);
    if f != i { DistinctNames(es, f, i); }
  }

  lemma {:induction false} NormNamed(e: Entry, key: string)
    ensures Named(NormEntry(e), key) <==> Named(e, key)
  {
  }

  /** Reading a field of the normal form reads the field's normal form. */
  lemma {:induction false} GetNorm(v: Value, key: string)
    requires v.Map? && DistinctKeys(v)
    ensures Get(Norm(v), key) == NormOption(Get(v, key))
  {
    var es, fs := v.entries, Norm(v).entries;
    NormMembers(es);
    NormMapDistinct(es);
    assert Norm(v) == Map(fs);
    hide Norm, DistinctKeys, DistinctEntries, Find, Named;
    var i := Find(es, key);
    if i < |es| {
      NormNamed(es[i], key);
      var k :| 0 <= k < |fs| && fs[k] == NormEntry(es[i]);
      GetAt(fs, key, k);
    } else {
      var j := Find(fs, key);
      if j < |fs| {
        var k :| 0 <= k < |es| && fs[j] == NormEntry(es[k]);
        NormNamed(es[k], key);
      }
    }
  }

  lemma {:induction false} NormMapDistinct(es: seq<Entry>)
    requires DistinctKeys(Map(es))
    ensures DistinctEntries(Norm(Map(es)).entries)
  {
    hide Enc;
    forall i | 0 <= i < |es| ensures EncEntry(NormEntries(es)[i]) == EncEntry(es[i]) {
      EncNorm(es[i].key);
      EncNorm(es[i].val);
    }
    NormMapSorts(es);
  }

  // --- removing fields ----------------------------------------------------------------

  lemma {:induction false} FilterMembers(es: seq<Entry>, keys: set<string>, e: Entry)
    ensures e in Filter(es, keys) <==> e in es && !Dropped(e, keys)
  {
    if es != [] {
      FilterMembers(es[1..], keys, e);
      assert e in es <==> e == es[0] || e in es[1..];
    }
  }

  /** What is left of a map when fields are removed: every other entry, and nothing under
      the removed names. */
  lemma {:induction false} WithoutKeeps(v: Value, keys: set<string>)
    requires v.Map?
    ensures Without(v, keys).Map?
    ensures forall e ::
      e in Without(v, keys).entries <==> e in v.entries && !(exists k :: k in keys && e.key == Text(k))
    ensures forall name :: Get(Without(v, keys), name) == if name in keys then None else Get(v, name)
  {
    hide Filter, Get;
    forall e
      ensures e in Without(v, keys).entries <==> e in v.entries && !(exists k :: k in keys && e.key == Text(k)) {
      FilterMembers(v.entries, keys, e);
    }
    forall name ensures Get(Without(v, keys), name) == if name in keys then None else Get(v, name) {
      GetFiltered(v.entries, keys, name);
    }
  }

  lemma {:induction false} GetFiltered(es: seq<Entry>, keys: set<string>, name: string)
    ensures Get(Map(Filter(es, keys)), name) == if name in keys then None else Get(Map(es), name)
  {
    if es != [] { GetFiltered(es[1..], keys, name); }
  }

  lemma {:induction false} DistinctCons(e: Entry, tail: seq<Entry>)
    requires DistinctEntries(tail) && forall j :: 0 <= j < |tail| ==> Enc(e.key) != EncEntry(tail[j]).key
    ensures DistinctEntries([e] + tail)
  {
    hide Enc;
    assert EncEntries([e] + tail) == [EncEntry(e)] + EncEntries(tail);
  }

  lemma {:induction false} HeadApart(es: seq<Entry>, e: Entry)
    requires DistinctEntries(es) && es != [] && e in es[1..]
    ensures Enc(es[0].key) != EncEntry(e).key
  {
    hide Enc;
    var k :| 0 <= k < |es[1..]| && es[1..][k] == e;
    assert EncEntries(es)[0].key != EncEntries(es)[k + 1].key;
  }

  lemma {:induction false} FilterDistinct(es: seq<Entry>, keys: set<string>)
    requires DistinctEntries(es)
    ensures DistinctEntries(Filter(es, keys)) && |Filter(es, keys)| <= |es|
  {
    hide Enc, EncEntry, Dropped;
    if es != [] {
      var tail := Filter(es[1..], keys);
      assert EncEntries(es[1..]) == EncEntries(es)[1..];
      FilterDistinct(es[1..], keys);
      forall j | 0 <= j < |tail| ensures Enc(es[0].key) != EncEntry(tail[j]).key {
        FilterMembers(es[1..], keys, tail[j]);
        HeadApart(es, tail[j]);
      }
      DistinctCons(es[0], tail);
    }
  }

  /** Whether a field is removed does not depend on normalisation. */
  lemma {:induction false} DroppedNorm(e: Entry, keys: set<string>)
    ensures Dropped(NormEntry(e), keys) <==> Dropped(e, keys)
  {
  }

  lemma {:induction false} EncodedMember(es: seq<Entry>, e: Entry)
    requires e in es
    ensures EncEntry(e) in EncEntries(es)
  {
    hide Enc;
    var i :| 0 <= i < |es| && es[i] == e;
    assert EncEntries(es)[i] == EncEntry(e);
  }

  lemma {:induction false} NormEntryEncodesAlike(es: seq<Entry>, e: Entry)
    requires DistinctKeys(Map(es)) && e in es
    ensures EncEntry(NormEntry(e)) == EncEntry(e)
  {
    hide Enc, Norm;
    EncNorm(e.key);
    EncNorm(e.val);
  }

  /** A map and its normal form encode alike once the same fields are removed. */
  lemma {:induction false} WithoutNorm(v: Value, keys: set<string>)
    requires v.Map? && DistinctKeys(v)
    ensures Enc(Without(Norm(v), keys)) == Enc(Without(v, keys))
  {
    var es, fs := v.entries, Norm(v).entries;
    NormMembers(es);
    NormMapDistinct(es);
    FilterDistinct(es, keys);
    FilterDistinct(fs, keys);
    assert Norm(v) == Map(fs) && v == Map(es);
    FilteredAlike(es, fs, keys);
    MapForgetsOrder(Filter(fs, keys), Filter(es, keys));
  }

  lemma {:induction false} FilteredAlike(es: seq<Entry>, fs: seq<Entry>, keys: set<string>)
    requires DistinctKeys(Map(es))
    requires forall i :: 0 <= i < |es| ==> NormEntry(es[i]) in fs
    requires forall j :: 0 <= j < |fs| ==> exists i :: 0 <= i < |es| && fs[j] == NormEntry(es[i])
    ensures SameMembers(EncEntries(Filter(fs, keys)), EncEntries(Filter(es, keys)))
  {
    hide Enc, Norm, NormEntry, Filter, Dropped, DistinctKeys;
    var s, t := Filter(fs, keys), Filter(es, keys);
    forall x | x in EncEntries(s) ensures x in EncEntries(t) {
      var j :| 0 <= j < |s| && EncEntries(s)[j] == x;
      FilterMembers(fs, keys, s[j]);
      var k :| 0 <= k < |fs| && fs[k] == s[j];
      var i :| 0 <= i < |es| && fs[k] == NormEntry(es[i]);
      DroppedNorm(es[i], keys);
      FilterMembers(es, keys, es[i]);
      NormEntryEncodesAlike(es, es[i]);
      EncodedMember(t, es[i]);
    }
    forall x | x in EncEntries(t) ensures x in EncEntries(s) {
      var j :| 0 <= j < |t| && EncEntries(t)[j] == x;
      FilterMembers(es, keys, t[j]);
      var i :| 0 <= i < |es| && es[i] == t[j];
      DroppedNorm(es[i], keys);
      FilterMembers(fs, keys, NormEntry(es[i]));
      NormEntryEncodesAlike(es, es[i]);
      EncodedMember(s, NormEntry(es[i]));
    }
  }

  /** Setting a field that is about to be removed changes nothing. */
  lemma {:induction false} WithoutSet(v: Value, key: string, val: Value, keys: set<string>)
    requires key in keys
    ensures Without(WithField(v, key, val), keys) == Without(v, keys)
  {
    if v.Map? { FilterSet(v.entries, key, val, keys); }
  }

  lemma {:induction false} FilterSet(es: seq<Entry>, key: string, val: Value, keys: set<string>)
    requires key in keys
    ensures Filter(WithField(Map(es), key, val).entries, keys) == Filter(es, keys)
  {
    if es != [] && !Named(es[0], key) {
      FilterSet(es[1..], key, val, keys);
      var fs := WithField(Map(es), key, val).entries;
      assert fs[0] == es[0];
      assert fs[1..] == WithField(Map(es[1..]), key, val).entries;
    } else if es != [] {
      var fs := WithField(Map(es), key, val).entries;
      assert fs[1..] == es[1..] && fs[0].key == es[0].key;
    }
  }
}
