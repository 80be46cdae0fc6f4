/** Maps written as lists of named fields, later ones overriding: the shape of every
    frame and manifest (src/frame.rs, src/manifest.rs). */
module CborRecords {
  import opened CborValue
  import opened CborFields
  import opened Wrappers
  import Utf8

  /** A named field; a frame is written as a list of them, later ones overriding. */
  datatype Field = Field(name: string, val: Value)

  function WithFields(v: Value, fields: seq<Field>): Value {
    if fields == [] then v
    else WithField(WithFields(v, fields[..|fields| - 1]), fields[|fields| - 1].name, fields[|fields| - 1].val)
  }

  lemma {:induction false} ShortText(s: string)
    ensures |Utf8.Encode(s)| <= 4 * |s|
  {
    if s != [] { ShortText(s[1..]); }
  }

  ghost predicate DistinctNamed(fields: seq<Field>) {
    forall i, j :: 0 <= i < j < |fields| ==> fields[i].name != fields[j].name
  }

  /** Each field written reads back; a field not written is what it was. */
  lemma {:induction false} GetWithFields(v: Value, fields: seq<Field>, name: string)
    requires v.Map? && DistinctNamed(fields)
    ensures WithFields(v, fields).Map?
    ensures forall i :: 0 <= i < |fields| && fields[i].name == name ==>
      Get(WithFields(v, fields), name) == Some(fields[i].val)
    ensures (forall i :: 0 <= i < |fields| ==> fields[i].name != name) ==>
      Get(WithFields(v, fields), name) == Get(v, name)
  {
    hide Get, WithField;
    if fields != [] {
      var init, last := fields[..|fields| - 1], fields[|fields| - 1];
      var before := WithFields(v, init);
      GetWithFields(v, init, name);
      StaysMap(before, last.name, last.val);
      if last.name == name {
        GetWithField(before, name, last.val);
      } else {
        GetOtherField(before, last.name, last.val, name);
      }
    }
  }

  lemma {:induction false} StaysMap(v: Value, name: string, val: Value)
    requires v.Map?
    ensures WithField(v, name, val).Map?
  {
  }

  ghost predicate FieldFits(f: Field, h: nat) {
    |f.name| < 64 && Proper(f.val) && Height(f.val) < h
  }

  /** A frame of fitting fields over a proper one is proper: no key is written twice. */
  lemma {:induction false} WithFieldsProper(v: Value, fields: seq<Field>, h: nat)
    requires v.Map? && Proper(v) && Height(v) <= h && |v.entries| + |fields| < 64
    requires forall i :: 0 <= i < |fields| ==> FieldFits(fields[i], h)
    ensures var w := WithFields(v, fields);
      w.Map? && Proper(w) && Height(w) <= h && |w.entries| <= |v.entries| + |fields|
  {
    hide Encodable, DistinctKeys, Height, Utf8.Encode, Enc;
    if fields != [] {
      var init, last := fields[..|fields| - 1], fields[|fields| - 1];
      forall i | 0 <= i < |init| ensures FieldFits(init[i], h) { assert FieldFits(fields[i], h); }
      WithFieldsProper(v, init, h);
      assert FieldFits(last, h);
      ShortText(last.name);
      hide WithField;
      WithFieldProper(WithFields(v, init), last.name, last.val);
      StaysMap(WithFields(v, init), last.name, last.val);
    }
  }

  // --- names ------------------------------------------------------------------------

  /** Length and first letter tell every field name of a frame from the others. */
  function Tag(name: string): int {
    if name == "" then 0 else |name| * 1000 + name[0] as int
  }

  ghost predicate Tagged(fields: seq<Field>, tags: seq<int>) {
    |tags| == |fields| && forall i :: 0 <= i < |fields| ==> Tag(fields[i].name) == tags[i]
  }

  lemma {:induction false} TagsTell(fields: seq<Field>, tags: seq<int>)
    requires Tagged(fields, tags) && forall i, j :: 0 <= i < j < |tags| ==> tags[i] != tags[j]
    ensures DistinctNamed(fields)
  {
    hide Tag;
    forall i, j | 0 <= i < j < |fields| ensures fields[i].name != fields[j].name {
      assert Tag(fields[i].name) == tags[i] && Tag(fields[j].name) == tags[j];
    }
  }

  function EntriesOf(fields: seq<Field>): (r: seq<Entry>)
    ensures |r| == |fields| && forall i :: 0 <= i < |r| ==> r[i] == Entry(Text(fields[i].name), fields[i].val)
  {
    seq(|fields|, i requires 0 <= i < |fields| => Entry(Text(fields[i].name), fields[i].val))
  }

  lemma {:induction false} AppendsAll(fields: seq<Field>)
    requires DistinctNamed(fields)
    ensures WithFields(Map([]), fields) == Map(EntriesOf(fields))
  {
    if fields != [] {
      var init, last := fields[..|fields| - 1], fields[|fields| - 1];
      AppendsAll(init);
      var es := EntriesOf(init);
      assert forall j :: 0 <= j < |es| ==> !Named(es[j], last.name);
      assert Find(es, last.name) == |es|;
      assert EntriesOf(fields) == es + [Entry(Text(last.name), last.val)];
    }
  }

  /** A record of fitting fields under different names is proper, and each field of its
      normal form reads back in normal form. */
  lemma {:induction false} RecordReads(fields: seq<Field>, h: nat)
    requires |fields| < 64 && DistinctNamed(fields) && forall i :: 0 <= i < |fields| ==> FieldFits(fields[i], h)
    ensures var v := Map(EntriesOf(fields));
      && Proper(v)
      && Height(v) <= h
      && Norm(v).Map?
      && forall i :: 0 <= i < |fields| ==> Get(Norm(v), fields[i].name) == Some(Norm(fields[i].val))
  {
    AppendsAll(fields);
    hide WithFields, Height, Get, Encodable, DistinctKeys, FieldFits, Enc;
    EmptyRecord();
    WithFieldsProper(Map([]), fields, h);
    forall i | 0 <= i < |fields|
      ensures Get(Norm(Map(EntriesOf(fields))), fields[i].name) == Some(Norm(fields[i].val)) {
      hide Norm;
      GetWithFields(Map([]), fields, fields[i].name);
      GetNorm(Map(EntriesOf(fields)), fields[i].name);
    }
  }

  lemma {:induction false} EmptyRecord()
    ensures Proper(Map([])) && Height(Map([])) == 0
  {
    hide Enc;
  }

  predicate Scalar(v: Value) {
    v.Int? || v.Bytes? || v.Text?
  }

  lemma {:induction false} ScalarField(f: Field, h: nat)
    requires |f.name| < 64 && Scalar(f.val) && Encodable(f.val) && h > 0
    ensures FieldFits(f, h) && Norm(f.val) == f.val
  {
    hide Utf8.Encode, Enc;
  }
}
