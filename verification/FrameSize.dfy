/** How long the frames of src/frame.rs can get: a signed frame is as long as its one
    large field, and little more. */
module FrameSize {
  import opened ByteStrings
  import opened ByteOrder
  import opened CborValue
  import opened CborFields
  import opened CborRecords
  import opened Frame
  import opened Wrappers
  import opened FrameCall
  import CborSound
  import Utf8

  ghost function Weigh(es: seq<Entry>): nat {
    if es == [] then 0 else |Enc(es[0].key)| + |Enc(es[0].val)| + Weigh(es[1..])
  }

  lemma {:induction false} JoinWeighs(es: seq<Entry>)
    ensures |Join(EncEntries(es))| == Weigh(es)
  {
    hide Enc;
    if es != [] {
      JoinWeighs(es[1..]);
      assert EncEntries(es)[1..] == EncEntries(es[1..]);
    }
  }

  lemma {:induction false} MapSize(es: seq<Entry>)
    ensures 1 + Weigh(es) <= |Enc(Map(es))| <= 9 + Weigh(es)
  {
    hide Join, Sorted, EncEntries;
    JoinWeighs(es);
    CborSound.SortedLength(EncEntries(es));
  }

  ghost function FieldWeight(f: Field): nat {
    |Enc(Text(f.name))| + |Enc(f.val)|
  }

  lemma {:induction false} WeighAppend(es: seq<Entry>, e: Entry)
    ensures Weigh(es + [e]) == Weigh(es) + |Enc(e.key)| + |Enc(e.val)|
  {
    hide Enc;
    if es != [] {
      WeighAppend(es[1..], e);
      assert (es + [e])[1..] == es[1..] + [e];
    } else {
      assert es + [e] == [e] && [e][1..] == [];
    }
  }

  lemma {:induction false} WeighUpdate(es: seq<Entry>, i: nat, val: Value)
    requires i < |es|
    ensures Weigh(es[i := Entry(es[i].key, val)]) <= Weigh(es) + |Enc(val)|
  {
    hide Enc;
    var fs := es[i := Entry(es[i].key, val)];
    if i > 0 {
      WeighUpdate(es[1..], i - 1, val);
      assert fs[1..] == es[1..][i - 1 := Entry(es[i].key, val)];
    } else {
      assert fs[1..] == es[1..];
    }
  }

  lemma {:induction false} SetWeighs(v: Value, f: Field)
    requires v.Map?
    ensures WithField(v, f.name, f.val).Map?
    ensures Weigh(WithField(v, f.name, f.val).entries) <= Weigh(v.entries) + FieldWeight(f)
  {
    hide Enc, Weigh;
    var es := v.entries;
    var i := Find(es, f.name);
    if i < |es| { WeighUpdate(es, i, f.val); } else { WeighAppend(es, Entry(Text(f.name), f.val)); }
  }

  const LIGHT: nat := 600

  ghost predicate Light(f: Field) {
    FieldWeight(f) <= LIGHT
  }

  /** Fields set over a map add at most their own size; all but one are light. */
  lemma {:induction false} FieldsWeigh(v: Value, fields: seq<Field>, heavy: Field)
    requires v.Map? && FieldsLight(fields, heavy)
    ensures WithFields(v, fields).Map?
    ensures Weigh(WithFields(v, fields).entries) <=
      Weigh(v.entries) + LIGHT * |fields| + Heavies(fields, heavy) * FieldWeight(heavy)
  {
    hide Weigh, FieldWeight, WithField;
    if fields != [] {
      var init, last := fields[..|fields| - 1], fields[|fields| - 1];
      FieldsWeigh(v, init, heavy);
      SetWeighs(WithFields(v, init), last);
      assert last == heavy || Light(last);
    }
  }

  ghost predicate FieldsLight(fields: seq<Field>, heavy: Field) {
    forall i :: 0 <= i < |fields| ==> fields[i] == heavy || Light(fields[i])
  }

  ghost function Heavies(fields: seq<Field>, heavy: Field): nat {
    if fields == [] then 0
    else Heavies(fields[..|fields| - 1], heavy) + if fields[|fields| - 1] == heavy then 1 else 0
  }

  lemma {:induction false} OneHeavy(fields: seq<Field>, heavy: Field)
    requires DistinctNamed(fields)
    ensures Heavies(fields, heavy) <= 1
    ensures Heavies(fields, heavy) == 1 ==> heavy in fields
  {
    if fields != [] {
      var init, last := fields[..|fields| - 1], fields[|fields| - 1];
      OneHeavy(init, heavy);
      assert last == heavy ==> heavy !in init;
    }
  }

  lemma {:induction false} LightField(f: Field)
    requires |f.name| < 64
    requires match f.val
      case Int(_) => true
      case Bytes(b) => |b| <= 256
      case Text(s) => |s| < 64
      case Null => true
      case _ => false
    ensures Light(f)
  {
    ShortText(f.name);
    if f.val.Text? { ShortText(f.val.s); }
    hide Utf8.Encode;
  }

  /** A signed frame over the envelope is as long as its one heavy field, and little more. */
  lemma {:induction false} SignedSize(ed: Ed25519, frameType: string, fields: seq<Field>, heavy: Field,
                                      frameId: Id16, sentAtMs: u64, key: seq<byte>)
    requires |frameType| < 64 && |fields| <= 9 && DistinctNamed(fields) && FieldsLight(fields, heavy)
    ensures |Enc(Sign(ed, FrameOf(frameType, fields, frameId, sentAtMs), key))| <= 12_000 + FieldWeight(heavy)
  {
    hide Weigh, WithFields, WithField, FieldWeight, Enc, SignableBytes, Heavies;
    var base := BaseFields(frameType, frameId, sentAtMs);
    BaseIsFields(frameType, frameId, sentAtMs);
    BaseLight(frameType, frameId, sentAtMs, heavy);
    FieldsWeigh(Map([]), base, Field("", Null));
    OneHeavy(base, Field("", Null));
    var frame := FrameOf(frameType, fields, frameId, sentAtMs);
    FieldsWeigh(WithFields(Map([]), base), fields, heavy);
    OneHeavy(fields, heavy);
    var sig := Field("signature", Bytes(ed.sign(key, SignableBytes(frame))));
    LightField(sig);
    SetWeighs(frame, sig);
    MapSize(Sign(ed, frame, key).entries);
    NothingWeighs();
    assert Map(Sign(ed, frame, key).entries) == Sign(ed, frame, key);
    assert Heavies(base, Field("", Null)) * FieldWeight(Field("", Null)) == 0;
    assert Heavies(fields, heavy) * FieldWeight(heavy) <= FieldWeight(heavy);
  }

  lemma {:induction false} NothingWeighs()
    ensures Weigh([]) == 0
  {
  }

  lemma {:induction false} BaseLight(frameType: string, frameId: Id16, sentAtMs: u64, heavy: Field)
    requires |frameType| < 64
    ensures var base := BaseFields(frameType, frameId, sentAtMs);
      FieldsLight(base, Field("", Null)) && Heavies(base, Field("", Null)) == 0
  {
    hide Light;
    var base, none := BaseFields(frameType, frameId, sentAtMs), Field("", Null);
    forall i | 0 <= i < |base| ensures Light(base[i]) { LightField(base[i]); }
    BaseIsFields(frameType, frameId, sentAtMs);
    OneHeavy(base, none);
    assert none !in base;
  }

  // --- a reply against the call that carried its payload ------------------------------------------

  ghost function FieldSum(fields: seq<Field>): nat {
    if fields == [] then 0 else FieldWeight(fields[0]) + FieldSum(fields[1..])
  }

  lemma {:induction false} FieldSumSplit(a: seq<Field>, b: seq<Field>)
    ensures FieldSum(a + b) == FieldSum(a) + FieldSum(b)
  {
    hide FieldWeight;
    if a == [] {
      assert a + b == b;
    } else {
      FieldSumSplit(a[1..], b);
      assert (a + b)[1..] == a[1..] + b;
    }
  }

  lemma {:induction false} FieldSumOne(f: Field)
    ensures FieldSum([f]) == FieldWeight(f)
  {
    hide FieldWeight;
    assert [f][1..] == [];
  }

  /** Fields set over a map add no more than they weigh. */
  lemma {:induction false} SetAtMost(v: Value, fields: seq<Field>)
    requires v.Map?
    ensures WithFields(v, fields).Map?
    ensures Weigh(WithFields(v, fields).entries) <= Weigh(v.entries) + FieldSum(fields)
    decreases |fields|
  {
    hide Weigh, FieldWeight, WithField, FieldSum;
    if fields != [] {
      var init, last := fields[..|fields| - 1], fields[|fields| - 1];
      SetAtMost(v, init);
      SetWeighs(WithFields(v, init), last);
      FieldSumSplit(init, [last]);
      FieldSumOne(last);
      assert fields == init + [last];
    } else {
      assert fields == [];
    }
  }

  /** Different fields a map holds weigh no more than the map's entries. */
  lemma {:induction false} HeldAtLeast(es: seq<Entry>, fields: seq<Field>)
    requires DistinctNamed(fields)
    requires forall i :: 0 <= i < |fields| ==> Get(Map(es), fields[i].name) == Some(fields[i].val)
    ensures FieldSum(fields) <= Weigh(es)
    decreases |es|
  {
    hide FieldWeight, FieldSum, Weigh, Get, Named;
    if es == [] {
      GetNothing(if fields == [] then "" else fields[0].name);
      NothingSums();
    } else if i :| 0 <= i < |fields| && Named(es[0], fields[i].name) {
      var before, rest := fields[..i], fields[i + 1..];
      assert fields == before + [fields[i]] + rest;
      FieldSumSplit(before + [fields[i]], rest);
      FieldSumSplit(before, [fields[i]]);
      FieldSumSplit(before, rest);
      FieldSumOne(fields[i]);
      var others := before + rest;
      forall j | 0 <= j < |others| ensures Get(Map(es[1..]), others[j].name) == Some(others[j].val) {
        var k := if j < i then j else j + 1;
        assert others[j] == fields[k] && fields[k].name != fields[i].name;
        GetFurther(es, others[j].name, fields[i].name);
      }
      HeldAtLeast(es[1..], others);
      GetFirst(es, fields[i].name);
      WeighHead(es, fields[i]);
    } else {
      forall j | 0 <= j < |fields| ensures Get(Map(es[1..]), fields[j].name) == Some(fields[j].val) {
        GetFurther(es, fields[j].name, "");
      }
      HeldAtLeast(es[1..], fields);
      WeighTail(es);
    }
  }

  lemma {:induction false} GetNothing(name: string)
    ensures Get(Map([]), name) == None
  {
  }

  lemma {:induction false} GetFirst(es: seq<Entry>, name: string)
    requires es != [] && Named(es[0], name)
    ensures Get(Map(es), name) == Some(es[0].val)
  {
  }

  /** An entry that has not the name, perhaps because it has another, is passed over. */
  lemma {:induction false} GetFurther(es: seq<Entry>, name: string, other: string)
    requires es != [] && (!Named(es[0], name) || (Named(es[0], other) && name != other))
    ensures Get(Map(es), name) == Get(Map(es[1..]), name)
  {
  }

  lemma {:induction false} NothingSums()
    ensures FieldSum([]) == 0
  {
  }

  lemma {:induction false} WeighHead(es: seq<Entry>, f: Field)
    requires es != [] && Named(es[0], f.name) && es[0].val == f.val
    ensures Weigh(es) == FieldWeight(f) + Weigh(es[1..])
  {
    hide Enc;
  }

  lemma {:induction false} WeighTail(es: seq<Entry>)
    requires es != []
    ensures Weigh(es[1..]) <= Weigh(es)
  {
    hide Enc;
  }

  ghost predicate Ascii(s: string) {
    forall i :: 0 <= i < |s| ==> s[i] as int < 0x80
  }

  lemma {:induction false} AsciiSize(s: string)
    requires Ascii(s)
    ensures |Utf8.Encode(s)| == |s|
  {
    if s != [] { AsciiSize(s[1..]); }
  }

  /** A short name takes a byte a letter and one for its head. */
  lemma {:induction false} NameSize(s: string)
    requires Ascii(s) && |s| <= 23
    ensures |Enc(Text(s))| == 1 + |s|
  {
    AsciiSize(s);
    hide Utf8.Encode;
  }

  lemma {:induction false} BytesWeight(name: string, b: seq<byte>)
    requires |b| <= 0xFF
    ensures FieldWeight(Field(name, Bytes(b))) == |Enc(Text(name))| + |b| + if |b| <= 23 then 1 else 2
  {
    hide Utf8.Encode;
  }

  lemma {:induction false} IntWeight(name: string, n: int)
    requires 0 <= n < TWO64
    ensures 1 <= FieldWeight(Field(name, Int(n))) - |Enc(Text(name))| <= 9
  {
    hide Utf8.Encode;
  }

  lemma {:induction false} NullWeight(name: string)
    ensures FieldWeight(Field(name, Null)) == |Enc(Text(name))| + 1
  {
    hide Utf8.Encode;
  }

  lemma {:induction false} ReplyNames()
    ensures |Enc(Text("call_id"))| == 8 && |Enc(Text("responded_by"))| == 13
    ensures |Enc(Text("source_route_reverse"))| == 21
    ensures |Enc(Text("result"))| == 7
  {
    hide Enc;
    NameSize("call_id");
    NameSize("responded_by");
    NameSize("source_route_reverse");
    NameSize("result");
  }

  lemma {:induction false} CallNames()
    ensures |Enc(Text("call"))| == 5 && |Enc(Text("procedure"))| == 10 && |Enc(Text("deadline_ms"))| == 12
    ensures |Enc(Text("caller"))| == 7 && |Enc(Text("retry_budget"))| == 13 && |Enc(Text("ucan_token"))| == 11
  {
    hide Enc;
    NameSize("call");
    NameSize("procedure");
    NameSize("deadline_ms");
    NameSize("caller");
    NameSize("retry_budget");
    NameSize("ucan_token");
  }

  /** The envelope fields a CALL does not override, its own, and the signature. */
  function CallHolds(spec: CallSpec, frameId: Id16, sentAtMs: u64, sig: seq<byte>): seq<Field> {
    BaseFields("call", frameId, sentAtMs)[..5] + CallFields(spec) + [Field("signature", Bytes(sig))]
  }

  lemma {:induction false} HeldDistinct(spec: CallSpec, frameId: Id16, sentAtMs: u64, sig: seq<byte>)
    ensures DistinctNamed(CallHolds(spec, frameId, sentAtMs, sig)) && |CallHolds(spec, frameId, sentAtMs, sig)| == 15
  {
    TagsTell(CallHolds(spec, frameId, sentAtMs, sig),
             [7118, 10102, 8102, 10115, 12099, 5114, 7099, 9112, 7112, 11100, 6099, 12115, 12114, 10117, 9115]);
  }

  lemma {:induction false} CallReads(spec: CallSpec, frameId: Id16, sentAtMs: u64, sig: seq<byte>, i: nat)
    requires i < 14 && DistinctNamed(CallHolds(spec, frameId, sentAtMs, sig))
    requires |CallHolds(spec, frameId, sentAtMs, sig)| == 15
    ensures CallValue(spec, frameId, sentAtMs).Map?
    ensures var f := CallHolds(spec, frameId, sentAtMs, sig)[i];
      f.name != "signature" && Get(CallValue(spec, frameId, sentAtMs), f.name) == Some(f.val)
  {
    hide Get, WithFields, EntriesOf, BaseFields, CallFields, Base;
    var base, fields := BaseFields("call", frameId, sentAtMs), CallFields(spec);
    var held := CallHolds(spec, frameId, sentAtMs, sig);
    assert |base| == 8 && |fields| == 9 by { FieldCounts(spec, frameId, sentAtMs); }
    BaseIsFields("call", frameId, sentAtMs);
    CallFieldsDistinct(spec);
    GetWithFields(Map([]), base, held[i].name);
    GetWithFields(WithFields(Map([]), base), fields, held[i].name);
    assert held[14].name == "signature" && held[i].name != held[14].name;
    if i < 5 {
      assert held[i] == base[i];
      forall j | 0 <= j < 9 ensures fields[j].name != held[i].name { assert held[j + 5] == fields[j]; }
    } else {
      assert held[i] == fields[i - 5];
    }
  }

  lemma {:induction false} FieldCounts(spec: CallSpec, frameId: Id16, sentAtMs: u64)
    ensures |BaseFields("call", frameId, sentAtMs)| == 8 && |CallFields(spec)| == 9
  {
  }

  /** A signed CALL is at least as long as the fields it holds. */
  lemma {:induction false} CallAtLeast(ed: Ed25519, spec: CallSpec, frameId: Id16, sentAtMs: u64, key: seq<byte>,
                                       sig: seq<byte>)
    requires sig == ed.sign(key, SignableBytes(CallValue(spec, frameId, sentAtMs)))
    ensures 1 + FieldSum(CallHolds(spec, frameId, sentAtMs, sig)) <=
      |Enc(Sign(ed, CallValue(spec, frameId, sentAtMs), key))|
  {
    hide Get, WithField, CallHolds, CallValue, SignableBytes, FieldSum, Weigh, Enc, DistinctNamed;
    var frame, held := CallValue(spec, frameId, sentAtMs), CallHolds(spec, frameId, sentAtMs, sig);
    var signed := Sign(ed, frame, key);
    HeldDistinct(spec, frameId, sentAtMs, sig);
    CallReads(spec, frameId, sentAtMs, sig, 0);
    StaysMap(frame, "signature", Bytes(sig));
    forall i | 0 <= i < 15 ensures Get(signed, held[i].name) == Some(held[i].val) {
      if i < 14 {
        CallReads(spec, frameId, sentAtMs, sig, i);
        GetOtherField(frame, "signature", Bytes(sig), held[i].name);
      } else {
        assert held[14] == Field("signature", Bytes(sig)) by { LastHeld(spec, frameId, sentAtMs, sig); }
        GetWithField(frame, "signature", Bytes(sig));
      }
    }
    assert Map(signed.entries) == signed;
    HeldAtLeast(signed.entries, held);
    MapSize(signed.entries);
  }

  lemma {:induction false} LastHeld(spec: CallSpec, frameId: Id16, sentAtMs: u64, sig: seq<byte>)
    ensures |CallHolds(spec, frameId, sentAtMs, sig)| == 15
    ensures CallHolds(spec, frameId, sentAtMs, sig)[14] == Field("signature", Bytes(sig))
  {
  }

  /** A signed RESULT is no longer than the envelope, its fields and the signature. */
  lemma {:induction false} ResultAtMost(ed: Ed25519, spec: ResultSpec, frameId: Id16, sentAtMs: u64, key: seq<byte>,
                                        sig: seq<byte>)
    requires sig == ed.sign(key, SignableBytes(ResultValue(spec, frameId, sentAtMs)))
    ensures |Enc(Sign(ed, ResultValue(spec, frameId, sentAtMs), key))| <=
      9 + FieldSum(BaseFields("result", frameId, sentAtMs)) + FieldSum(ResultFields(spec))
        + FieldWeight(Field("signature", Bytes(sig)))
  {
    hide WithField, WithFields, SignableBytes, FieldSum, Weigh, Enc, FieldWeight, BaseFields, ResultFields, Base;
    var base, frame := BaseFields("result", frameId, sentAtMs), ResultValue(spec, frameId, sentAtMs);
    BaseIsFields("result", frameId, sentAtMs);
    SetAtMost(Map([]), base);
    SetAtMost(WithFields(Map([]), base), ResultFields(spec));
    SetWeighs(frame, Field("signature", Bytes(sig)));
    var signed := Sign(ed, frame, key);
    assert Map(signed.entries) == signed;
    MapSize(signed.entries);
    NothingWeighs();
  }

  ghost function SumTo(fields: seq<Field>, n: nat): nat
    requires n <= |fields|
  {
    if n == 0 then 0 else SumTo(fields, n - 1) + FieldWeight(fields[n - 1])
  }

  lemma {:induction false} SumToAll(fields: seq<Field>)
    ensures FieldSum(fields) == SumTo(fields, |fields|)
    decreases |fields|
  {
    hide FieldWeight, FieldSum;
    if fields == [] {
      NothingSums();
    } else {
      var init, last := fields[..|fields| - 1], fields[|fields| - 1];
      SumToAll(init);
      FieldSumSplit(init, [last]);
      FieldSumOne(last);
      assert fields == init + [last];
      SumToPrefix(fields, init, |init|);
    }
  }

  lemma {:induction false} SumToPrefix(fields: seq<Field>, init: seq<Field>, n: nat)
    requires n <= |init| && init <= fields
    ensures SumTo(fields, n) == SumTo(init, n)
  {
    hide FieldWeight;
    if n > 0 { SumToPrefix(fields, init, n - 1); }
  }

  ghost function W(name: string, val: Value): nat {
    FieldWeight(Field(name, val))
  }

  lemma {:induction false} CallSum(spec: CallSpec, frameId: Id16, sentAtMs: u64, sig: seq<byte>)
    ensures FieldSum(CallHolds(spec, frameId, sentAtMs, sig)) ==
      W("version", Int(PROTOCOL_VERSION)) + W("frame_type", Text("call")) + W("frame_id", Bytes(frameId))
      + W("sent_at_ms", Int(sentAtMs)) + W("capabilities", Int(0)) + W("realm", Bytes(spec.realm))
      + W("call_id", Bytes(spec.callId)) + W("procedure", Bytes(Utf8.Encode(spec.procedure)))
        + W("payload", spec.payload)
      + W("deadline_ms", Int(spec.deadlineMs)) + W("caller", Bytes(spec.caller))
        + W("source_route", Bytes(spec.sourceRoute))
      + W("retry_budget", Int(spec.retryBudget)) + W("ucan_token", Bytes(spec.ucanToken)) + W("signature", Bytes(sig))
  {
    var f := CallHolds(spec, frameId, sentAtMs, sig);
    hide FieldWeight, FieldSum, Utf8.Encode;
    SumToAll(f);
    assert |f| == 15;
    assert SumTo(f, 3) == FieldWeight(f[0]) + FieldWeight(f[1]) + FieldWeight(f[2]) by {
      assert SumTo(f, 1) == FieldWeight(f[0]);
    }
    assert SumTo(f, 5) == SumTo(f, 3) + FieldWeight(f[3]) + FieldWeight(f[4]) by {
      assert SumTo(f, 4) == SumTo(f, 3) + FieldWeight(f[3]);
    }
    assert SumTo(f, 7) == SumTo(f, 5) + FieldWeight(f[5]) + FieldWeight(f[6]) by {
      assert SumTo(f, 6) == SumTo(f, 5) + FieldWeight(f[5]);
    }
    assert SumTo(f, 9) == SumTo(f, 7) + FieldWeight(f[7]) + FieldWeight(f[8]) by {
      assert SumTo(f, 8) == SumTo(f, 7) + FieldWeight(f[7]);
    }
    assert SumTo(f, 11) == SumTo(f, 9) + FieldWeight(f[9]) + FieldWeight(f[10]) by {
      assert SumTo(f, 10) == SumTo(f, 9) + FieldWeight(f[9]);
    }
    assert SumTo(f, 13) == SumTo(f, 11) + FieldWeight(f[11]) + FieldWeight(f[12]) by {
      assert SumTo(f, 12) == SumTo(f, 11) + FieldWeight(f[11]);
    }
    assert SumTo(f, 15) == SumTo(f, 13) + FieldWeight(f[13]) + FieldWeight(f[14]) by {
      assert SumTo(f, 14) == SumTo(f, 13) + FieldWeight(f[13]);
    }
  }

  lemma {:induction false} BaseSum(frameType: string, frameId: Id16, sentAtMs: u64)
    ensures FieldSum(BaseFields(frameType, frameId, sentAtMs)) ==
      W("version", Int(PROTOCOL_VERSION)) + W("frame_type", Text(frameType)) + W("frame_id", Bytes(frameId))
      + W("sent_at_ms", Int(sentAtMs)) + W("capabilities", Int(0)) + W("realm", Null) + W("call_id", Null)
        + W("source_route", Null)
  {
    var f := BaseFields(frameType, frameId, sentAtMs);
    hide FieldWeight, FieldSum;
    SumToAll(f);
    assert SumTo(f, 2) == FieldWeight(f[0]) + FieldWeight(f[1]) by { assert SumTo(f, 1) == FieldWeight(f[0]); }
    assert SumTo(f, 4) == SumTo(f, 2) + FieldWeight(f[2]) + FieldWeight(f[3]) by {
      assert SumTo(f, 3) == SumTo(f, 2) + FieldWeight(f[2]);
    }
    assert SumTo(f, 6) == SumTo(f, 4) + FieldWeight(f[4]) + FieldWeight(f[5]) by {
      assert SumTo(f, 5) == SumTo(f, 4) + FieldWeight(f[4]);
    }
    assert SumTo(f, 8) == SumTo(f, 6) + FieldWeight(f[6]) + FieldWeight(f[7]) by {
      assert SumTo(f, 7) == SumTo(f, 6) + FieldWeight(f[6]);
    }
  }

  lemma {:induction false} ResultSum(spec: ResultSpec)
    ensures FieldSum(ResultFields(spec)) ==
      W("call_id", Bytes(spec.callId)) + W("payload", spec.payload) + W("responded_by", Bytes(spec.respondedBy))
      + W("source_route_reverse", Bytes(spec.sourceRouteReverse))
  {
    var f := ResultFields(spec);
    hide FieldWeight, FieldSum;
    SumToAll(f);
    assert SumTo(f, 2) == FieldWeight(f[0]) + FieldWeight(f[1]) by { assert SumTo(f, 1) == FieldWeight(f[0]); }
    assert SumTo(f, 4) == SumTo(f, 2) + FieldWeight(f[2]) + FieldWeight(f[3]) by {
      assert SumTo(f, 3) == SumTo(f, 2) + FieldWeight(f[2]);
    }
  }

  lemma {:induction false} TextWeight(name: string, s: string)
    ensures W(name, Text(s)) == |Enc(Text(name))| + |Enc(Text(s))|
  {
    hide Enc;
  }

  lemma {:induction false} AnyWeight(name: string, v: Value)
    ensures W(name, v) == |Enc(Text(name))| + |Enc(v)|
  {
    hide Enc;
  }

  /** What the RESULT's own fields can add over the CALL's. */
  lemma {:induction false} ReplyFieldsLighter(call: CallSpec, reply: ResultSpec, frameId: Id16, sentAtMs: u64,
                                              replyFrameId: Id16, replySentAtMs: u64,
                                              sig: seq<byte>, replySig: seq<byte>)
    requires |sig| == |replySig| == 64 && IntFits(call.deadlineMs) && call.deadlineMs >= 0
    requires call.sourceRoute == [] && call.ucanToken == [] && reply.sourceRouteReverse == []
    requires 21 <= |Utf8.Encode(call.procedure)| <= 23 && |Enc(reply.payload)| + 10 <= |Enc(call.payload)|
    ensures 9 + FieldSum(BaseFields("result", replyFrameId, replySentAtMs)) + FieldSum(ResultFields(reply))
      + W("signature", Bytes(replySig))
         <= 1 + FieldSum(CallHolds(call, frameId, sentAtMs, sig))
  {
    hide FieldWeight, FieldSum, Utf8.Encode, Enc, BaseFields, ResultFields, CallHolds;
    CallSum(call, frameId, sentAtMs, sig);
    BaseSum("result", replyFrameId, replySentAtMs);
    ResultSum(reply);
    ReplyNames();
    CallNames();
    TextWeight("frame_type", "call");
    TextWeight("frame_type", "result");
    BytesWeight("frame_id", frameId);
    BytesWeight("frame_id", replyFrameId);
    IntWeight("sent_at_ms", sentAtMs);
    IntWeight("sent_at_ms", replySentAtMs);
    BytesWeight("realm", call.realm);
    NullWeight("realm");
    BytesWeight("call_id", call.callId);
    BytesWeight("call_id", reply.callId);
    NullWeight("call_id");
    BytesWeight("procedure", Utf8.Encode(call.procedure));
    AnyWeight("payload", call.payload);
    AnyWeight("payload", reply.payload);
    IntWeight("deadline_ms", call.deadlineMs);
    BytesWeight("caller", call.caller);
    BytesWeight("responded_by", reply.respondedBy);
    BytesWeight("source_route", call.sourceRoute);
    NullWeight("source_route");
    IntWeight("retry_budget", call.retryBudget);
    BytesWeight("ucan_token", call.ucanToken);
    BytesWeight("source_route_reverse", reply.sourceRouteReverse);
    BytesWeight("signature", sig);
    BytesWeight("signature", replySig);
  }

  /** A RESULT is no longer than a CALL whose payload wraps its own in a map. */
  lemma {:induction false} ReplyNoLonger(ed: Ed25519, call: CallSpec, reply: ResultSpec, frameId: Id16, sentAtMs: u64,
                                         key: seq<byte>, replyFrameId: Id16, replySentAtMs: u64,
                                         replyKey: seq<byte>)
    requires IntFits(call.deadlineMs) && call.deadlineMs >= 0
    requires call.sourceRoute == [] && call.ucanToken == [] && reply.sourceRouteReverse == []
    requires 21 <= |Utf8.Encode(call.procedure)| <= 23 && |Enc(reply.payload)| + 10 <= |Enc(call.payload)|
    ensures |Enc(Sign(ed, ResultValue(reply, replyFrameId, replySentAtMs), replyKey))| <=
      |Enc(Sign(ed, CallValue(call, frameId, sentAtMs), key))|
  {
    hide Sign, Enc, FieldSum, FieldWeight, SignableBytes, CallHolds, BaseFields, ResultFields, CallValue, ResultValue,
      Utf8.Encode;
    var sig := ed.sign(key, SignableBytes(CallValue(call, frameId, sentAtMs)));
    var replySig := ed.sign(replyKey, SignableBytes(ResultValue(reply, replyFrameId, replySentAtMs)));
    CallAtLeast(ed, call, frameId, sentAtMs, key, sig);
    ResultAtMost(ed, reply, replyFrameId, replySentAtMs, replyKey, replySig);
    ReplyFieldsLighter(call, reply, frameId, sentAtMs, replyFrameId, replySentAtMs, sig, replySig);
  }
}
