/** What a signature says: it is over these bytes and no others, and a frame that was changed
    after signing is refused (src/frame.rs). */
module FrameBinds {
  import opened ByteStrings
  import opened Wrappers
  import opened CborValue
  import opened CborRoundTrip
  import opened CborFields
  import opened CborRecords
  import opened Frame
  import Utf8

  /** The scheme accepts one signature for two different messages. */
  ghost predicate TwoMessages(ed: Ed25519, sig: seq<byte>, pubkey: seq<byte>) {
    exists a, b :: a != b && ed.verify(a, sig, pubkey) && ed.verify(b, sig, pubkey)
  }

  // --- the per-hop signature ------------------------------------------------------

  /** The bytes the hop signature is over. */
  ghost function HopMessage(frame: Value): seq<byte> {
    Utf8.Encode("macula-v2-frame\0") + Enc(Without(frame, {"signature", "publisher_sig"}))
  }

  /** A frame is accepted exactly for a 64-byte signature that the scheme accepts over its
      message, and refused for the first thing that is wrong. */
  lemma {:induction false} VerifyAnswers(ed: Ed25519, frame: Value, pubkey: seq<byte>)
    ensures Verify(ed, frame, pubkey) ==
      match Get(frame, "signature")
      case Some(Bytes(sig)) =>
        if |sig| == 64 && ed.verify(HopMessage(frame), sig, pubkey) then Ok(())
        else if |sig| == 64 then Err(SignatureInvalid)
        else Err(BadSignature)
      case _ => Err(MissingSignature)
  {
    hide Enc, Utf8.Encode, Get, Without;
    assert {"signature", "publisher_sig"} == SIGNATURE_FIELDS;
  }

  lemma {:induction false} WithoutProper(v: Value, keys: set<string>)
    requires v.Map? && Proper(v)
    ensures Proper(Without(v, keys))
  {
    hide Enc, Filter, DistinctEntries;
    FilterDistinct(v.entries, keys);
    forall i | 0 <= i < |Filter(v.entries, keys)| ensures Filter(v.entries, keys)[i] in v.entries {
      FilterMembers(v.entries, keys, Filter(v.entries, keys)[i]);
    }
  }

  /** One signature accepted on two frames: they say the same under every name but those of
      the signatures, or the scheme accepts it for two messages. */
  lemma {:induction false} HopSignatureBinds(ed: Ed25519, f: Value, g: Value, sig: seq<byte>, pubkey: seq<byte>)
    requires f.Map? && g.Map? && Proper(f) && Proper(g)
    requires Get(f, "signature") == Some(Bytes(sig)) == Get(g, "signature")
    requires Verify(ed, f, pubkey) == Ok(()) == Verify(ed, g, pubkey)
    ensures TwoMessages(ed, sig, pubkey) ||
      (&& Norm(Without(f, {"signature", "publisher_sig"})) == Norm(Without(g, {"signature", "publisher_sig"}))
       && forall name :: name != "signature" && name != "publisher_sig" ==>
            NormOption(Get(f, name)) == NormOption(Get(g, name)))
  {
    hide Enc, Utf8.Encode, Get, Norm, Without, Encodable, DistinctKeys, Verify;
    VerifyAnswers(ed, f, pubkey);
    VerifyAnswers(ed, g, pubkey);
    var keys := {"signature", "publisher_sig"};
    var a, b := Without(f, keys), Without(g, keys);
    if HopMessage(f) == HopMessage(g) {
      SameAfter(Utf8.Encode("macula-v2-frame\0"), Enc(a), Enc(b));
      WithoutProper(f, keys);
      WithoutProper(g, keys);
      SameBytesSameNorm(a, b);
      forall name | name != "signature" && name != "publisher_sig"
        ensures NormOption(Get(f, name)) == NormOption(Get(g, name)) {
        WithoutKeeps(f, keys);
        WithoutKeeps(g, keys);
        GetNorm(a, name);
        GetNorm(b, name);
      }
    }
  }

  lemma {:induction false} SameAfter(p: seq<byte>, a: seq<byte>, b: seq<byte>)
    requires p + a == p + b
    ensures a == b
  {
    assert (p + a)[|p|..] == a && (p + b)[|p|..] == b;
  }

  lemma {:induction false} BytesProper(b: seq<byte>)
    requires |b| < TWO64
    ensures Proper(Bytes(b))
  {
  }

  /** A frame signed and then changed under any other name is refused. */
  lemma {:induction false} ChangedFrameRefused(ed: Ed25519, frame: Value, key: seq<byte>, name: string, val: Value)
    requires frame.Map? && Proper(frame) && Proper(val) && |frame.entries| + 2 < TWO64
    requires |Utf8.Encode(name)| < TWO64 && name != "signature" && name != "publisher_sig"
    requires NormOption(Get(frame, name)) != Some(Norm(val))
    ensures var signed := Sign(ed, frame, key);
      && Get(signed, "signature").Some? && Get(signed, "signature").value.Bytes?
      && (TwoMessages(ed, Get(signed, "signature").value.b, ed.pub(key))
          || Verify(ed, WithField(signed, name, val), ed.pub(key)) == Err(SignatureInvalid))
  {
    hide Enc, Utf8.Encode, Norm, Encodable, DistinctKeys, Verify, SignableBytes, Find, Filter, TwoMessages;
    var sig := ed.sign(key, SignableBytes(frame));
    var signed := Sign(ed, frame, key);
    var changed := WithField(signed, name, val);
    SignKeepsProper(ed, frame, key);
    SignatureNamesShort();
    BytesProper(sig);
    WithFieldProper(frame, "signature", Bytes(sig));
    WithFieldProper(signed, name, val);
    GetWithField(frame, "signature", Bytes(sig));
    GetOtherField(signed, name, val, "signature");
    GetWithField(signed, name, val);
    GetOtherField(frame, "signature", Bytes(sig), name);
    SignedVerifies(ed, frame, key);
    VerifyAnswers(ed, changed, ed.pub(key));
    hide Get, WithField;
    if Verify(ed, changed, ed.pub(key)) == Ok(()) {
      HopSignatureBinds(ed, signed, changed, sig, ed.pub(key));
    }
  }

  // --- the publisher's signature --------------------------------------------------------

  /** What the frame has under a name, null if nothing. */
  ghost function Said(frame: Value, name: string): Value {
    if Get(frame, name).Some? then Get(frame, name).value else Null
  }

  /** The bytes the publisher's signature is over: the five fields, absent ones as null. */
  ghost function PublisherMessage(frame: Value): seq<byte> {
    Utf8.Encode("macula-v2-event-pub\0") + Enc(Map([
      Entry(Text("topic"), Said(frame, "topic")),
      Entry(Text("realm"), Said(frame, "realm")),
      Entry(Text("publisher"), Said(frame, "publisher")),
      Entry(Text("seq"), Said(frame, "seq")),
      Entry(Text("payload"), Said(frame, "payload"))]))
  }

  lemma {:induction false} PublisherSigns(frame: Value)
    ensures PublisherSigningBytes(frame) == PublisherMessage(frame)
  {
    hide Enc, Utf8.Encode, Get;
    assert PublisherEntries(frame) == [
      Entry(Text("topic"), Said(frame, "topic")),
      Entry(Text("realm"), Said(frame, "realm")),
      Entry(Text("publisher"), Said(frame, "publisher")),
      Entry(Text("seq"), Said(frame, "seq")),
      Entry(Text("payload"), Said(frame, "payload"))];
  }

  /** An event is accepted exactly for a 64-byte signature that the scheme accepts over its
      message for the 32-byte key it names, and refused for the first thing that is wrong. */
  lemma {:induction false} VerifyPublisherAnswers(ed: Ed25519, frame: Value)
    ensures VerifyPublisher(ed, frame) ==
      match (Get(frame, "publisher_sig"), Get(frame, "publisher"))
      case (Some(Bytes(sig)), Some(Bytes(pubkey))) =>
        if |sig| != 64 || |pubkey| != 32 then Err(BadPublisherSig)
        else if ed.verify(PublisherMessage(frame), sig, pubkey) then Ok(())
        else Err(PublisherSigInvalid)
      case (Some(Bytes(_)), _) => Err(BadPublisherSig)
      case _ => Err(MissingPublisherSig)
  {
    hide Enc, Utf8.Encode, Get, PublisherSigningBytes, PublisherMessage;
    PublisherSigns(frame);
  }

  lemma {:induction false} FieldProper(f: Value, name: string)
    requires f.Map? && Proper(f)
    ensures Proper(FieldOrNull(f, name))
  {
    hide Enc;
    var i := Find(f.entries, name);
    if i < |f.entries| { ProperEntries(f.entries); assert ProperEntry(f.entries[i]); }
  }

  lemma {:induction false} EventRecord(f: Value)
    requires f.Map? && Proper(f)
    ensures var v := Map(PublisherEntries(f));
      Proper(v) && forall i :: 0 <= i < |PUBLISHER_FIELDS| ==>
        Get(Norm(v), PUBLISHER_FIELDS[i]) == Some(Norm(FieldOrNull(f, PUBLISHER_FIELDS[i])))
  {
    hide Enc, FieldOrNull, Encodable, DistinctKeys, Height, Norm, Get, FieldFits;
    PublisherFieldNames();
    var fields := seq(|PUBLISHER_FIELDS|, i requires 0 <= i < |PUBLISHER_FIELDS| =>
      Field(PUBLISHER_FIELDS[i], FieldOrNull(f, PUBLISHER_FIELDS[i])));
    assert EntriesOf(fields) == PublisherEntries(f);
    var h := EventHeight(f);
    RecordReads(fields, h);
  }

  /** Some height that is above the five fields'. */
  lemma {:induction false} EventHeight(f: Value) returns (h: nat)
    requires f.Map? && Proper(f)
    ensures forall i :: 0 <= i < |PUBLISHER_FIELDS| ==>
      FieldFits(Field(PUBLISHER_FIELDS[i], FieldOrNull(f, PUBLISHER_FIELDS[i])), h)
  {
    hide Enc, FieldOrNull, Encodable, DistinctKeys, Height;
    var p := PUBLISHER_FIELDS;
    h := 1 + Max(Height(FieldOrNull(f, p[0])), Max(Height(FieldOrNull(f, p[1])), Max(Height(FieldOrNull(f, p[2])),
      Max(Height(FieldOrNull(f, p[3])), Height(FieldOrNull(f, p[4]))))));
    forall i | 0 <= i < |p| ensures Proper(FieldOrNull(f, p[i])) && |p[i]| < 64 { FieldProper(f, p[i]); }
  }

  /** One signature accepted on two events that name one publisher: they agree on topic,
      realm, publisher, sequence number and payload, or the scheme accepts it for two
      messages. */
  lemma {:induction false} PublisherSignatureBinds(ed: Ed25519, f: Value, g: Value, sig: seq<byte>, pubkey: seq<byte>)
    requires f.Map? && g.Map? && Proper(f) && Proper(g)
    requires Get(f, "publisher_sig") == Some(Bytes(sig)) == Get(g, "publisher_sig")
    requires Get(f, "publisher") == Some(Bytes(pubkey)) == Get(g, "publisher")
    requires VerifyPublisher(ed, f) == Ok(()) == VerifyPublisher(ed, g)
    ensures TwoMessages(ed, sig, pubkey) ||
      (&& Agree(f, g, "topic") && Agree(f, g, "realm") && Agree(f, g, "publisher") && Agree(f, g, "seq")
       && Agree(f, g, "payload"))
  {
    hide Enc, Utf8.Encode, Get, Norm, FieldOrNull, Encodable, DistinctKeys, PublisherEntries;
    var a, b := Map(PublisherEntries(f)), Map(PublisherEntries(g));
    if PublisherSigningBytes(f) == PublisherSigningBytes(g) {
      SameAfter(EVENT_PUBLISHER_DOMAIN, Enc(a), Enc(b));
      EventRecord(f);
      EventRecord(g);
      SameBytesSameNorm(a, b);
      forall i | 0 <= i < |PUBLISHER_FIELDS| ensures Agree(f, g, PUBLISHER_FIELDS[i]) {
        assert Get(Norm(a), PUBLISHER_FIELDS[i]) == Get(Norm(b), PUBLISHER_FIELDS[i]);
      }
      SameEventFields(f, g);
    }
  }

  /** An event signed by its publisher and then changed under one of the other four names is
      refused. */
  lemma {:induction false} ChangedEventRefused(ed: Ed25519, frame: Value, key: seq<byte>, name: string, val: Value)
    requires frame.Map? && Proper(frame) && Proper(val) && |frame.entries| + 2 < TWO64
    requires Get(frame, "publisher") == Some(Bytes(ed.pub(key)))
    requires name in {"topic", "realm", "seq", "payload"} && Norm(FieldOrNull(frame, name)) != Norm(val)
    ensures var signed := SignPublisher(ed, frame, key);
      && Get(signed, "publisher_sig").Some? && Get(signed, "publisher_sig").value.Bytes?
      && (TwoMessages(ed, Get(signed, "publisher_sig").value.b, ed.pub(key))
          || VerifyPublisher(ed, WithField(signed, name, val)) == Err(PublisherSigInvalid))
  {
    hide Enc, Utf8.Encode, Norm, Encodable, DistinctKeys, PublisherSigningBytes, PublisherMessage, Find, TwoMessages;
    var sig := ed.sign(key, PublisherSigningBytes(frame));
    var signed := SignPublisher(ed, frame, key);
    var changed := WithField(signed, name, val);
    ShortText(name);
    SignatureNamesShort();
    EventNames(name);
    BytesProper(sig);
    WithFieldProper(frame, "publisher_sig", Bytes(sig));
    WithFieldProper(signed, name, val);
    GetWithField(frame, "publisher_sig", Bytes(sig));
    GetOtherField(frame, "publisher_sig", Bytes(sig), "publisher");
    GetOtherField(frame, "publisher_sig", Bytes(sig), name);
    GetOtherField(signed, name, val, "publisher_sig");
    GetOtherField(signed, name, val, "publisher");
    GetWithField(signed, name, val);
    PublisherSignedVerifies(ed, frame, key);
    VerifyPublisherAnswers(ed, changed);
    hide Get, WithField, VerifyPublisher;
    if VerifyPublisher(ed, changed) == Ok(()) {
      PublisherSignatureBinds(ed, signed, changed, sig, ed.pub(key));
    }
  }

  lemma {:induction false} EventNames(name: string)
    requires name in {"topic", "realm", "seq", "payload"}
    ensures |name| < 10 && name != "publisher" && name != "publisher_sig"
  {
    assert |"publisher"| == 9 && |"publisher_sig"| == 13;
  }

  // --- the two are apart ------------------------------------------------------------------

  lemma {:induction false} AsciiBytes(s: string, i: nat)
    requires i < |s| && forall j :: 0 <= j < |s| ==> s[j] as int < 0x80
    ensures |Utf8.Encode(s)| == |s| && Utf8.Encode(s)[i] == s[i] as int
  {
    if |s| > 1 {
      AsciiBytes(s[1..], if i == 0 then 0 else i - 1);
    }
  }

  /** No frame's hop message is any event's publisher message, so neither signature can
      stand for the other. */
  lemma {:induction false} DomainsApart(f: Value, g: Value)
    ensures HopMessage(f) != PublisherMessage(g)
  {
    hide Enc, Utf8.Encode, Said;
    var a, b := "macula-v2-frame\0", "macula-v2-event-pub\0";
    assert |a| == 16 && |b| == 20 && a[10] == 'f' && b[10] == 'e';
    AsciiBytes(a, 10);
    AsciiBytes(b, 10);
    assert HopMessage(f)[10] == Utf8.Encode(a)[10] && PublisherMessage(g)[10] == Utf8.Encode(b)[10];
  }
}
