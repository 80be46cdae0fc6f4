/** What a frame has to say to be read as a CALL, a RESULT or an ERROR, and what is wrong with
    one that is not: of the fields alone, under the names the protocol gives them
    (src/frame.rs). */
module FrameParse {
  import opened ByteStrings
  import opened Wrappers
  import opened CborValue
  import opened CborFields
  import opened CborRecords
  import opened Frame
  import opened FrameCall
  import CborParse
  import Utf8

  // --- the length prefix ----------------------------------------------------------------

  /** A buffer that claims `n` bytes: refused if that is over 2^24 - 1, incomplete until it
      has them, and then whatever those bytes decode to. */
  lemma {:induction false} PrefixReads(buf: seq<byte>, n: nat)
    requires n < 0x1_0000_0000 && |buf| >= 4 && buf[..4] == ToBE(n, 4)
    ensures n > 0xFF_FFFF ==> Decode(buf) == Err(DecodeFrameError.TooLarge(n))
    ensures n <= 0xFF_FFFF && |buf| < 4 + n ==> Decode(buf) == Ok(More(4 + n - |buf|))
    ensures n <= 0xFF_FFFF && |buf| >= 4 + n ==>
      match CborParse.Decode(buf[4..4 + n])
      case Ok(v) => Decode(buf) == Ok(Frame(v, 4 + n))
      case Err(e) => Decode(buf) == Err(Cbor(e))
  {
    hide CborParse.Decode, ToBE, FromBE;
    Widths();
    FromToBE(n, 4);
  }

  lemma {:induction false} NoPrefixReads(buf: seq<byte>)
    ensures |buf| < 4 ==> Decode(buf) == Ok(More(4 - |buf|))
  {
    hide CborParse.Decode;
  }

  /** A frame is written as the length of its encoding and the encoding, unless an integer
      is out of range or it is over 2^24 - 1 bytes. */
  lemma {:induction false} EncodeAnswers(frame: Value)
    ensures Encode(frame) ==
      if FirstBad(frame).Some? then Err(IntOutOfRange(FirstBad(frame).value))
      else if |Enc(frame)| > 0xFF_FFFF then Err(EncodeFrameError.TooLarge(|Enc(frame)|))
      else Ok(ToBE(|Enc(frame)|, 4) + Enc(frame))
  {
    hide Enc, FirstBad, ToBE;
  }

  // --- the envelope -----------------------------------------------------------------------

  /** None of the fields has the name. */
  ghost predicate Unset(fields: seq<Field>, name: string) {
    forall i :: 0 <= i < |fields| ==> fields[i].name != name
  }

  lemma {:induction false} UnsetByTag(fields: seq<Field>, tags: seq<int>, name: string)
    requires Tagged(fields, tags) && Tag(name) !in tags
    ensures Unset(fields, name)
  {
    hide Tag;
    forall i | 0 <= i < |fields| ensures fields[i].name != name { assert tags[i] == Tag(fields[i].name); }
  }

  /** Every frame carries the version, its type, its id and its time; what it does not set is
      null. */
  lemma {:induction false} EnvelopeReads(frameType: string, fields: seq<Field>, frameId: Id16, sentAtMs: u64)
    requires DistinctNamed(fields)
    ensures var v := FrameOf(frameType, fields, frameId, sentAtMs);
      && (Unset(fields, "version") ==> Get(v, "version") == Some(Int(2)))
      && (Unset(fields, "frame_type") ==> Get(v, "frame_type") == Some(Text(frameType)))
      && (Unset(fields, "frame_id") ==> Get(v, "frame_id") == Some(Bytes(frameId)))
      && (Unset(fields, "sent_at_ms") ==> Get(v, "sent_at_ms") == Some(Int(sentAtMs)))
      && (Unset(fields, "capabilities") ==> Get(v, "capabilities") == Some(Int(0)))
      && (Unset(fields, "realm") ==> Get(v, "realm") == Some(Null))
      && (Unset(fields, "call_id") ==> Get(v, "call_id") == Some(Null))
      && (Unset(fields, "source_route") ==> Get(v, "source_route") == Some(Null))
  {
    hide WithFields, Get, DistinctNamed;
    var base := Map(Base(frameType, 0, frameId, sentAtMs));
    BaseReads(frameType, frameId, sentAtMs);
    GetWithFields(base, fields, "version");
    GetWithFields(base, fields, "frame_type");
    GetWithFields(base, fields, "frame_id");
    GetWithFields(base, fields, "sent_at_ms");
    GetWithFields(base, fields, "capabilities");
    GetWithFields(base, fields, "realm");
    GetWithFields(base, fields, "call_id");
    GetWithFields(base, fields, "source_route");
  }

  lemma {:induction false} BaseReads(frameType: string, frameId: Id16, sentAtMs: u64)
    ensures var v := Map(Base(frameType, 0, frameId, sentAtMs));
      && Get(v, "version") == Some(Int(2)) && Get(v, "frame_type") == Some(Text(frameType))
      && Get(v, "frame_id") == Some(Bytes(frameId)) && Get(v, "sent_at_ms") == Some(Int(sentAtMs))
      && Get(v, "capabilities") == Some(Int(0)) && Get(v, "realm") == Some(Null)
      && Get(v, "call_id") == Some(Null) && Get(v, "source_route") == Some(Null)
  {
    hide WithFields, Get, DistinctNamed;
    var f := BaseFields(frameType, frameId, sentAtMs);
    BaseIsFields(frameType, frameId, sentAtMs);
    GetWithFields(Map([]), f, f[0].name);
    GetWithFields(Map([]), f, f[1].name);
    GetWithFields(Map([]), f, f[2].name);
    GetWithFields(Map([]), f, f[3].name);
    GetWithFields(Map([]), f, f[4].name);
    GetWithFields(Map([]), f, f[5].name);
    GetWithFields(Map([]), f, f[6].name);
    GetWithFields(Map([]), f, f[7].name);
  }

  // --- CALL --------------------------------------------------------------------------------

  /** The frame says this call. */
  ghost predicate SaysCall(v: Value, info: CallInfo) {
    && Get(v, "frame_type") == Some(Text("call"))
    && Get(v, "call_id") == Some(Bytes(info.callId))
    && Get(v, "procedure") == Some(Bytes(Utf8.Encode(info.procedure)))
    && Get(v, "realm") == Some(Bytes(info.realm))
    && Get(v, "payload") == Some(info.payload)
    && Get(v, "deadline_ms") == Some(Int(info.deadlineMs))
    && Get(v, "caller") == Some(Bytes(info.caller))
    && (if Get(v, "ucan_token").Some? && Get(v, "ucan_token").value.Bytes?
        then Get(v, "ucan_token").value.b == info.ucanToken
        else info.ucanToken == [])
  }

  /** A frame is read as a call exactly if it says that call. */
  lemma {:induction false} ParseCallReads(v: Value, info: CallInfo)
    ensures ParseCall(v) == Ok(info) <==> SaysCall(v, info)
  {
    hide Get, Utf8.Encode, Utf8.Decode;
    if SaysCall(v, info) { Utf8.DecodeEncode(info.procedure); }
    if Get(v, "procedure").Some? && Get(v, "procedure").value.Bytes? {
      Utf8.EncodeDecode(Get(v, "procedure").value.b);
    }
  }

  /** The bytes are some text's. */
  ghost predicate IsUtf8(b: seq<byte>) {
    exists s :: Utf8.Encode(s) == b
  }

  /** What a field has to hold. */
  datatype Kind = Exactly(n: nat) | Utf8Bytes | Anything | Integer

  ghost predicate Holds(v: Value, name: string, kind: Kind) {
    match Get(v, name)
    case None => false
    case Some(x) =>
      (match kind
       case Exactly(n) => x.Bytes? && |x.b| == n
       case Utf8Bytes => x.Bytes? && IsUtf8(x.b)
       case Anything => true
       case Integer => x.Int?)
  }

  function Complaint(v: Value, name: string): ParseError {
    if Get(v, name).None? then MissingField(name) else WrongFieldType(name)
  }

  lemma {:induction false} Utf8Decodes(b: seq<byte>)
    ensures Utf8.Decode(b).Some? <==> IsUtf8(b)
  {
    hide Utf8.Encode, Utf8.Decode;
    Utf8.EncodeDecode(b);
    forall s | Utf8.Encode(s) == b ensures Utf8.Decode(b).Some? { Utf8.DecodeEncode(s); }
  }

  /** The first field of a call that is missing or does not hold what it should. */
  ghost function BadField(v: Value): string {
    if !Holds(v, "call_id", Exactly(16)) then "call_id"
    else if !Holds(v, "procedure", Utf8Bytes) then "procedure"
    else if !Holds(v, "realm", Exactly(32)) then "realm"
    else if !Holds(v, "payload", Anything) then "payload"
    else if !Holds(v, "deadline_ms", Integer) then "deadline_ms"
    else "caller"
  }

  /** A frame that is not a call is refused for its type, else for that field. */
  lemma {:induction false} ParseCallRefuses(v: Value)
    ensures Get(v, "frame_type") != Some(Text("call")) ==> ParseCall(v) == Err(WrongFrameType)
    ensures Get(v, "frame_type") == Some(Text("call")) && ParseCall(v).Err? ==>
      ParseCall(v) == Err(Complaint(v, BadField(v)))
  {
    hide Get, Utf8.Encode, Utf8.Decode, GetUtf8Bytes;
    ProcedureHolds(v, "procedure");
  }

  lemma {:induction false} ProcedureHolds(v: Value, name: string)
    ensures GetUtf8Bytes(v, name).Ok? <==> Holds(v, name, Utf8Bytes)
    ensures GetUtf8Bytes(v, name).Err? ==> GetUtf8Bytes(v, name) == Err(Complaint(v, name))
  {
    hide Get, IsUtf8, Utf8.Decode;
    if Get(v, name).Some? && Get(v, name).value.Bytes? { Utf8Decodes(Get(v, name).value.b); }
  }

  // --- RESULT and ERROR ----------------------------------------------------------------------

  /** The frame says this response. */
  ghost predicate SaysResponse(v: Value, response: CallResponse) {
    match response
    case Reply(payload, respondedBy) =>
      && Get(v, "frame_type") == Some(Text("result"))
      && Get(v, "payload") == Some(payload)
      && Get(v, "responded_by") == Some(Bytes(respondedBy))
    case Failure(code, name, reportedBy, detail) =>
      && Get(v, "frame_type") == Some(Text("error"))
      && Get(v, "code") == Some(Int(code))
      && Get(v, "name") == Some(Text(name))
      && Get(v, "reported_by") == Some(Bytes(reportedBy))
      && (match detail
          case None => Get(v, "detail") == None || Get(v, "detail") == Some(Null)
          case Some(d) => Get(v, "detail") == Some(Bytes(Utf8.Encode(d))))
  }

  /** A frame is read as a response exactly if it says that response. */
  lemma {:induction false} ParseResponseReads(v: Value, response: CallResponse)
    ensures ParseCallResponse(v) == Ok(response) <==> SaysResponse(v, response)
  {
    hide Get, Utf8.Encode, Utf8.Decode;
    assert Text("result") != Text("error") by { assert |"result"| == 6 && |"error"| == 5; }
    if response.Failure? && response.detail.Some? { Utf8.DecodeEncode(response.detail.value); }
    if Get(v, "detail").Some? && Get(v, "detail").value.Bytes? { Utf8.EncodeDecode(Get(v, "detail").value.b); }
  }

  /** Its call id is the 16 bytes under that name, in whatever frame. */
  lemma {:induction false} CallIdReads(v: Value, callId: Id16)
    ensures FrameCallId(v) == Some(callId) <==> Get(v, "call_id") == Some(Bytes(callId))
  {
    hide Get;
  }

  /** A response that is none is refused for its type, else for the first field, in this
      order, that is missing or does not hold what it should. */
  lemma {:induction false} ParseResponseRefuses(v: Value)
    ensures Get(v, "frame_type") != Some(Text("result")) && Get(v, "frame_type") != Some(Text("error")) ==>
      ParseCallResponse(v) == Err(WrongFrameType)
    ensures Get(v, "frame_type") == Some(Text("result")) && ParseCallResponse(v).Err? ==>
      ParseCallResponse(v).error == Complaint(v, if !Holds(v, "payload", Anything) then "payload" else "responded_by")
    ensures Get(v, "frame_type") == Some(Text("error")) && ParseCallResponse(v).Err? ==>
      ParseCallResponse(v).error == Complaint(v,
        if Get(v, "code").None? || !Get(v, "code").value.Int? || !(0 <= Get(v, "code").value.n <= 255) then "code"
        else if Get(v, "name").None? || !Get(v, "name").value.Text? then "name"
        else if !Holds(v, "reported_by", Exactly(32)) then "reported_by"
        else "detail")
  {
    hide Get, Utf8.Encode, Utf8.Decode;
    assert Text("result") != Text("error") by { assert |"result"| == 6 && |"error"| == 5; }
  }

  // --- what is sent ----------------------------------------------------------------------------

  lemma {:induction false} SentReads(frameType: string, fields: seq<Field>, frameId: Id16, sentAtMs: u64, i: nat)
    requires DistinctNamed(fields) && i < |fields|
    ensures Get(FrameOf(frameType, fields, frameId, sentAtMs), fields[i].name) == Some(fields[i].val)
  {
    hide WithFields, Get, DistinctNamed, Base;
    GetWithFields(Map(Base(frameType, 0, frameId, sentAtMs)), fields, fields[i].name);
  }

  /** A CALL says what it was asked to, and the fields a provider does not read too. */
  lemma {:induction false} CallSays(spec: CallSpec, frameId: Id16, sentAtMs: u64)
    ensures var v := CallValue(spec, frameId, sentAtMs);
      && SaysCall(v, CallInfo(spec.callId, spec.procedure, spec.realm, spec.payload, spec.deadlineMs, spec.caller,
                              spec.ucanToken))
      && Get(v, "source_route") == Some(Bytes(spec.sourceRoute))
      && Get(v, "retry_budget") == Some(Int(spec.retryBudget))
      && Get(v, "version") == Some(Int(2)) && Get(v, "frame_id") == Some(Bytes(frameId))
      && Get(v, "sent_at_ms") == Some(Int(sentAtMs)) && Get(v, "capabilities") == Some(Int(0))
  {
    hide Get, WithFields, Utf8.Encode, Unset;
    var fields := CallFields(spec);
    CallFieldsDistinct(spec);
    EnvelopeUnset(fields, [5114, 7099, 9112, 7112, 11100, 6099, 12115, 12114, 10117]);
    EnvelopeReads("call", fields, frameId, sentAtMs);
    forall i | 0 <= i < 9 ensures Get(CallValue(spec, frameId, sentAtMs), fields[i].name) == Some(fields[i].val) {
      SentReads("call", fields, frameId, sentAtMs, i);
    }
    var v := CallValue(spec, frameId, sentAtMs);
    assert Get(v, fields[0].name) == Some(fields[0].val) && Get(v, fields[1].name) == Some(fields[1].val);
    assert Get(v, fields[2].name) == Some(fields[2].val) && Get(v, fields[3].name) == Some(fields[3].val);
    assert Get(v, fields[4].name) == Some(fields[4].val) && Get(v, fields[5].name) == Some(fields[5].val);
    assert Get(v, fields[6].name) == Some(fields[6].val) && Get(v, fields[7].name) == Some(fields[7].val);
    assert Get(v, fields[8].name) == Some(fields[8].val);
  }

  lemma {:induction false} EnvelopeNames()
    ensures Tag("version") == 7118 && Tag("frame_type") == 10102 && Tag("frame_id") == 8102
    ensures Tag("sent_at_ms") == 10115 && Tag("capabilities") == 12099
    ensures Tag("realm") == 5114 && Tag("source_route") == 12115
  {
  }

  lemma {:induction false} EnvelopeUnset(fields: seq<Field>, tags: seq<int>)
    requires Tagged(fields, tags)
    requires 7118 !in tags && 10102 !in tags && 8102 !in tags && 10115 !in tags && 12099 !in tags
    ensures Unset(fields, "version") && Unset(fields, "frame_type") && Unset(fields, "frame_id")
    ensures Unset(fields, "sent_at_ms") && Unset(fields, "capabilities")
    ensures 5114 !in tags ==> Unset(fields, "realm")
    ensures 12115 !in tags ==> Unset(fields, "source_route")
  {
    hide Tag, Unset;
    EnvelopeNames();
    UnsetByTag(fields, tags, "version");
    UnsetByTag(fields, tags, "frame_type");
    UnsetByTag(fields, tags, "frame_id");
    UnsetByTag(fields, tags, "sent_at_ms");
    UnsetByTag(fields, tags, "capabilities");
    if 5114 !in tags { UnsetByTag(fields, tags, "realm"); }
    if 12115 !in tags { UnsetByTag(fields, tags, "source_route"); }
  }

  /** A RESULT says what it was asked to, and leaves the envelope's realm and route null. */
  lemma {:induction false} ResultSays(spec: ResultSpec, frameId: Id16, sentAtMs: u64)
    ensures var v := ResultValue(spec, frameId, sentAtMs);
      && SaysResponse(v, Reply(spec.payload, spec.respondedBy))
      && Get(v, "call_id") == Some(Bytes(spec.callId))
      && Get(v, "source_route_reverse") == Some(Bytes(spec.sourceRouteReverse))
      && Get(v, "realm") == Some(Null) && Get(v, "source_route") == Some(Null)
      && Get(v, "version") == Some(Int(2)) && Get(v, "frame_id") == Some(Bytes(frameId))
      && Get(v, "sent_at_ms") == Some(Int(sentAtMs)) && Get(v, "capabilities") == Some(Int(0))
  {
    hide Get, WithFields, Utf8.Encode, Unset;
    var fields := ResultFields(spec);
    TagsTell(fields, [7099, 7112, 12114, 20115]);
    EnvelopeUnset(fields, [7099, 7112, 12114, 20115]);
    EnvelopeReads("result", fields, frameId, sentAtMs);
    SentReads("result", fields, frameId, sentAtMs, 0);
    SentReads("result", fields, frameId, sentAtMs, 1);
    SentReads("result", fields, frameId, sentAtMs, 2);
    SentReads("result", fields, frameId, sentAtMs, 3);
  }

  lemma {:induction false} ErrorFieldsRead(spec: ErrorSpec, frameId: Id16, sentAtMs: u64)
    ensures DistinctNamed(ErrorFields(spec))
    ensures var v, f := ErrorValue(spec, frameId, sentAtMs), ErrorFields(spec);
      && Get(v, "call_id") == Some(f[0].val) && Get(v, "code") == Some(f[1].val) && Get(v, "name") == Some(f[2].val)
      && Get(v, "reported_by") == Some(f[3].val) && Get(v, "detail") == Some(f[4].val)
      && Get(v, "offending_hop") == Some(f[5].val) && Get(v, "source_route_partial") == Some(f[6].val)
  {
    hide Get, WithFields, Utf8.Encode, Base;
    var fields := ErrorFields(spec);
    TagsTell(fields, [7099, 4099, 4110, 11114, 6100, 13111, 20115]);
    SentReads("error", fields, frameId, sentAtMs, 0);
    SentReads("error", fields, frameId, sentAtMs, 1);
    SentReads("error", fields, frameId, sentAtMs, 2);
    SentReads("error", fields, frameId, sentAtMs, 3);
    SentReads("error", fields, frameId, sentAtMs, 4);
    SentReads("error", fields, frameId, sentAtMs, 5);
    SentReads("error", fields, frameId, sentAtMs, 6);
  }

  lemma {:induction false} ErrorTags(spec: ErrorSpec)
    ensures Tagged(ErrorFields(spec), [7099, 4099, 4110, 11114, 6100, 13111, 20115])
  {
    hide Utf8.Encode;
  }

  lemma {:induction false} ErrorEnvelope(spec: ErrorSpec, frameId: Id16, sentAtMs: u64)
    ensures var v := ErrorValue(spec, frameId, sentAtMs);
      && Get(v, "frame_type") == Some(Text("error"))
      && Get(v, "version") == Some(Int(2)) && Get(v, "frame_id") == Some(Bytes(frameId))
      && Get(v, "sent_at_ms") == Some(Int(sentAtMs)) && Get(v, "capabilities") == Some(Int(0))
      && Get(v, "realm") == Some(Null) && Get(v, "source_route") == Some(Null)
  {
    hide Get, WithFields, Utf8.Encode, Base, Unset, ErrorFields;
    var fields := ErrorFields(spec);
    ErrorTags(spec);
    TagsTell(fields, [7099, 4099, 4110, 11114, 6100, 13111, 20115]);
    EnvelopeUnset(fields, [7099, 4099, 4110, 11114, 6100, 13111, 20115]);
    EnvelopeReads("error", fields, frameId, sentAtMs);
  }

  /** An ERROR says what it was asked to, absent parts as null. */
  lemma {:induction false} ErrorSays(spec: ErrorSpec, frameId: Id16, sentAtMs: u64)
    ensures var v := ErrorValue(spec, frameId, sentAtMs);
      && SaysResponse(v, Failure(spec.code, spec.name, spec.reportedBy, spec.detail))
      && (spec.detail.None? ==> Get(v, "detail") == Some(Null))
      && Get(v, "call_id") == Some(Bytes(spec.callId))
      && (match spec.offendingHop
          case Some(hop) => Get(v, "offending_hop") == Some(Bytes(hop))
          case None => Get(v, "offending_hop") == Some(Null))
      && Get(v, "source_route_partial") == Some(Bytes(spec.sourceRoutePartial))
      && Get(v, "realm") == Some(Null) && Get(v, "source_route") == Some(Null)
      && Get(v, "version") == Some(Int(2)) && Get(v, "frame_id") == Some(Bytes(frameId))
      && Get(v, "sent_at_ms") == Some(Int(sentAtMs)) && Get(v, "capabilities") == Some(Int(0))
  {
    hide Get, ErrorValue, Utf8.Encode;
    ErrorFieldsRead(spec, frameId, sentAtMs);
    ErrorEnvelope(spec, frameId, sentAtMs);
  }
}
