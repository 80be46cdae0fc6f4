/** CALL and RESULT frames: built field by field over a common envelope, signed,
    sent, decoded and parsed back (src/frame.rs). */
module FrameCall {
  import opened ByteStrings
  import opened Wrappers
  import opened CborValue
  import opened CborFields
  import opened CborRecords
  import opened Frame
  import CborParse
  import Utf8

  // --- CALL -------------------------------------------------------------------------

  datatype CallSpec = CallSpec(
    callId: Id16, procedure: string, realm: Id32, payload: Value, deadlineMs: int,
    caller: Id32, sourceRoute: seq<byte>, retryBudget: u64, ucanToken: seq<byte>)

  const PROTOCOL_VERSION := 2

  /** The envelope every frame starts from; three fields are sentinels to override. */
  function Base(frameType: string, capabilities: u64, frameId: Id16, sentAtMs: u64): seq<Entry> {
    [
      Entry(Text("version"), Int(PROTOCOL_VERSION)),
      Entry(Text("frame_type"), Text(frameType)),
      Entry(Text("frame_id"), Bytes(frameId)),
      Entry(Text("sent_at_ms"), Int(sentAtMs)),
      Entry(Text("capabilities"), Int(capabilities)),
      Entry(Text("realm"), Null),
      Entry(Text("call_id"), Null),
      Entry(Text("source_route"), Null)
    ]
  }

  function CallFields(spec: CallSpec): seq<Field> {
    [
      Field("realm", Bytes(spec.realm)),
      Field("call_id", Bytes(spec.callId)),
      Field("procedure", Bytes(Utf8.Encode(spec.procedure))),
      Field("payload", spec.payload),
      Field("deadline_ms", Int(spec.deadlineMs)),
      Field("caller", Bytes(spec.caller)),
      Field("source_route", Bytes(spec.sourceRoute)),
      Field("retry_budget", Int(spec.retryBudget)),
      Field("ucan_token", Bytes(spec.ucanToken))
    ]
  }

  function CallValue(spec: CallSpec, frameId: Id16, sentAtMs: u64): Value {
    WithFields(Map(Base("call", 0, frameId, sentAtMs)), CallFields(spec))
  }

  datatype ParseError = WrongFrameType | MissingField(name: string) | WrongFieldType(name: string)

  datatype CallInfo = CallInfo(
    callId: Id16, procedure: string, realm: Id32, payload: Value, deadlineMs: int,
    caller: Id32, ucanToken: seq<byte>)

  function GetBytesExact(frame: Value, n: nat, name: string): (r: Result<seq<byte>, ParseError>)
    ensures r.Ok? ==> |r.value| == n
  {
    match Get(frame, name)
    case Some(Bytes(b)) => if |b| == n then Ok(b) else Err(WrongFieldType(name))
    case Some(_) => Err(WrongFieldType(name))
    case None => Err(MissingField(name))
  }

  function GetUtf8Bytes(frame: Value, name: string): Result<string, ParseError> {
    match Get(frame, name)
    case Some(Bytes(b)) =>
      (match Utf8.Decode(b)
       case Some(s) => Ok(s)
       case None => Err(WrongFieldType(name)))
    case Some(_) => Err(WrongFieldType(name))
    case None => Err(MissingField(name))
  }

  function ParseCall(frame: Value): Result<CallInfo, ParseError> {
    if Get(frame, "frame_type") != Some(Text("call")) then Err(WrongFrameType)
    else
      var callId :- GetBytesExact(frame, 16, "call_id");
      var procedure :- GetUtf8Bytes(frame, "procedure");
      var realm :- GetBytesExact(frame, 32, "realm");
      var payload :- (match Get(frame, "payload")
                      case Some(v) => Ok(v)
                      case None => Err(MissingField("payload")));
      var deadlineMs :- (match Get(frame, "deadline_ms")
                         case Some(Int(n)) => Ok(n)
                         case Some(_) => Err(WrongFieldType("deadline_ms"))
                         case None => Err(MissingField("deadline_ms")));
      var caller :- GetBytesExact(frame, 32, "caller");
      var ucanToken := (match Get(frame, "ucan_token")
                        case Some(Bytes(b)) => b
                        case _ => []);
      Ok(CallInfo(callId, procedure, realm, payload, deadlineMs, caller, ucanToken))
  }

  // --- RESULT and ERROR ---------------------------------------------------------------

  datatype ResultSpec = ResultSpec(callId: Id16, payload: Value, respondedBy: Id32, sourceRouteReverse: seq<byte>)

  function ResultFields(spec: ResultSpec): seq<Field> {
    [
      Field("call_id", Bytes(spec.callId)),
      Field("payload", spec.payload),
      Field("responded_by", Bytes(spec.respondedBy)),
      Field("source_route_reverse", Bytes(spec.sourceRouteReverse))
    ]
  }

  function ResultValue(spec: ResultSpec, frameId: Id16, sentAtMs: u64): Value {
    WithFields(Map(Base("result", 0, frameId, sentAtMs)), ResultFields(spec))
  }

  datatype ErrorSpec = ErrorSpec(
    callId: Id16, code: byte, name: string, reportedBy: Id32, detail: Option<string>, offendingHop: Option<Id32>,
    sourceRoutePartial: seq<byte>)

  function ErrorFields(spec: ErrorSpec): seq<Field> {
    [
      Field("call_id", Bytes(spec.callId)),
      Field("code", Int(spec.code)),
      Field("name", Text(spec.name)),
      Field("reported_by", Bytes(spec.reportedBy)),
      Field("detail", match spec.detail case Some(d) => Bytes(Utf8.Encode(d)) case None => Null),
      Field("offending_hop", match spec.offendingHop case Some(h) => Bytes(h) case None => Null),
      Field("source_route_partial", Bytes(spec.sourceRoutePartial))
    ]
  }

  function ErrorValue(spec: ErrorSpec, frameId: Id16, sentAtMs: u64): Value {
    WithFields(Map(Base("error", 0, frameId, sentAtMs)), ErrorFields(spec))
  }

  datatype CallResponse =
    | Reply(payload: Value, respondedBy: Id32)
    | Failure(code: byte, name: string, reportedBy: Id32, detail: Option<string>)

  function FrameCallId(frame: Value): Option<Id16> {
    match Get(frame, "call_id")
    case Some(Bytes(b)) => if |b| == 16 then Some(b) else None
    case _ => None
  }

  function ParseCallResponse(frame: Value): Result<CallResponse, ParseError> {
    if Get(frame, "frame_type") == Some(Text("result")) then
      var payload :- (match Get(frame, "payload")
                      case Some(v) => Ok(v)
                      case None => Err(MissingField("payload")));
      var respondedBy :- GetBytesExact(frame, 32, "responded_by");
      Ok(Reply(payload, respondedBy))
    else if Get(frame, "frame_type") == Some(Text("error")) then
      var code :- (match Get(frame, "code")
                   case Some(Int(n)) => if 0 <= n <= 255 then Ok(n) else Err(WrongFieldType("code"))
                   case Some(_) => Err(WrongFieldType("code"))
                   case None => Err(MissingField("code")));
      var name :- (match Get(frame, "name")
                   case Some(Text(t)) => Ok(t)
                   case Some(_) => Err(WrongFieldType("name"))
                   case None => Err(MissingField("name")));
      var reportedBy :- GetBytesExact(frame, 32, "reported_by");
      var detail :- (match Get(frame, "detail")
                     case None => Ok(None)
                     case Some(Null) => Ok(None)
                     case Some(Bytes(b)) =>
                       (match Utf8.Decode(b)
                        case Some(s) => Ok(Some(s))
                        case None => Err(WrongFieldType("detail")))
                     case Some(_) => Err(WrongFieldType("detail")));
      Ok(Failure(code, name, reportedBy, detail))
    else Err(WrongFrameType)
  }

  function BaseFields(frameType: string, frameId: Id16, sentAtMs: u64): seq<Field> {
    [
      Field("version", Int(PROTOCOL_VERSION)),
      Field("frame_type", Text(frameType)),
      Field("frame_id", Bytes(frameId)),
      Field("sent_at_ms", Int(sentAtMs)),
      Field("capabilities", Int(0)),
      Field("realm", Null),
      Field("call_id", Null),
      Field("source_route", Null)
    ]
  }

  /** The envelope repeats no key either: it is the empty map with its fields set. */
  lemma {:induction false} BaseIsFields(frameType: string, frameId: Id16, sentAtMs: u64)
    ensures Map(Base(frameType, 0, frameId, sentAtMs)) == WithFields(Map([]), BaseFields(frameType, frameId, sentAtMs))
    ensures DistinctNamed(BaseFields(frameType, frameId, sentAtMs))
  {
    var fields := BaseFields(frameType, frameId, sentAtMs);
    TagsTell(fields, [7118, 10102, 8102, 10115, 12099, 5114, 7099, 12115]);
    AppendsAll(fields);
    hide WithFields;
    assert EntriesOf(fields) == Base(frameType, 0, frameId, sentAtMs);
  }

  // --- over the wire ------------------------------------------------------------------

  /** What a receiver reads under a name of a frame that was signed and sent. */
  lemma {:induction false} WireGet(ed: Ed25519, frame: Value, key: seq<byte>, name: string)
    requires frame.Map? && DistinctKeys(Sign(ed, frame, key)) && name != "signature"
    ensures Get(Norm(Sign(ed, frame, key)), name) == NormOption(Get(frame, name))
  {
    hide Get, Norm, DistinctKeys, SignableBytes;
    StaysMap(frame, "signature", Bytes(ed.sign(key, SignableBytes(frame))));
    GetOtherField(frame, "signature", Bytes(ed.sign(key, SignableBytes(frame))), name);
    hide WithField;
    GetNorm(Sign(ed, frame, key), name);
  }

  ghost predicate CallFits(spec: CallSpec) {
    && Proper(spec.payload)
    && Height(spec.payload) < CborParse.MAX_NESTING_DEPTH
    && IntFits(spec.deadlineMs)
    && |Utf8.Encode(spec.procedure)| < TWO64
    && |spec.sourceRoute| < TWO64
    && |spec.ucanToken| < TWO64
  }

  /** The envelope alone is a proper one-level map. */
  lemma {:induction false} BaseProper(frameType: string, frameId: Id16, sentAtMs: u64)
    requires |frameType| < 64
    ensures var v := Map(Base(frameType, 0, frameId, sentAtMs));
      Proper(v) && Height(v) <= CborParse.MAX_NESTING_DEPTH && |v.entries| == 8
  {
    BaseIsFields(frameType, frameId, sentAtMs);
    var fields := BaseFields(frameType, frameId, sentAtMs);
    ShortText(frameType);
    hide Utf8.Encode, Enc, WithFields;
    assert forall i :: 0 <= i < |fields| ==> FieldFits(fields[i], CborParse.MAX_NESTING_DEPTH);
    assert Proper(Map([]));
    WithFieldsProper(Map([]), fields, CborParse.MAX_NESTING_DEPTH);
  }

  function FrameOf(frameType: string, fields: seq<Field>, frameId: Id16, sentAtMs: u64): Value {
    WithFields(Map(Base(frameType, 0, frameId, sentAtMs)), fields)
  }

  /** Fields a frame type may add over the envelope. */
  ghost predicate FieldsFit(fields: seq<Field>) {
    && |fields| < 32
    && DistinctNamed(fields)
    && forall i :: 0 <= i < |fields| ==>
      FieldFits(fields[i], CborParse.MAX_NESTING_DEPTH) && fields[i].name != "frame_type"
        && fields[i].name != "signature"
  }

  lemma {:induction false} FrameProper(frameType: string, fields: seq<Field>, frameId: Id16, sentAtMs: u64)
    requires |frameType| < 64 && FieldsFit(fields)
    ensures var v := FrameOf(frameType, fields, frameId, sentAtMs);
      v.Map? && Proper(v) && Height(v) <= CborParse.MAX_NESTING_DEPTH
  {
    hide WithFields, Encodable, DistinctKeys, Height, Base, FieldFits, Enc;
    BaseProper(frameType, frameId, sentAtMs);
    WithFieldsProper(Map(Base(frameType, 0, frameId, sentAtMs)), fields, CborParse.MAX_NESTING_DEPTH);
  }

  /** Every field of a signed frame, and its type, as the peer reads them. */
  lemma {:induction false} FieldsSurviveTheWire(ed: Ed25519, frameType: string, fields: seq<Field>,
                                                frameId: Id16, sentAtMs: u64, key: seq<byte>, tail: seq<byte>)
    requires |frameType| < 64 && FieldsFit(fields)
    requires |Enc(Sign(ed, FrameOf(frameType, fields, frameId, sentAtMs), key))| <= MAX_FRAME_BYTES
    ensures var signed := Sign(ed, FrameOf(frameType, fields, frameId, sentAtMs), key);
      && Encode(signed).Ok?
      && Decode(Encode(signed).value + tail) == Ok(Frame(Norm(signed), |Encode(signed).value|))
      && Verify(ed, Norm(signed), ed.pub(key)) == Ok(())
      && Get(Norm(signed), "frame_type") == Some(Text(frameType))
      && forall i :: 0 <= i < |fields| ==> Get(Norm(signed), fields[i].name) == Some(Norm(fields[i].val))
  {
    hide Enc, Get, WithFields, Encode, Decode, Verify, Sign, Height, Encodable, DistinctKeys, FieldFits, Base;
    var base := Map(Base(frameType, 0, frameId, sentAtMs));
    var frame := FrameOf(frameType, fields, frameId, sentAtMs);
    FrameProper(frameType, fields, frameId, sentAtMs);
    SignatureSurvivesTheWire(ed, frame, key, tail);
    BaseType(frameType, frameId, sentAtMs);
    GetWithFields(base, fields, "frame_type");
    WireGet(ed, frame, key, "frame_type");
    forall i | 0 <= i < |fields| ensures Get(Norm(Sign(ed, frame, key)), fields[i].name) == Some(Norm(fields[i].val)) {
      GetWithFields(base, fields, fields[i].name);
      WireGet(ed, frame, key, fields[i].name);
    }
  }

  lemma {:induction false} CallFieldsDistinct(spec: CallSpec)
    ensures DistinctNamed(CallFields(spec))
    ensures forall i :: 0 <= i < 9 ==>
      CallFields(spec)[i].name != "frame_type" && CallFields(spec)[i].name != "signature"
  {
    var fields := CallFields(spec);
    TagsTell(fields, [5114, 7099, 9112, 7112, 11100, 6099, 12115, 12114, 10117]);
    assert Tag("frame_type") == 10102 && Tag("signature") == 9115;
  }

  lemma {:induction false} CallFieldFits(spec: CallSpec, i: nat)
    requires CallFits(spec) && i < |CallFields(spec)|
    ensures FieldFits(CallFields(spec)[i], CborParse.MAX_NESTING_DEPTH)
  {
    hide Utf8.Encode, Enc;
  }

  lemma {:induction false} BaseType(frameType: string, frameId: Id16, sentAtMs: u64)
    ensures Get(Map(Base(frameType, 0, frameId, sentAtMs)), "frame_type") == Some(Text(frameType))
  {
    var es := Base(frameType, 0, frameId, sentAtMs);
    assert |"version"| == 7 && |"frame_type"| == 10;
    FindIs(es, "frame_type", 1);
  }

  /** A frame that reads as `spec` says does parse to it. */
  lemma {:induction false} ReadsParse(v: Value, spec: CallSpec, payload: Value)
    requires Get(v, "frame_type") == Some(Text("call"))
    requires Get(v, "realm") == Some(Bytes(spec.realm))
    requires Get(v, "call_id") == Some(Bytes(spec.callId))
    requires Get(v, "procedure") == Some(Bytes(Utf8.Encode(spec.procedure)))
    requires Get(v, "payload") == Some(payload)
    requires Get(v, "deadline_ms") == Some(Int(spec.deadlineMs))
    requires Get(v, "caller") == Some(Bytes(spec.caller))
    requires Get(v, "ucan_token") == Some(Bytes(spec.ucanToken))
    ensures ParseCall(v) ==
      Ok(CallInfo(spec.callId, spec.procedure, spec.realm, payload, spec.deadlineMs, spec.caller, spec.ucanToken))
  {
    hide Get, Utf8.Encode, Utf8.Decode;
    Utf8.DecodeEncode(spec.procedure);
  }

  /** A CALL within the limits arrives as it was specified, payload in normal form,
      whatever follows it on the stream, and its signature verifies. */
  lemma {:induction false} CallRoundTrip(ed: Ed25519, spec: CallSpec, frameId: Id16, sentAtMs: u64, key: seq<byte>,
                                         tail: seq<byte>)
    requires CallFits(spec) && |Enc(Sign(ed, CallValue(spec, frameId, sentAtMs), key))| <= MAX_FRAME_BYTES
    ensures var signed := Sign(ed, CallValue(spec, frameId, sentAtMs), key);
      && Encode(signed).Ok?
      && Decode(Encode(signed).value + tail) == Ok(Frame(Norm(signed), |Encode(signed).value|))
      && Verify(ed, Norm(signed), ed.pub(key)) == Ok(())
      && ParseCall(Norm(signed)) ==
           Ok(CallInfo(spec.callId, spec.procedure, spec.realm, Norm(spec.payload), spec.deadlineMs, spec.caller,
             spec.ucanToken))
  {
    hide Enc, Get, WithFields, Encode, Decode, Verify, Sign, Height, Encodable, DistinctKeys, Utf8.Encode, ParseCall,
      FieldFits, CallFits, Base;
    var fields := CallFields(spec);
    CallFieldsDistinct(spec);
    forall i | 0 <= i < 9 ensures FieldFits(fields[i], CborParse.MAX_NESTING_DEPTH) { CallFieldFits(spec, i); }
    FieldsSurviveTheWire(ed, "call", fields, frameId, sentAtMs, key, tail);
    var v := Norm(Sign(ed, CallValue(spec, frameId, sentAtMs), key));
    assert forall i :: 0 <= i < 9 ==> Get(v, fields[i].name) == Some(Norm(fields[i].val));
    assert fields[0].name == "realm" && fields[1].name == "call_id" && fields[2].name == "procedure";
    assert fields[3].name == "payload" && fields[4].name == "deadline_ms" && fields[5].name == "caller"
      && fields[8].name == "ucan_token";
    ReadsParse(v, spec, Norm(spec.payload));
  }

  // --- RESULT over the wire -------------------------------------------------------------

  ghost predicate ResultFits(spec: ResultSpec) {
    && Proper(spec.payload)
    && Height(spec.payload) < CborParse.MAX_NESTING_DEPTH
    && |spec.sourceRouteReverse| < TWO64
  }

  lemma {:induction false} ResultFieldFits(spec: ResultSpec, i: nat)
    requires ResultFits(spec) && i < |ResultFields(spec)|
    ensures FieldFits(ResultFields(spec)[i], CborParse.MAX_NESTING_DEPTH)
  {
    hide Enc;
  }

  /** A RESULT within the limits answers its call: same id, payload in normal form. */
  lemma {:induction false} ResultRoundTrip(ed: Ed25519, spec: ResultSpec, frameId: Id16, sentAtMs: u64,
                                           key: seq<byte>, tail: seq<byte>)
    requires ResultFits(spec) && |Enc(Sign(ed, ResultValue(spec, frameId, sentAtMs), key))| <= MAX_FRAME_BYTES
    ensures var signed := Sign(ed, ResultValue(spec, frameId, sentAtMs), key);
      && Encode(signed).Ok?
      && Decode(Encode(signed).value + tail) == Ok(Frame(Norm(signed), |Encode(signed).value|))
      && Verify(ed, Norm(signed), ed.pub(key)) == Ok(())
      && FrameCallId(Norm(signed)) == Some(spec.callId)
      && ParseCallResponse(Norm(signed)) == Ok(Reply(Norm(spec.payload), spec.respondedBy))
  {
    hide Enc, Get, WithFields, Encode, Decode, Verify, Sign, Height, Encodable, DistinctKeys, Base, FieldFits,
      ResultFits;
    var fields := ResultFields(spec);
    forall i | 0 <= i < 4 ensures FieldFits(fields[i], CborParse.MAX_NESTING_DEPTH) { ResultFieldFits(spec, i); }
    TagsTell(fields, [7099, 7112, 12114, 20115]);
    assert Tag("frame_type") == 10102 && Tag("signature") == 9115;
    FieldsSurviveTheWire(ed, "result", fields, frameId, sentAtMs, key, tail);
    var v := Norm(Sign(ed, ResultValue(spec, frameId, sentAtMs), key));
    assert fields[0].name == "call_id" && fields[1].name == "payload" && fields[2].name == "responded_by";
    assert Get(v, fields[0].name) == Some(Norm(fields[0].val)) && Get(v, fields[2].name) == Some(Norm(fields[2].val));
  }

  // --- ERROR over the wire --------------------------------------------------------------

  ghost predicate ErrorFits(spec: ErrorSpec) {
    && |Utf8.Encode(spec.name)| < TWO64
    && (spec.detail.Some? ==> |Utf8.Encode(spec.detail.value)| < TWO64)
    && |spec.sourceRoutePartial| < TWO64
  }

  lemma {:induction false} ErrorFieldFits(spec: ErrorSpec, i: nat)
    requires ErrorFits(spec) && i < |ErrorFields(spec)|
    ensures FieldFits(ErrorFields(spec)[i], CborParse.MAX_NESTING_DEPTH)
    ensures Norm(ErrorFields(spec)[i].val) == ErrorFields(spec)[i].val
  {
    hide Enc, Utf8.Encode, FieldFits, Norm, Height;
    var f := ErrorFields(spec)[i];
    if f.val.Null? { NullField(f); } else { ScalarField(f, CborParse.MAX_NESTING_DEPTH); }
  }

  lemma {:induction false} NullField(f: Field)
    requires |f.name| < 64 && f.val.Null?
    ensures FieldFits(f, CborParse.MAX_NESTING_DEPTH) && Norm(f.val) == f.val
  {
  }

  /** A frame that reads as `spec` says does parse to it. */
  lemma {:induction false} ErrorParses(v: Value, spec: ErrorSpec)
    requires Get(v, "frame_type") == Some(Text("error"))
    requires Get(v, "call_id") == Some(Bytes(spec.callId))
    requires Get(v, "code") == Some(Int(spec.code))
    requires Get(v, "name") == Some(Text(spec.name))
    requires Get(v, "reported_by") == Some(Bytes(spec.reportedBy))
    requires Get(v, "detail") == Some(match spec.detail case Some(d) => Bytes(Utf8.Encode(d)) case None => Null)
    ensures FrameCallId(v) == Some(spec.callId)
    ensures ParseCallResponse(v) == Ok(Failure(spec.code, spec.name, spec.reportedBy, spec.detail))
  {
    hide Get, Utf8.Encode, Utf8.Decode;
    if spec.detail.Some? { Utf8.DecodeEncode(spec.detail.value); }
  }

  /** An ERROR within the limits answers its call: same id, code, name, reporter and detail,
      a detail of none being null on the wire. */
  lemma {:induction false} ErrorRoundTrip(ed: Ed25519, spec: ErrorSpec, frameId: Id16, sentAtMs: u64,
                                          key: seq<byte>, tail: seq<byte>)
    requires ErrorFits(spec) && |Enc(Sign(ed, ErrorValue(spec, frameId, sentAtMs), key))| <= MAX_FRAME_BYTES
    ensures var signed := Sign(ed, ErrorValue(spec, frameId, sentAtMs), key);
      && Encode(signed).Ok?
      && Decode(Encode(signed).value + tail) == Ok(Frame(Norm(signed), |Encode(signed).value|))
      && Verify(ed, Norm(signed), ed.pub(key)) == Ok(())
      && FrameCallId(Norm(signed)) == Some(spec.callId)
      && ParseCallResponse(Norm(signed)) == Ok(Failure(spec.code, spec.name, spec.reportedBy, spec.detail))
  {
    hide Enc, Get, WithFields, Encode, Decode, Verify, Sign, Height, Encodable, DistinctKeys, Base, FieldFits,
      ErrorFits, Utf8.Encode, Norm, FrameCallId, ParseCallResponse;
    var fields := ErrorFields(spec);
    forall i | 0 <= i < 7
      ensures FieldFits(fields[i], CborParse.MAX_NESTING_DEPTH) && Norm(fields[i].val) == fields[i].val {
      ErrorFieldFits(spec, i);
    }
    TagsTell(fields, [7099, 4099, 4110, 11114, 6100, 13111, 20115]);
    assert Tag("frame_type") == 10102 && Tag("signature") == 9115;
    FieldsSurviveTheWire(ed, "error", fields, frameId, sentAtMs, key, tail);
    var v := Norm(Sign(ed, ErrorValue(spec, frameId, sentAtMs), key));
    assert forall i :: 0 <= i < 7 ==> Get(v, fields[i].name) == Some(Norm(fields[i].val));
    assert fields[0].name == "call_id" && fields[1].name == "code" && fields[2].name == "name";
    assert fields[3].name == "reported_by" && fields[4].name == "detail";
    ErrorParses(v, spec);
  }
}
