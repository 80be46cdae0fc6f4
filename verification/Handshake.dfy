/** Opening a session: the CONNECT that is sent, the HELLO that is read, and when the station
    behind it is believed (src/connection.rs, src/frame.rs). */
module Handshake {
  import opened ByteStrings
  import opened Wrappers
  import opened CborValue
  import opened CborFields
  import opened CborRecords
  import opened Frame
  import opened FrameCall
  import opened FrameParse
  import opened FrameSize
  import opened Connection
  import CborParse

  // --- CONNECT ----------------------------------------------------------------------------

  /** A client with no realms and no addresses of its own. */
  function ConnectFields(nodeId: Id32, puzzle: Id32): seq<Field> {
    [
      Field("node_id", Bytes(nodeId)),
      Field("station_id", Bytes(nodeId)),
      Field("realms", List([])),
      Field("addresses", List([])),
      Field("site", Null),
      Field("puzzle_evidence", Bytes(puzzle)),
      Field("endorsements", List([]))
    ]
  }

  function ConnectValue(nodeId: Id32, puzzle: Id32, frameId: Id16, sentAtMs: u64): Value {
    Map(Base("connect", 0, frameId, sentAtMs) + EntriesOf(ConnectFields(nodeId, puzzle)))
  }

  function ConnectFrame(ed: Ed25519, key: seq<byte>, puzzle: Id32, frameId: Id16, sentAtMs: u64): Value {
    Sign(ed, ConnectValue(ed.pub(key), puzzle, frameId, sentAtMs), key)
  }

  /** Fields under names a map has not are the entries after its own. */
  lemma {:induction false} AppendsAfter(es: seq<Entry>, fields: seq<Field>)
    requires DistinctNamed(fields)
    requires forall i, j :: 0 <= i < |es| && 0 <= j < |fields| ==> !Named(es[i], fields[j].name)
    ensures WithFields(Map(es), fields) == Map(es + EntriesOf(fields))
  {
    if fields == [] {
      assert es + EntriesOf(fields) == es;
    } else {
      var init, last := fields[..|fields| - 1], fields[|fields| - 1];
      AppendsAfter(es, init);
      var before := es + EntriesOf(init);
      assert forall j :: 0 <= j < |before| ==> !Named(before[j], last.name);
      assert Find(before, last.name) == |before|;
      assert es + EntriesOf(fields) == before + [Entry(Text(last.name), last.val)];
    }
  }

  const CONNECT_TAGS: seq<int> := [7110, 10115, 6114, 9097, 4115, 15112, 12101]

  lemma {:induction false} ConnectTags(nodeId: Id32, puzzle: Id32)
    ensures Tagged(ConnectFields(nodeId, puzzle), CONNECT_TAGS) && DistinctNamed(ConnectFields(nodeId, puzzle))
  {
    TagsTell(ConnectFields(nodeId, puzzle), CONNECT_TAGS);
  }

  lemma {:induction false} ConnectIsFrame(nodeId: Id32, puzzle: Id32, frameId: Id16, sentAtMs: u64)
    ensures ConnectValue(nodeId, puzzle, frameId, sentAtMs) ==
      FrameOf("connect", ConnectFields(nodeId, puzzle), frameId, sentAtMs)
  {
    var es, fields := Base("connect", 0, frameId, sentAtMs), ConnectFields(nodeId, puzzle);
    ConnectTags(nodeId, puzzle);
    BaseTags("connect", frameId, sentAtMs);
    forall i, j | 0 <= i < |es| && 0 <= j < |fields| ensures !Named(es[i], fields[j].name) {
      assert Tag(es[i].key.s) == [7118, 10102, 8102, 10115, 12099, 5114, 7099, 12115][i];
      assert Tag(fields[j].name) == CONNECT_TAGS[j];
      if i == 3 && j == 1 { assert "sent_at_ms"[1] == 'e' && "station_id"[1] == 't'; }
    }
    AppendsAfter(es, fields);
  }

  lemma {:induction false} BaseTags(frameType: string, frameId: Id16, sentAtMs: u64)
    ensures var es := Base(frameType, 0, frameId, sentAtMs);
      |es| == 8 && forall i :: 0 <= i < 8 ==>
        es[i].key.Text? && Tag(es[i].key.s) == [7118, 10102, 8102, 10115, 12099, 5114, 7099, 12115][i]
  {
  }

  lemma {:induction false} ConnectFieldFits(nodeId: Id32, puzzle: Id32, i: nat)
    requires i < 7
    ensures FieldFits(ConnectFields(nodeId, puzzle)[i], CborParse.MAX_NESTING_DEPTH)
    ensures Norm(ConnectFields(nodeId, puzzle)[i].val) == ConnectFields(nodeId, puzzle)[i].val
  {
  }

  lemma {:induction false} EmptyListLight(name: string)
    requires |name| < 64
    ensures Light(Field(name, List([])))
  {
    ShortText(name);
  }

  lemma {:induction false} ConnectLight(nodeId: Id32, puzzle: Id32, i: nat)
    requires i < 7
    ensures Light(ConnectFields(nodeId, puzzle)[i])
  {
    hide Light;
    var f := ConnectFields(nodeId, puzzle)[i];
    if f.val.List? { EmptyListLight(f.name); } else { LightField(f); }
  }

  /** A CONNECT can always be sent, and what the station reads of it verifies under the
      client's key and says who the client is. */
  lemma {:induction false} ConnectArrives(ed: Ed25519, key: seq<byte>, puzzle: Id32, frameId: Id16, sentAtMs: u64,
                                          tail: seq<byte>)
    ensures var frame := ConnectFrame(ed, key, puzzle, frameId, sentAtMs);
      && Encode(frame).Ok?
      && Frame.Decode(Encode(frame).value + tail) == Ok(Frame(Norm(frame), |Encode(frame).value|))
      && Verify(ed, Norm(frame), ed.pub(key)) == Ok(())
      && SaysConnect(Norm(frame), ed.pub(key), puzzle)
  {
    hide Enc, Get, WithFields, Encode, Frame.Decode, Verify, Sign, Height, Encodable, DistinctKeys, Base, FieldFits,
      Norm, Light, FieldWeight;
    var nodeId := ed.pub(key);
    var fields := ConnectFields(nodeId, puzzle);
    ConnectIsFrame(nodeId, puzzle, frameId, sentAtMs);
    ConnectTags(nodeId, puzzle);
    forall i | 0 <= i < 7
      ensures FieldFits(fields[i], CborParse.MAX_NESTING_DEPTH) && Light(fields[i])
      ensures Norm(fields[i].val) == fields[i].val
    {
      ConnectFieldFits(nodeId, puzzle, i);
      ConnectLight(nodeId, puzzle, i);
    }
    assert Tag("frame_type") == 10102 && Tag("signature") == 9115;
    SignedSize(ed, "connect", fields, fields[0], frameId, sentAtMs, key);
    LightWeighs(fields[0]);
    FieldsSurviveTheWire(ed, "connect", fields, frameId, sentAtMs, key, tail);
    var v := Norm(ConnectFrame(ed, key, puzzle, frameId, sentAtMs));
    assert Get(v, fields[0].name) == Some(fields[0].val) && Get(v, fields[1].name) == Some(fields[1].val);
    assert Get(v, fields[2].name) == Some(fields[2].val) && Get(v, fields[3].name) == Some(fields[3].val);
    assert Get(v, fields[4].name) == Some(fields[4].val) && Get(v, fields[5].name) == Some(fields[5].val);
    assert Get(v, fields[6].name) == Some(fields[6].val);
  }

  lemma {:induction false} LightWeighs(f: Field)
    requires Light(f)
    ensures 12_000 + FieldWeight(f) <= MAX_FRAME_BYTES
  {
  }

  /** The frame introduces this client. */
  ghost predicate SaysConnect(v: Value, nodeId: Id32, puzzle: Id32) {
    && Get(v, "frame_type") == Some(Text("connect"))
    && Get(v, "node_id") == Some(Bytes(nodeId))
    && Get(v, "station_id") == Some(Bytes(nodeId))
    && Get(v, "realms") == Some(List([]))
    && Get(v, "addresses") == Some(List([]))
    && Get(v, "site") == Some(Null)
    && Get(v, "puzzle_evidence") == Some(Bytes(puzzle))
    && Get(v, "endorsements") == Some(List([]))
  }

  // --- HELLO -----------------------------------------------------------------------------------

  datatype HelloInfo = HelloInfo(
    nodeId: Id32, stationId: Id32, realms: seq<Id32>, capabilities: u64, accepted: bool,
    negotiatedCapabilities: u64, refusalCode: Option<int>)

  function GetId32s(frame: Value, name: string): Result<seq<Id32>, ParseError> {
    match Get(frame, name)
    case None => Err(MissingField(name))
    case Some(List(items)) => Id32sOf(items, name)
    case Some(_) => Err(WrongFieldType(name))
  }

  function Id32sOf(items: seq<Value>, name: string): (r: Result<seq<Id32>, ParseError>)
    ensures r.Ok? <==> forall i :: 0 <= i < |items| ==> items[i].Bytes? && |items[i].b| == 32
    ensures r.Ok? ==> |r.value| == |items| && forall i :: 0 <= i < |items| ==> items[i] == Bytes(r.value[i])
    ensures r.Err? ==> r == Err(WrongFieldType(name))
  {
    if items == [] then Ok([])
    else
      match items[0]
      case Bytes(b) =>
        if |b| != 32 then Err(WrongFieldType(name))
        else
          var rest :- Id32sOf(items[1..], name);
          Ok([b] + rest)
      case _ => Err(WrongFieldType(name))
  }

  function GetUint(frame: Value, name: string): Result<u64, ParseError> {
    match Get(frame, name)
    case None => Err(MissingField(name))
    case Some(Int(n)) => if n >= 0 then Ok(Wrap(n)) else Err(WrongFieldType(name))
    case Some(_) => Err(WrongFieldType(name))
  }

  function GetBool(frame: Value, name: string): Result<bool, ParseError> {
    match Get(frame, name)
    case None => Err(MissingField(name))
    case Some(Text(t)) =>
      if t == "true" then Ok(true) else if t == "false" then Ok(false) else Err(WrongFieldType(name))
    case Some(_) => Err(WrongFieldType(name))
  }

  function ParseHello(frame: Value): Result<HelloInfo, ParseError> {
    if Get(frame, "frame_type") != Some(Text("hello")) then Err(WrongFrameType)
    else
      var refusalCode :- (match Get(frame, "refusal_code")
                          case None => Ok(None)
                          case Some(Null) => Ok(None)
                          case Some(Int(n)) => Ok(Some(n))
                          case Some(_) => Err(WrongFieldType("refusal_code")));
      var nodeId :- GetBytesExact(frame, 32, "node_id");
      var stationId :- GetBytesExact(frame, 32, "station_id");
      var realms :- GetId32s(frame, "realms");
      var capabilities :- GetUint(frame, "capabilities");
      var accepted :- GetBool(frame, "accepted");
      var negotiated :- GetUint(frame, "negotiated_capabilities");
      Ok(HelloInfo(nodeId, stationId, realms, capabilities, accepted, negotiated, refusalCode))
  }

  ghost predicate SaysCount(v: Value, name: string, n: nat) {
    Get(v, name).Some? && Get(v, name).value.Int? && Get(v, name).value.n >= 0
      && Get(v, name).value.n % 0x1_0000_0000_0000_0000 == n
  }

  ghost predicate SaysRealms(v: Value, realms: seq<Id32>) {
    && Get(v, "realms").Some? && Get(v, "realms").value.List?
    && var items := Get(v, "realms").value.items;
      |items| == |realms| && forall i :: 0 <= i < |items| ==> items[i] == Bytes(realms[i])
  }

  /** The frame says this hello. */
  ghost predicate SaysHello(v: Value, info: HelloInfo) {
    && Get(v, "frame_type") == Some(Text("hello"))
    && Get(v, "node_id") == Some(Bytes(info.nodeId))
    && Get(v, "station_id") == Some(Bytes(info.stationId))
    && SaysRealms(v, info.realms)
    && SaysCount(v, "capabilities", info.capabilities)
    && Get(v, "accepted") == Some(Text(if info.accepted then "true" else "false"))
    && SaysCount(v, "negotiated_capabilities", info.negotiatedCapabilities)
    && (match info.refusalCode
        case Some(n) => Get(v, "refusal_code") == Some(Int(n))
        case None => Get(v, "refusal_code") == None || Get(v, "refusal_code") == Some(Null))
  }

  lemma {:induction false} RealmsRead(v: Value, realms: seq<Id32>)
    ensures GetId32s(v, "realms") == Ok(realms) <==> SaysRealms(v, realms)
  {
    hide Get;
    if SaysRealms(v, realms) {
      var items := Get(v, "realms").value.items;
      assert forall i :: 0 <= i < |items| ==> items[i].Bytes? && |items[i].b| == 32;
      assert Id32sOf(items, "realms").value == realms;
    }
  }

  lemma {:induction false} CountReads(v: Value, name: string, n: nat)
    ensures GetUint(v, name) == Ok(n) <==> SaysCount(v, name, n)
  {
    hide Get;
  }

  lemma {:induction false} BoolReads(v: Value, name: string, b: bool)
    ensures GetBool(v, name) == Ok(b) <==> Get(v, name) == Some(Text(if b then "true" else "false"))
  {
    hide Get;
    assert "true" != "false" by { assert |"true"| == 4 && |"false"| == 5; }
  }

  /** A frame is read as a hello exactly if it says that hello. */
  lemma {:induction false} ParseHelloReads(v: Value, info: HelloInfo)
    ensures ParseHello(v) == Ok(info) <==> SaysHello(v, info)
  {
    hide Get, GetId32s, GetUint, GetBool, SaysRealms, SaysCount;
    RealmsRead(v, info.realms);
    CountReads(v, "capabilities", info.capabilities);
    CountReads(v, "negotiated_capabilities", info.negotiatedCapabilities);
    BoolReads(v, "accepted", info.accepted);
  }

  ghost predicate HasCount(v: Value, name: string) {
    Get(v, name).Some? && Get(v, name).value.Int? && Get(v, name).value.n >= 0
  }

  ghost predicate HasBool(v: Value, name: string) {
    Get(v, name) == Some(Text("true")) || Get(v, name) == Some(Text("false"))
  }

  ghost predicate HasRealms(v: Value) {
    && Get(v, "realms").Some? && Get(v, "realms").value.List?
    && var items := Get(v, "realms").value.items;
      forall i :: 0 <= i < |items| ==> items[i].Bytes? && |items[i].b| == 32
  }

  /** The first field of a hello that is missing or does not hold what it should. */
  ghost function BadHelloField(v: Value): string {
    if !(Get(v, "refusal_code").None? || Get(v, "refusal_code").value.Null? || Get(v, "refusal_code").value.Int?) then
      "refusal_code"
    else if !Holds(v, "node_id", Exactly(32)) then "node_id"
    else if !Holds(v, "station_id", Exactly(32)) then "station_id"
    else if !HasRealms(v) then "realms"
    else if !HasCount(v, "capabilities") then "capabilities"
    else if !HasBool(v, "accepted") then "accepted"
    else "negotiated_capabilities"
  }

  /** A frame that is not a hello is refused for its type, else for that field. */
  lemma {:induction false} ParseHelloRefuses(v: Value)
    ensures Get(v, "frame_type") != Some(Text("hello")) ==> ParseHello(v) == Err(WrongFrameType)
    ensures Get(v, "frame_type") == Some(Text("hello")) && ParseHello(v).Err? ==>
      ParseHello(v) == Err(Complaint(v, BadHelloField(v)))
  {
    hide Get, GetId32s, GetUint, GetBool, HasRealms, HasCount, HasBool;
    HelloFieldsThere(v);
  }

  lemma {:induction false} HelloFieldsThere(v: Value)
    ensures GetId32s(v, "realms").Ok? <==> HasRealms(v)
    ensures GetId32s(v, "realms").Err? ==> GetId32s(v, "realms") == Err(Complaint(v, "realms"))
    ensures GetBool(v, "accepted").Ok? <==> HasBool(v, "accepted")
    ensures GetBool(v, "accepted").Err? ==> GetBool(v, "accepted") == Err(Complaint(v, "accepted"))
    ensures forall name :: GetUint(v, name).Ok? <==> HasCount(v, name)
    ensures forall name :: GetUint(v, name).Err? ==> GetUint(v, name) == Err(Complaint(v, name))
  {
    hide Get;
  }

  // --- a session --------------------------------------------------------------------------------

  /** What may fail before the HELLO is read. */
  datatype Fault = Transport | OpenStream | Write

  datatype HandshakeError =
    | Failed(fault: Fault)
    | Recv(error: RecvFrameError)
    | UnexpectedFrameType(parse: ParseError)
    | SignatureInvalid(verify: VerifyError)
    | Refused(refusalCode: Option<int>)

  /** A HELLO is believed if it names a node id, verifies under it, and accepts; or else why
      not: what it is, who signed it, what it says, in that order. */
  function Belief(ed: Ed25519, hello: Value): Result<HelloInfo, HandshakeError> {
    match ParseHello(hello)
    case Err(e) => Err(UnexpectedFrameType(e))
    case Ok(info) =>
      (match Verify(ed, hello, info.nodeId)
       case Err(e) => Err(HandshakeError.SignatureInvalid(e))
       case Ok(_) => if info.accepted then Ok(info) else Err(Refused(info.refusalCode)))
  }

  /** Exactly a HELLO that says so, accepts, and is signed by the node it names is believed;
      a refusal is reported only of one that is so signed. */
  lemma {:induction false} BeliefMeans(ed: Ed25519, hello: Value, info: HelloInfo)
    ensures Belief(ed, hello) == Ok(info) <==>
      SaysHello(hello, info) && info.accepted && Verify(ed, hello, info.nodeId).Ok?
    ensures SaysHello(hello, info) && !info.accepted && Verify(ed, hello, info.nodeId).Ok? ==>
      Belief(ed, hello) == Err(Refused(info.refusalCode))
    ensures SaysHello(hello, info) && Verify(ed, hello, info.nodeId).Err? ==>
      Belief(ed, hello) == Err(HandshakeError.SignatureInvalid(Verify(ed, hello, info.nodeId).error))
    ensures ParseHello(hello).Err? ==> Belief(ed, hello) == Err(UnexpectedFrameType(ParseHello(hello).error))
  {
    hide SaysHello, ParseHello, Verify;
    ParseHelloReads(hello, info);
  }

  /** What a frame says as a hello, its normal form over the wire says too. */
  lemma {:induction false} HelloArrives(ed: Ed25519, hello: Value, key: seq<byte>, info: HelloInfo)
    requires hello.Map? && SaysHello(hello, info) && DistinctKeys(Sign(ed, hello, key))
    ensures SaysHello(Norm(Sign(ed, hello, key)), info)
  {
    hide Get, Sign, Norm, DistinctKeys;
    WireGet(ed, hello, key, "frame_type");
    WireGet(ed, hello, key, "node_id");
    WireGet(ed, hello, key, "station_id");
    WireGet(ed, hello, key, "realms");
    WireGet(ed, hello, key, "capabilities");
    WireGet(ed, hello, key, "accepted");
    WireGet(ed, hello, key, "negotiated_capabilities");
    WireGet(ed, hello, key, "refusal_code");
    NormScalars();
    BytesListNorm(Get(hello, "realms").value.items, info.realms);
  }

  lemma {:induction false} NormScalars()
    ensures forall s :: Norm(Text(s)) == Text(s)
    ensures forall n :: Norm(Int(n)) == Int(n)
    ensures forall b :: Norm(Bytes(b)) == Bytes(b)
    ensures Norm(Null) == Null
  {
  }

  lemma {:induction false} BytesListNorm(items: seq<Value>, ids: seq<Id32>)
    requires |items| == |ids| && forall i :: 0 <= i < |items| ==> items[i] == Bytes(ids[i])
    ensures Norm(List(items)) == List(items)
  {
    assert NormItems(items) == items;
  }

  /** A station that signs a HELLO naming its own key and accepting is believed by whoever
      receives it, whatever follows it on the stream. */
  lemma {:induction false} StationBelieved(ed: Ed25519, hello: Value, key: seq<byte>, info: HelloInfo, tail: seq<byte>,
                                           breaks: bool)
    requires hello.Map? && Proper(hello) && Height(hello) <= CborParse.MAX_NESTING_DEPTH
    requires SaysHello(hello, info) && info.accepted && info.nodeId == ed.pub(key)
    requires |Enc(Sign(ed, hello, key))| <= MAX_FRAME_BYTES
    ensures Encode(Sign(ed, hello, key)).Ok?
    ensures NextFrame(Encode(Sign(ed, hello, key)).value + tail, breaks) == Ok(Norm(Sign(ed, hello, key)))
    ensures Belief(ed, Norm(Sign(ed, hello, key))) == Ok(info)
  {
    hide Enc, Get, Encode, Frame.Decode, Verify, Sign, Height, Encodable, Norm, SaysHello, Belief, DistinctKeys;
    SignatureSurvivesTheWire(ed, hello, key, tail);
    HelloArrives(ed, hello, key, info);
    BeliefMeans(ed, Norm(Sign(ed, hello, key)), info);
  }

  /** Dials, opens a stream, sends the CONNECT, which never fails to encode, and reads the
      HELLO. The station is believed only if its HELLO verifies under the node id it names;
      whatever was read past the HELLO becomes the control stream's first bytes. `fault` is
      what fails before. */
  method ConnectInner(ed: Ed25519, key: seq<byte>, puzzle: Id32, frameId: Id16, sentAtMs: u64, fault: Option<Fault>,
                      recv: RecvStream)
    returns (r: Result<(FrameStream, HelloInfo), HandshakeError>, sent: seq<byte>)
    modifies recv
    ensures fault.Some? ==> r == Err(Failed(fault.value)) && recv.pending == old(recv.pending)
    ensures Encode(ConnectFrame(ed, key, puzzle, frameId, sentAtMs)).Ok?
    ensures sent ==
      if fault == Some(Transport) || fault == Some(OpenStream) then []
      else Encode(ConnectFrame(ed, key, puzzle, frameId, sentAtMs)).value
    ensures fault.None? ==>
      match NextFrame(old(Delivered(recv.pending)), old(Breaks(recv.pending)))
      case Err(e) => r == Err(Recv(e))
      case Ok(hello) =>
        (match Belief(ed, hello)
         case Err(e) => r == Err(e)
         case Ok(info) => r.Ok? && r.value.1 == info)
    ensures r.Ok? ==>
      && fresh(r.value.0)
      && r.value.0.recv == recv
      && r.value.0.Valid()
      && r.value.0.Ahead() == AfterFrame(old(Delivered(recv.pending)))
      && Breaks(recv.pending) == old(Breaks(recv.pending))
  {
    hide Frame.Decode, Frame.Encode, Verify, ParseHello, ConnectFrame;
    ConnectArrives(ed, key, puzzle, frameId, sentAtMs, []);
    sent := [];
    if fault == Some(Transport) || fault == Some(OpenStream) { return Err(Failed(fault.value)), sent; }
    var encoded := Encode(ConnectFrame(ed, key, puzzle, frameId, sentAtMs));
    if encoded.Err? { assert false; }
    sent := encoded.value;
    if fault.Some? { return Err(Failed(fault.value)), sent; }
    var first := ReadOneFrame(recv);
    if first.Err? { return Err(Recv(first.error)), sent; }
    var (value, buf) := first.value;
    var station := ParseHello(value);
    if station.Err? { return Err(UnexpectedFrameType(station.error)), sent; }
    var verdict := Verify(ed, value, station.value.nodeId);
    if verdict.Err? { return Err(HandshakeError.SignatureInvalid(verdict.error)), sent; }
    if !station.value.accepted { return Err(Refused(station.value.refusalCode)), sent; }
    var stream := new FrameStream.WithBuf(recv, buf);
    assert stream.Ahead() == buf + Delivered(recv.pending);
    return Ok((stream, station.value)), sent;
  }
}
