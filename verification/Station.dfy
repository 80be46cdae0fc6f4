/** A station that keeps blocks and manifests, and one call to it over the wire: the
    CALL and RESULT frames `FrameStream::call` exchanges (src/connection.rs). */
module Station {
  import opened ByteStrings
  import opened Wrappers
  import opened CborValue
  import opened CborFields
  import opened CborRecords
  import opened Frame
  import opened FrameCall
  import opened FrameSize
  import opened Manifest
  import CborParse
  import Connection
  import Utf8

  // --- what a station does ------------------------------------------------------------

  const PUT_BLOCK_PROC := "_content.put_block"
  const GET_BLOCK_PROC := "_content.get_block"
  const PUT_MANIFEST_PROC := "_content.put_manifest"
  const GET_MANIFEST_PROC := "_content.get_manifest"

  datatype Store = Store(blocks: map<Mcid, seq<byte>>, manifests: map<Mcid, Value>)

  /** Stores a block under its own hash; a block that does not hash to the address given
      is not stored. */
  function PutBlockHere(hs: Hashes, store: Store, payload: Value): (Store, Value) {
    match (Get(payload, "mcid"), Get(payload, "payload"))
    case (Some(Bytes(mcid)), Some(Bytes(b))) =>
      if BlockMcid(hs, b) == mcid then (store.(blocks := store.blocks[mcid := b]), Text("ok"))
      else (store, Text("hash_mismatch"))
    case _ => (store, Null)
  }

  function GetBlockHere(store: Store, payload: Value): Value {
    match Get(payload, "mcid")
    case Some(Bytes(mcid)) =>
      if |mcid| == 34 && mcid in store.blocks then Bytes(store.blocks[mcid]) else Text("not_found")
    case _ => Null
  }

  function PutManifestHere(store: Store, payload: Value): (Store, Value) {
    match Get(payload, "manifest")
    case Some(m) =>
      (match Get(m, "mcid")
       case Some(Bytes(mcid)) =>
         if |mcid| == 34 then (store.(manifests := store.manifests[mcid := m]), Text("ok")) else (store, Null)
       case _ => (store, Null))
    case None => (store, Null)
  }

  function GetManifestHere(store: Store, payload: Value): Value {
    match Get(payload, "mcid")
    case Some(Bytes(mcid)) =>
      if |mcid| == 34 && mcid in store.manifests then store.manifests[mcid] else Text("not_found")
    case _ => Null
  }

  /** The four `_content` procedures. */
  function Handle(hs: Hashes, store: Store, procedure: string, payload: Value): (Store, Value) {
    if procedure == PUT_BLOCK_PROC then PutBlockHere(hs, store, payload)
    else if procedure == GET_BLOCK_PROC then (store, GetBlockHere(store, payload))
    else if procedure == PUT_MANIFEST_PROC then PutManifestHere(store, payload)
    else if procedure == GET_MANIFEST_PROC then (store, GetManifestHere(store, payload))
    else (store, Null)
  }

  /** A station that does its job, or any other. */
  datatype Station = Honest(hs: Hashes) | Any(handler: (Store, string, Value) -> (Store, Value))

  function Serve(station: Station, store: Store, procedure: string, payload: Value): (Store, Value) {
    match station
    case Honest(hs) => Handle(hs, store, procedure, payload)
    case Any(handler) => handler(store, procedure, payload)
  }

  lemma {:induction false} ProceduresDiffer()
    ensures PUT_BLOCK_PROC != GET_BLOCK_PROC && PUT_BLOCK_PROC != PUT_MANIFEST_PROC
    ensures PUT_BLOCK_PROC != GET_MANIFEST_PROC
    ensures GET_BLOCK_PROC != PUT_MANIFEST_PROC && GET_BLOCK_PROC != GET_MANIFEST_PROC
    ensures PUT_MANIFEST_PROC != GET_MANIFEST_PROC
    ensures |PUT_BLOCK_PROC| == |GET_BLOCK_PROC| == 18 && |PUT_MANIFEST_PROC| == |GET_MANIFEST_PROC| == 21
  {
    assert PUT_BLOCK_PROC[9] == 'p' && GET_BLOCK_PROC[9] == 'g';
    assert PUT_MANIFEST_PROC[9] == 'p' && GET_MANIFEST_PROC[9] == 'g';
  }

  // --- one call over the wire ------------------------------------------------------------

  datatype CallError = Send(encode: EncodeFrameError) | Write | Recv(recv: Connection.RecvFrameError) | Timeout

  /** A `String`, whose bytes are in memory. */
  type Held = s: string | |Utf8.Encode(s)| < TWO64

  /** What becomes of one call: served and heard, served but its reply lost, lost on the
      way, refused with an ERROR frame by the station or a relay, or served but with an
      ERROR from a relay on the way back. */
  datatype Fate =
    | Served
    | Unheard(error: CallError)
    | Lost(error: CallError)
    | Refused(code: byte, name: Held, reportedBy: Id32, detail: Option<Held>)
    | Crossed(code: byte, name: Held, reportedBy: Id32, detail: Option<Held>)

  /** The random ids and clock readings of one call, the key an ERROR is signed with, and
      its fate. */
  datatype Turn = Turn(
    callId: Id16, frameId: Id16, sentAtMs: u64, deadlineMs: u64, replyFrameId: Id16, replySentAtMs: u64,
    errorKey: seq<byte>, fate: Fate)

  /** Both ends of a connection, and every turn it will take. */
  datatype Net = Net(ed: Ed25519, clientKey: seq<byte>, stationKey: seq<byte>, station: Station, turn: nat -> Turn)

  /** What the station holds, and how many calls have been made. */
  datatype World = World(store: Store, calls: nat)

  const CONTENT_REALM: Id32 := seq(32, i => 0)

  function SpecFor(net: Net, t: Turn, procedure: string, payload: Value): CallSpec {
    CallSpec(t.callId, procedure, CONTENT_REALM, payload, t.deadlineMs, net.ed.pub(net.clientKey), [], 0, [])
  }

  function CallFrame(net: Net, t: Turn, procedure: string, payload: Value): Value {
    Sign(net.ed, CallValue(SpecFor(net, t, procedure, payload), t.frameId, t.sentAtMs), net.clientKey)
  }

  function ReplyFrame(net: Net, t: Turn, callId: Id16, reply: Value): Value {
    Sign(net.ed, ResultValue(ResultSpec(callId, reply, net.ed.pub(net.stationKey), []), t.replyFrameId,
      t.replySentAtMs), net.stationKey)
  }

  function ErrorOf(t: Turn): ErrorSpec
    requires t.fate.Refused? || t.fate.Crossed?
  {
    ErrorSpec(t.callId, t.fate.code, t.fate.name, t.fate.reportedBy, t.fate.detail, None, [])
  }

  /** The ERROR a refused or crossed turn ends in. */
  function ErrorFrame(net: Net, t: Turn): Value
    requires t.fate.Refused? || t.fate.Crossed?
  {
    Sign(net.ed, ErrorValue(ErrorOf(t), t.replyFrameId, t.replySentAtMs), t.errorKey)
  }

  /** Its bytes, if it can be sent. */
  function ErrorSide(net: Net, t: Turn): Option<seq<byte>>
    requires t.fate.Refused? || t.fate.Crossed?
  {
    hide Frame.Encode, ErrorFrame;
    match Frame.Encode(ErrorFrame(net, t))
    case Ok(b) => Some(b)
    case Err(_) => None
  }

  /** The station reads the bytes of a CALL, serves it if its signature verifies, and
      writes the RESULT. */
  function StationSide(net: Net, store: Store, t: Turn, bytes: seq<byte>): (Store, Option<seq<byte>>) {
    hide Frame.Decode, Frame.Encode, Frame.Verify, ParseCall, ReplyFrame, Serve;
    match Frame.Decode(bytes)
    case Ok(Frame(v, _)) =>
      if Frame.Verify(net.ed, v, net.ed.pub(net.clientKey)).Err? then (store, None)
      else
        (match ParseCall(v)
         case Ok(info) =>
           var (after, reply) := Serve(net.station, store, info.procedure, info.payload);
           (after, (match Frame.Encode(ReplyFrame(net, t, info.callId, reply))
                    case Ok(b) => Some(b)
                    case Err(_) => None))
         case Err(_) => (store, None))
    case _ => (store, None)
  }

  /** The client reads its stream up to the first frame that answers. */
  function ClientSide(t: Turn, bytes: Option<seq<byte>>): Result<CallResponse, CallError> {
    match bytes
    case None => Err(Timeout)
    case Some(b) =>
      (match Connection.Awaited(b, false, t.callId)
       case Ok(response) => Ok(response)
       case Err(e) => Err(Recv(e)))
  }

  function CallOnce(net: Net, w: World, procedure: string, payload: Value): (World, Result<CallResponse, CallError>) {
    hide CallFrame, StationSide, ClientSide, ErrorSide, Frame.Encode;
    var t := net.turn(w.calls);
    var unserved := World(w.store, w.calls + 1);
    match Frame.Encode(CallFrame(net, t, procedure, payload))
    case Err(e) => (unserved, Err(Send(e)))
    case Ok(bytes) =>
      (match t.fate
       case Lost(e) => (unserved, Err(e))
       case Refused(_, _, _, _) => (unserved, ClientSide(t, ErrorSide(net, t)))
       case Crossed(_, _, _, _) =>
         (World(StationSide(net, w.store, t, bytes).0, w.calls + 1), ClientSide(t, ErrorSide(net, t)))
       case Unheard(e) => (World(StationSide(net, w.store, t, bytes).0, w.calls + 1), Err(e))
       case Served =>
         var (after, reply) := StationSide(net, w.store, t, bytes);
         (World(after, w.calls + 1), ClientSide(t, reply)))
  }

  // --- what a call comes to -----------------------------------------------------------------

  /** A payload a frame can carry. */
  ghost predicate Carried(v: Value) {
    Proper(v) && Height(v) < CborParse.MAX_NESTING_DEPTH
  }

  /** One whose frame is certain to fit, whatever the other fields hold. */
  ghost predicate Small(v: Value) {
    |Enc(v)| <= MAX_FRAME_BYTES - 13_000
  }

  lemma {:induction false} SpecFits(net: Net, t: Turn, procedure: string, payload: Value)
    requires Carried(payload) && |procedure| < 64
    ensures CallFits(SpecFor(net, t, procedure, payload))
  {
    ShortText(procedure);
    hide Utf8.Encode, Proper, Height;
  }

  lemma {:induction false} CallFrameSize(net: Net, t: Turn, procedure: string, payload: Value)
    requires |procedure| < 64 && Small(payload)
    ensures |Enc(CallFrame(net, t, procedure, payload))| <= MAX_FRAME_BYTES
  {
    var spec := SpecFor(net, t, procedure, payload);
    var fields, heavy := CallFields(spec), Field("payload", payload);
    CallFieldsDistinct(spec);
    ShortText(procedure);
    hide Utf8.Encode, Enc, Sign, DistinctNamed, Light;
    forall i | 0 <= i < 9 ensures fields[i] == heavy || Light(fields[i]) {
      if i != 3 { LightField(fields[i]); }
    }
    SignedSize(net.ed, "call", fields, heavy, t.frameId, t.sentAtMs, net.clientKey);
    PayloadWeight(payload);
  }

  lemma {:induction false} PayloadWeight(payload: Value)
    ensures FieldWeight(Field("payload", payload)) <= 100 + |Enc(payload)|
  {
    ShortText("payload");
    hide Utf8.Encode;
  }

  lemma {:induction false} ReplyFrameSize(net: Net, t: Turn, callId: Id16, reply: Value)
    requires Small(reply)
    ensures |Enc(ReplyFrame(net, t, callId, reply))| <= MAX_FRAME_BYTES
  {
    var spec := ResultSpec(callId, reply, net.ed.pub(net.stationKey), []);
    var fields, heavy := ResultFields(spec), Field("payload", reply);
    TagsTell(fields, [7099, 7112, 12114, 20115]);
    hide Enc, Sign, DistinctNamed, Light;
    forall i | 0 <= i < 4 ensures fields[i] == heavy || Light(fields[i]) {
      if i != 1 { LightField(fields[i]); }
    }
    SignedSize(net.ed, "result", fields, heavy, t.replyFrameId, t.replySentAtMs, net.stationKey);
    PayloadWeight(reply);
  }

  lemma {:induction false} ReadAndServed(net: Net, store: Store, t: Turn, bytes: seq<byte>, v: Value, n: nat,
                                         info: CallInfo)
    requires Frame.Decode(bytes) == Ok(Frame(v, n)) && Frame.Verify(net.ed, v, net.ed.pub(net.clientKey)) == Ok(())
    requires ParseCall(v) == Ok(info)
    ensures var (after, reply) := Serve(net.station, store, info.procedure, info.payload);
      StationSide(net, store, t, bytes) ==
        (after, match Frame.Encode(ReplyFrame(net, t, info.callId, reply)) case Ok(b) => Some(b) case Err(_) => None)
  {
    hide Frame.Decode, Frame.Verify, ParseCall, Serve, ReplyFrame, Frame.Encode;
  }

  /** The station serves exactly the procedure and payload that were called. */
  lemma {:induction false} StationServes(net: Net, store: Store, t: Turn, procedure: string, payload: Value)
    requires Carried(payload) && |procedure| < 64 && Frame.Encode(CallFrame(net, t, procedure, payload)).Ok?
    ensures var (after, reply) := Serve(net.station, store, procedure, Norm(payload));
      StationSide(net, store, t, Frame.Encode(CallFrame(net, t, procedure, payload)).value) ==
        (after, match Frame.Encode(ReplyFrame(net, t, t.callId, reply)) case Ok(b) => Some(b) case Err(_) => None)
  {
    var spec, frame := SpecFor(net, t, procedure, payload), CallFrame(net, t, procedure, payload);
    SpecFits(net, t, procedure, payload);
    EncodeOkFits(frame);
    hide Enc, Frame.Encode, Frame.Decode, Frame.Verify, ParseCall, Norm, CallFits, Sign, CallValue, Serve, ReplyFrame,
      StationSide;
    CallRoundTrip(net.ed, spec, t.frameId, t.sentAtMs, net.clientKey, []);
    var bytes := Frame.Encode(frame).value;
    assert bytes + [] == bytes;
    ReadAndServed(net, store, t, bytes, Norm(frame), |bytes|,
      CallInfo(spec.callId, spec.procedure, spec.realm, Norm(spec.payload), spec.deadlineMs, spec.caller,
        spec.ucanToken));
  }

  lemma {:induction false} EncodeOkFits(frame: Value)
    requires Frame.Encode(frame).Ok?
    ensures |Enc(frame)| <= MAX_FRAME_BYTES
  {
    hide Enc, FirstBad;
  }

  lemma {:induction false} FirstFrameAnswers(bytes: seq<byte>, v: Value, n: nat, callId: Id16, response: CallResponse)
    requires Frame.Decode(bytes) == Ok(Frame(v, n))
    requires FrameCallId(v) == Some(callId) && ParseCallResponse(v) == Ok(response)
    ensures Connection.Awaited(bytes, false, callId) == Ok(response)
  {
    hide Frame.Decode, FrameCallId, ParseCallResponse;
  }

  lemma {:induction false} ReplyFits(spec: ResultSpec)
    requires Carried(spec.payload) && spec.sourceRouteReverse == []
    ensures ResultFits(spec)
  {
    hide Proper, Height;
  }

  /** The client hears exactly the reply that was sent, if its frame fits. */
  lemma {:induction false} ClientHears(net: Net, t: Turn, reply: Value)
    requires Carried(reply) && |Enc(ReplyFrame(net, t, t.callId, reply))| <= MAX_FRAME_BYTES
    ensures Frame.Encode(ReplyFrame(net, t, t.callId, reply)).Ok?
    ensures ClientSide(t, Some(Frame.Encode(ReplyFrame(net, t, t.callId, reply)).value)) ==
      Ok(Reply(Norm(reply), net.ed.pub(net.stationKey)))
  {
    var spec, frame := ResultSpec(t.callId, reply, net.ed.pub(net.stationKey), []), ReplyFrame(net, t, t.callId, reply);
    ReplyFits(spec);
    hide Enc, Frame.Encode, Frame.Decode, Frame.Verify, Norm, Sign, ResultValue, FrameCallId, ParseCallResponse,
      ResultFits, Carried, Connection.Awaited;
    ResultRoundTrip(net.ed, spec, t.replyFrameId, t.replySentAtMs, net.stationKey, []);
    var bytes := Frame.Encode(frame).value;
    assert bytes + [] == bytes;
    FirstFrameAnswers(bytes, Norm(frame), |bytes|, t.callId, Reply(Norm(reply), net.ed.pub(net.stationKey)));
  }

  /** The CALL frame of turn `n` fits. */
  ghost predicate CallFrameFits(net: Net, n: nat, procedure: string, payload: Value) {
    |Enc(CallFrame(net, net.turn(n), procedure, payload))| <= MAX_FRAME_BYTES
  }

  /** The RESULT frame of turn `n` fits. */
  ghost predicate ReplyFrameFits(net: Net, n: nat, reply: Value) {
    |Enc(ReplyFrame(net, net.turn(n), net.turn(n).callId, reply))| <= MAX_FRAME_BYTES
  }

  /** Turn `n` ends in an ERROR whose frame fits. */
  ghost predicate ErrorFrameFits(net: Net, n: nat) {
    && (net.turn(n).fate.Refused? || net.turn(n).fate.Crossed?)
    && |Enc(ErrorFrame(net, net.turn(n)))| <= MAX_FRAME_BYTES
  }

  /** The client hears exactly the ERROR that was sent, if its frame fits. */
  lemma {:induction false} ErrorHeard(net: Net, t: Turn)
    requires t.fate.Refused? || t.fate.Crossed?
    ensures ClientSide(t, ErrorSide(net, t)) ==
      if |Enc(ErrorFrame(net, t))| <= MAX_FRAME_BYTES
      then Ok(Failure(t.fate.code, t.fate.name, t.fate.reportedBy, t.fate.detail))
      else Err(Timeout)
  {
    hide Enc, Frame.Encode, ErrorFrame, ErrorOf;
    if |Enc(ErrorFrame(net, t))| <= MAX_FRAME_BYTES {
      ErrorThrough(net, t);
    } else if Frame.Encode(ErrorFrame(net, t)).Ok? {
      EncodeOkFits(ErrorFrame(net, t));
    }
  }

  lemma {:induction false} ErrorOfFits(t: Turn)
    requires t.fate.Refused? || t.fate.Crossed?
    ensures ErrorFits(ErrorOf(t))
  {
    hide Utf8.Encode;
  }

  lemma {:induction false} ErrorThrough(net: Net, t: Turn)
    requires (t.fate.Refused? || t.fate.Crossed?) && |Enc(ErrorFrame(net, t))| <= MAX_FRAME_BYTES
    ensures Frame.Encode(ErrorFrame(net, t)).Ok?
    ensures ClientSide(t, Some(Frame.Encode(ErrorFrame(net, t)).value)) ==
      Ok(Failure(t.fate.code, t.fate.name, t.fate.reportedBy, t.fate.detail))
  {
    hide Enc, Frame.Encode, Frame.Decode, Frame.Verify, Norm, Sign, ErrorValue, FrameCallId, ParseCallResponse,
      ErrorFits, Connection.Awaited;
    var spec, frame := ErrorOf(t), ErrorFrame(net, t);
    ErrorOfFits(t);
    ErrorRoundTrip(net.ed, spec, t.replyFrameId, t.replySentAtMs, t.errorKey, []);
    var bytes := Frame.Encode(frame).value;
    assert bytes + [] == bytes;
    FirstFrameAnswers(bytes, Norm(frame), |bytes|, t.callId,
      Failure(spec.code, spec.name, spec.reportedBy, spec.detail));
  }

  /** What one call comes to, exactly: nothing if its frame does not fit; else what its
      fate says, the station having served it once unless it was lost or refused, and a
      reply that is heard being the station's own. */
  ghost predicate ComesTo(net: Net, w: World, procedure: string, payload: Value, after: World,
                          r: Result<CallResponse, CallError>) {
    var (served, reply) := Serve(net.station, w.store, procedure, Norm(payload));
    && after.calls == w.calls + 1
    && if !CallFrameFits(net, w.calls, procedure, payload) then after.store == w.store && r.Err?
       else match net.turn(w.calls).fate
         case Lost(e) => after.store == w.store && r == Err(e)
         case Refused(code, name, reporter, detail) => after.store == w.store
           && r == if ErrorFrameFits(net, w.calls) then Ok(Failure(code, name, reporter, detail)) else Err(Timeout)
         case Crossed(code, name, reporter, detail) => after.store == served
           && r == if ErrorFrameFits(net, w.calls) then Ok(Failure(code, name, reporter, detail)) else Err(Timeout)
         case Unheard(e) => after.store == served && r == Err(e)
         case Served =>
           && after.store == served
           && r == if ReplyFrameFits(net, w.calls, reply) then Ok(Reply(Norm(reply), net.ed.pub(net.stationKey)))
             else Err(Timeout)
  }

  lemma {:induction false} CallCases(net: Net, w: World, procedure: string, payload: Value)
    requires Carried(payload) && |procedure| < 64
    requires Carried(Serve(net.station, w.store, procedure, Norm(payload)).1)
    ensures ComesTo(net, w, procedure, payload, CallOnce(net, w, procedure, payload).0,
      CallOnce(net, w, procedure, payload).1)
  {
    hide Enc, Frame.Encode, Norm, Serve, StationSide, ClientSide, CallFrame, ReplyFrame, ErrorFrame, ErrorSide, Carried;
    var t := net.turn(w.calls);
    if t.fate.Refused? || t.fate.Crossed? { ErrorHeard(net, t); }
    var (served, reply) := Serve(net.station, w.store, procedure, Norm(payload));
    var frame := CallFrame(net, t, procedure, payload);
    if CallFrameFits(net, w.calls, procedure, payload) {
      FitsEncodes(net, t, procedure, payload);
      StationServes(net, w.store, t, procedure, payload);
      if ReplyFrameFits(net, w.calls, reply) {
        ClientHears(net, t, reply);
      } else {
        if Frame.Encode(ReplyFrame(net, t, t.callId, reply)).Ok? { EncodeOkFits(ReplyFrame(net, t, t.callId, reply)); }
        NothingHeard(t);
      }
    } else if Frame.Encode(frame).Ok? {
      EncodeOkFits(frame);
    }
  }

  lemma {:induction false} NothingHeard(t: Turn)
    ensures ClientSide(t, None) == Err(Timeout)
  {
  }

  lemma {:induction false} FitsEncodes(net: Net, t: Turn, procedure: string, payload: Value)
    requires Carried(payload) && |procedure| < 64 && |Enc(CallFrame(net, t, procedure, payload))| <= MAX_FRAME_BYTES
    ensures Frame.Encode(CallFrame(net, t, procedure, payload)).Ok?
  {
    hide Enc, Frame.Encode, Frame.Decode, Frame.Verify, ParseCall, Norm, CallFits, Sign, CallValue, Carried;
    SpecFits(net, t, procedure, payload);
    CallRoundTrip(net.ed, SpecFor(net, t, procedure, payload), t.frameId, t.sentAtMs, net.clientKey, []);
  }

  /** Small payloads fit in every turn's frames. */
  lemma {:induction false} SmallFits(net: Net, n: nat, procedure: string, payload: Value, reply: Value)
    requires |procedure| < 64 && Small(payload) && Small(reply)
    ensures CallFrameFits(net, n, procedure, payload) && ReplyFrameFits(net, n, reply)
  {
    hide Enc, CallFrame, ReplyFrame, Small;
    CallFrameSize(net, net.turn(n), procedure, payload);
    ReplyFrameSize(net, net.turn(n), net.turn(n).callId, reply);
  }

  // --- serving again -----------------------------------------------------------------------------

  /** An honest station that serves the same call again keeps its store and gives the same
      reply. */
  lemma {:induction false} ServesAlike(hs: Hashes, store: Store, procedure: string, payload: Value)
    ensures var (served, reply) := Serve(Honest(hs), store, procedure, payload);
      Serve(Honest(hs), served, procedure, payload) == (served, reply)
  {
    hide Get, BlockMcid;
    ProceduresDiffer();
    if procedure == PUT_BLOCK_PROC {
      PutBlockAlike(hs, store, payload);
    } else if procedure == PUT_MANIFEST_PROC {
      PutManifestAlike(store, payload);
    }
  }

  lemma {:induction false} PutTwice<K, V>(m: map<K, V>, k: K, v: V)
    ensures m[k := v][k := v] == m[k := v]
  {
  }

  lemma {:induction false} PutBlockAlike(hs: Hashes, store: Store, payload: Value)
    ensures var (served, reply) := PutBlockHere(hs, store, payload);
      PutBlockHere(hs, served, payload) == (served, reply)
  {
    hide Get, BlockMcid;
    match (Get(payload, "mcid"), Get(payload, "payload")) {
      case (Some(Bytes(mcid)), Some(Bytes(b))) => if BlockMcid(hs, b) == mcid { PutTwice(store.blocks, mcid, b); }
      case _ =>
    }
  }

  lemma {:induction false} PutManifestAlike(store: Store, payload: Value)
    ensures var (served, reply) := PutManifestHere(store, payload); PutManifestHere(served, payload) == (served, reply)
  {
    hide Get;
    match Get(payload, "manifest") {
      case Some(m) =>
        match Get(m, "mcid") {
          case Some(Bytes(mcid)) => if |mcid| == 34 { PutTwice(store.manifests, mcid, m); }
          case _ =>
        }
      case None =>
    }
  }
}
