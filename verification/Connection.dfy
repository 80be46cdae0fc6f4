/** Frames rebuilt from whatever chunks a stream delivers: the handshake read, the
    buffer it hands over, and the receive loops (src/connection.rs). */
module Connection {
  import opened ByteStrings
  import opened Wrappers
  import opened CborValue
  import CborParse
  import opened Frame
  import opened FrameCall

  // --- a receive stream ----------------------------------------------------------

  /** One read of the stream: a chunk of any size, or a read error. */
  datatype Event = Data(bytes: seq<byte>) | Broken

  /** Everything the stream delivers before it breaks or closes. */
  function Delivered(events: seq<Event>): seq<byte> {
    if events == [] || events[0].Broken? then [] else events[0].bytes + Delivered(events[1..])
  }

  predicate Breaks(events: seq<Event>) {
    events != [] && (events[0].Broken? || Breaks(events[1..]))
  }

  datatype RecvFrameError = Read | StreamClosed | Decode(error: DecodeFrameError)

  class RecvStream {
    var pending: seq<Event>

    constructor (events: seq<Event>)
      ensures pending == events
    {
      pending := events;
    }

    /** `recv.read(&mut chunk)`. */
    method ReadChunk() returns (r: Result<seq<byte>, RecvFrameError>)
      modifies this
      ensures old(pending) == [] ==> r == Err(StreamClosed) && pending == []
      ensures old(pending) != [] ==> pending == old(pending)[1..]
      ensures old(pending) != [] && old(pending)[0].Broken? ==> r == Err(Read)
      ensures old(pending) != [] && old(pending)[0].Data? ==> r == Ok(old(pending)[0].bytes)
    {
      if pending == [] { return Err(StreamClosed); }
      var e := pending[0];
      pending := pending[1..];
      return if e.Data? then Ok(e.bytes) else Err(Read);
    }
  }

  // --- what receiving a frame gives, whatever the chunks -------------------------------

  /** The next frame of a stream of bytes, or why there is none. */
  function NextFrame(bytes: seq<byte>, breaks: bool): Result<Value, RecvFrameError> {
    match Frame.Decode(bytes)
    case Err(e) => Err(RecvFrameError.Decode(e))
    case Ok(Frame(v, _)) => Ok(v)
    case Ok(More(_)) => Err(if breaks then Read else StreamClosed)
  }

  /** The bytes after the next frame; nothing is consumed when there is none. */
  function AfterFrame(bytes: seq<byte>): seq<byte> {
    match Frame.Decode(bytes)
    case Ok(Frame(_, n)) => if n <= |bytes| then bytes[n..] else bytes
    case _ => bytes
  }

  /** A verdict on what has arrived is the verdict on the whole stream. */
  lemma {:induction false} VerdictOnStream(buf: seq<byte>, rest: seq<byte>, breaks: bool)
    requires Frame.Decode(buf).Err? || Frame.Decode(buf).value.Frame?
    ensures NextFrame(buf + rest, breaks) == NextFrame(buf, breaks)
    ensures AfterFrame(buf + rest) == AfterFrame(buf) + rest
  {
    hide Frame.Decode;
    VerdictStands(buf, rest);
    if Frame.Decode(buf).Ok? {
      var n := Frame.Decode(buf).value.consumed;
      assert (buf + rest)[n..] == buf[n..] + rest;
    }
  }

  /** Handshake read: one frame and the bytes already read past it. */
  method ReadOneFrame(recv: RecvStream) returns (r: Result<(Value, seq<byte>), RecvFrameError>)
    modifies recv
    ensures var stream, breaks := old(Delivered(recv.pending)), old(Breaks(recv.pending));
      && (match NextFrame(stream, breaks)
          case Ok(v) => r.Ok? && r.value.0 == v
          case Err(e) => r == Err(e))
      && (r.Ok? ==> r.value.1 + Delivered(recv.pending) == AfterFrame(stream) && Breaks(recv.pending) == breaks)
  {
    hide Frame.Decode;
    ghost var stream, breaks := Delivered(recv.pending), Breaks(recv.pending);
    var buf: seq<byte> := [];
    while true
      invariant buf + Delivered(recv.pending) == stream && Breaks(recv.pending) == breaks
      decreases |recv.pending|
    {
      match Frame.Decode(buf)
      case Ok(Frame(value, consumed)) =>
        VerdictOnStream(buf, Delivered(recv.pending), breaks);
        VerdictStands(buf, []);
        return Ok((value, buf[consumed..]));
      case Err(e) =>
        VerdictOnStream(buf, Delivered(recv.pending), breaks);
        return Err(RecvFrameError.Decode(e));
      case Ok(More(_)) =>
        ghost var before := recv.pending;
        var chunk := recv.ReadChunk();
        if chunk.Err? {
          assert buf + [] == buf;
          return Err(chunk.error);
        }
        assert buf + (chunk.value + Delivered(before[1..])) == (buf + chunk.value) + Delivered(before[1..]);
        buf := buf + chunk.value;
    }
  }

  lemma {:induction false} Regroup(a: seq<byte>, b: seq<byte>, c: seq<byte>)
    ensures a + (b + c) == (a + b) + c
  {
  }

  // --- the frame stream -------------------------------------------------------------

  class FrameStream {
    const recv: RecvStream
    /** Bytes read and not yet consumed by a decoded frame. */
    var buf: seq<byte>
    ghost var read: seq<byte>
    ghost var consumed: seq<byte>

    /** Bytes read are the bytes consumed, then the buffer. */
    ghost predicate Valid()
      reads this
    {
      read == consumed + buf
    }

    /** Everything this stream has yet to give: its buffer, then what will arrive. */
    function Ahead(): seq<byte>
      reads this, recv
    {
      buf + Delivered(recv.pending)
    }

    constructor WithBuf(recv: RecvStream, buf: seq<byte>)
      ensures Valid() && this.recv == recv && this.buf == buf && consumed == []
    {
      this.recv := recv;
      this.buf := buf;
      read := buf;
      consumed := [];
    }

    /** The next frame of the stream, however it was cut into chunks; exactly its bytes
        are consumed, none when there is no frame, and no byte delivered is lost. */
    method RecvFrame() returns (r: Result<Value, RecvFrameError>)
      requires Valid()
      modifies this, recv
      ensures Valid()
      ensures r == NextFrame(old(Ahead()), old(Breaks(recv.pending)))
      ensures r.Ok? || r.error.Decode? ==>
        Ahead() == AfterFrame(old(Ahead())) && Breaks(recv.pending) == old(Breaks(recv.pending))
      ensures r.Ok? ==> consumed + Ahead() == old(consumed) + old(Ahead())
      ensures r.Err? ==> consumed == old(consumed)
      ensures r.Err? ==> buf + (if r.error.Decode? then Delivered(recv.pending) else []) == old(Ahead())
      ensures read + (if r.Ok? || r.error.Decode? then Delivered(recv.pending) else []) ==
        old(read) + old(Delivered(recv.pending))
    {
      hide Frame.Decode;
      ghost var stream, breaks := Ahead(), Breaks(recv.pending);
      ghost var arrives := read + Delivered(recv.pending);
      while true
        invariant Valid() && Ahead() == stream && Breaks(recv.pending) == breaks && consumed == old(consumed)
        invariant read + Delivered(recv.pending) == arrives
        decreases |recv.pending|
      {
        match Frame.Decode(buf)
        case Ok(Frame(value, n)) =>
          VerdictOnStream(buf, Delivered(recv.pending), breaks);
          VerdictStands(buf, []);
          assert buf == buf[..n] + buf[n..];
          Regroup(consumed, buf[..n], buf[n..]);
          Regroup(buf[..n], buf[n..], Delivered(recv.pending));
          Regroup(consumed, buf[..n], buf[n..] + Delivered(recv.pending));
          consumed := consumed + buf[..n];
          buf := buf[n..];
          return Ok(value);
        case Err(e) =>
          VerdictOnStream(buf, Delivered(recv.pending), breaks);
          return Err(RecvFrameError.Decode(e));
        case Ok(More(_)) =>
          ghost var before := recv.pending;
          var chunk := recv.ReadChunk();
          if chunk.Err? {
            assert buf + [] == buf && read + [] == read;
            return Err(chunk.error);
          }
          Regroup(buf, chunk.value, Delivered(before[1..]));
          Regroup(read, chunk.value, Delivered(before[1..]));
          buf := buf + chunk.value;
          read := read + chunk.value;
      }
    }

    /** Frames that are not the answer are dropped; the first that is, is returned. */
    method AwaitCallResponse(callId: Id16) returns (r: Result<CallResponse, RecvFrameError>)
      requires Valid()
      modifies this, recv
      ensures Valid()
      ensures r == Awaited(old(Ahead()), old(Breaks(recv.pending)), callId)
      ensures r.Ok? ==> Ahead() == AfterAwaited(old(Ahead()), callId)
    {
      hide Frame.Decode, FrameCallId, ParseCallResponse;
      ghost var stream, breaks := Ahead(), Breaks(recv.pending);
      while true
        invariant Valid() && Breaks(recv.pending) == breaks
        invariant Awaited(stream, breaks, callId) == Awaited(Ahead(), breaks, callId)
        invariant AfterAwaited(stream, callId) == AfterAwaited(Ahead(), callId)
        decreases |Ahead()|
      {
        ghost var ahead := Ahead();
        FrameTakesBytes(ahead);
        var value := RecvFrame();
        if value.Err? { return Err(value.error); }
        if FrameCallId(value.value) != Some(callId) { continue; }
        var response := ParseCallResponse(value.value);
        if response.Ok? { return Ok(response.value); }
      }
    }
  }

  lemma {:induction false} FrameTakesBytes(bytes: seq<byte>)
    ensures Frame.Decode(bytes).Ok? && Frame.Decode(bytes).value.Frame? ==>
      4 <= Frame.Decode(bytes).value.consumed <= |bytes| && |AfterFrame(bytes)| < |bytes|
  {
    hide CborParse.Decode;
  }

  /** The frame answers the call: its id, and a result or error that parses. */
  function Answer(v: Value, callId: Id16): Option<CallResponse> {
    if FrameCallId(v) != Some(callId) then None
    else match ParseCallResponse(v)
      case Ok(response) => Some(response)
      case Err(_) => None
  }

  function Awaited(bytes: seq<byte>, breaks: bool, callId: Id16): Result<CallResponse, RecvFrameError>
    decreases |bytes|
  {
    FrameTakesBytes(bytes);
    match NextFrame(bytes, breaks)
    case Err(e) => Err(e)
    case Ok(v) =>
      (match Answer(v, callId)
       case Some(response) => Ok(response)
       case None => Awaited(AfterFrame(bytes), breaks, callId))
  }

  function AfterAwaited(bytes: seq<byte>, callId: Id16): seq<byte>
    decreases |bytes|
  {
    FrameTakesBytes(bytes);
    match NextFrame(bytes, false)
    case Err(e) => bytes
    case Ok(v) =>
      (match Answer(v, callId)
       case Some(_) => AfterFrame(bytes)
       case None => AfterAwaited(AfterFrame(bytes), callId))
  }

  // --- any frames, any chunks -----------------------------------------------------------

  /** The wire bytes of frames sent one after another. */
  ghost function Wire(frames: seq<Value>): seq<byte>
    requires forall i :: 0 <= i < |frames| ==> Sendable(frames[i])
  {
    if frames == [] then []
    else
      EncodeSendable(frames[0]);
      Encode(frames[0]).value + Wire(frames[1..])
  }

  /** The first frame on the wire is the next one received, and leaves exactly the rest. */
  lemma {:induction false} FirstOfWire(frames: seq<Value>, tail: seq<byte>, breaks: bool)
    requires frames != [] && forall i :: 0 <= i < |frames| ==> Sendable(frames[i])
    ensures NextFrame(Wire(frames) + tail, breaks) == Ok(Norm(frames[0]))
    ensures AfterFrame(Wire(frames) + tail) == Wire(frames[1..]) + tail
  {
    hide Frame.Decode, Frame.Encode, Norm, Sendable;
    var rest := Wire(frames[1..]) + tail;
    DecodeEncoded(frames[0], rest);
    var head, bytes := Frame.Encode(frames[0]).value, Wire(frames) + tail;
    assert bytes == head + rest;
    assert Frame.Decode(bytes) == Ok(Frame(Norm(frames[0]), |head|));
    assert bytes[|head|..] == rest;
  }

  /** `n` frames received in turn, and the bytes left. */
  ghost function Received(bytes: seq<byte>, breaks: bool, n: nat): Result<(seq<Value>, seq<byte>), RecvFrameError> {
    if n == 0 then Ok(([], bytes))
    else
      var v :- NextFrame(bytes, breaks);
      var rest :- Received(AfterFrame(bytes), breaks, n - 1);
      Ok(([v] + rest.0, rest.1))
  }

  /** Sent frames arrive in order, each in normal form, and nothing after them is touched.
      The chunks do not appear: `bytes` is all a receive loop's result depends on. */
  lemma {:induction false} FramesArriveInOrder(frames: seq<Value>, tail: seq<byte>, breaks: bool)
    requires forall i :: 0 <= i < |frames| ==> Sendable(frames[i])
    ensures Received(Wire(frames) + tail, breaks, |frames|) == Ok((NormItems(frames), tail))
  {
    hide NextFrame, AfterFrame, Norm, Sendable;
    if frames == [] {
      assert [] + tail == tail;
    } else {
      FirstOfWire(frames, tail, breaks);
      FramesArriveInOrder(frames[1..], tail, breaks);
    }
  }

  /** The call's answer is the first frame that answers it; frames before it are dropped
      and frames after it stay on the stream. */
  lemma {:induction false} FirstAnswerWins(frames: seq<Value>, k: nat, tail: seq<byte>, breaks: bool, callId: Id16)
    requires k < |frames| && forall i :: 0 <= i < |frames| ==> Sendable(frames[i])
    requires forall i :: 0 <= i < k ==> Answer(Norm(frames[i]), callId) == None
    requires Answer(Norm(frames[k]), callId).Some?
    ensures Awaited(Wire(frames) + tail, breaks, callId) == Ok(Answer(Norm(frames[k]), callId).value)
    ensures AfterAwaited(Wire(frames) + tail, callId) == Wire(frames[k + 1..]) + tail
    decreases k
  {
    hide NextFrame, AfterFrame, Norm, Sendable, Answer;
    FirstOfWire(frames, tail, breaks);
    FirstOfWire(frames, tail, false);
    if k > 0 {
      assert Answer(Norm(frames[0]), callId) == None;
      FirstAnswerWins(frames[1..], k - 1, tail, breaks, callId);
      assert frames[1..][k..] == frames[k + 1..];
    }
  }
}
