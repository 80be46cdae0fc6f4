/** Content put and got by address: blocks, manifests, retries (src/content.rs). */
module Content {
  import opened ByteStrings
  import opened Wrappers
  import opened CborValue
  import opened CborRecords
  import opened FrameCall
  import opened Merkle
  import opened Manifest
  import M = Manifest
  import opened Station

  const MAX_ATTEMPTS: nat := 3

  /** BOLT#4 codes that may be retried: the defined ones but success, handler-level
      refusals and failed cryptography. */
  predicate Retryable(code: byte) {
    code <= 0x10 && code !in {0x00, 0x05, 0x0A, 0x0C, 0x0D, 0x0E, 0x10}
  }

  predicate WorthRetrying(r: Result<CallResponse, CallError>) {
    r.Ok? && r.value.Failure? && Retryable(r.value.code)
  }

  /** Attempt number `attempt` of a call, and those after it. */
  function CallRetry(net: Net, w: World, procedure: string, payload: Value, attempt: nat)
    : (World, Result<CallResponse, CallError>)
    requires 1 <= attempt <= MAX_ATTEMPTS
    decreases MAX_ATTEMPTS - attempt
  {
    hide CallOnce;
    var (after, outcome) := CallOnce(net, w, procedure, payload);
    if attempt < MAX_ATTEMPTS && WorthRetrying(outcome) then CallRetry(net, after, procedure, payload, attempt + 1)
    else (after, outcome)
  }

  // --- blocks and manifests ---------------------------------------------------------------

  datatype PutError =
    | Call(error: CallError)
    | Remote(code: byte, name: string, detail: Option<string>)
    | UnexpectedReply(reply: Value)
    | HashMismatch

  datatype GetError =
    | Call(error: CallError)
    | Remote(code: byte, name: string, detail: Option<string>)
    | UnexpectedReply(reply: Value)
    | NotFound
    | ManifestDecode(decode: FromWireError)
    | HashMismatch
    | Verify(verdict: VerifyError)

  function BlockFields(mcid: Mcid, bytes: seq<byte>): seq<Field> {
    [Field("mcid", Bytes(mcid)), Field("payload", Bytes(bytes))]
  }

  function ManifestFields(m: Manifest): seq<Field> {
    [Field("manifest", ToWire(m))]
  }

  function McidFields(mcid: Mcid): seq<Field> {
    [Field("mcid", Bytes(mcid))]
  }

  function PutBlockReply(r: Result<CallResponse, CallError>): Result<(), PutError> {
    match r
    case Err(e) => Err(PutError.Call(e))
    case Ok(Reply(payload, _)) =>
      if payload == Text("ok") then Ok(())
      else if payload == Text("hash_mismatch") then Err(PutError.HashMismatch)
      else Err(PutError.UnexpectedReply(payload))
    case Ok(Failure(code, name, _, detail)) => Err(PutError.Remote(code, name, detail))
  }

  function PutManifestReply(r: Result<CallResponse, CallError>): Result<(), PutError> {
    match r
    case Err(e) => Err(PutError.Call(e))
    case Ok(Reply(payload, _)) => if payload == Text("ok") then Ok(()) else Err(PutError.UnexpectedReply(payload))
    case Ok(Failure(code, name, _, detail)) => Err(PutError.Remote(code, name, detail))
  }

  function GetBlockReply(r: Result<CallResponse, CallError>): Result<seq<byte>, GetError> {
    match r
    case Err(e) => Err(GetError.Call(e))
    case Ok(Reply(payload, _)) =>
      (match payload
       case Bytes(b) => Ok(b)
       case Text(t) => if t == "not_found" then Err(NotFound) else Err(GetError.UnexpectedReply(payload))
       case _ => Err(GetError.UnexpectedReply(payload)))
    case Ok(Failure(code, name, _, detail)) => Err(GetError.Remote(code, name, detail))
  }

  function GetManifestReply(r: Result<CallResponse, CallError>): Result<Usable, GetError> {
    hide FromWire;
    match r
    case Err(e) => Err(GetError.Call(e))
    case Ok(Reply(payload, _)) =>
      (match payload
       case Map(_) =>
         (match FromWire(payload)
          case Ok(m) => Ok(m)
          case Err(e) => Err(ManifestDecode(e)))
       case Text(t) => if t == "not_found" then Err(NotFound) else Err(GetError.UnexpectedReply(payload))
       case _ => Err(GetError.UnexpectedReply(payload)))
    case Ok(Failure(code, name, _, detail)) => Err(GetError.Remote(code, name, detail))
  }

  function PutBlockRun(net: Net, w: World, mcid: Mcid, bytes: seq<byte>): (World, Result<(), PutError>) {
    hide CallRetry;
    var (after, r) := CallRetry(net, w, PUT_BLOCK_PROC, Map(EntriesOf(BlockFields(mcid, bytes))), 1);
    (after, PutBlockReply(r))
  }

  function PutManifestRun(net: Net, w: World, m: Manifest): (World, Result<(), PutError>) {
    hide CallRetry;
    var (after, r) := CallRetry(net, w, PUT_MANIFEST_PROC, Map(EntriesOf(ManifestFields(m))), 1);
    (after, PutManifestReply(r))
  }

  function GetBlockRun(net: Net, w: World, mcid: Mcid): (World, Result<seq<byte>, GetError>) {
    hide CallRetry;
    var (after, r) := CallRetry(net, w, GET_BLOCK_PROC, Map(EntriesOf(McidFields(mcid))), 1);
    (after, GetBlockReply(r))
  }

  function GetManifestRun(net: Net, w: World, mcid: Mcid): (World, Result<Usable, GetError>) {
    hide CallRetry, GetManifestReply;
    var (after, r) := CallRetry(net, w, GET_MANIFEST_PROC, Map(EntriesOf(McidFields(mcid))), 1);
    (after, GetManifestReply(r))
  }

  // --- whole blobs --------------------------------------------------------------------------

  function ChunkMcids(m: Manifest): (r: seq<Mcid>)
    ensures |r| == |m.chunks| && forall i :: 0 <= i < |r| ==> ChunkMcid(m, i) == Some(r[i])
  {
    seq(|m.chunks|, i requires 0 <= i < |m.chunks| => MakeMcid(CODEC_RAW, m.chunks[i].hash))
  }

  function PutBlocksRun(net: Net, w: World, mcids: seq<Mcid>, chunks: seq<seq<byte>>): (World, Result<(), PutError>)
    requires |mcids| == |chunks|
    decreases |chunks|
  {
    hide PutBlockRun;
    if chunks == [] then (w, Ok(()))
    else
      var (after, r) := PutBlockRun(net, w, mcids[0], chunks[0]);
      if r.Err? then (after, r) else PutBlocksRun(net, after, mcids[1..], chunks[1..])
  }

  function Options(name: string): CreateOptions {
    CreateOptions(name, DEFAULT_CHUNK_SIZE, Blake3)
  }

  function PutRun(net: Net, hs: Hashes, w: World, data: seq<byte>, name: string, created: u64)
    : (World, Result<Mcid, PutError>) {
    hide PutBlockRun, PutManifestRun;
    if |data| <= DEFAULT_CHUNK_SIZE then
      var (after, r) := PutBlockRun(net, w, BlockMcid(hs, data), data);
      (after, if r.Ok? then Ok(BlockMcid(hs, data)) else Err(r.error))
    else
      var m := ManifestOf(hs, data, Options(name), created);
      var (stored, r) := PutBlocksRun(net, w, ChunkMcids(m), DoChunk(data, DEFAULT_CHUNK_SIZE));
      if r.Err? then (stored, Err(r.error))
      else
        var (after, p) := PutManifestRun(net, stored, m);
        (after, if p.Ok? then Ok(m.mcid) else Err(p.error))
  }

  /** The blocks of these addresses in turn, each rehashed, appended to `data`. */
  function GetBlocksRun(net: Net, hs: Hashes, w: World, mcids: seq<Mcid>, data: seq<byte>)
    : (World, Result<seq<byte>, GetError>)
    decreases |mcids|
  {
    hide GetBlockRun;
    if mcids == [] then (w, Ok(data))
    else
      var (after, r) := GetBlockRun(net, w, mcids[0]);
      if r.Err? then (after, r)
      else if BlockMcid(hs, r.value) != mcids[0] then (after, Err(GetError.HashMismatch))
      else GetBlocksRun(net, hs, after, mcids[1..], data + r.value)
  }

  function GetRun(net: Net, hs: Hashes, w: World, mcid: Mcid): (World, Result<seq<byte>, GetError>) {
    hide GetBlockRun, GetManifestRun;
    if !McidIsChunked(mcid) then
      var (after, r) := GetBlockRun(net, w, mcid);
      (after, if r.Ok? && BlockMcid(hs, r.value) != mcid then Err(GetError.HashMismatch) else r)
    else
      var (known, r) := GetManifestRun(net, w, mcid);
      if r.Err? then (known, Err(r.error))
      else
        var (after, got) := GetBlocksRun(net, hs, known, ChunkMcids(r.value), []);
        if got.Err? then (after, got)
        else
          (match Verdict(hs, r.value, got.value)
           case Ok(_) => (after, got)
           case Err(e) => (after, Err(GetError.Verify(e))))
  }

  // --- the client, step by step ----------------------------------------------------------------

  /** A session's dedicated stream, and what is on its other side. */
  class ContentStream {
    const net: Net
    const hs: Hashes
    var world: World

    constructor (net: Net, hs: Hashes, world: World)
      ensures this.net == net && this.hs == hs && this.world == world
    {
      this.net := net;
      this.hs := hs;
      this.world := world;
    }

    method CallWithRetry(procedure: string, payload: Value) returns (r: Result<CallResponse, CallError>)
      modifies this
      ensures (world, r) == CallRetry(net, old(world), procedure, payload, 1)
    {
      hide CallOnce;
      var attempt := 0;
      while true
        invariant attempt < MAX_ATTEMPTS
        invariant CallRetry(net, old(world), procedure, payload, 1) ==
          CallRetry(net, world, procedure, payload, attempt + 1)
        decreases MAX_ATTEMPTS - attempt
      {
        attempt := attempt + 1;
        var (after, outcome) := CallOnce(net, world, procedure, payload);
        world := after;
        var shouldRetry := attempt < MAX_ATTEMPTS && WorthRetrying(outcome);
        if !shouldRetry { return outcome; }
      }
    }

    method PutBlock(mcid: Mcid, bytes: seq<byte>) returns (r: Result<(), PutError>)
      modifies this
      ensures (world, r) == PutBlockRun(net, old(world), mcid, bytes)
    {
      hide CallRetry;
      var response := CallWithRetry(PUT_BLOCK_PROC, Map(EntriesOf(BlockFields(mcid, bytes))));
      return PutBlockReply(response);
    }

    method PutManifest(m: Manifest) returns (r: Result<(), PutError>)
      modifies this
      ensures (world, r) == PutManifestRun(net, old(world), m)
    {
      hide CallRetry;
      var response := CallWithRetry(PUT_MANIFEST_PROC, Map(EntriesOf(ManifestFields(m))));
      return PutManifestReply(response);
    }

    method GetBlock(mcid: Mcid) returns (r: Result<seq<byte>, GetError>)
      modifies this
      ensures (world, r) == GetBlockRun(net, old(world), mcid)
    {
      hide CallRetry;
      var response := CallWithRetry(GET_BLOCK_PROC, Map(EntriesOf(McidFields(mcid))));
      return GetBlockReply(response);
    }

    method GetManifest(mcid: Mcid) returns (r: Result<Usable, GetError>)
      modifies this
      ensures (world, r) == GetManifestRun(net, old(world), mcid)
    {
      hide CallRetry;
      var response := CallWithRetry(GET_MANIFEST_PROC, Map(EntriesOf(McidFields(mcid))));
      return GetManifestReply(response);
    }

    method Put(data: seq<byte>, name: string, created: u64) returns (r: Result<Mcid, PutError>)
      modifies this
      ensures (world, r) == PutRun(net, hs, old(world), data, name, created)
    {
      hide PutBlockRun, PutManifestRun, ManifestOf, DoChunk;
      if |data| <= DEFAULT_CHUNK_SIZE {
        var mcid := BlockMcid(hs, data);
        var put := PutBlock(mcid, data);
        return if put.Ok? then Ok(mcid) else Err(put.error);
      }
      var m, chunks := CreateWithCreated(hs, data, Options(name), created);
      ghost var mcids := ChunkMcids(m);
      CreatedCounts(hs, data, Options(name), created);
      for index := 0 to |chunks|
        invariant PutBlocksRun(net, old(world), mcids, chunks) ==
          PutBlocksRun(net, world, mcids[index..], chunks[index..])
      {
        var mcid := ChunkMcid(m, index).value;
        var put := PutBlock(mcid, chunks[index]);
        if put.Err? { return Err(put.error); }
      }
      var put := PutManifest(m);
      return if put.Ok? then Ok(m.mcid) else Err(put.error);
    }

    method Get(mcid: Mcid) returns (r: Result<seq<byte>, GetError>)
      modifies this
      ensures (world, r) == GetRun(net, hs, old(world), mcid)
    {
      hide GetBlockRun, GetManifestRun;
      if !McidIsChunked(mcid) {
        var got := GetBlock(mcid);
        if got.Err? { return got; }
        if BlockMcid(hs, got.value) != mcid { return Err(GetError.HashMismatch); }
        return got;
      }
      var found := GetManifest(mcid);
      if found.Err? { return Err(found.error); }
      var m := found.value;
      var data := [];
      ghost var mcids, known := ChunkMcids(m), world;
      for index := 0 to m.chunkCount
        invariant GetBlocksRun(net, hs, known, mcids, []) == GetBlocksRun(net, hs, world, mcids[index..], data)
      {
        var chunkMcid := ChunkMcid(m, index).value;
        var got := GetBlock(chunkMcid);
        if got.Err? { return got; }
        if BlockMcid(hs, got.value) != chunkMcid { return Err(GetError.HashMismatch); }
        data := data + got.value;
      }
      var verdict := M.Verify(hs, m, data);
      if verdict.Err? { return Err(GetError.Verify(verdict.error)); }
      return Ok(data);
    }
  }

  lemma {:induction false} CreatedCounts(hs: Hashes, data: seq<byte>, opts: CreateOptions, created: u64)
    requires opts.chunkSize > 0
    ensures |ManifestOf(hs, data, opts, created).chunks| == |DoChunk(data, opts.chunkSize)|
  {
  }
}
