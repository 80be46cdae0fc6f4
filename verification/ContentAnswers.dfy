/** What the content client makes of a station's answers, whatever the station: which calls it
    makes, which answers it takes, and what it reports of the others (src/content.rs). */
module ContentAnswers {
  import opened ByteStrings
  import opened Wrappers
  import opened CborValue
  import opened CborFields
  import opened CborRecords
  import opened Frame
  import opened FrameCall
  import opened FrameParse
  import opened Merkle
  import opened Manifest
  import opened Station
  import opened Content
  import Connection
  import Utf8

  // --- retries ------------------------------------------------------------------------------

  /** The codes a call is tried again for. */
  lemma {:induction false} RetryCodes(code: byte)
    ensures Retryable(code) <==> code in {0x01, 0x02, 0x03, 0x04, 0x06, 0x07, 0x08, 0x09, 0x0B, 0x0F}
  {
  }

  /** An ERROR with another code, or no answer, ends a call at once. */
  lemma {:induction false} EndsAtOnce(net: Net, w: World, procedure: string, payload: Value)
    requires var r := CallOnce(net, w, procedure, payload).1;
      r.Err? || r.value.Reply? || r.value.code !in {0x01, 0x02, 0x03, 0x04, 0x06, 0x07, 0x08, 0x09, 0x0B, 0x0F}
    ensures CallRetry(net, w, procedure, payload, 1) == CallOnce(net, w, procedure, payload)
  {
    hide CallOnce;
    var r := CallOnce(net, w, procedure, payload).1;
    if r.Ok? && r.value.Failure? { RetryCodes(r.value.code); }
  }

  // --- the four calls --------------------------------------------------------------------------

  type Outcome = Result<CallResponse, CallError>

  /** The call, as the protocol names it, retries included. */
  ghost function Called(net: Net, w: World, procedure: string, fields: seq<Entry>): (World, Outcome) {
    hide CallRetry;
    CallRetry(net, w, procedure, Map(fields), 1)
  }

  ghost predicate Replied(r: Outcome, v: Value) {
    r.Ok? && r.value.Reply? && r.value.payload == v
  }

  /** What becomes of a put whose call came to `r`: an answer that is neither taken nor known
      is reported, and so are an ERROR and no answer. */
  ghost predicate PutReports(r: Outcome, put: Result<(), PutError>) {
    && (put == Ok(()) <==> Replied(r, Text("ok")))
    && (r.Err? ==> put == Err(PutError.Call(r.error)))
    && (r.Ok? && r.value.Failure? ==> put == Err(PutError.Remote(r.value.code, r.value.name, r.value.detail)))
    && (put.Err? && put.error.UnexpectedReply? ==> Replied(r, put.error.reply))
    && (put.Err? && put.error.Call? ==> r.Err?)
    && (put.Err? && put.error.Remote? ==> r.Ok? && r.value.Failure?)
  }

  ghost predicate GetReports<T(!new)>(r: Outcome, got: Result<T, GetError>) {
    && (got == Err(NotFound) <==> Replied(r, Text("not_found")))
    && (r.Err? ==> got == Err(GetError.Call(r.error)))
    && (r.Ok? && r.value.Failure? ==> got == Err(GetError.Remote(r.value.code, r.value.name, r.value.detail)))
    && (got.Err? && got.error.UnexpectedReply? ==> Replied(r, got.error.reply))
    && (got.Err? && got.error.Call? ==> r.Err?)
    && (got.Err? && got.error.Remote? ==> r.Ok? && r.value.Failure?)
  }

  /** A block is put with its address and its bytes: stored exactly on the answer "ok". */
  lemma {:induction false} PutBlockAnswers(net: Net, w: World, mcid: Mcid, bytes: seq<byte>)
    ensures var r := Called(net, w, "_content.put_block",
        [Entry(Text("mcid"), Bytes(mcid)), Entry(Text("payload"), Bytes(bytes))]);
      var put := PutBlockRun(net, w, mcid, bytes);
      && put.0 == r.0
      && PutReports(r.1, put.1)
      && (put.1 == Err(PutError.HashMismatch) <==> Replied(r.1, Text("hash_mismatch")))
  {
    hide CallRetry;
    assert EntriesOf(BlockFields(mcid, bytes)) ==
      [Entry(Text("mcid"), Bytes(mcid)), Entry(Text("payload"), Bytes(bytes))];
    assert Text("ok") != Text("hash_mismatch") by { assert |"ok"| == 2 && |"hash_mismatch"| == 13; }
  }

  /** A manifest is put as its map: stored exactly on the answer "ok". */
  lemma {:induction false} PutManifestAnswers(net: Net, w: World, m: Manifest)
    ensures var r := Called(net, w, "_content.put_manifest", [Entry(Text("manifest"), ToWire(m))]);
      var put := PutManifestRun(net, w, m);
      && put.0 == r.0
      && PutReports(r.1, put.1)
      && put.1 != Err(PutError.HashMismatch)
  {
    hide CallRetry, ToWire;
    assert EntriesOf(ManifestFields(m)) == [Entry(Text("manifest"), ToWire(m))];
  }

  /** A block is asked for by its address: any byte string is taken, "not_found" is that. */
  lemma {:induction false} GetBlockAnswers(net: Net, w: World, mcid: Mcid)
    ensures var r := Called(net, w, "_content.get_block", [Entry(Text("mcid"), Bytes(mcid))]);
      var got := GetBlockRun(net, w, mcid);
      && got.0 == r.0
      && GetReports(r.1, got.1)
      && (forall b :: got.1 == Ok(b) <==> Replied(r.1, Bytes(b)))
      && (got.1.Err? ==> !got.1.error.HashMismatch? && !got.1.error.ManifestDecode? && !got.1.error.Verify?)
  {
    hide CallRetry;
    assert EntriesOf(McidFields(mcid)) == [Entry(Text("mcid"), Bytes(mcid))];
  }

  /** A manifest is asked for by its address: a map is taken if it reads as a manifest, and
      its complaint reported if not; "not_found" is that. */
  lemma {:induction false} GetManifestAnswers(net: Net, w: World, mcid: Mcid)
    ensures var r := Called(net, w, "_content.get_manifest", [Entry(Text("mcid"), Bytes(mcid))]);
      var got := GetManifestRun(net, w, mcid);
      && got.0 == r.0
      && GetReports(r.1, got.1)
      && (forall es :: Replied(r.1, Map(es)) ==>
        got.1 == match FromWire(Map(es)) case Ok(m) => Ok(m) case Err(e) => Err(ManifestDecode(e)))
      && (got.1.Ok? ==> exists es :: Replied(r.1, Map(es)))
      && (got.1.Err? ==> !got.1.error.HashMismatch? && !got.1.error.Verify?)
  {
    hide CallRetry, FromWire;
    assert EntriesOf(McidFields(mcid)) == [Entry(Text("mcid"), Bytes(mcid))];
    var r := Called(net, w, "_content.get_manifest", [Entry(Text("mcid"), Bytes(mcid))]).1;
    if r.Ok? && r.value.Reply? && r.value.payload.Map? { assert Replied(r, Map(r.value.payload.entries)); }
  }

  // --- blobs -------------------------------------------------------------------------------------

  /** A block that arrives under a block address is what was asked for exactly if it hashes
      to it; one that does not is a hash mismatch, and every other outcome is passed on. */
  lemma {:induction false} BlockGetAnswers(net: Net, hs: Hashes, w: World, mcid: Mcid)
    requires mcid[1] != 0x56
    ensures var got := GetBlockRun(net, w, mcid);
      GetRun(net, hs, w, mcid) ==
        (got.0, if got.1.Ok? && [1, 0x55] + hs.blake3(got.1.value) != mcid then Err(GetError.HashMismatch) else got.1)
  {
    hide GetBlockRun;
  }

  /** A chunk that arrives and does not hash to its address ends the get as a hash
      mismatch, before any other block is asked for. */
  lemma {:induction false} WrongChunkEnds(net: Net, hs: Hashes, w: World, mcids: seq<Mcid>, data: seq<byte>)
    requires mcids != [] && GetBlockRun(net, w, mcids[0]).1.Ok?
    requires [1, 0x55] + hs.blake3(GetBlockRun(net, w, mcids[0]).1.value) != mcids[0]
    ensures GetBlocksRun(net, hs, w, mcids, data) == (GetBlockRun(net, w, mcids[0]).0, Err(GetError.HashMismatch))
  {
    hide GetBlockRun;
  }

  /** Blocks that all arrive and hash to their addresses are still refused if, joined, they
      are not the data the manifest is of: with the verdict of `verify`. */
  lemma {:induction false} WrongWholeRefused(net: Net, hs: Hashes, w: World, mcid: Mcid)
    requires mcid[1] == 0x56 && GetManifestRun(net, w, mcid).1.Ok?
    requires var (known, m) := (GetManifestRun(net, w, mcid).0, GetManifestRun(net, w, mcid).1.value);
      GetBlocksRun(net, hs, known, ChunkMcids(m), []).1.Ok?
    ensures var (known, m) := (GetManifestRun(net, w, mcid).0, GetManifestRun(net, w, mcid).1.value);
      var (after, got) := GetBlocksRun(net, hs, known, ChunkMcids(m), []);
      GetRun(net, hs, w, mcid) ==
        (after, if Wrap(|got.value|) != m.size then Err(GetError.Verify(SizeMismatch))
                else if DataRoot(hs.Of(m.algorithm), got.value, m.chunkSize) != m.rootHash then
                  Err(GetError.Verify(RootHashMismatch))
                else got)
  {
    hide GetManifestRun, GetBlocksRun, DataRoot;
  }

  /** Up to 256 KiB a blob is one block under its own address; above, it is its chunks of 256
      KiB in turn and then their manifest, up to the first that fails. */
  lemma {:induction false} PutShape(net: Net, hs: Hashes, w: World, data: seq<byte>, name: string, created: u64)
    ensures |data| <= 262_144 ==> PutsBlock(net, hs, w, data, PutRun(net, hs, w, data, name, created))
    ensures |data| > 262_144 ==>
      PutsChunks(net, w, ManifestOf(hs, data, CreateOptions(name, 262_144, Blake3), created), DoChunk(data, 262_144),
                 PutRun(net, hs, w, data, name, created))
  {
    hide PutBlockRun, PutBlocksRun, PutManifestRun, DoChunk, Root, SummaryBytes;
  }

  ghost predicate PutsBlock(net: Net, hs: Hashes, w: World, data: seq<byte>, put: (World, Result<Mcid, PutError>)) {
    var mcid: Mcid := [1, 0x55] + hs.blake3(data);
    var block := PutBlockRun(net, w, mcid, data);
    put == (block.0, if block.1.Ok? then Ok(mcid) else Err(block.1.error))
  }

  ghost predicate PutsChunks(net: Net, w: World, m: Manifest, chunks: seq<seq<byte>>,
                             put: (World, Result<Mcid, PutError>)) {
    && |m.chunks| == |chunks|
    && var blocks := PutBlocksRun(net, w, ChunkMcids(m), chunks);
      if blocks.1.Err? then put == (blocks.0, Err(blocks.1.error))
      else
        var last := PutManifestRun(net, blocks.0, m);
        put == (last.0, if last.1.Ok? then Ok(m.mcid) else Err(last.1.error))
  }

  // --- a station that does its job -------------------------------------------------------------

  /** Every block stands under its own address. */
  ghost predicate OwnBlocks(hs: Hashes, store: Store) {
    forall mcid :: mcid in store.blocks ==> [1, 0x55] + hs.blake3(store.blocks[mcid]) == mcid
  }

  /** Whatever is asked of it, it never stores a block under another's address; it answers
      only what it has, and "not_found" for what it has not. */
  lemma {:induction false} ServesOwnBlocks(hs: Hashes, store: Store, procedure: string, payload: Value)
    requires OwnBlocks(hs, store)
    ensures OwnBlocks(hs, Serve(Honest(hs), store, procedure, payload).0)
  {
    hide Get;
  }

  /** The procedures by name. */
  lemma {:induction false} ServesByName(hs: Hashes, store: Store, mcid: Mcid, b: seq<byte>, payload: Value)
    requires Get(payload, "mcid") == Some(Bytes(mcid))
    ensures Get(payload, "payload") == Some(Bytes(b)) ==>
      Serve(Honest(hs), store, "_content.put_block", payload) ==
        if [1, 0x55] + hs.blake3(b) == mcid then (store.(blocks := store.blocks[mcid := b]), Text("ok"))
        else (store, Text("hash_mismatch"))
    ensures Serve(Honest(hs), store, "_content.get_block", payload) ==
      (store, if mcid in store.blocks then Bytes(store.blocks[mcid]) else Text("not_found"))
    ensures Serve(Honest(hs), store, "_content.get_manifest", payload) ==
      (store, if mcid in store.manifests then store.manifests[mcid] else Text("not_found"))
  {
    hide Get;
    ProceduresDiffer();
  }

  lemma {:induction false} ServesManifest(hs: Hashes, store: Store, mcid: Mcid, m: Value, payload: Value)
    requires Get(payload, "manifest") == Some(m) && Get(m, "mcid") == Some(Bytes(mcid))
    ensures Serve(Honest(hs), store, "_content.put_manifest", payload) ==
      (store.(manifests := store.manifests[mcid := m]), Text("ok"))
  {
    hide Get;
    ProceduresDiffer();
  }

  // --- what goes out and what comes in ------------------------------------------------------------

  /** What is sent says the procedure and payload called, in the realm of zeros, for this
      client. */
  lemma {:induction false} CallFrameSays(net: Net, t: Turn, procedure: string, payload: Value)
    ensures var unsigned := CallValue(SpecFor(net, t, procedure, payload), t.frameId, t.sentAtMs);
      && CallFrame(net, t, procedure, payload) == Sign(net.ed, unsigned, net.clientKey)
      && SaysCall(unsigned, CallInfo(t.callId, procedure, seq(32, i => 0), payload, t.deadlineMs,
                                     net.ed.pub(net.clientKey), []))
  {
    hide SaysCall, Sign, CallValue;
    CallSays(SpecFor(net, t, procedure, payload), t.frameId, t.sentAtMs);
    assert CONTENT_REALM == seq(32, i => 0);
  }

  /** A frame answers a call exactly if it carries the call's id and says a response. */
  lemma {:induction false} AnswerReads(v: Value, callId: Id16, response: CallResponse)
    ensures Connection.Answer(v, callId) == Some(response) <==>
      Get(v, "call_id") == Some(Bytes(callId)) && SaysResponse(v, response)
  {
    hide Get, FrameCallId, ParseCallResponse, SaysResponse;
    CallIdReads(v, callId);
    ParseResponseReads(v, response);
  }
}
