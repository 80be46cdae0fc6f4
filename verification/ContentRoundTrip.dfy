/** What is put can be got: every `put` that succeeds against an honest station, then
    `get`, over any network (src/content.rs, src/manifest.rs). */
module ContentRoundTrip {
  import opened ByteStrings
  import opened Wrappers
  import opened CborValue
  import opened CborRoundTrip
  import opened CborFields
  import opened CborRecords
  import opened Frame
  import opened FrameCall
  import opened FrameSize
  import opened Manifest
  import opened Station
  import opened Content
  import CborParse
  import Utf8

  // --- retries --------------------------------------------------------------------------

  /** At most three attempts; only a retryable ERROR is tried again, and only the third
      such one is reported. */
  lemma {:induction false} RetryBounds(net: Net, w: World, procedure: string, payload: Value, attempt: nat)
    requires 1 <= attempt <= MAX_ATTEMPTS
    ensures var (after, r) := CallRetry(net, w, procedure, payload, attempt);
      && 1 <= after.calls - w.calls <= MAX_ATTEMPTS + 1 - attempt
      && (WorthRetrying(r) ==> after.calls - w.calls == MAX_ATTEMPTS + 1 - attempt)
      && (after.calls - w.calls > 1 ==> WorthRetrying(CallOnce(net, w, procedure, payload).1))
    decreases MAX_ATTEMPTS - attempt
  {
    hide CallOnce, Retryable;
    CountsOne(net, w, procedure, payload);
    var (after, outcome) := CallOnce(net, w, procedure, payload);
    if attempt < MAX_ATTEMPTS && WorthRetrying(outcome) { RetryBounds(net, after, procedure, payload, attempt + 1); }
  }

  lemma {:induction false} CountsOne(net: Net, w: World, procedure: string, payload: Value)
    ensures CallOnce(net, w, procedure, payload).0.calls == w.calls + 1
  {
    hide Frame.Encode, StationSide, ClientSide, CallFrame;
  }

  /** Turn `n` ends in an ERROR worth another attempt, whether or not the station served
      the call. */
  ghost predicate Errs(net: Net, n: nat) {
    ErrorFrameFits(net, n) && Retryable(net.turn(n).fate.code)
  }

  /** One of the next `left` turns is served, and those before it are ERRORs worth another
      attempt. */
  ghost predicate Passes(net: Net, n: nat, left: nat)
    decreases left
  {
    left > 0 && (net.turn(n).fate.Served? || (Errs(net, n) && Passes(net, n + 1, left - 1)))
  }

  /** The same, and every frame of those turns fits. */
  ghost predicate Goes(net: Net, n: nat, left: nat, procedure: string, payload: Value, reply: Value)
    decreases left
  {
    && left > 0
    && CallFrameFits(net, n, procedure, payload)
    && if net.turn(n).fate.Served? then ReplyFrameFits(net, n, reply)
       else Errs(net, n) && Goes(net, n + 1, left - 1, procedure, payload, reply)
  }

  /** What a call with retries comes to against an honest station. */
  ghost predicate RetriedTo(net: Net, w: World, attempt: nat, procedure: string, payload: Value,
                            after: World, r: Result<CallResponse, CallError>)
    requires attempt <= MAX_ATTEMPTS
  {
    var (served, reply) := Serve(net.station, w.store, procedure, Norm(payload));
    && after.calls > w.calls
    && (after.store == w.store || after.store == served)
    && (r.Ok? && r.value.Reply? ==> after.store == served && r.value.payload == Norm(reply))
    && (r.Ok? && r.value.Reply? <==> Goes(net, w.calls, MAX_ATTEMPTS + 1 - attempt, procedure, payload, reply))
  }

  /** Served once or more, the store is as after serving once; and a reply is heard exactly
      when an attempt is served, those before it having ended in ERRORs worth another, and
      all their frames fit. */
  lemma {:induction false} RetryCases(net: Net, hs: Hashes, w: World, procedure: string, payload: Value, attempt: nat)
    requires net.station == Honest(hs) && 1 <= attempt <= MAX_ATTEMPTS && Carried(payload) && |procedure| < 64
    requires Carried(Serve(net.station, w.store, procedure, Norm(payload)).1)
    ensures var retried := CallRetry(net, w, procedure, payload, attempt);
      RetriedTo(net, w, attempt, procedure, payload, retried.0, retried.1)
    decreases MAX_ATTEMPTS - attempt
  {
    hide CallOnce, Serve, Carried, Retryable, Norm, CallFrameFits, ReplyFrameFits, Enc, ErrorFrame;
    CallCases(net, w, procedure, payload);
    var (after, outcome) := CallOnce(net, w, procedure, payload);
    ServesAlike(hs, w.store, procedure, Norm(payload));
    if attempt < MAX_ATTEMPTS && WorthRetrying(outcome) {
      RetryCases(net, hs, after, procedure, payload, attempt + 1);
    }
  }

  /** With small payloads only the fates decide. */
  lemma {:induction false} SmallGoes(net: Net, n: nat, left: nat, procedure: string, payload: Value, reply: Value)
    requires |procedure| < 64 && Small(payload) && Small(reply)
    ensures Goes(net, n, left, procedure, payload, reply) <==> Passes(net, n, left)
    decreases left
  {
    hide CallFrameFits, ReplyFrameFits, Small, Retryable;
    if left > 0 {
      SmallFits(net, n, procedure, payload, reply);
      SmallGoes(net, n + 1, left - 1, procedure, payload, reply);
    }
  }

  ghost predicate AllPass(net: Net, from: nat) {
    forall n :: from <= n ==> Passes(net, n, MAX_ATTEMPTS)
  }

  /** Where every turn is served or ends in an ERROR worth another attempt, a call passes
      unless three turns in a row end so. */
  lemma {:induction false} ThreeErrors(net: Net, n: nat)
    requires forall k :: n <= k < n + 3 ==> net.turn(k).fate.Served? || Errs(net, k)
    ensures Passes(net, n, MAX_ATTEMPTS) <==>
      !(Errs(net, n) && Errs(net, n + 1) && Errs(net, n + 2))
  {
    hide Errs;
    ErrsUnserved(net, n);
    ErrsUnserved(net, n + 1);
    ErrsUnserved(net, n + 2);
    assert Passes(net, n + 2, 1) <==> net.turn(n + 2).fate.Served?;
    assert Passes(net, n + 1, 2) <==> net.turn(n + 1).fate.Served? || Passes(net, n + 2, 1);
  }

  lemma {:induction false} ErrsUnserved(net: Net, n: nat)
    ensures Errs(net, n) ==> !net.turn(n).fate.Served?
  {
    hide Enc, ErrorFrame, Retryable;
  }

  // --- payloads -------------------------------------------------------------------------

  lemma {:induction false} OneFieldReads(f: Field, h: nat)
    requires FieldFits(f, h) && h < CborParse.MAX_NESTING_DEPTH
    ensures var v := Map(EntriesOf([f]));
      && Carried(v)
      && Get(Norm(v), f.name) == Some(Norm(f.val))
      && |Enc(v)| <= 9 + FieldWeight(f)
  {
    hide Enc, Get, Norm, FieldFits, Height, Proper;
    RecordReads([f], h);
    assert [f][0] == f;
    OneWeighs(f);
  }

  lemma {:induction false} OneWeighs(f: Field)
    ensures |Enc(Map(EntriesOf([f])))| <= 9 + FieldWeight(f)
  {
    hide Enc;
    MapSize(EntriesOf([f]));
    assert EntriesOf([f])[1..] == [];
  }

  lemma {:induction false} McidReads(mcid: Mcid)
    ensures var v := Map(EntriesOf(McidFields(mcid)));
      Carried(v) && Small(v) && Get(Norm(v), "mcid") == Some(Bytes(mcid))
  {
    hide Enc, Get, FieldFits, FieldWeight, EntriesOf, Carried, Norm;
    var f := Field("mcid", Bytes(mcid));
    ScalarField(f, 1);
    LightField(f);
    OneFieldReads(f, 1);
  }

  lemma {:induction false} BytesSize(b: seq<byte>)
    ensures |Enc(Bytes(b))| <= 9 + |b|
  {
  }

  lemma {:induction false} BlockReads(mcid: Mcid, bytes: seq<byte>)
    requires |bytes| < TWO64
    ensures var v := Map(EntriesOf(BlockFields(mcid, bytes)));
      && Carried(v)
      && Get(Norm(v), "mcid") == Some(Bytes(mcid))
      && Get(Norm(v), "payload") == Some(Bytes(bytes))
      && (|bytes| <= DEFAULT_CHUNK_SIZE ==> Small(v))
  {
    hide Enc, Get, FieldFits, Norm, Height, Proper, EntriesOf;
    var f := BlockFields(mcid, bytes);
    TagsTell(f, [4109, 7112]);
    ScalarField(f[0], 1);
    ScalarField(f[1], 1);
    BlockSize(mcid, bytes);
    RecordReads(f, 1);
    assert Get(Norm(Map(EntriesOf(f))), f[0].name) == Some(Norm(f[0].val));
    assert Get(Norm(Map(EntriesOf(f))), f[1].name) == Some(Norm(f[1].val));
  }

  lemma {:induction false} BlockSize(mcid: Mcid, bytes: seq<byte>)
    ensures |Enc(Map(EntriesOf(BlockFields(mcid, bytes))))| <= 1000 + |bytes|
  {
    hide Enc, FieldWeight;
    var f := BlockFields(mcid, bytes);
    LightField(f[0]);
    BytesSize(bytes);
    PayloadWeight(Bytes(bytes));
    MapSize(EntriesOf(f));
    TwoWeigh(f);
  }

  lemma {:induction false} TwoWeigh(f: seq<Field>)
    requires |f| == 2
    ensures Weigh(EntriesOf(f)) == FieldWeight(f[0]) + FieldWeight(f[1])
  {
    hide Enc;
    var es := EntriesOf(f);
    assert es[1..] == [es[1]];
    assert [es[1]][1..] == [];
    assert Weigh([es[1]]) == FieldWeight(f[1]);
  }

  /** A manifest whose frames are certain to fit. */
  ghost predicate ManifestSmall(m: Manifest) {
    |Enc(ToWire(m))| <= MAX_FRAME_BYTES - 14_000
  }

  lemma {:induction false} ManifestReads(m: Manifest)
    requires WireFits(m)
    ensures var v := Map(EntriesOf(ManifestFields(m)));
      && Carried(v)
      && Get(Norm(v), "manifest") == Some(Norm(ToWire(m)))
      && (ManifestSmall(m) ==> Small(v))
  {
    hide Enc, Get, FieldFits, Norm, Height, Encodable, DistinctKeys, EntriesOf, ToWire;
    var f := Field("manifest", ToWire(m));
    WireReads(m);
    ListFieldFits(f, 4);
    OneFieldReads(f, 4);
    ManifestWeight(m);
  }

  lemma {:induction false} ManifestWeight(m: Manifest)
    ensures FieldWeight(Field("manifest", ToWire(m))) <= 100 + |Enc(ToWire(m))|
  {
    hide Utf8.Encode, ToWire;
    ShortText("manifest");
  }

  lemma {:induction false} ShortReply(s: string)
    requires |s| < 64
    ensures Carried(Text(s)) && Small(Text(s)) && Norm(Text(s)) == Text(s)
  {
    hide Utf8.Encode;
    ShortText(s);
  }

  lemma {:induction false} BlockReply(b: seq<byte>)
    requires |b| < TWO64
    ensures Carried(Bytes(b)) && Norm(Bytes(b)) == Bytes(b) && (|b| <= DEFAULT_CHUNK_SIZE ==> Small(Bytes(b)))
  {
  }

  // --- what puts and gets come to ------------------------------------------------------------

  /** A put changes the store as it should or not at all; it succeeds exactly when it goes
      through, and otherwise the network is to blame. */
  ghost predicate PutComesTo(w: World, stored: Store, goes: bool, after: World, r: Result<(), PutError>) {
    && after.calls > w.calls
    && (after.store == w.store || after.store == stored)
    && (r.Ok? ==> after.store == stored)
    && (r.Err? ==> r.error.Call? || r.error.Remote?)
    && (r.Ok? <==> goes)
  }

  /** A get changes nothing; it gives what it should exactly when it goes through, and
      otherwise the network is to blame. */
  ghost predicate GetComesTo<T(!new)>(w: World, want: Result<T, GetError>, goes: bool, after: World,
                               r: Result<T, GetError>) {
    && after.calls > w.calls
    && after.store == w.store
    && if goes then r == want else r.Err? && (r.error.Call? || r.error.Remote?)
  }

  // --- one block, one manifest ------------------------------------------------------------

  /** An honest station's answer to a well-formed block. */
  lemma {:induction false} ServesPut(hs: Hashes, store: Store, v: Value, bytes: seq<byte>)
    requires Get(v, "mcid") == Some(Bytes(BlockMcid(hs, bytes))) && Get(v, "payload") == Some(Bytes(bytes))
    ensures Serve(Honest(hs), store, PUT_BLOCK_PROC, v) ==
      (store.(blocks := store.blocks[BlockMcid(hs, bytes) := bytes]), Text("ok"))
  {
    hide Get;
    ProceduresDiffer();
  }

  lemma {:induction false} ServesGet(hs: Hashes, store: Store, v: Value, mcid: Mcid)
    requires Get(v, "mcid") == Some(Bytes(mcid))
    ensures Serve(Honest(hs), store, GET_BLOCK_PROC, v) ==
      (store, if mcid in store.blocks then Bytes(store.blocks[mcid]) else Text("not_found"))
  {
    hide Get;
    ProceduresDiffer();
  }

  lemma {:induction false} ServesPutManifest(hs: Hashes, store: Store, v: Value, m: Value, mcid: Mcid)
    requires Get(v, "manifest") == Some(m) && Get(m, "mcid") == Some(Bytes(mcid))
    ensures Serve(Honest(hs), store, PUT_MANIFEST_PROC, v) ==
      (store.(manifests := store.manifests[mcid := m]), Text("ok"))
  {
    hide Get;
    ProceduresDiffer();
  }

  lemma {:induction false} ServesGetManifest(hs: Hashes, store: Store, v: Value, mcid: Mcid)
    requires Get(v, "mcid") == Some(Bytes(mcid))
    ensures Serve(Honest(hs), store, GET_MANIFEST_PROC, v) ==
      (store, if mcid in store.manifests then store.manifests[mcid] else Text("not_found"))
  {
    hide Get;
    ProceduresDiffer();
  }

  /** A block put is stored under its own hash, or the network is to blame. */
  lemma {:induction false} PutBlockCases(net: Net, hs: Hashes, w: World, bytes: seq<byte>)
    requires net.station == Honest(hs) && |bytes| < TWO64
    ensures var mcid := BlockMcid(hs, bytes);
      var ran := PutBlockRun(net, w, mcid, bytes);
      var goes := Goes(net, w.calls, MAX_ATTEMPTS, PUT_BLOCK_PROC, Map(EntriesOf(BlockFields(mcid, bytes))),
        Text("ok"));
      && PutComesTo(w, w.store.(blocks := w.store.blocks[mcid := bytes]), goes, ran.0, ran.1)
      && (|bytes| <= DEFAULT_CHUNK_SIZE ==> (goes <==> Passes(net, w.calls, MAX_ATTEMPTS)))
  {
    hide CallRetry, Serve, Carried, Small, Norm, Get, EntriesOf, Goes, Passes;
    var mcid := BlockMcid(hs, bytes);
    var payload := Map(EntriesOf(BlockFields(mcid, bytes)));
    BlockReads(mcid, bytes);
    ServesPut(hs, w.store, Norm(payload), bytes);
    ProceduresDiffer();
    ShortReply("ok");
    RetryCases(net, hs, w, PUT_BLOCK_PROC, payload, 1);
    if |bytes| <= DEFAULT_CHUNK_SIZE { SmallGoes(net, w.calls, MAX_ATTEMPTS, PUT_BLOCK_PROC, payload, Text("ok")); }
  }

  /** What an honest station replies to a get of a block. */
  function BlockReplied(store: Store, mcid: Mcid): Value {
    if mcid in store.blocks then Bytes(store.blocks[mcid]) else Text("not_found")
  }

  /** A block got is the one stored, `NotFound` if none is, or the network is to blame. */
  lemma {:induction false} GetBlockCases(net: Net, hs: Hashes, w: World, mcid: Mcid)
    requires net.station == Honest(hs) && (mcid in w.store.blocks ==> |w.store.blocks[mcid]| < TWO64)
    ensures var ran := GetBlockRun(net, w, mcid);
      var want := if mcid in w.store.blocks then Ok(w.store.blocks[mcid]) else Err(NotFound);
      var goes := Goes(net, w.calls, MAX_ATTEMPTS, GET_BLOCK_PROC, Map(EntriesOf(McidFields(mcid))),
        BlockReplied(w.store, mcid));
      && GetComesTo(w, want, goes, ran.0, ran.1)
      && (mcid in w.store.blocks ==> |w.store.blocks[mcid]| <= DEFAULT_CHUNK_SIZE ==>
            (goes <==> Passes(net, w.calls, MAX_ATTEMPTS)))
      && (mcid !in w.store.blocks ==> (goes <==> Passes(net, w.calls, MAX_ATTEMPTS)))
  {
    hide CallRetry, Serve, Carried, Small, Norm, Get, EntriesOf, Goes, Passes;
    var payload := Map(EntriesOf(McidFields(mcid)));
    McidReads(mcid);
    ServesGet(hs, w.store, Norm(payload), mcid);
    ProceduresDiffer();
    ShortReply("not_found");
    if mcid in w.store.blocks { BlockReply(w.store.blocks[mcid]); }
    RetryCases(net, hs, w, GET_BLOCK_PROC, payload, 1);
    if mcid in w.store.blocks ==> |w.store.blocks[mcid]| <= DEFAULT_CHUNK_SIZE {
      SmallGoes(net, w.calls, MAX_ATTEMPTS, GET_BLOCK_PROC, payload, BlockReplied(w.store, mcid));
    }
  }

  function ManifestPayload(m: Manifest): Value {
    Map(EntriesOf(ManifestFields(m)))
  }

  lemma {:induction false} PutManifestCases(net: Net, hs: Hashes, w: World, m: Manifest)
    requires net.station == Honest(hs) && WireFits(m)
    ensures var ran := PutManifestRun(net, w, m);
      var goes := Goes(net, w.calls, MAX_ATTEMPTS, PUT_MANIFEST_PROC, ManifestPayload(m), Text("ok"));
      PutComesTo(w, w.store.(manifests := w.store.manifests[m.mcid := Norm(ToWire(m))]), goes, ran.0, ran.1)
  {
    hide CallRetry, Serve, Carried, Small, Norm, Get, EntriesOf, ToWire, Proper, Height, WireFits, Goes;
    WireReads(m);
    assert WireFields(m)[0].name == "mcid";
    ManifestReads(m);
    ServesPutManifest(hs, w.store, Norm(ManifestPayload(m)), Norm(ToWire(m)), m.mcid);
    ProceduresDiffer();
    ShortReply("ok");
    RetryCases(net, hs, w, PUT_MANIFEST_PROC, ManifestPayload(m), 1);
  }

  lemma {:induction false} ManifestReply(m: Manifest)
    requires WireFits(m)
    ensures Carried(Norm(ToWire(m))) && Norm(Norm(ToWire(m))) == Norm(ToWire(m)) && Norm(ToWire(m)).Map?
    ensures Enc(Norm(ToWire(m))) == Enc(ToWire(m))
  {
    hide Norm, ToWire, Enc, Encodable, DistinctKeys, Height, Get;
    WireReads(m);
    NormProper(ToWire(m));
    EncNorm(ToWire(m));
  }

  // --- a manifest that crossed comes back ---------------------------------------------------------

  /** Some CALL frame can carry the manifest. */
  ghost predicate Crosses(net: Net, m: Manifest) {
    exists n :: CallFrameFits(net, n, PUT_MANIFEST_PROC, ManifestPayload(m))
  }

  lemma {:induction false} GoesCrosses(net: Net, n: nat, left: nat, m: Manifest)
    requires Goes(net, n, left, PUT_MANIFEST_PROC, ManifestPayload(m), Text("ok"))
    ensures Crosses(net, m)
  {
    hide CallFrameFits, ReplyFrameFits;
  }

  lemma {:induction false} WrappedSize(m: Manifest)
    ensures |Enc(ManifestPayload(m))| >= 10 + |Enc(ToWire(m))|
  {
    hide Enc, ToWire;
    var f := Field("manifest", ToWire(m));
    MapSize(EntriesOf([f]));
    assert EntriesOf([f])[1..] == [];
    NameSize("manifest");
  }

  /** The RESULT that brings a manifest back fits wherever some CALL that put it did. */
  lemma {:induction false} ReplyFitsToo(net: Net, m: Manifest, k: nat)
    requires WireFits(m) && Crosses(net, m)
    ensures ReplyFrameFits(net, k, Norm(ToWire(m)))
  {
    hide Enc, ToWire, Norm, CallFrame, ReplyFrame, ManifestPayload, Carried, WireFits;
    var n: nat :| CallFrameFits(net, n, PUT_MANIFEST_PROC, ManifestPayload(m));
    ManifestReply(m);
    WrappedSize(m);
    ReplyFrameNoLonger(net, net.turn(n), net.turn(k), ManifestPayload(m), Norm(ToWire(m)));
  }

  lemma {:induction false} ReplyFrameNoLonger(net: Net, t: Turn, back: Turn, payload: Value, reply: Value)
    requires |Enc(reply)| + 10 <= |Enc(payload)|
    ensures |Enc(ReplyFrame(net, back, back.callId, reply))| <= |Enc(CallFrame(net, t, PUT_MANIFEST_PROC, payload))|
  {
    hide Enc, Sign, CallValue, ResultValue, Utf8.Encode;
    ManifestProcedure();
    ReplyNoLonger(net.ed, SpecFor(net, t, PUT_MANIFEST_PROC, payload),
      ResultSpec(back.callId, reply, net.ed.pub(net.stationKey), []),
                  t.frameId, t.sentAtMs, net.clientKey, back.replyFrameId, back.replySentAtMs, net.stationKey);
  }

  lemma {:induction false} ManifestProcedure()
    ensures |Utf8.Encode(PUT_MANIFEST_PROC)| == 21
  {
    hide Utf8.Encode;
    AsciiSize(PUT_MANIFEST_PROC);
  }

  lemma {:induction false} CrossedGoes(net: Net, n: nat, left: nat, m: Manifest, payload: Value)
    requires WireFits(m) && Crosses(net, m) && Small(payload)
    ensures Goes(net, n, left, GET_MANIFEST_PROC, payload, Norm(ToWire(m))) <==> Passes(net, n, left)
    decreases left
  {
    hide CallFrameFits, ReplyFrameFits, Small, Crosses, WireFits, Norm, ToWire, Retryable;
    if left > 0 {
      ProceduresDiffer();
      ShortReply("ok");
      SmallFits(net, n, GET_MANIFEST_PROC, payload, Text("ok"));
      ReplyFitsToo(net, m, n);
      CrossedGoes(net, n + 1, left - 1, m, payload);
    }
  }

  /** A stored manifest comes back as it was put, if it could be put at all. */
  lemma {:induction false} GetManifestCases(net: Net, hs: Hashes, w: World, m: Usable)
    requires net.station == Honest(hs) && WireFits(m)
    requires m.mcid in w.store.manifests && w.store.manifests[m.mcid] == Norm(ToWire(m))
    ensures var ran := GetManifestRun(net, w, m.mcid);
      var goes := Goes(net, w.calls, MAX_ATTEMPTS, GET_MANIFEST_PROC, Map(EntriesOf(McidFields(m.mcid))),
        Norm(ToWire(m)));
      && GetComesTo(w, Ok(m), goes, ran.0, ran.1)
      && (Crosses(net, m) ==> (goes <==> Passes(net, w.calls, MAX_ATTEMPTS)))
  {
    hide CallRetry, Serve, Carried, Small, Norm, Get, EntriesOf, ToWire, FromWire, WireFits, Goes, Passes, Crosses;
    var payload := Map(EntriesOf(McidFields(m.mcid)));
    McidReads(m.mcid);
    ManifestReply(m);
    WireRoundTrip(m);
    ServesGetManifest(hs, w.store, Norm(payload), m.mcid);
    ProceduresDiffer();
    RetryCases(net, hs, w, GET_MANIFEST_PROC, payload, 1);
    if Crosses(net, m) { CrossedGoes(net, w.calls, MAX_ATTEMPTS, m, payload); }
  }

  // --- how long a manifest is ---------------------------------------------------------------------

  lemma {:induction false} InfoSize(c: ChunkInfo)
    requires InfoFits(c)
    ensures |Enc(InfoToWire(c))| <= 200
  {
    hide Enc, FieldWeight;
    var f := InfoFields(c);
    MapSize(EntriesOf(f));
    RecordWeighs(f);
    SumToAll(f);
    assert SumTo(f, 2) == FieldWeight(f[0]) + FieldWeight(f[1]) by { assert SumTo(f, 1) == FieldWeight(f[0]); }
    assert SumTo(f, 4) == SumTo(f, 2) + FieldWeight(f[2]) + FieldWeight(f[3]) by {
      assert SumTo(f, 3) == SumTo(f, 2) + FieldWeight(f[2]);
    }
    InfoNames();
    IntWeight("index", c.index);
    IntWeight("offset", c.offset);
    IntWeight("size", c.size);
    BytesWeight("hash", c.hash);
  }

  lemma {:induction false} InfoNames()
    ensures |Enc(Text("index"))| == 6 && |Enc(Text("offset"))| == 7 && |Enc(Text("size"))| == 5
    ensures |Enc(Text("hash"))| == 5
  {
    hide Enc;
    NameSize("index");
    NameSize("offset");
    NameSize("size");
    NameSize("hash");
  }

  lemma {:induction false} RecordWeighs(fields: seq<Field>)
    ensures Weigh(EntriesOf(fields)) == FieldSum(fields)
  {
    hide Enc;
    if fields != [] {
      RecordWeighs(fields[1..]);
      assert EntriesOf(fields)[1..] == EntriesOf(fields[1..]);
    }
  }

  lemma {:induction false} InfosSize(cs: seq<ChunkInfo>)
    requires forall i :: 0 <= i < |cs| ==> InfoFits(cs[i])
    ensures |EncItems(InfosToWire(cs))| <= 200 * |cs|
  {
    hide Enc, InfoToWire;
    if cs != [] {
      InfoSize(cs[0]);
      InfosSize(cs[1..]);
      assert InfosToWire(cs)[1..] == InfosToWire(cs[1..]);
    }
  }

  lemma {:induction false} InfosFieldWeight(m: Manifest)
    requires WireFits(m)
    ensures FieldWeight(Field("chunks", List(InfosToWire(m.chunks)))) <= 50 + 200 * |m.chunks|
  {
    hide InfosToWire, Utf8.Encode;
    InfosSize(m.chunks);
    ShortText("chunks");
  }

  lemma {:induction false} NameFieldWeight(m: Manifest)
    requires WireFits(m)
    ensures FieldWeight(Field("name", Bytes(Utf8.Encode(m.name)))) <= 50 + |Utf8.Encode(m.name)|
  {
    ShortText("name");
    hide Utf8.Encode;
  }

  /** A manifest's map takes at most 200 bytes a chunk beside its name. */
  lemma {:induction false} ManifestSize(m: Manifest)
    requires WireFits(m)
    ensures |Enc(ToWire(m))| <= 5500 + |Utf8.Encode(m.name)| + 200 * |m.chunks|
  {
    hide Enc, FieldWeight, FieldSum, Utf8.Encode, InfosToWire;
    var f := WireFields(m);
    MapSize(EntriesOf(f));
    RecordWeighs(f);
    SumToAll(f);
    InfosFieldWeight(m);
    NameFieldWeight(m);
    forall i | 0 <= i < 9 && i != 2 ensures FieldWeight(f[i]) <= LIGHT { LightField(f[i]); }
    LightFrom(f, 0, 2);
    assert SumTo(f, 3) == SumTo(f, 2) + FieldWeight(f[2]);
    LightFrom(f, 3, 9);
    assert SumTo(f, 10) == SumTo(f, 9) + FieldWeight(f[9]);
  }

  lemma {:induction false} LightFrom(f: seq<Field>, a: nat, n: nat)
    requires a <= n <= |f| && forall i :: a <= i < n ==> FieldWeight(f[i]) <= LIGHT
    ensures SumTo(f, n) <= SumTo(f, a) + LIGHT * (n - a)
    decreases n
  {
    hide FieldWeight;
    if a < n { LightFrom(f, a, n - 1); }
  }
}
