/** Whole blobs: what `put` leaves on an honest station, and what `get` makes of it
    (src/content.rs). */
module PutThenGet {
  import opened ByteStrings
  import opened Wrappers
  import opened CborValue
  import opened Merkle
  import opened Manifest
  import opened Station
  import opened CborRecords
  import opened Content
  import opened ContentRoundTrip
  import Utf8

  // --- the blocks a put leaves ----------------------------------------------------------

  /** Storing each chunk in turn under its own hash. */
  ghost function Laid(hs: Hashes, blocks: map<Mcid, seq<byte>>, chunks: seq<seq<byte>>): map<Mcid, seq<byte>>
    decreases |chunks|
  {
    if chunks == [] then blocks else Laid(hs, blocks[BlockMcid(hs, chunks[0]) := chunks[0]], chunks[1..])
  }

  ghost predicate AddressesOf(hs: Hashes, mcids: seq<Mcid>, chunks: seq<seq<byte>>) {
    |mcids| == |chunks| && forall i :: 0 <= i < |chunks| ==> mcids[i] == BlockMcid(hs, chunks[i])
  }

  lemma {:induction false} LaidKeeps(hs: Hashes, blocks: map<Mcid, seq<byte>>, chunks: seq<seq<byte>>, k: Mcid)
    requires k in blocks && forall i :: 0 <= i < |chunks| ==> BlockMcid(hs, chunks[i]) != k
    ensures k in Laid(hs, blocks, chunks) && Laid(hs, blocks, chunks)[k] == blocks[k]
    decreases |chunks|
  {
    hide BlockMcid;
    if chunks != [] { LaidKeeps(hs, blocks[BlockMcid(hs, chunks[0]) := chunks[0]], chunks[1..], k); }
  }

  /** Under a chunk's address lies that chunk, or a later one with the same hash. */
  lemma {:induction false} LaidLookup(hs: Hashes, blocks: map<Mcid, seq<byte>>, chunks: seq<seq<byte>>, i: nat)
    returns (j: nat)
    requires i < |chunks|
    ensures i <= j < |chunks| && BlockMcid(hs, chunks[j]) == BlockMcid(hs, chunks[i])
    ensures BlockMcid(hs, chunks[i]) in Laid(hs, blocks, chunks)
    ensures Laid(hs, blocks, chunks)[BlockMcid(hs, chunks[i])] == chunks[j]
    decreases |chunks|
  {
    hide BlockMcid;
    var k, after, rest := BlockMcid(hs, chunks[i]), blocks[BlockMcid(hs, chunks[0]) := chunks[0]], chunks[1..];
    if i > 0 {
      j := LaidLookup(hs, after, rest, i - 1);
      j := j + 1;
    } else if l :| 0 <= l < |rest| && BlockMcid(hs, rest[l]) == k {
      j := LaidLookup(hs, after, rest, l);
      j := j + 1;
    } else {
      LaidKeeps(hs, after, rest, k);
      j := 0;
    }
  }

  /** Putting every block leaves them all, later ones over earlier ones of one hash. */
  lemma {:induction false} PutBlocksCases(net: Net, hs: Hashes, w: World, mcids: seq<Mcid>, chunks: seq<seq<byte>>)
    requires net.station == Honest(hs) && AddressesOf(hs, mcids, chunks)
    requires forall i :: 0 <= i < |chunks| ==> |chunks[i]| <= DEFAULT_CHUNK_SIZE
    ensures var ran := PutBlocksRun(net, w, mcids, chunks);
      && ran.0.calls >= w.calls
      && (ran.1.Ok? ==> ran.0.store == w.store.(blocks := Laid(hs, w.store.blocks, chunks)))
      && (ran.1.Err? ==> ran.1.error.Call? || ran.1.error.Remote?)
      && (AllPass(net, w.calls) ==> ran.1.Ok?)
    decreases |chunks|
  {
    hide PutBlockRun, BlockMcid, Goes, Passes;
    if chunks != [] {
      PutBlockCases(net, hs, w, chunks[0]);
      var (after, r) := PutBlockRun(net, w, mcids[0], chunks[0]);
      if r.Ok? { PutBlocksCases(net, hs, after, mcids[1..], chunks[1..]); }
    }
  }

  // --- the blocks a get reads -------------------------------------------------------------

  /** What a station holds under these addresses. */
  ghost function Held(blocks: map<Mcid, seq<byte>>, mcids: seq<Mcid>): (r: seq<seq<byte>>)
    requires forall i :: 0 <= i < |mcids| ==> mcids[i] in blocks
    ensures |r| == |mcids| && forall i :: 0 <= i < |r| ==> r[i] == blocks[mcids[i]]
  {
    seq(|mcids|, i requires 0 <= i < |mcids| => blocks[mcids[i]])
  }

  ghost predicate HoldsAll(hs: Hashes, blocks: map<Mcid, seq<byte>>, mcids: seq<Mcid>) {
    forall i :: 0 <= i < |mcids| ==>
      mcids[i] in blocks && BlockMcid(hs, blocks[mcids[i]]) == mcids[i] && |blocks[mcids[i]]| <= DEFAULT_CHUNK_SIZE
  }

  /** The blocks held, in order, appended to what was read before. */
  lemma {:induction false} GetBlocksCases(net: Net, hs: Hashes, w: World, mcids: seq<Mcid>, data: seq<byte>)
    requires net.station == Honest(hs) && HoldsAll(hs, w.store.blocks, mcids)
    ensures var ran := GetBlocksRun(net, hs, w, mcids, data);
      var want := Ok(data + Concat(Held(w.store.blocks, mcids)));
      && ran.0.calls >= w.calls
      && ran.0.store == w.store
      && (ran.1 == want || (ran.1.Err? && (ran.1.error.Call? || ran.1.error.Remote?)))
      && (AllPass(net, w.calls) ==> ran.1 == want)
    decreases |mcids|
  {
    hide GetBlockRun, BlockMcid, Goes, Passes;
    var held := Held(w.store.blocks, mcids);
    if mcids == [] {
      assert data + [] == data;
    } else {
      GetBlockCases(net, hs, w, mcids[0]);
      var (after, r) := GetBlockRun(net, w, mcids[0]);
      assert held[1..] == Held(w.store.blocks, mcids[1..]);
      if r.Ok? {
        GetBlocksCases(net, hs, after, mcids[1..], data + r.value);
        assert data + Concat(held) == (data + r.value) + Concat(held[1..]);
      }
    }
  }

  // --- what comes back ------------------------------------------------------------------------

  /** No two different chunks of the data have one hash. */
  ghost predicate NoChunksCollide(hs: Hashes, data: seq<byte>) {
    var chunks := DoChunk(data, DEFAULT_CHUNK_SIZE);
    forall i, j :: 0 <= i < |chunks| && 0 <= j < |chunks| && hs.blake3(chunks[i]) == hs.blake3(chunks[j]) ==>
      chunks[i] == chunks[j]
  }

  /** Pieces no longer than the originals, joining to the same bytes, are the originals. */
  lemma {:induction false} ConcatTight(pieces: seq<seq<byte>>, originals: seq<seq<byte>>)
    requires |pieces| == |originals| && forall i :: 0 <= i < |pieces| ==> |pieces[i]| <= |originals[i]|
    ensures |Concat(pieces)| <= |Concat(originals)|
    ensures Concat(pieces) == Concat(originals) ==> pieces == originals
  {
    if pieces != [] {
      ConcatTight(pieces[1..], originals[1..]);
      var p, o := Concat(pieces), Concat(originals);
      if p == o {
        assert |pieces[0]| == |originals[0]|;
        assert p[..|pieces[0]|] == pieces[0] && o[..|pieces[0]|] == originals[0];
        assert p[|pieces[0]|..] == Concat(pieces[1..]) && o[|pieces[0]|..] == Concat(originals[1..]);
        assert pieces == [pieces[0]] + pieces[1..] && originals == [originals[0]] + originals[1..];
      }
    }
  }

  ghost function ManifestFor(hs: Hashes, data: seq<byte>, name: string, created: u64): (m: Usable)
  {
    hide DoChunk, Root, SummaryBytes;
    ManifestOf(hs, data, Options(name), created)
  }

  lemma {:induction false} ChunkAddresses(hs: Hashes, data: seq<byte>, name: string, created: u64)
    ensures AddressesOf(hs, ChunkMcids(ManifestFor(hs, data, name, created)), DoChunk(data, DEFAULT_CHUNK_SIZE))
    ensures forall i :: 0 <= i < |DoChunk(data, DEFAULT_CHUNK_SIZE)| ==>
      |DoChunk(data, DEFAULT_CHUNK_SIZE)[i]| <= DEFAULT_CHUNK_SIZE
  {
    hide DoChunk, Root, SummaryBytes, Concat;
    ChunksMeaning(data, DEFAULT_CHUNK_SIZE);
  }

  /** The block under a chunk's address is one of the chunks, with its hash, no longer. */
  lemma {:induction false} LaidPiece(hs: Hashes, blocks: map<Mcid, seq<byte>>, data: seq<byte>, i: nat) returns (j: nat)
    requires i < |DoChunk(data, DEFAULT_CHUNK_SIZE)|
    ensures var chunks := DoChunk(data, DEFAULT_CHUNK_SIZE);
      var laid, k := Laid(hs, blocks, chunks), BlockMcid(hs, chunks[i]);
      && j < |chunks|
      && k in laid
      && laid[k] == chunks[j]
      && BlockMcid(hs, chunks[j]) == k
      && |chunks[j]| <= |chunks[i]| <= DEFAULT_CHUNK_SIZE
  {
    hide DoChunk, Concat, Laid, BlockMcid, CeilDiv;
    ChunksMeaning(data, DEFAULT_CHUNK_SIZE);
    j := LaidLookup(hs, blocks, DoChunk(data, DEFAULT_CHUNK_SIZE), i);
  }

  /** The blocks left by putting all chunks of the data, read back in order: the data, if
      and only if no two different chunks collide. */
  lemma {:induction false} LaidReadsBack(hs: Hashes, blocks: map<Mcid, seq<byte>>, data: seq<byte>, mcids: seq<Mcid>)
    requires AddressesOf(hs, mcids, DoChunk(data, DEFAULT_CHUNK_SIZE))
    ensures var laid := Laid(hs, blocks, DoChunk(data, DEFAULT_CHUNK_SIZE));
      HoldsAll(hs, laid, mcids) && (Concat(Held(laid, mcids)) == data <==> NoChunksCollide(hs, data))
  {
    hide DoChunk, Concat, Laid, BlockMcid, NoChunksCollide;
    var chunks := DoChunk(data, DEFAULT_CHUNK_SIZE);
    var laid := Laid(hs, blocks, chunks);
    forall i | 0 <= i < |chunks|
      ensures mcids[i] in laid && BlockMcid(hs, laid[mcids[i]]) == mcids[i]
      ensures |laid[mcids[i]]| <= |chunks[i]| <= DEFAULT_CHUNK_SIZE
    {
      var j := LaidPiece(hs, blocks, data, i);
    }
    var held := Held(laid, mcids);
    ChunksJoin(data);
    ConcatTight(held, chunks);
    if held == chunks {
      AllOwn(hs, data, mcids, held);
    } else {
      var i :| 0 <= i < |chunks| && held[i] != chunks[i];
      var j := LaidPiece(hs, blocks, data, i);
      TwoCollide(hs, data, i, j);
    }
  }

  lemma {:induction false} ChunksJoin(data: seq<byte>)
    ensures Concat(DoChunk(data, DEFAULT_CHUNK_SIZE)) == data
  {
    hide DoChunk, Concat, CeilDiv;
    ChunksMeaning(data, DEFAULT_CHUNK_SIZE);
  }

  lemma {:induction false} TwoCollide(hs: Hashes, data: seq<byte>, i: nat, j: nat)
    requires i < |DoChunk(data, DEFAULT_CHUNK_SIZE)| && j < |DoChunk(data, DEFAULT_CHUNK_SIZE)|
    requires BlockMcid(hs, DoChunk(data, DEFAULT_CHUNK_SIZE)[i]) == BlockMcid(hs, DoChunk(data, DEFAULT_CHUNK_SIZE)[j])
    requires DoChunk(data, DEFAULT_CHUNK_SIZE)[i] != DoChunk(data, DEFAULT_CHUNK_SIZE)[j]
    ensures !NoChunksCollide(hs, data)
  {
    hide DoChunk, BlockMcid;
    SameAddressSameHash(hs, DoChunk(data, DEFAULT_CHUNK_SIZE)[i], DoChunk(data, DEFAULT_CHUNK_SIZE)[j]);
  }

  /** If every address holds its own chunk, chunks with one address are one chunk. */
  lemma {:induction false} AllOwn(hs: Hashes, data: seq<byte>, mcids: seq<Mcid>, held: seq<seq<byte>>)
    requires AddressesOf(hs, mcids, DoChunk(data, DEFAULT_CHUNK_SIZE)) && held == DoChunk(data, DEFAULT_CHUNK_SIZE)
    requires forall i, j :: 0 <= i < |held| && 0 <= j < |held| && mcids[i] == mcids[j] ==> held[i] == held[j]
    ensures NoChunksCollide(hs, data)
  {
    hide DoChunk, BlockMcid;
    forall i, j | 0 <= i < |held| && 0 <= j < |held| && hs.blake3(held[i]) == hs.blake3(held[j])
      ensures held[i] == held[j] {
      SameAddressSameHash(hs, held[i], held[j]);
    }
  }

  lemma {:induction false} SameAddressSameHash(hs: Hashes, a: seq<byte>, b: seq<byte>)
    ensures BlockMcid(hs, a) == BlockMcid(hs, b) <==> hs.blake3(a) == hs.blake3(b)
  {
    assert BlockMcid(hs, a)[2..] == hs.blake3(a) && BlockMcid(hs, b)[2..] == hs.blake3(b);
  }

  // --- the whole round trip --------------------------------------------------------------------

  /** What a successful put leaves on the station. */
  ghost predicate Published(hs: Hashes, before: Store, after: Store, data: seq<byte>, name: string, created: u64) {
    if |data| <= DEFAULT_CHUNK_SIZE then after == before.(blocks := before.blocks[BlockMcid(hs, data) := data])
    else
      var m := ManifestFor(hs, data, name, created);
      after == before.(blocks := Laid(hs, before.blocks, DoChunk(data, DEFAULT_CHUNK_SIZE)),
                       manifests := before.manifests[m.mcid := Norm(ToWire(m))])
  }

  function AddressFor(hs: Hashes, data: seq<byte>, name: string, created: u64): Mcid {
    if |data| <= DEFAULT_CHUNK_SIZE then BlockMcid(hs, data)
    else ManifestOf(hs, data, Options(name), created).mcid
  }

  /** The manifest's call goes through when its turn comes, after the blocks. */
  ghost predicate ManifestGoes(net: Net, hs: Hashes, w: World, data: seq<byte>, name: string, created: u64) {
    hide PutBlocksRun, Goes;
    var m := ManifestFor(hs, data, name, created);
    ChunkAddresses(hs, data, name, created);
    var stored := PutBlocksRun(net, w, ChunkMcids(m), DoChunk(data, DEFAULT_CHUNK_SIZE)).0;
    Goes(net, stored.calls, MAX_ATTEMPTS, PUT_MANIFEST_PROC, ManifestPayload(m), Text("ok"))
  }

  /** Chunked data whose manifest some CALL frame can carry, or a single block. */
  ghost predicate Carriable(net: Net, hs: Hashes, data: seq<byte>, name: string, created: u64) {
    |data| <= DEFAULT_CHUNK_SIZE || Crosses(net, ManifestFor(hs, data, name, created))
  }

  lemma {:induction false} ManifestForFits(hs: Hashes, data: seq<byte>, name: string, created: u64)
    requires |data| < TWO64 && |Utf8.Encode(name)| < TWO64
    ensures WireFits(ManifestFor(hs, data, name, created))
  {
    hide DoChunk, Root, SummaryBytes, Concat, Utf8.Encode, CeilDiv;
    var m := ManifestFor(hs, data, name, created);
    ChunksMeaning(data, DEFAULT_CHUNK_SIZE);
    CeilDivMeaning(|data|, DEFAULT_CHUNK_SIZE);
    forall i | 0 <= i < |m.chunks| ensures InfoFits(m.chunks[i]) {
      CreatedChunks(hs, data, Options(name), created, i);
    }
  }

  /** A put publishes the data under its address, or the network is to blame; where every
      call passes it succeeds exactly when its manifest's call goes through. No put is
      refused for its hash. */
  lemma {:induction false} PutCases(net: Net, hs: Hashes, w: World, data: seq<byte>, name: string, created: u64)
    requires net.station == Honest(hs) && |data| < TWO64 && |Utf8.Encode(name)| < TWO64
    ensures var ran := PutRun(net, hs, w, data, name, created);
      && ran.0.calls >= w.calls
      && (ran.1.Ok? ==>
            && ran.1.value == AddressFor(hs, data, name, created)
            && Published(hs, w.store, ran.0.store, data, name, created)
            && Carriable(net, hs, data, name, created))
      && (ran.1.Err? ==> ran.1.error.Call? || ran.1.error.Remote?)
      && (AllPass(net, w.calls) ==>
        (ran.1.Ok? <==> |data| <= DEFAULT_CHUNK_SIZE || ManifestGoes(net, hs, w, data, name, created)))
  {
    hide PutBlockRun, PutManifestRun, PutBlocksRun, ManifestOf, DoChunk, Laid, BlockMcid, WireFits, Utf8.Encode, Norm,
      ToWire, Goes, Passes, Crosses, ManifestPayload, EntriesOf;
    if |data| <= DEFAULT_CHUNK_SIZE {
      PutBlockCases(net, hs, w, data);
    } else {
      var m, chunks := ManifestFor(hs, data, name, created), DoChunk(data, DEFAULT_CHUNK_SIZE);
      ChunkAddresses(hs, data, name, created);
      PutBlocksCases(net, hs, w, ChunkMcids(m), chunks);
      var (stored, r) := PutBlocksRun(net, w, ChunkMcids(m), chunks);
      if r.Ok? {
        ManifestForFits(hs, data, name, created);
        PutManifestCases(net, hs, stored, m);
        if PutManifestRun(net, stored, m).1.Ok? { GoesCrosses(net, stored.calls, MAX_ATTEMPTS, m); }
      }
    }
  }

  lemma {:induction false} AddressKinds(hs: Hashes, data: seq<byte>, name: string, created: u64)
    ensures McidIsChunked(AddressFor(hs, data, name, created)) <==> |data| > DEFAULT_CHUNK_SIZE
  {
    hide DoChunk, Root, SummaryBytes;
  }

  /** The network, or an ERROR it carried, ended the get. */
  predicate CutShort(r: Result<seq<byte>, GetError>) {
    r.Err? && (r.error.Call? || r.error.Remote?)
  }

  /** From what a put left, a get reads the data back if and only if no two different
      chunks of it collide, unless the network cuts it short; where every call passes it
      does not. */
  lemma {:induction false} GetCases(net: Net, hs: Hashes, w: World, before: Store, data: seq<byte>, name: string,
                                    created: u64)
    requires net.station == Honest(hs) && |data| < TWO64 && |Utf8.Encode(name)| < TWO64
    requires Published(hs, before, w.store, data, name, created)
    ensures var ran := GetRun(net, hs, w, AddressFor(hs, data, name, created));
      && ran.0.store == w.store
      && (CutShort(ran.1) || (ran.1 == Ok(data) <==> Intact(hs, data)))
      && (AllPass(net, w.calls) && Carriable(net, hs, data, name, created) ==> !CutShort(ran.1))
  {
    hide GetBlockRun, GetManifestRun, GetBlocksRun, ManifestOf, DoChunk, Laid, BlockMcid, WireFits, Utf8.Encode, Norm,
      ToWire, Concat, Goes, Passes, Crosses, EntriesOf, Verdict, McidIsChunked, NoChunksCollide;
    AddressKinds(hs, data, name, created);
    var mcid := AddressFor(hs, data, name, created);
    if |data| <= DEFAULT_CHUNK_SIZE {
      GetBlockCases(net, hs, w, mcid);
    } else {
      var m := ManifestFor(hs, data, name, created);
      ManifestForFits(hs, data, name, created);
      GetManifestCases(net, hs, w, m);
      var (known, r) := GetManifestRun(net, w, mcid);
      if r.Ok? {
        ChunkAddresses(hs, data, name, created);
        LaidReadsBack(hs, before.blocks, data, ChunkMcids(m));
        GetBlocksCases(net, hs, known, ChunkMcids(m), []);
        CreatedVerifies(hs, data, Options(name), created);
        var held := Concat(Held(w.store.blocks, ChunkMcids(m)));
        assert [] + held == held;
      }
    }
  }

  /** A single block always reads back; chunked data does if no two chunks collide. */
  ghost predicate Intact(hs: Hashes, data: seq<byte>) {
    |data| <= DEFAULT_CHUNK_SIZE || NoChunksCollide(hs, data)
  }

  /** Put, then get: whatever the network did to either, a get that is not cut short by it
      gives the data put, if and only if no two different chunks of it have one hash. Where
      every call passes, the put succeeds exactly when its manifest's call goes through, and
      the get after it is never cut short. */
  lemma {:induction false} PutThenGet(net: Net, hs: Hashes, w: World, data: seq<byte>, name: string, created: u64)
    requires net.station == Honest(hs) && |data| < TWO64 && |Utf8.Encode(name)| < TWO64
    ensures var put := PutRun(net, hs, w, data, name, created);
      && (AllPass(net, w.calls) ==>
        (put.1.Ok? <==> |data| <= DEFAULT_CHUNK_SIZE || ManifestGoes(net, hs, w, data, name, created)))
      && (put.1.Ok? ==>
            var got := GetRun(net, hs, put.0, put.1.value);
            && (CutShort(got.1) || (got.1 == Ok(data) <==> Intact(hs, data)))
            && (AllPass(net, w.calls) ==> !CutShort(got.1)))
  {
    hide PutRun, GetRun, Published, ManifestGoes, Carriable, Intact, AddressFor, Passes;
    PutCases(net, hs, w, data, name, created);
    var put := PutRun(net, hs, w, data, name, created);
    if put.1.Ok? { GetCases(net, hs, put.0, w.store, data, name, created); }
  }

  /** A manifest of at most 80000 chunks, some 20 GB of data, always goes through where
      every call passes. */
  lemma {:induction false} LongDataGoes(net: Net, hs: Hashes, w: World, data: seq<byte>, name: string, created: u64)
    requires |data| <= 80_000 * DEFAULT_CHUNK_SIZE && |Utf8.Encode(name)| <= 500_000 && AllPass(net, w.calls)
    requires net.station == Honest(hs)
    ensures ManifestGoes(net, hs, w, data, name, created)
  {
    hide PutBlocksRun, ManifestOf, DoChunk, BlockMcid, WireFits, Utf8.Encode, Norm, ToWire, Goes, Passes, Small,
      EntriesOf, Laid, CeilDiv, Enc;
    var m, chunks := ManifestFor(hs, data, name, created), DoChunk(data, DEFAULT_CHUNK_SIZE);
    ManifestForFits(hs, data, name, created);
    ChunkCount(hs, data, name, created);
    ManifestSize(m);
    ManifestReads(m);
    ShortReply("ok");
    ProceduresDiffer();
    ChunkAddresses(hs, data, name, created);
    PutBlocksCases(net, hs, w, ChunkMcids(m), chunks);
    var stored := PutBlocksRun(net, w, ChunkMcids(m), chunks).0;
    SmallGoes(net, stored.calls, MAX_ATTEMPTS, PUT_MANIFEST_PROC, ManifestPayload(m), Text("ok"));
  }

  lemma {:induction false} ChunkCount(hs: Hashes, data: seq<byte>, name: string, created: u64)
    requires |data| <= 80_000 * DEFAULT_CHUNK_SIZE
    ensures |ManifestFor(hs, data, name, created).chunks| <= 80_000 && ManifestFor(hs, data, name, created).name == name
  {
    hide DoChunk, Root, SummaryBytes, Concat, CeilDiv;
    ChunksMeaning(data, DEFAULT_CHUNK_SIZE);
    CeilDivMeaning(|data|, DEFAULT_CHUNK_SIZE);
  }

  // --- whoever answers ------------------------------------------------------------------------

  /** Two gets of one block address, from any two stations over any networks, give the
      same bytes or a collision. */
  lemma {:induction false} BlockGetsAgree(netA: Net, wA: World, netB: Net, wB: World, hs: Hashes, mcid: Mcid)
    requires !McidIsChunked(mcid)
    requires GetRun(netA, hs, wA, mcid).1.Ok? && GetRun(netB, hs, wB, mcid).1.Ok?
    ensures var a, b := GetRun(netA, hs, wA, mcid).1.value, GetRun(netB, hs, wB, mcid).1.value;
      a == b || Collide(hs.blake3, {a}, {b})
  {
    hide GetBlockRun, BlockMcid, McidIsChunked;
    var a, b := GetRun(netA, hs, wA, mcid).1.value, GetRun(netB, hs, wB, mcid).1.value;
    assert BlockMcid(hs, a) == mcid && BlockMcid(hs, b) == mcid;
    SameAddressSameHash(hs, a, b);
  }

  /** Every block a get joins hashes to the address it was asked for under, whatever the
      station served. */
  lemma {:induction false} BlocksReadMatch(net: Net, hs: Hashes, w: World, mcids: seq<Mcid>, data: seq<byte>)
    returns (pieces: seq<seq<byte>>)
    requires GetBlocksRun(net, hs, w, mcids, data).1.Ok?
    ensures AddressesOf(hs, mcids, pieces)
    ensures GetBlocksRun(net, hs, w, mcids, data).1.value == data + Concat(pieces)
    decreases |mcids|
  {
    hide GetBlockRun, BlockMcid;
    if mcids == [] {
      pieces := [];
      assert data + [] == data;
    } else {
      var (after, r) := GetBlockRun(net, w, mcids[0]);
      var rest := BlocksReadMatch(net, hs, after, mcids[1..], data + r.value);
      pieces := [r.value] + rest;
      assert pieces[1..] == rest;
      assert (data + r.value) + Concat(rest) == data + Concat(pieces);
    }
  }

  /** Two gets that were served one manifest, whatever blocks each was served, give the
      same bytes or a collision among the strings hashed to verify them. */
  lemma {:induction false} ManifestGetsAgree(netA: Net, wA: World, netB: Net, wB: World, hs: Hashes, mcid: Mcid)
    requires McidIsChunked(mcid)
    requires GetRun(netA, hs, wA, mcid).1.Ok? && GetRun(netB, hs, wB, mcid).1.Ok?
    requires GetManifestRun(netA, wA, mcid).1 == GetManifestRun(netB, wB, mcid).1
    requires |GetRun(netA, hs, wA, mcid).1.value| < TWO64 && |GetRun(netB, hs, wB, mcid).1.value| < TWO64
    ensures var m := GetManifestRun(netA, wA, mcid).1.value;
      var a, b := GetRun(netA, hs, wA, mcid).1.value, GetRun(netB, hs, wB, mcid).1.value;
      a == b || Collide(hs.Of(m.algorithm), HashedFor(hs.Of(m.algorithm), a, m.chunkSize),
        HashedFor(hs.Of(m.algorithm), b, m.chunkSize))
  {
    hide GetManifestRun, GetBlocksRun, Verdict, HashedFor, McidIsChunked, Collide;
    var m := GetManifestRun(netA, wA, mcid).1.value;
    VerifyBinds(hs, m, GetRun(netA, hs, wA, mcid).1.value, GetRun(netB, hs, wB, mcid).1.value);
  }
}
