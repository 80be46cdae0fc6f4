/** Manifests: built from chunked data, addressed by content, checked against data, and
    sent as a CBOR map (src/manifest.rs). */
module Manifest {
  import opened ByteStrings
  import opened Wrappers
  import opened CborValue
  import opened CborRoundTrip
  import opened CborFields
  import opened CborRecords
  import opened Merkle
  import Utf8

  type Mcid = b: seq<byte> | |b| == 34 ghost witness ToBE(0, 34)
  type u32 = n: int | 0 <= n < 0x1_0000_0000

  const DEFAULT_CHUNK_SIZE: nat := 262_144

  const VERSION: byte := 1
  const CODEC_RAW: byte := 0x55
  const CODEC_MANIFEST: byte := 0x56

  datatype Algorithm = Blake3 | Sha256

  function Name(a: Algorithm): string {
    match a
    case Blake3 => "blake3"
    case Sha256 => "sha256"
  }

  /** Anything unrecognised is BLAKE3. */
  function FromName(name: string): Algorithm {
    if name == "sha256" then Sha256 else Blake3
  }

  /** The two hash functions, of which only the digest length is known. */
  datatype Hashes = Hashes(blake3: Hash, sha256: Hash) {
    function Of(a: Algorithm): Hash {
      match a
      case Blake3 => blake3
      case Sha256 => sha256
    }
  }

  datatype ChunkInfo = ChunkInfo(index: nat, offset: nat, size: nat, hash: Digest)

  datatype Manifest = Manifest(
    mcid: Mcid, version: u32, name: string, size: u64, created: u64, chunkSize: nat, chunkCount: nat,
    algorithm: Algorithm, rootHash: Digest, chunks: seq<ChunkInfo>)

  /** A manifest that can be chunked by and iterated. */
  type Usable = m: Manifest | m.chunkSize > 0 && m.chunkCount == |m.chunks|
    ghost witness Manifest(ToBE(0, 34), 1, "", 0, 0, 1, 0, Blake3, ToBE(0, 32), [])

  datatype CreateOptions = CreateOptions(name: string, chunkSize: nat, algorithm: Algorithm)

  // --- content addresses ---------------------------------------------------------------

  function MakeMcid(codec: byte, hash: Digest): Mcid {
    [VERSION, codec] + hash
  }

  function BlockMcid(hs: Hashes, data: seq<byte>): Mcid {
    MakeMcid(CODEC_RAW, hs.blake3(data))
  }

  function ChunkMcid(m: Manifest, index: nat): Option<Mcid> {
    if index < |m.chunks| then Some(MakeMcid(CODEC_RAW, m.chunks[index].hash)) else None
  }

  predicate McidIsChunked(mcid: Mcid) {
    mcid[1] == CODEC_MANIFEST
  }

  /** What a manifest's own address is computed over. */
  datatype Summary = Summary(name: string, size: u64, chunkSize: nat, chunkCount: nat, algorithm: Algorithm,
    rootHash: Digest)

  function SummaryFields(s: Summary): seq<Field> {
    [
      Field("name", Text(s.name)),
      Field("size", Int(s.size)),
      Field("chunk_size", Int(s.chunkSize)),
      Field("chunk_count", Int(s.chunkCount)),
      Field("hash_algorithm", Text(Name(s.algorithm))),
      Field("root_hash", Bytes(s.rootHash))
    ]
  }

  function SummaryBytes(s: Summary): seq<byte> {
    Enc(Map(EntriesOf(SummaryFields(s))))
  }

  function ComputeMcid(hs: Hashes, s: Summary): Mcid {
    MakeMcid(CODEC_MANIFEST, hs.Of(s.algorithm)(SummaryBytes(s)))
  }

  // --- building ---------------------------------------------------------------------------

  /** The chunk list: each chunk's place, where it starts, how long it is, its hash. */
  function InfosOf(h: Hash, chunks: seq<seq<byte>>): (r: seq<ChunkInfo>)
    ensures |r| == |chunks|
    ensures forall i :: 0 <= i < |r| ==> r[i] == ChunkInfo(i, |Concat(chunks[..i])|, |chunks[i]|, h(chunks[i]))
  {
    seq(|chunks|, i requires 0 <= i < |chunks| => ChunkInfo(i, |Concat(chunks[..i])|, |chunks[i]|, h(chunks[i])))
  }

  method ChunkInfos(h: Hash, chunks: seq<seq<byte>>) returns (infos: seq<ChunkInfo>)
    ensures infos == InfosOf(h, chunks)
  {
    hide Concat;
    var offset := 0;
    infos := [];
    assert chunks[..0] == [];
    assert offset == |Concat(chunks[..0])| by { ConcatNothing(); }
    for index := 0 to |chunks|
      invariant offset == |Concat(chunks[..index])|
      invariant infos == InfosOf(h, chunks)[..index]
    {
      var chunk := chunks[index];
      infos := infos + [ChunkInfo(index, offset, |chunk|, h(chunk))];
      offset := offset + |chunk|;
      ConcatSnoc(chunks[..index], chunk);
      assert chunks[..index + 1] == chunks[..index] + [chunk];
    }
  }

  lemma {:induction false} ConcatNothing()
    ensures Concat([]) == []
  {
  }

  function HashesIn(infos: seq<ChunkInfo>): (r: seq<Digest>)
    ensures |r| == |infos| && forall i :: 0 <= i < |r| ==> r[i] == infos[i].hash
  {
    seq(|infos|, i requires 0 <= i < |infos| => infos[i].hash)
  }

  /** The fold loop computes the tree's root. */
  method RootHashFor(h: Hash, infos: seq<ChunkInfo>) returns (root: Digest)
    ensures root == Root(h, HashesIn(infos))
  {
    hide Tree, Combine;
    if |infos| == 0 { return h([]); }
    var hashes := HashesIn(infos);
    while |hashes| > 1
      invariant |hashes| >= 1
      invariant Root(h, hashes) == Root(h, HashesIn(infos))
      decreases |hashes|
    {
      hide Root;
      RootCombine(h, hashes);
      hashes := Combine(h, hashes);
    }
    RootOfOne(h, hashes);
    return hashes[0];
  }

  lemma {:induction false} RootOfOne(h: Hash, hashes: seq<Digest>)
    requires |hashes| == 1
    ensures Root(h, hashes) == hashes[0]
  {
  }

  function SummaryOf(hs: Hashes, data: seq<byte>, opts: CreateOptions): Summary
    requires opts.chunkSize > 0
  {
    Summary(opts.name, Wrap(|data|), opts.chunkSize, |DoChunk(data, opts.chunkSize)|, opts.algorithm,
            DataRoot(hs.Of(opts.algorithm), data, opts.chunkSize))
  }

  /** The manifest of `data`. */
  function ManifestOf(hs: Hashes, data: seq<byte>, opts: CreateOptions, created: u64): Manifest
    requires opts.chunkSize > 0
  {
    var s := SummaryOf(hs, data, opts);
    Manifest(ComputeMcid(hs, s), 1, s.name, s.size, created, s.chunkSize, s.chunkCount, s.algorithm, s.rootHash,
             InfosOf(hs.Of(s.algorithm), DoChunk(data, s.chunkSize)))
  }

  lemma {:induction false} InfoHashes(h: Hash, chunks: seq<seq<byte>>)
    ensures HashesIn(InfosOf(h, chunks)) == HashAll(h, chunks)
  {
    hide Concat;
  }

  method CreateWithCreated(hs: Hashes, data: seq<byte>, opts: CreateOptions, created: u64)
    returns (m: Manifest, chunks: seq<seq<byte>>)
    requires opts.chunkSize > 0
    ensures chunks == DoChunk(data, opts.chunkSize)
    ensures m == ManifestOf(hs, data, opts, created)
  {
    hide DoChunk, Root, SummaryBytes, Concat, InfosOf, HashAll, HashesIn;
    chunks := DoChunk(data, opts.chunkSize);
    var infos := ChunkInfos(hs.Of(opts.algorithm), chunks);
    var root := RootHashFor(hs.Of(opts.algorithm), infos);
    InfoHashes(hs.Of(opts.algorithm), chunks);
    var mcid := ComputeMcid(hs, Summary(opts.name, Wrap(|data|), opts.chunkSize, |infos|, opts.algorithm, root));
    m := Manifest(mcid, 1, opts.name, Wrap(|data|), created, opts.chunkSize, |infos|, opts.algorithm, root, infos);
  }

  // --- verifying --------------------------------------------------------------------------

  datatype VerifyError = SizeMismatch | RootHashMismatch

  function Verdict(hs: Hashes, m: Manifest, data: seq<byte>): Result<(), VerifyError>
    requires m.chunkSize > 0
  {
    if Wrap(|data|) != m.size then Err(SizeMismatch)
    else if DataRoot(hs.Of(m.algorithm), data, m.chunkSize) != m.rootHash then Err(RootHashMismatch)
    else Ok(())
  }

  method Verify(hs: Hashes, m: Manifest, data: seq<byte>) returns (r: Result<(), VerifyError>)
    requires m.chunkSize > 0
    ensures r == Verdict(hs, m, data)
  {
    hide DoChunk, Root, Concat, InfosOf, HashAll, HashesIn;
    if Wrap(|data|) != m.size { return Err(SizeMismatch); }
    var chunks := DoChunk(data, m.chunkSize);
    var infos := ChunkInfos(hs.Of(m.algorithm), chunks);
    var root := RootHashFor(hs.Of(m.algorithm), infos);
    InfoHashes(hs.Of(m.algorithm), chunks);
    if root == m.rootHash { return Ok(()); }
    return Err(RootHashMismatch);
  }

  /** A manifest accepts the data it was made from. */
  lemma {:induction false} CreatedVerifies(hs: Hashes, data: seq<byte>, opts: CreateOptions, created: u64)
    requires opts.chunkSize > 0
    ensures Verdict(hs, ManifestOf(hs, data, opts, created), data) == Ok(())
  {
    hide DoChunk, Root, SummaryBytes;
  }

  /** What the chunk list of a created manifest says about the data. */
  lemma {:induction false} CreatedChunks(hs: Hashes, data: seq<byte>, opts: CreateOptions, created: u64, i: nat)
    requires opts.chunkSize > 0 && i < |ManifestOf(hs, data, opts, created).chunks|
    ensures var m := ManifestOf(hs, data, opts, created);
      var c := m.chunks[i];
      && m.chunkCount == |m.chunks| == CeilDiv(|data|, opts.chunkSize)
      && c.index == i
      && c.offset == i * opts.chunkSize
      && c.offset + c.size <= |data|
      && c.hash == hs.Of(opts.algorithm)(data[c.offset..c.offset + c.size])
      && (i + 1 < |m.chunks| ==> c.size == opts.chunkSize && m.chunks[i + 1].offset == c.offset + c.size)
      && (i + 1 == |m.chunks| ==> c.offset + c.size == |data|)
  {
    hide SummaryBytes, Root, DoChunk, Concat, CeilDiv;
    var size, chunks := opts.chunkSize, DoChunk(data, opts.chunkSize);
    ChunksMeaning(data, size);
    ChunkPlace(data, size, i, i * size);
    if i + 1 < |chunks| { ChunkPlace(data, size, i + 1, (i + 1) * size); }
    assert (i + 1) * size == i * size + size;
  }

  /** Two blobs one manifest accepts are the same blob, or two different strings among
      those hashed for them have the same hash. */
  lemma {:induction false} VerifyBinds(hs: Hashes, m: Manifest, d1: seq<byte>, d2: seq<byte>)
    requires m.chunkSize > 0 && |d1| < TWO64 && |d2| < TWO64
    requires Verdict(hs, m, d1).Ok? && Verdict(hs, m, d2).Ok?
    ensures d1 == d2 || Collide(hs.Of(m.algorithm), HashedFor(hs.Of(m.algorithm), d1, m.chunkSize),
      HashedFor(hs.Of(m.algorithm), d2, m.chunkSize))
  {
    hide DataRoot, HashedFor, Collide;
    RootBindsData(hs.Of(m.algorithm), d1, d2, m.chunkSize);
  }

  // --- the address binds the content ------------------------------------------------------

  ghost predicate SummaryFits(s: Summary) {
    |Utf8.Encode(s.name)| < TWO64 && s.chunkSize < TWO64 && s.chunkCount < TWO64
  }

  lemma {:induction false} SummaryReads(s: Summary)
    requires SummaryFits(s)
    ensures var fields := SummaryFields(s);
      var v := Map(EntriesOf(fields));
      Proper(v) && forall i :: 0 <= i < |fields| ==> Get(Norm(v), fields[i].name) == Some(Norm(fields[i].val))
  {
    var fields := SummaryFields(s);
    TagsTell(fields, [4110, 4115, 10099, 11099, 14104, 9114]);
    ShortText(Name(s.algorithm));
    hide Utf8.Encode, Enc, Get, Norm;
    assert forall i :: 0 <= i < |fields| ==> FieldFits(fields[i], 1);
    RecordReads(fields, 1);
  }

  /** One address, one summary, or two different encodings with one hash. */
  lemma {:induction false} McidBinds(hs: Hashes, s: Summary, t: Summary)
    requires SummaryFits(s) && SummaryFits(t) && s.algorithm == t.algorithm && ComputeMcid(hs, s) == ComputeMcid(hs, t)
    ensures s == t || Collide(hs.Of(s.algorithm), {SummaryBytes(s)}, {SummaryBytes(t)})
  {
    hide Enc, Get, Norm, EntriesOf, SummaryFits, Collide;
    var h := hs.Of(s.algorithm);
    assert ComputeMcid(hs, s)[2..] == h(SummaryBytes(s)) && ComputeMcid(hs, t)[2..] == h(SummaryBytes(t));
    if SummaryBytes(s) == SummaryBytes(t) {
      var v, w := Map(EntriesOf(SummaryFields(s))), Map(EntriesOf(SummaryFields(t)));
      SummaryReads(s);
      SummaryReads(t);
      SameBytesSameNorm(v, w);
      forall i | 0 <= i < 6 ensures Norm(SummaryFields(s)[i].val) == Norm(SummaryFields(t)[i].val) {
        assert SummaryFields(s)[i].name == SummaryFields(t)[i].name;
      }
      SummaryFromFields(s, t);
    } else {
      CollideHere(h, {SummaryBytes(s)}, {SummaryBytes(t)}, SummaryBytes(s), SummaryBytes(t));
    }
  }

  lemma {:induction false} SummaryFromFields(s: Summary, t: Summary)
    requires forall i :: 0 <= i < 6 ==> Norm(SummaryFields(s)[i].val) == Norm(SummaryFields(t)[i].val)
    requires s.algorithm == t.algorithm
    ensures s == t
  {
    var f, g := SummaryFields(s), SummaryFields(t);
    assert Norm(f[0].val) == Norm(g[0].val) && Norm(f[1].val) == Norm(g[1].val) && Norm(f[2].val) == Norm(g[2].val);
    assert Norm(f[3].val) == Norm(g[3].val) && Norm(f[5].val) == Norm(g[5].val);
  }

  ghost function HashedForMcid(hs: Hashes, data: seq<byte>, opts: CreateOptions): set<seq<byte>>
    requires opts.chunkSize > 0
  {
    HashedFor(hs.Of(opts.algorithm), data, opts.chunkSize) + {SummaryBytes(SummaryOf(hs, data, opts))}
  }

  /** Two blobs published under one manifest address are the same blob, or a collision
      shows among the strings hashed to publish them. */
  lemma {:induction false} CreatedMcidBindsData(hs: Hashes, d1: seq<byte>, o1: CreateOptions, t1: u64,
                                                d2: seq<byte>, o2: CreateOptions, t2: u64)
    requires o1.chunkSize > 0 && o2.chunkSize > 0 && o1.algorithm == o2.algorithm
    requires |d1| < TWO64 && |d2| < TWO64
    requires SummaryFits(SummaryOf(hs, d1, o1)) && SummaryFits(SummaryOf(hs, d2, o2))
    requires ManifestOf(hs, d1, o1, t1).mcid == ManifestOf(hs, d2, o2, t2).mcid
    ensures d1 == d2 || Collide(hs.Of(o1.algorithm), HashedForMcid(hs, d1, o1), HashedForMcid(hs, d2, o2))
  {
    hide DoChunk, Root, FoldInputs, SummaryBytes, SummaryFits, Collide;
    var h := hs.Of(o1.algorithm);
    var s, t := SummaryOf(hs, d1, o1), SummaryOf(hs, d2, o2);
    McidBinds(hs, s, t);
    if s == t {
      RootBindsData(h, d1, d2, o1.chunkSize);
      if d1 != d2 {
        CollideGrows(h, HashedFor(h, d1, o1.chunkSize), HashedFor(h, d2, o1.chunkSize), HashedForMcid(hs, d1, o1),
          HashedForMcid(hs, d2, o2));
      }
    } else {
      CollideGrows(h, {SummaryBytes(s)}, {SummaryBytes(t)}, HashedForMcid(hs, d1, o1), HashedForMcid(hs, d2, o2));
    }
  }

  // --- on the wire -------------------------------------------------------------------------

  function InfoFields(c: ChunkInfo): seq<Field> {
    [
      Field("index", Int(c.index)),
      Field("offset", Int(c.offset)),
      Field("size", Int(c.size)),
      Field("hash", Bytes(c.hash))
    ]
  }

  function InfoToWire(c: ChunkInfo): Value {
    Map(EntriesOf(InfoFields(c)))
  }

  function InfosToWire(cs: seq<ChunkInfo>): (r: seq<Value>)
    ensures |r| == |cs| && forall i :: 0 <= i < |r| ==> r[i] == InfoToWire(cs[i])
  {
    seq(|cs|, i requires 0 <= i < |cs| => InfoToWire(cs[i]))
  }

  function WireFields(m: Manifest): seq<Field> {
    [
      Field("mcid", Bytes(m.mcid)),
      Field("version", Int(m.version)),
      Field("name", Bytes(Utf8.Encode(m.name))),
      Field("size", Int(m.size)),
      Field("created", Int(m.created)),
      Field("chunk_size", Int(m.chunkSize)),
      Field("chunk_count", Int(m.chunkCount)),
      Field("hash_algorithm", Text(Name(m.algorithm))),
      Field("root_hash", Bytes(m.rootHash)),
      Field("chunks", List(InfosToWire(m.chunks)))
    ]
  }

  function ToWire(m: Manifest): Value {
    Map(EntriesOf(WireFields(m)))
  }

  datatype FromWireError =
    | MissingField(name: string)
    | WrongFieldType(name: string)
    | ZeroChunkSize
    | InconsistentChunkCount

  function GetUint(v: Value, name: string): Result<u64, FromWireError> {
    match Get(v, name)
    case Some(Int(n)) => if n >= 0 then Ok(Wrap(n)) else Err(WrongFieldType(name))
    case Some(_) => Err(WrongFieldType(name))
    case None => Err(MissingField(name))
  }

  function GetText(v: Value, name: string): Result<string, FromWireError> {
    match Get(v, name)
    case Some(Text(t)) => Ok(t)
    case Some(_) => Err(WrongFieldType(name))
    case None => Err(MissingField(name))
  }

  function GetStringBytes(v: Value, name: string): Result<string, FromWireError> {
    match Get(v, name)
    case Some(Bytes(b)) =>
      (match Utf8.Decode(b)
       case Some(s) => Ok(s)
       case None => Err(WrongFieldType(name)))
    case Some(_) => Err(WrongFieldType(name))
    case None => Err(MissingField(name))
  }

  function GetBytesExact(v: Value, n: nat, name: string): (r: Result<seq<byte>, FromWireError>)
    ensures r.Ok? ==> |r.value| == n
  {
    match Get(v, name)
    case Some(Bytes(b)) => if |b| == n then Ok(b) else Err(WrongFieldType(name))
    case Some(_) => Err(WrongFieldType(name))
    case None => Err(MissingField(name))
  }

  function InfoFromWire(v: Value): Result<ChunkInfo, FromWireError> {
    var index :- GetUint(v, "index");
    var offset :- GetUint(v, "offset");
    var size :- GetUint(v, "size");
    var hash :- GetBytesExact(v, 32, "hash");
    Ok(ChunkInfo(index, offset, size, hash))
  }

  /** All of them, or the first error. */
  function InfosFromWire(items: seq<Value>): (r: Result<seq<ChunkInfo>, FromWireError>)
    ensures r.Ok? ==> |r.value| == |items|
  {
    if items == [] then Ok([])
    else
      var head :- InfoFromWire(items[0]);
      var tail :- InfosFromWire(items[1..]);
      Ok([head] + tail)
  }

  /** Whatever the sender wrote, an accepted manifest is usable. */
  function FromWire(v: Value): Result<Usable, FromWireError> {
    var mcid :- GetBytesExact(v, 34, "mcid");
    var version :- GetUint(v, "version");
    var name :- GetStringBytes(v, "name");
    var size :- GetUint(v, "size");
    var created :- GetUint(v, "created");
    var chunkSize :- GetUint(v, "chunk_size");
    var chunkCount :- GetUint(v, "chunk_count");
    var algorithm :- GetText(v, "hash_algorithm");
    var rootHash :- GetBytesExact(v, 32, "root_hash");
    var chunks :- (match Get(v, "chunks")
                   case Some(List(items)) => InfosFromWire(items)
                   case Some(_) => Err(WrongFieldType("chunks"))
                   case None => Err(MissingField("chunks")));
    if chunkSize == 0 then Err(ZeroChunkSize)
    else if |chunks| != chunkCount then Err(InconsistentChunkCount)
    else
      Ok(Manifest(mcid, version % 0x1_0000_0000, name, size, created, chunkSize, chunkCount, FromName(algorithm),
        rootHash, chunks))
  }

  // --- there and back ------------------------------------------------------------------------

  /** Counts that fit the machine's `usize`, as every manifest in memory has. */
  ghost predicate InfoFits(c: ChunkInfo) {
    c.index < TWO64 && c.offset < TWO64 && c.size < TWO64
  }

  ghost predicate WireFits(m: Manifest) {
    && |Utf8.Encode(m.name)| < TWO64
    && m.chunkSize < TWO64
    && m.chunkCount < TWO64
    && |m.chunks| < TWO64
    && forall i :: 0 <= i < |m.chunks| ==> InfoFits(m.chunks[i])
  }

  lemma {:induction false} InfoReads(c: ChunkInfo)
    requires InfoFits(c)
    ensures Proper(InfoToWire(c)) && Height(InfoToWire(c)) <= 1
    ensures var fields := InfoFields(c);
      forall i :: 0 <= i < 4 ==> Get(Norm(InfoToWire(c)), fields[i].name) == Some(fields[i].val)
  {
    var fields := InfoFields(c);
    TagsTell(fields, [5105, 6111, 4115, 4104]);
    hide Enc, Get, EntriesOf, Norm, FieldFits, Height, Proper;
    forall i | 0 <= i < 4 ensures FieldFits(fields[i], 1) && Norm(fields[i].val) == fields[i].val {
      ScalarField(fields[i], 1);
    }
    RecordReads(fields, 1);
  }

  lemma {:induction false} InfoRoundTrip(c: ChunkInfo)
    requires InfoFits(c)
    ensures InfoFromWire(Norm(InfoToWire(c))) == Ok(c)
  {
    hide Get, InfoToWire, Norm, Proper, Height;
    InfoReads(c);
    var v, f := Norm(InfoToWire(c)), InfoFields(c);
    assert Get(v, f[0].name) == Some(Int(c.index)) && Get(v, f[1].name) == Some(Int(c.offset));
    assert Get(v, f[2].name) == Some(Int(c.size)) && Get(v, f[3].name) == Some(Bytes(c.hash));
  }

  lemma {:induction false} InfosRoundTrip(cs: seq<ChunkInfo>)
    requires forall i :: 0 <= i < |cs| ==> InfoFits(cs[i])
    ensures InfosFromWire(NormItems(InfosToWire(cs))) == Ok(cs)
  {
    hide Norm, InfoToWire, InfoFromWire;
    var items := NormItems(InfosToWire(cs));
    if cs != [] {
      InfoRoundTrip(cs[0]);
      InfosRoundTrip(cs[1..]);
      assert InfosToWire(cs)[1..] == InfosToWire(cs[1..]);
      assert items[1..] == NormItems(InfosToWire(cs[1..]));
      assert items[0] == Norm(InfoToWire(cs[0]));
      assert [cs[0]] + cs[1..] == cs;
    }
  }

  lemma {:induction false} ChunksField(cs: seq<ChunkInfo>)
    requires |cs| < TWO64 && forall i :: 0 <= i < |cs| ==> InfoFits(cs[i])
    ensures Proper(List(InfosToWire(cs))) && Height(List(InfosToWire(cs))) <= 2
  {
    var items := InfosToWire(cs);
    hide InfoToWire, HeightItems;
    forall i | 0 <= i < |items| ensures Proper(items[i]) && Height(items[i]) < 2 { InfoReads(cs[i]); }
    HeightItemsAtMost(items, 2);
  }

  lemma {:induction false} WireFieldFits(m: Manifest, i: nat)
    requires WireFits(m) && i < 10
    ensures FieldFits(WireFields(m)[i], 3)
    ensures i < 9 ==> Norm(WireFields(m)[i].val) == WireFields(m)[i].val
  {
    var f := WireFields(m)[i];
    hide Utf8.Encode, FieldFits, Norm, InfosToWire, HeightItems;
    if i < 9 {
      ShortText(Name(m.algorithm));
      ScalarField(f, 3);
    } else {
      ChunksField(m.chunks);
      hide Encodable, DistinctKeys, Height;
      assert f == Field("chunks", List(InfosToWire(m.chunks))) && |f.name| == 6;
      ListFieldFits(f, 3);
    }
  }

  lemma {:induction false} ListFieldFits(f: Field, h: nat)
    requires |f.name| < 64 && Proper(f.val) && Height(f.val) < h
    ensures FieldFits(f, h)
  {
  }

  /** What a receiver reads of a manifest, field by field. */
  lemma {:induction false} WireReads(m: Manifest)
    requires WireFits(m)
    ensures Proper(ToWire(m)) && Height(ToWire(m)) <= 3 && Norm(ToWire(m)).Map?
    ensures var f := WireFields(m);
      && (forall i :: 0 <= i < 9 ==> Get(Norm(ToWire(m)), f[i].name) == Some(f[i].val))
      && Get(Norm(ToWire(m)), f[9].name) == Some(List(NormItems(InfosToWire(m.chunks))))
  {
    var fields := WireFields(m);
    TagsTell(fields, [4109, 7118, 4110, 4115, 7099, 10099, 11099, 14104, 9114, 6099]);
    assert Norm(fields[9].val) == List(NormItems(InfosToWire(m.chunks)));
    hide Utf8.Encode, Enc, Get, Norm, InfosToWire, HeightItems, FieldFits, Proper, Height, WireFits, EntriesOf;
    forall i | 0 <= i < 10 ensures FieldFits(fields[i], 3) && (i < 9 ==> Norm(fields[i].val) == fields[i].val) {
      WireFieldFits(m, i);
    }
    RecordReads(fields, 3);
  }

  /** A map that reads field by field as `m` is written parses as `m`, and is refused in
      exactly the two cases that would fail later. */
  lemma {:induction false} ReadsBack(v: Value, m: Manifest, items: seq<Value>)
    requires m.chunkSize < TWO64 && m.chunkCount < TWO64
    requires Get(v, "mcid") == Some(Bytes(m.mcid))
    requires Get(v, "version") == Some(Int(m.version))
    requires Get(v, "name") == Some(Bytes(Utf8.Encode(m.name)))
    requires Get(v, "size") == Some(Int(m.size))
    requires Get(v, "created") == Some(Int(m.created))
    requires Get(v, "chunk_size") == Some(Int(m.chunkSize))
    requires Get(v, "chunk_count") == Some(Int(m.chunkCount))
    requires Get(v, "hash_algorithm") == Some(Text(Name(m.algorithm)))
    requires Get(v, "root_hash") == Some(Bytes(m.rootHash))
    requires Get(v, "chunks") == Some(List(items)) && InfosFromWire(items) == Ok(m.chunks)
    ensures FromWire(v) ==
      if m.chunkSize == 0 then Err(ZeroChunkSize)
      else if |m.chunks| != m.chunkCount then Err(InconsistentChunkCount)
      else Ok(m)
  {
    hide Get, Utf8.Encode, Utf8.Decode, InfosFromWire;
    Utf8.DecodeEncode(m.name);
  }

  /** A manifest parsed from its own bytes, entries reordered by the codec, is the
      manifest; it is refused exactly when it could not be used. */
  lemma {:induction false} WireRoundTrip(m: Manifest)
    requires WireFits(m)
    ensures FromWire(Norm(ToWire(m))) ==
      if m.chunkSize == 0 then Err(ZeroChunkSize)
      else if |m.chunks| != m.chunkCount then Err(InconsistentChunkCount)
      else Ok(m)
  {
    hide Get, Utf8.Encode, EntriesOf, FromWire, InfosFromWire, InfosToWire, Enc, Norm, NormItems, Proper, Height,
      ToWire;
    WireReads(m);
    InfosRoundTrip(m.chunks);
    var v, f := Norm(ToWire(m)), WireFields(m);
    assert f[0].name == "mcid" && f[1].name == "version" && f[2].name == "name" && f[3].name == "size"
      && f[4].name == "created";
    assert f[5].name == "chunk_size" && f[6].name == "chunk_count" && f[7].name == "hash_algorithm"
      && f[8].name == "root_hash";
    ReadsBack(v, m, NormItems(InfosToWire(m.chunks)));
  }
}
