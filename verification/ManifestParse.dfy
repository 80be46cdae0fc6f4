/** What a received map has to say to be read as a manifest, what addresses are made of, and
    what `verify` answers to the wrong data (src/manifest.rs). */
module ManifestParse {
  import opened ByteStrings
  import opened Wrappers
  import opened CborValue
  import opened CborFields
  import opened CborRecords
  import opened Merkle
  import opened Manifest
  import Utf8

  // --- addresses ------------------------------------------------------------------------

  /** A block's address is version 1, codec 0x55 and the BLAKE3 of its bytes; a chunk's is
      the same of the hash its manifest lists. */
  lemma {:induction false} BlockAddress(hs: Hashes, data: seq<byte>, m: Manifest, i: nat)
    ensures BlockMcid(hs, data) == [1, 0x55] + hs.blake3(data)
    ensures ChunkMcid(m, i) == if i < |m.chunks| then Some([1, 0x55] + m.chunks[i].hash) else None
    ensures !McidIsChunked(BlockMcid(hs, data))
  {
  }

  /** A manifest's own address is version 1, codec 0x56 and its algorithm's hash of the six
      fields that describe the data. */
  lemma {:induction false} ManifestAddress(hs: Hashes, s: Summary)
    ensures hs.Of(Blake3) == hs.blake3 && hs.Of(Sha256) == hs.sha256
    ensures ComputeMcid(hs, s) == [1, 0x56] + hs.Of(s.algorithm)(Enc(Map([
      Entry(Text("name"), Text(s.name)),
      Entry(Text("size"), Int(s.size)),
      Entry(Text("chunk_size"), Int(s.chunkSize)),
      Entry(Text("chunk_count"), Int(s.chunkCount)),
      Entry(Text("hash_algorithm"), Text(if s.algorithm.Blake3? then "blake3" else "sha256")),
      Entry(Text("root_hash"), Bytes(s.rootHash))])))
    ensures McidIsChunked(ComputeMcid(hs, s))
  {
    hide Enc;
    assert EntriesOf(SummaryFields(s)) == [
      Entry(Text("name"), Text(s.name)),
      Entry(Text("size"), Int(s.size)),
      Entry(Text("chunk_size"), Int(s.chunkSize)),
      Entry(Text("chunk_count"), Int(s.chunkCount)),
      Entry(Text("hash_algorithm"), Text(if s.algorithm.Blake3? then "blake3" else "sha256")),
      Entry(Text("root_hash"), Bytes(s.rootHash))];
  }

  /** What is written into a manifest of `data` besides its chunks. */
  lemma {:induction false} CreatedSays(hs: Hashes, data: seq<byte>, opts: CreateOptions, created: u64)
    requires opts.chunkSize > 0 && |data| < TWO64
    ensures var m := ManifestOf(hs, data, opts, created);
      && m.version == 1 && m.name == opts.name && m.size == |data| && m.created == created
      && m.chunkSize == opts.chunkSize && m.chunkCount == |m.chunks| && m.algorithm == opts.algorithm
      && m.mcid == ComputeMcid(hs, Summary(m.name, m.size, m.chunkSize, m.chunkCount, m.algorithm, m.rootHash))
      && m.rootHash == Root(hs.Of(opts.algorithm), HashesIn(m.chunks))
  {
    hide SummaryBytes, Root, DoChunk;
    InfoHashes(hs.Of(opts.algorithm), DoChunk(data, opts.chunkSize));
  }

  // --- reading ------------------------------------------------------------------------------

  /** The field is a number from 0 up, whose low 64 bits are `n`. */
  ghost predicate SaysUint(v: Value, name: string, n: nat) {
    Get(v, name).Some? && Get(v, name).value.Int? && Get(v, name).value.n >= 0
      && Get(v, name).value.n % 0x1_0000_0000_0000_0000 == n
  }

  ghost predicate SaysInfo(v: Value, c: ChunkInfo) {
    && SaysUint(v, "index", c.index)
    && SaysUint(v, "offset", c.offset)
    && SaysUint(v, "size", c.size)
    && Get(v, "hash") == Some(Bytes(c.hash))
  }

  ghost predicate SaysVersion(v: Value, version: u32) {
    exists n: nat :: SaysUint(v, "version", n) && n % 0x1_0000_0000 == version
  }

  ghost predicate SaysAlgorithm(v: Value, a: Algorithm) {
    exists t :: Get(v, "hash_algorithm") == Some(Text(t)) && (t == "sha256" <==> a == Sha256)
  }

  ghost predicate SaysChunks(v: Value, cs: seq<ChunkInfo>) {
    exists items :: Get(v, "chunks") == Some(List(items)) && SaysInfos(items, cs)
  }

  /** The map says this manifest. */
  ghost predicate SaysManifest(v: Value, m: Manifest) {
    && Get(v, "mcid") == Some(Bytes(m.mcid))
    && SaysVersion(v, m.version)
    && Get(v, "name") == Some(Bytes(Utf8.Encode(m.name)))
    && SaysUint(v, "size", m.size)
    && SaysUint(v, "created", m.created)
    && SaysUint(v, "chunk_size", m.chunkSize)
    && SaysUint(v, "chunk_count", m.chunkCount)
    && SaysAlgorithm(v, m.algorithm)
    && Get(v, "root_hash") == Some(Bytes(m.rootHash))
    && SaysChunks(v, m.chunks)
  }

  ghost predicate SaysInfos(items: seq<Value>, cs: seq<ChunkInfo>) {
    |items| == |cs| && forall i :: 0 <= i < |items| ==> SaysInfo(items[i], cs[i])
  }

  lemma {:induction false} GetUintReads(v: Value, name: string, n: nat)
    ensures GetUint(v, name) == Ok(n) <==> SaysUint(v, name, n)
  {
    hide Get;
  }

  lemma {:induction false} InfoReadsAs(v: Value, c: ChunkInfo)
    ensures InfoFromWire(v) == Ok(c) <==> SaysInfo(v, c)
  {
    hide Get, GetUint, SaysUint;
    GetUintReads(v, "index", c.index);
    GetUintReads(v, "offset", c.offset);
    GetUintReads(v, "size", c.size);
  }

  lemma {:induction false} InfosReadAs(items: seq<Value>, cs: seq<ChunkInfo>)
    ensures InfosFromWire(items) == Ok(cs) <==> SaysInfos(items, cs)
  {
    hide InfoFromWire, SaysInfo, SaysInfos;
    if items == [] {
      NoInfos(cs);
    } else if cs == [] {
      NoInfosOf(items);
    } else {
      InfoReadsAs(items[0], cs[0]);
      InfosReadAs(items[1..], cs[1..]);
      InfosSplit(items, cs);
      assert cs == [cs[0]] + cs[1..];
    }
  }

  lemma {:induction false} NoInfos(cs: seq<ChunkInfo>)
    ensures SaysInfos([], cs) <==> cs == []
  {
  }

  lemma {:induction false} NoInfosOf(items: seq<Value>)
    requires items != []
    ensures !SaysInfos(items, [])
  {
  }

  lemma {:induction false} InfosSplit(items: seq<Value>, cs: seq<ChunkInfo>)
    requires items != [] && cs != []
    ensures SaysInfos(items, cs) <==> SaysInfo(items[0], cs[0]) && SaysInfos(items[1..], cs[1..])
  {
    hide SaysInfo;
    if SaysInfo(items[0], cs[0]) && SaysInfos(items[1..], cs[1..]) {
      forall i | 0 <= i < |items| ensures SaysInfo(items[i], cs[i]) {
        if i > 0 { assert SaysInfo(items[1..][i - 1], cs[1..][i - 1]); }
      }
    }
  }

  /** Only a number has low bits. */
  ghost predicate HasUint(v: Value, name: string) {
    Get(v, name).Some? && Get(v, name).value.Int? && Get(v, name).value.n >= 0
  }

  lemma {:induction false} UintThere(v: Value, name: string)
    ensures GetUint(v, name).Ok? <==> HasUint(v, name)
    ensures GetUint(v, name).Ok? ==> SaysUint(v, name, GetUint(v, name).value)
    ensures GetUint(v, name).Err? ==> GetUint(v, name) == Err(Complaint(v, name))
  {
    hide Get;
  }

  function Complaint(v: Value, name: string): FromWireError {
    if Get(v, name).None? then MissingField(name) else WrongFieldType(name)
  }

  lemma {:induction false} StringReads(v: Value, name: string, s: string)
    ensures GetStringBytes(v, name) == Ok(s) <==> Get(v, name) == Some(Bytes(Utf8.Encode(s)))
    ensures GetStringBytes(v, name).Err? ==> GetStringBytes(v, name) == Err(Complaint(v, name))
  {
    hide Get, Utf8.Encode, Utf8.Decode;
    Utf8.DecodeEncode(s);
    if Get(v, name).Some? && Get(v, name).value.Bytes? { Utf8.EncodeDecode(Get(v, name).value.b); }
  }

  lemma {:induction false} VersionReads(v: Value, version: u32)
    ensures GetUint(v, "version").Ok? && GetUint(v, "version").value % 0x1_0000_0000 == version <==>
      SaysVersion(v, version)
  {
    hide Get, GetUint, SaysUint;
    UintThere(v, "version");
    forall n: nat ensures SaysUint(v, "version", n) ==> GetUint(v, "version") == Ok(n) {
      GetUintReads(v, "version", n);
    }
  }

  lemma {:induction false} AlgorithmReads(v: Value, a: Algorithm)
    ensures GetText(v, "hash_algorithm").Ok? && FromName(GetText(v, "hash_algorithm").value) == a <==>
      SaysAlgorithm(v, a)
  {
    hide Get;
  }

  function Chunks(v: Value): Result<seq<ChunkInfo>, FromWireError> {
    match Get(v, "chunks")
    case Some(List(items)) => InfosFromWire(items)
    case Some(_) => Err(WrongFieldType("chunks"))
    case None => Err(MissingField("chunks"))
  }

  lemma {:induction false} ChunksRead(v: Value, cs: seq<ChunkInfo>)
    ensures Chunks(v) == Ok(cs) <==> SaysChunks(v, cs)
  {
    hide Get, InfosFromWire, SaysInfos;
    forall items ensures SaysInfos(items, cs) <==> InfosFromWire(items) == Ok(cs) { InfosReadAs(items, cs); }
  }

  /** Whatever map arrives is read as a manifest exactly if it says that manifest, its chunk
      size is not zero, and it lists as many chunks as it counts. */
  lemma {:induction false} FromWireReads(v: Value, m: Manifest)
    ensures FromWire(v) == Ok(m) <==> SaysManifest(v, m) && m.chunkSize > 0 && m.chunkCount == |m.chunks|
  {
    hide Get, InfosFromWire, GetUint, GetText, SaysUint, SaysVersion, SaysAlgorithm, SaysChunks, GetStringBytes,
      FromName, Utf8.Encode;
    UintThere(v, "size");
    UintThere(v, "created");
    UintThere(v, "chunk_size");
    UintThere(v, "chunk_count");
    GetUintReads(v, "size", m.size);
    GetUintReads(v, "created", m.created);
    GetUintReads(v, "chunk_size", m.chunkSize);
    GetUintReads(v, "chunk_count", m.chunkCount);
    StringReads(v, "name", m.name);
    VersionReads(v, m.version);
    ChunksRead(v, m.chunks);
    AlgorithmReads(v, m.algorithm);
  }

  ghost predicate HasBytes(v: Value, n: nat, name: string) {
    Get(v, name).Some? && Get(v, name).value.Bytes? && |Get(v, name).value.b| == n
  }

  ghost predicate HasString(v: Value, name: string) {
    exists s :: Get(v, name) == Some(Bytes(Utf8.Encode(s)))
  }

  ghost predicate HasText(v: Value, name: string) {
    Get(v, name).Some? && Get(v, name).value.Text?
  }

  ghost predicate HasList(v: Value, name: string) {
    Get(v, name).Some? && Get(v, name).value.List?
  }

  /** The first field, in this order, that is missing or does not hold what it should;
      nothing if only the chunk list or the counts are wrong. */
  ghost function BadField(v: Value): Option<string> {
    if !HasBytes(v, 34, "mcid") then Some("mcid")
    else if !HasUint(v, "version") then Some("version")
    else if !HasString(v, "name") then Some("name")
    else if !HasUint(v, "size") then Some("size")
    else if !HasUint(v, "created") then Some("created")
    else if !HasUint(v, "chunk_size") then Some("chunk_size")
    else if !HasUint(v, "chunk_count") then Some("chunk_count")
    else if !HasText(v, "hash_algorithm") then Some("hash_algorithm")
    else if !HasBytes(v, 32, "root_hash") then Some("root_hash")
    else if !HasList(v, "chunks") then Some("chunks")
    else None
  }

  lemma {:induction false} StringThere(v: Value, name: string)
    ensures GetStringBytes(v, name).Ok? <==> HasString(v, name)
    ensures GetStringBytes(v, name).Err? ==> GetStringBytes(v, name) == Err(Complaint(v, name))
  {
    hide Get, Utf8.Encode, GetStringBytes;
    if GetStringBytes(v, name).Ok? {
      StringReads(v, name, GetStringBytes(v, name).value);
    } else {
      StringReads(v, name, "");
    }
    forall s | Get(v, name) == Some(Bytes(Utf8.Encode(s))) ensures GetStringBytes(v, name).Ok? {
      StringReads(v, name, s);
    }
  }

  lemma {:induction false} BytesThere(v: Value, n: nat, name: string)
    ensures GetBytesExact(v, n, name).Ok? <==> HasBytes(v, n, name)
    ensures GetBytesExact(v, n, name).Err? ==> GetBytesExact(v, n, name) == Err(Complaint(v, name))
  {
    hide Get;
  }

  lemma {:induction false} TextThere(v: Value, name: string)
    ensures GetText(v, name).Ok? <==> HasText(v, name)
    ensures GetText(v, name).Err? ==> GetText(v, name) == Err(Complaint(v, name))
  {
    hide Get;
  }

  lemma {:induction false} ListThere(v: Value)
    ensures !HasList(v, "chunks") ==> Chunks(v) == Err(Complaint(v, "chunks"))
  {
    hide Get, InfosFromWire;
  }

  /** A map with a bad field is refused for the first one. */
  lemma {:induction false} BadFieldRefused(v: Value)
    requires BadField(v).Some?
    ensures FromWire(v) == Err(Complaint(v, BadField(v).value))
  {
    hide Get, InfosFromWire, GetUint, GetText, HasUint, HasString, HasText, HasBytes, HasList, GetStringBytes,
      FromName, GetBytesExact, Complaint;
    BytesThere(v, 34, "mcid");
    UintThere(v, "version");
    StringThere(v, "name");
    UintThere(v, "size");
    UintThere(v, "created");
    UintThere(v, "chunk_size");
    UintThere(v, "chunk_count");
    TextThere(v, "hash_algorithm");
    BytesThere(v, 32, "root_hash");
    ListThere(v);
  }

  /** A map whose fields are right is refused for the first chunk that is not, else for a zero
      chunk size, else for the count. */
  lemma {:induction false} ChunksRefused(v: Value)
    requires BadField(v).None? && FromWire(v).Err?
    ensures FromWire(v).error ==
      if Chunks(v).Err? then Chunks(v).error
      else if SaysUint(v, "chunk_size", 0) then ZeroChunkSize
      else InconsistentChunkCount
  {
    hide Get, InfosFromWire, GetUint, GetText, HasUint, HasString, HasText, HasBytes, HasList, GetStringBytes,
      FromName, GetBytesExact, Complaint, SaysUint;
    BytesThere(v, 34, "mcid");
    UintThere(v, "version");
    StringThere(v, "name");
    UintThere(v, "size");
    UintThere(v, "created");
    UintThere(v, "chunk_size");
    UintThere(v, "chunk_count");
    TextThere(v, "hash_algorithm");
    BytesThere(v, 32, "root_hash");
    GetUintReads(v, "chunk_size", 0);
  }

  /** A chunk entry is refused for its first bad field. */
  lemma {:induction false} InfoRefused(v: Value)
    requires InfoFromWire(v).Err?
    ensures InfoFromWire(v).error ==
      Complaint(v, if !HasUint(v, "index") then "index"
                   else if !HasUint(v, "offset") then "offset"
                   else if !HasUint(v, "size") then "size"
                   else "hash")
  {
    hide Get, GetUint, HasUint, HasBytes, GetBytesExact, Complaint;
    UintThere(v, "index");
    UintThere(v, "offset");
    UintThere(v, "size");
    BytesThere(v, 32, "hash");
  }

  /** A chunk list is refused for its first bad entry. */
  lemma {:induction false} InfosRefused(items: seq<Value>, i: nat)
    requires i < |items| && InfoFromWire(items[i]).Err? && forall j :: 0 <= j < i ==> InfoFromWire(items[j]).Ok?
    ensures InfosFromWire(items) == Err(InfoFromWire(items[i]).error)
  {
    hide InfoFromWire;
    if i > 0 { InfosRefused(items[1..], i - 1); }
  }

  // --- the wrong data -------------------------------------------------------------------------

  /** Data of another length is refused for its size; other data of the same length for its
      root, unless a collision shows among the strings hashed for the two. */
  lemma {:induction false} WrongDataRefused(hs: Hashes, data: seq<byte>, opts: CreateOptions, created: u64,
                                            other: seq<byte>)
    requires opts.chunkSize > 0 && |data| < TWO64 && |other| < TWO64 && other != data
    ensures var m := ManifestOf(hs, data, opts, created);
      && (|other| != |data| ==> Verdict(hs, m, other) == Err(SizeMismatch))
      && (|other| == |data| ==>
        || Verdict(hs, m, other) == Err(RootHashMismatch)
        || Collide(hs.Of(opts.algorithm), HashedFor(hs.Of(opts.algorithm), other, opts.chunkSize),
                   HashedFor(hs.Of(opts.algorithm), data, opts.chunkSize)))
  {
    hide DataRoot, HashedFor, Collide, SummaryBytes, DoChunk;
    var m := ManifestOf(hs, data, opts, created);
    CreatedVerifies(hs, data, opts, created);
    if Verdict(hs, m, other).Ok? { VerifyBinds(hs, m, other, data); }
  }
}
