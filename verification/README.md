# Verification of the macula wire protocol, content store client and connection pool

A Dafny model of five parts of the `macula-rust` crate, with proofs of what they
promise each other:

1. **The deterministic CBOR codec** (`src/cbor.rs`). `CborValue` defines the canonical
   bytes and the normal form of a value; `CborParse` is a plain recursive parser;
   `CborEncoder` and `CborDecoder` are the shipped algorithms, with their buffers,
   loops, hash index and bottom-up canonical bytes, proved equal to the definitions.
   `CborBytes` says of given bytes what they decode to. `Utf8` and `Ieee` are concrete; `ByteOrder` is the stable sort by key bytes;
   `LastWrite` is the association-list fold the hash index must agree with.
2. **The signed frame layer and reassembly** (`src/frame.rs`, `src/connection.rs`).
   `Frame` has both signatures and the length-prefixed codec, `FrameBinds` what they bind,
   `FrameCall` the CALL, RESULT and ERROR frames, `FrameParse` what a frame has to say to be
   one of them, `Connection` the receive loops over arbitrarily cut streams, `Handshake` the
   CONNECT and the HELLO.
3. **Chunking and manifests** (`src/manifest.rs`): `Merkle`, `Manifest`, and `ManifestParse`,
   what a map has to say to be a manifest.
4. **Content put and get** (`src/content.rs`): `Station` carries one call through real
   CALL, RESULT and ERROR frames to a station and back over a network that may lose any call,
   refuse it, leave its reply unheard, or answer with an ERROR after it has been served;
   `Content` has the client, `ContentAnswers` what it makes of any station's answers;
   `ContentRoundTrip` and `PutThenGet` have the theorems.
   `FrameSize` bounds what a frame can weigh.
5. **The connection pool** (`src/pool.rs`) as a step system in which every atomic
   access, lock acquisition and await of every task is a step of its own: `PoolLink`
   (one link, one step), `Pool` (all tasks and `close`), `PoolInvariant`, `PoolRuns` (what
   holds in every run), `PoolGiveUp` and `PoolDiscovery` (when a link is given up, who runs
   when, what discovery may and can add), `PoolRevival` and `PoolQuiesce` (which links can
   come up again), `PoolReach` (stretches of runs), `PoolClose` and `PoolFinish` (when
   `close` is final, and that it can finish) and `PoolLimits` (runs to states one would not
   expect, and exactly when there are any).

What the model takes as given:

- The hash functions are arbitrary total functions to 32 bytes (`Merkle.Hash`). Nothing
  says they are injective; results that need it exhibit two different strings with one
  hash, among the strings that were really hashed.
- Ed25519 (section 5.1 of RFC 8032) is any scheme in which a signature by a key verifies
  under that key's public half (`Frame.Ed25519`).
- A `String` is a sequence of Unicode scalar values, a float its binary64 pattern,
  `usize` is 64 bits. The `as u64`, `as u32` and `as usize` conversions are written out
  (`ByteStrings.Wrap`, `% 0x1_0000_0000`). Lengths below 2^64 are a hypothesis where a
  theorem needs them; every slice in memory has one.
- `HashMap` iteration order is arbitrary: the map decoder lists its index in any order
  before sorting it.
- Random ids, clock readings and the fate of each call come from outside, as
  `Station.Turn`; a read from a stream gives a chunk of any size, an error or the end.
- The station of the content theorems is the one section 12.1 of
  `plans/PLAN_WIRE_PROTOCOL.md` describes; it answers `Null` to payloads this client
  never sends. `BlockGetsAgree` and `ManifestGetsAgree` are about every station.
- Pool locks are granted in any order, so every run under the fair lock of the code is
  among the runs considered.

Two remarks on what the proofs brought out:

- `get` returns the data that was `put` if and only if no two different chunks of it have
  one hash (`PutThenGet.PutThenGet`). The condition is on the data alone and is needed:
  the station keeps one block per address, so the later of two colliding chunks is read
  back twice.
- A call that is answered with an ERROR is tried again even where the station had served
  it, so the station can serve one call three times. It does no harm, because an honest
  station that serves a payload again keeps its store and gives the same reply
  (`Station.ServesAlike`).

`dafny verify dfyconfig.toml` checks the whole project.

## Findings

| source | what happens | exactly when |
|---|---|---|
| src/pool.rs:605 | `close` discards the result of sending the stop signal, and a watch channel without a receiver stores nothing. A call under way that fails after `close` has returned then redials its link, whose lifecycle reads no signal: one seed, no discovery, one call suffices (`PoolClose.ClosedPoolComesAlive`) | `close` is final in every run if and only if discovery runs, or a link is mid-redial, or no link whose claim is not abandoned has a session, a lifecycle yet to start, or a failed call still after the claim (`PoolClose.CloseIsFinal`; it leaves open one case, in which discovery has been spawned and not yet polled, nothing can come up, and a link with an abandoned claim still has a session); in a single run, if the signal was stored or no call overlapped `close` (`PoolRuns.CloseLeavesNothingAlive`, `PoolRuns.ClosedStaysClosed`) |
| src/pool.rs:638-643 | A caller's future dropped between winning a link's claim and spawning its lifecycle leaves the claim set for good (`PoolLimits.ClaimCanLeak`, `PoolLimits.AbandonedStays`) | A claim is set and held by no task if and only if the run has dropped a task that held it (`PoolRuns.AbandonedWhenDropped`; step by step, `PoolRuns.LeaksWhenDropped`) |
| src/pool.rs:667-670 | A call that fails after the redial has installed its session and before the redial releases the claim finds the claim taken, and nobody dials the link again: a bootstrap link, in a pool that is open and has dropped no task (`PoolLimits.LinkCanBeForgotten`). If the call fails before the flag is stored, the link that is never dialed again is shown as connected (`PoolLimits.ForgottenLinkCanLookUp`) | A link can come up again if and only if its claim is not abandoned and it has a session, a failed call still after the claim or a redial that can still install (`PoolLimits.ComesUpAgain`). A run takes that away exactly by the actions `PoolRevival.Loses` lists (`PoolRevival.NextRevives`, `PoolRevival.LostOnTheWay`), from a bootstrap link of an open pool that drops no task exactly when its last failed call finds the claim held by a lifecycle that has done its dialing (`PoolLimits.BootstrapLoses`) |
| src/pool.rs:638 | Of two calls that fail on one session, the second can win the claim after the first one's redial has ended, and its lifecycle dials while the link has a fresh session, which it will replace (`PoolLimits.SessionCanBeOvertaken`) | A run gets there if and only if it wins a claim on a link whose session is set (`PoolLimits.OvertakenWhenWonOver`) |

## Model

| member | source | states |
|---|---|---|
| CborEncoder.EncodeHead | src/cbor.rs:296-312 | Appends the head whose argument is the shortest that holds the count |
| CborSound.HeadReads | src/cbor.rs:296-312 | What the head writer wrote, the count reader reads back, at any place in any buffer, and stops right after it |
| CborSound.HeadShortest | src/cbor.rs:436-460 | No head the count reader accepts is shorter than the head the writer writes for that count |
| CborEncoder.EncodeInt | src/cbor.rs:253-271 | Integers from -2^64 to 2^64-1 are encoded, all others refused with the integer |
| CborEncoder.EncodeValue | src/cbor.rs:219-251 | Appends exactly the canonical bytes to what the buffer held, or reports the first out-of-range integer in encoding order |
| CborEncoder.EncodeList | src/cbor.rs:233-239 | The list loop appends head and items in order and stops at the first bad item |
| CborEncoder.EncodeMap | src/cbor.rs:278-294 | Every key and value encoded apart, sorted by key bytes, appended after the head |
| CborEncoder.Encode | src/cbor.rs:213-217 | The canonical bytes of any value, or its first out-of-range integer |
| CborBytes.FirstBadMeaning | src/cbor.rs:253-294 | A value is refused exactly if some integer of it, inside keys too, is below -2^64 or from 2^64, and for the first of those in encoding order |
| CborBytes.WrittenHead | src/cbor.rs:296-312 | The head written is 1, 2, 3, 5 or 9 bytes, the fewest that hold the count, most significant byte first |
| ByteOrder.SortOrderIsStableSort | src/cbor.rs:287-287 | The sort is a permutation, keys never descend, equal keys keep their order |
| ByteOrder.LessMeaning | src/cbor.rs:287-287 | One key is below another exactly if it is a proper prefix or has the smaller byte where they first differ |
| CborValue.EmittedKeysAscend | src/cbor.rs:278-294 | A map without repeated keys is emitted as exactly its entries with strictly ascending key bytes |
| CborValue.MapForgetsOrder | src/cbor.rs:278-294 | Maps with the same entries, none repeated, have the same bytes |
| CborValue.ReorderedEncodesAlike | src/cbor.rs:278-294 | Permuting entries of any map at any level, inside keys too, changes no byte |
| CborValue.EncNorm | src/cbor.rs:278-294 | A value and its normal form (every map sorted by key bytes) encode alike |
| CborDecoder.DecodeOne | src/cbor.rs:360-412 | At any position and depth, with or without canonical bytes: the parser's value, end and error; canonical bytes equal to re-encoding; at most one call per byte (one more on failure) and at most 3(129-depth) canonical bytes written per byte |
| CborDecoder.ScalarCanonicalBytes | src/cbor.rs:416-434 | A decoded scalar always re-encodes, so the `expect` cannot fire |
| CborDecoder.DecodeList | src/cbor.rs:484-505 | The list loop gives the parser's items and the concatenation of their canonical bytes, within the work bound, for counts up to 2^64-1 |
| CborDecoder.DecodeMap | src/cbor.rs:563-620 | The loop over a hash index gives the last-write-wins fold of all entries read, and its canonical bytes, within the work bound |
| CborDecoder.IndexFinds | src/cbor.rs:576-600 | The index holds a key exactly when the fold has it, and points at its slot |
| CborDecoder.CanonicalMap | src/cbor.rs:606-619 | Sorting the index by key bytes, in whatever order it is listed, emits the map's canonical encoding |
| LastWrite.FoldResolves | src/cbor.rs:570-605 | In the fold each key's slot stands where the key was first written, with the key as first and the value as last written, and no key is missing |
| CborParse.ResolveMeaning | src/cbor.rs:570-605 | The same, for the decoded entries of a map |
| CborParse.ResolveIdentity | src/cbor.rs:570-605 | Entries without a repeated key are left as they are |
| CborDecoder.Decode | src/cbor.rs:322-330 | The entry point agrees with the parser, and refuses trailing bytes |
| CborBytes.HeadAtReads | src/cbor.rs:436-460 | A head of any width, not only the shortest, gives its major type and its argument |
| CborBytes.IntReads | src/cbor.rs:376-389 | Major types 0 and 1 are n and -1-n |
| CborBytes.BytesRead | src/cbor.rs:390-395 | A byte string is the n bytes after its head, or truncated |
| CborBytes.TextReads | src/cbor.rs:396-407 | A text string is the text whose UTF-8 its n bytes are, `InvalidUtf8` if they are none, or truncated |
| CborBytes.NullReads | src/cbor.rs:462-464 | The byte 0xF6 is null |
| CborBytes.HalfReads | src/cbor.rs:462-469 | 0xF9 and two bytes are the float of exactly that binary16, and `UnrepresentableFloat` for an infinity or a NaN |
| CborBytes.SingleReads | src/cbor.rs:470-474 | 0xFA and four bytes are the float of exactly that binary32, infinities and NaNs included |
| CborBytes.DoubleReads | src/cbor.rs:475-480 | 0xFB and eight bytes are that binary64 |
| CborBytes.ListReads | src/cbor.rs:484-505 | A list is its items one after another; the first that does not parse gives its error |
| CborBytes.MapReads | src/cbor.rs:563-620 | A map is its keys and values in turn, repeated keys resolved; the first that does not parse gives its error |
| CborBytes.HeadRefused | src/cbor.rs:436-482 | Reserved widths, indefinite lengths, other simple values and heads cut short, each with its error |
| CborBytes.TagRefused | src/cbor.rs:410-411 | Tags are `UnsupportedMajorType(6)` |
| CborBytes.TrailingRefused | src/cbor.rs:322-330 | An encoding nested at most 128 deep decodes alone and is `TrailingBytes` with anything after it |
| CborSound.ParseGood | src/cbor.rs:360-412 | A decoded value has no repeated key at any level, only encodable integers, nesting within the limit, and canonical bytes of at most 3 times the bytes consumed |
| CborRoundTrip.ParseEnc | src/cbor.rs:360-412 | The encoding of a proper value, anywhere in any buffer, decodes to the normal form and stops at its end exactly when the nesting fits, and is `NestingTooDeep` otherwise |
| CborRoundTrip.ParseEncWithTail | src/cbor.rs:360-412 | The same with any bytes after the encoding |
| CborRoundTrip.DecodeEnc | src/cbor.rs:322-330 | decode(encode(v)) is the normal form if the height is at most 128, `NestingTooDeep` if it is more |
| CborRoundTrip.PrefixFree | src/cbor.rs:213-330 | No encoding is a proper prefix of another |
| CborRoundTrip.SameBytesSameNorm | src/cbor.rs:213-330 | Two values have the same bytes if and only if they have the same normal form |
| CborRoundTrip.NormProper | src/cbor.rs:563-620 | Normalising is idempotent and keeps a value encodable, without repeated keys and no deeper |
| CborRoundTrip.ReencodeDecoded | src/cbor.rs:322-330 | For every accepted input, however non-canonical: the value encodes, decodes to its normal form, the normal form has the same bytes, and they are at most 3 times the input |
| CborRoundTrip.ProperFirstBad | src/cbor.rs:430-434 | An encodable value is never refused by the encoder |
| Ieee.HalfIsExact | src/cbor.rs:622-636 | Every finite binary16 widens to the binary64 of exactly its sign and magnitude, subnormals included |
| Ieee.SingleIsExact | src/cbor.rs:470-474 | Every binary32 widens to the binary64 of exactly its sign and magnitude, infinities to infinities and NaNs to NaNs |
| Utf8.DecodeEncode | src/cbor.rs:396-403 | Text decodes from its bytes to itself |
| Utf8.EncodeDecode | src/cbor.rs:396-403 | Bytes accepted as text are the encoding of that text and of no other |
| CborFields.GetWithField | src/cbor.rs:83-122 | A field set is the field read |
| CborFields.GetOtherField | src/cbor.rs:83-122 | Setting a field changes no other |
| CborFields.WithFieldProper | src/cbor.rs:111-122 | Setting a field never repeats a key, and keeps a map encodable and its height |
| CborFields.GetNorm | src/cbor.rs:83-91 | Reading a field of the normal form reads the field's normal form, though entries have moved |
| CborFields.WithoutNorm | src/cbor.rs:96-107 | Removing fields before or after normalising gives the same bytes |
| CborFields.WithoutSet | src/cbor.rs:96-122 | Setting a field that is then removed changes nothing |
| CborFields.WithoutKeeps | src/cbor.rs:96-107 | Removing fields leaves every other entry and nothing under the removed names |
| Frame.SignedVerifies | src/frame.rs:900-951 | A signed map verifies under the signer's public key |
| FrameBinds.VerifyAnswers | src/frame.rs:906-951 | A frame is accepted exactly for a 64-byte signature the scheme accepts over its domain and its encoding without the two signatures, and else refused for the first thing wrong |
| FrameBinds.HopSignatureBinds | src/frame.rs:906-951 | Two frames accepted under one key and signature say the same under every other name, or the scheme accepts the signature for two messages |
| FrameBinds.ChangedFrameRefused | src/frame.rs:900-951 | A signed frame changed under any other name is `SignatureInvalid`, or the scheme accepts the signature for two messages |
| Frame.VerifyNorm | src/frame.rs:906-951 | The verdict does not depend on the order of map entries at any level |
| Frame.SignKeepsProper | src/frame.rs:900-904 | Signing repeats no key and deepens nothing |
| Frame.DecodeEncoded | src/frame.rs:1085-1146 | An encoded frame, with any bytes after it, decodes to its normal form and consumes exactly its own bytes |
| FrameParse.PrefixReads | src/frame.rs:1133-1146 | A claimed length over 2^24-1 is `TooLarge`; else `More` until the bytes are there, and then what they decode to |
| FrameParse.EncodeAnswers | src/frame.rs:1085-1094 | A frame is refused for its first out-of-range integer, then for its size, and else written as length and encoding |
| Frame.VerdictStands | src/frame.rs:1133-1146 | A frame or an error is unchanged by appending bytes |
| Frame.MoreCountsDown | src/frame.rs:1133-1146 | `More(n)` becomes `More(n-k)` after k < n more bytes of the length prefix or of the frame |
| Frame.SignatureSurvivesTheWire | src/frame.rs:900-1146 | What the peer decodes from a signed frame verifies under the signer's key, whatever follows it |
| Frame.PublisherSignedVerifies | src/frame.rs:977-1056 | A publisher-signed map that names its publisher verifies |
| FrameBinds.VerifyPublisherAnswers | src/frame.rs:1014-1056 | An event is accepted exactly for a 64-byte signature the scheme accepts, for the 32-byte key it names, over topic, realm, publisher, seq and payload, and else refused for the first thing wrong |
| FrameBinds.PublisherSignatureBinds | src/frame.rs:1014-1056 | Two events accepted under one publisher and signature agree on those five, or the scheme accepts the signature for two messages |
| FrameBinds.ChangedEventRefused | src/frame.rs:977-1056 | A published event whose topic, realm, seq or payload is changed is `PublisherSigInvalid`, or the scheme accepts the signature for two messages |
| FrameBinds.DomainsApart | src/frame.rs:906-1056 | No hop message is a publisher message |
| Frame.BothSignaturesEitherOrder | src/frame.rs:900-1056 | Hop and publisher signature both hold in whichever order they are added |
| Frame.HopVerdictKept | src/frame.rs:906-951 | Adding or replacing `publisher_sig` does not change the hop verdict |
| Frame.PublisherVerdictKept | src/frame.rs:1014-1056 | Adding or replacing `signature` does not change the publisher verdict |
| Frame.SamePublisherBytes | src/frame.rs:1041-1056 | Frames that agree on topic, realm, publisher, seq and payload up to normal form have the same publisher signing bytes |
| Frame.PublisherSignatureSurvivesRelays | src/frame.rs:977-1056 | A publisher signature verifies after any number of encode, decode and re-send hops, whatever other fields change |
| FrameCall.BaseIsFields | src/frame.rs:57-76 | The envelope repeats no key, and is the empty map with its fields set |
| FrameParse.EnvelopeReads | src/frame.rs:57-76 | Every frame carries version 2, its type, id and time; realm, call id and route are null unless set |
| FrameParse.CallSays | src/frame.rs:237-257 | A CALL carries every field of its spec under the name the protocol gives it |
| FrameParse.ResultSays | src/frame.rs:283-298 | So does a RESULT, realm and route left null |
| FrameParse.ErrorSays | src/frame.rs:330-355 | So does an ERROR, absent detail and hop as null |
| FrameCall.FieldsSurviveTheWire | src/frame.rs:57-76 | Any frame built over the envelope and signed reaches the peer with its type, every field in normal form, and a valid signature |
| FrameCall.CallRoundTrip | src/frame.rs:237-461 | `parse_call` on the wire bytes of a signed CALL gives the spec's fields, payload in normal form; the Null sentinels are overridden, not repeated |
| FrameCall.ResultRoundTrip | src/frame.rs:283-561 | A signed RESULT is recognised by its call id and gives back payload and responder |
| FrameCall.ErrorRoundTrip | src/frame.rs:330-557 | A signed ERROR is recognised by its call id and gives back code, name, reporter and detail, none or UTF-8 |
| FrameParse.ParseCallReads | src/frame.rs:402-461 | A frame is read as a call exactly if it says that call |
| FrameParse.ParseCallRefuses | src/frame.rs:402-461 | Any other is refused for its type, else for the first field missing or ill-typed |
| FrameParse.ParseResponseReads | src/frame.rs:517-561 | A frame is read as a response exactly if it says that RESULT or ERROR |
| FrameParse.ParseResponseRefuses | src/frame.rs:517-561 | Any other is refused for its type, else for the first field missing or ill-typed |
| FrameParse.CallIdReads | src/frame.rs:509-514 | A frame's call id is the 16 bytes under that name |
| Connection.ReadOneFrame | src/connection.rs:424-443 | However the stream is cut: the first frame, or why there is none; what was read past it followed by what is still to come is the rest of the stream |
| Connection.FrameStream.RecvFrame | src/connection.rs:150-169 | However the stream is cut: the next frame of the bytes ahead or the error, exactly its bytes leave the buffer, and no byte that arrived is lost on any error |
| Connection.FrameStream.AwaitCallResponse | src/connection.rs:256-273 | The first frame with the call's id that parses as a response; frames before it are dropped, those after stay |
| Handshake.ConnectInner | src/connection.rs:378-443 | Dials, opens, sends the CONNECT, whose bytes are what was sent, and reads the HELLO: a session only if the HELLO is believed, the error of the first step that fails otherwise; the bytes read past the HELLO are the control stream's first |
| Handshake.ConnectArrives | src/frame.rs:120-151 | A CONNECT can always be sent; the station reads who the client is and a signature that verifies under it |
| Handshake.ParseHelloReads | src/frame.rs:872-892 | A frame is read as a hello exactly if it says that hello |
| Handshake.ParseHelloRefuses | src/frame.rs:826-892 | Any other is refused for its type, else for the first field missing or ill-typed |
| Handshake.BeliefMeans | src/connection.rs:402-411 | Exactly a HELLO that accepts and verifies under the node id it names is believed; a refusal is reported only of one that verifies |
| Handshake.StationBelieved | src/connection.rs:400-416 | A station that signs an accepting HELLO naming its own key is believed, whatever follows it |
| Connection.VerdictOnStream | src/connection.rs:150-169 | A verdict on the bytes that have arrived is the verdict on the whole stream |
| Connection.FirstOfWire | src/connection.rs:150-169 | The first of any frames sent is the next received, leaving exactly the rest |
| Connection.FramesArriveInOrder | src/connection.rs:150-169 | Any sendable frames, sent one after another, are received in order in normal form, and bytes after them untouched |
| Connection.FirstAnswerWins | src/connection.rs:256-273 | Of frames sent, the first that answers is returned and everything after it stays on the stream |
| ContentAnswers.AnswerReads | src/connection.rs:256-273 | A frame answers a call exactly if it carries the call's id and says a RESULT or an ERROR |
| Merkle.ChunksMeaning | src/manifest.rs:224-230 | The chunks join to the data, all but the last are full, none is empty, and there are ceil(n/size) |
| Merkle.ChunkPlace | src/manifest.rs:224-248 | Chunk k is the data from k*size, and the chunks before it are the data up to there |
| Merkle.TreeCombine | src/manifest.rs:266-276 | A fold pass, odd leaf paired with itself, is the bottom level of the recursive tree |
| Merkle.RootCombine | src/manifest.rs:255-258 | A fold pass keeps the root |
| Merkle.SmallRoots | src/manifest.rs:250-276 | The roots of nothing, of one leaf, of two, and of three with the last one doubled |
| Merkle.PassBinds | src/manifest.rs:266-276 | Equal results of a pass over equally many hashes: equal hashes or a collision |
| Merkle.FoldBinds | src/manifest.rs:250-259 | Equal roots over equally many hashes: equal hashes, or a collision among strings the two folds hashed |
| Merkle.RootBindsData | src/manifest.rs:210-276 | Equal roots over data of equal length: equal data, or a collision among strings hashed for it |
| Manifest.ChunkInfos | src/manifest.rs:232-248 | The loop's running offset gives index, offset, size and hash of every chunk |
| Manifest.RootHashFor | src/manifest.rs:250-259 | The fold loop ends and computes the recursive tree's root, and the hash of nothing for no chunks |
| Manifest.CreateWithCreated | src/manifest.rs:130-160 | The chunks and the manifest of the data |
| Manifest.CreatedChunks | src/manifest.rs:130-160 | In a created manifest entry i has offset i*chunk_size and the hash of exactly those bytes; entries abut and the last ends with the data; there are ceil(n/chunk_size) |
| ManifestParse.CreatedSays | src/manifest.rs:130-160 | Version 1, the name, size, time, chunking and algorithm given, the root of the chunk hashes, and the address of all these |
| ManifestParse.BlockAddress | src/manifest.rs:165-187 | A block's address is 1, 0x55 and the BLAKE3 of its bytes |
| ManifestParse.ManifestAddress | src/manifest.rs:284-303 | A manifest's is 1, 0x56 and its algorithm's hash of the map of its six fields |
| Manifest.Verify | src/manifest.rs:210-222 | Size first, then the root of the data chunked afresh |
| Manifest.CreatedVerifies | src/manifest.rs:130-222 | A manifest accepts the data it was made from |
| Manifest.VerifyBinds | src/manifest.rs:210-276 | Two blobs one manifest accepts are equal, or two different strings hashed for them have one hash |
| ManifestParse.WrongDataRefused | src/manifest.rs:210-222 | Data of another length is `SizeMismatch`; other data of the same length is `RootHashMismatch`, or a collision shows |
| Manifest.McidBinds | src/manifest.rs:284-303 | Equal manifest addresses of one algorithm: equal name, size, chunking and root, or two encodings with one hash |
| Manifest.CreatedMcidBindsData | src/manifest.rs:130-303 | Two blobs published under one manifest address are equal, or a collision shows among the strings hashed to publish them |
| Manifest.InfosRoundTrip | src/manifest.rs:342-435 | A chunk list is read back as it was written, entries normalised |
| Manifest.WireReads | src/manifest.rs:309-340 | A manifest's map repeats no key, nests at most three levels, and reads back field by field |
| Manifest.WireRoundTrip | src/manifest.rs:309-435 | from_wire of the decoded to_wire is the manifest itself, refused exactly for a zero chunk size or a wrong count |
| ManifestParse.FromWireReads | src/manifest.rs:342-435 | Any map is read as a manifest exactly if it says that manifest, its chunk size is not zero and it lists as many chunks as it counts |
| ManifestParse.BadFieldRefused | src/manifest.rs:342-435 | Any other is refused for its first field missing or ill-typed |
| ManifestParse.ChunksRefused | src/manifest.rs:342-435 | Else for its chunk list, then for a zero chunk size, then for the count |
| ManifestParse.InfosRefused | src/manifest.rs:342-435 | A chunk list is refused for its first bad entry |
| FrameSize.SignedSize | src/frame.rs:57-76 | A signed frame over the envelope is at most 12000 bytes longer than its one large field |
| FrameSize.ReplyNoLonger | src/frame.rs:237-297 | A signed RESULT is no longer than a signed CALL whose payload wraps the same value in a map |
| Station.StationServes | src/connection.rs:189-213 | The peer reads from the wire exactly the procedure and normalised payload that were called |
| Station.ClientHears | src/connection.rs:189-213 | The caller hears exactly the reply that was sent for its call id |
| Station.ErrorHeard | src/connection.rs:256-273 | The caller hears exactly the ERROR that was sent for its call id, parsed from its frame |
| Station.CallCases | src/connection.rs:189-213 | What each fate of a call leaves and gives back: a call that arrives is served once, an ERROR may follow its service or stand in for it, a reply or an ERROR is heard exactly when it was sent, its frame fits and it is not lost |
| Station.ServesAlike | plans/PLAN_WIRE_PROTOCOL.md:734-760 | Serving any payload again on any of the four procedures keeps an honest store and gives the same reply |
| Content.ContentStream.CallWithRetry | src/content.rs:317-350 | The attempt loop is the retry recursion |
| ContentRoundTrip.RetryBounds | src/content.rs:317-350 | One to three attempts; a second only after a retryable ERROR; a retryable ERROR is returned only after the third |
| ContentAnswers.RetryCodes | src/bolt4.rs:67-102 | The ten codes that are tried again |
| ContentAnswers.EndsAtOnce | src/content.rs:317-350 | A RESULT, no answer, or an ERROR with any other code ends a call at its first attempt |
| ContentRoundTrip.RetryCases | src/content.rs:317-350 | However often served, the store is as after serving once; a reply is heard exactly when some attempt is served, those before it ended in retryable ERRORs, and all their frames fit |
| ContentRoundTrip.ThreeErrors | src/content.rs:317-350 | Where every turn is served or ends in a retryable ERROR, some attempt is served unless three turns in a row end so |
| ContentRoundTrip.PutBlockCases | src/content.rs:212-235 | A block put succeeds exactly when its call goes through, and is then stored under its own hash; else the store is as before or so, and the network is to blame; never `HashMismatch` or an unexpected reply; frames never stop a block of 256 KiB |
| ContentRoundTrip.GetBlockCases | src/content.rs:263-282 | A block got is the one stored, `NotFound` exactly when none is, exactly when the call goes through, else the network is to blame; nothing changes |
| ContentRoundTrip.PutManifestCases | src/content.rs:237-261 | A manifest put succeeds exactly when its call goes through, and is then stored under its MCID as its normalised map |
| ContentRoundTrip.GetManifestCases | src/content.rs:284-309 | A manifest got is equal to the one put, exactly when the call goes through |
| ContentAnswers.PutBlockAnswers | src/content.rs:212-235 | Whatever the station: the call made, stored exactly on "ok", `HashMismatch` exactly on "hash_mismatch", all else reported as what it is |
| ContentAnswers.PutManifestAnswers | src/content.rs:237-261 | The call made, stored exactly on "ok", all else reported as what it is |
| ContentAnswers.GetBlockAnswers | src/content.rs:263-282 | The call made, exactly a byte string taken, `NotFound` exactly on "not_found", all else reported as what it is |
| ContentAnswers.GetManifestAnswers | src/content.rs:284-309 | The call made, exactly a map that reads as a manifest taken, its complaint reported if it does not |
| ContentAnswers.BlockGetAnswers | src/content.rs:180-186 | A block that does not hash to the address asked for is `HashMismatch`, all else passed on |
| ContentAnswers.WrongChunkEnds | src/content.rs:198-207 | So is a chunk, before another is asked for |
| ContentAnswers.WrongWholeRefused | src/content.rs:208-209 | Blocks that join to other data than the manifest's are refused with the verdict of `verify` |
| ContentAnswers.PutShape | src/content.rs:138-167 | One block up to 262144 bytes, else the chunks of that size and then the manifest, up to the first error |
| ContentAnswers.ServesOwnBlocks | plans/PLAN_WIRE_PROTOCOL.md:734-760 | The station described never stores a block under another's address |
| ContentAnswers.ServesByName | plans/PLAN_WIRE_PROTOCOL.md:734-760 | Its procedures by name: stored or "hash_mismatch", what it has or "not_found" |
| ContentAnswers.CallFrameSays | src/content.rs:317-350 | What is sent says the procedure and payload called, in the realm of 32 zeros |
| ContentRoundTrip.ReplyFitsToo | src/frame.rs:237-297 | The RESULT that brings a manifest back fits wherever some CALL that put it did |
| ContentRoundTrip.ManifestSize | src/manifest.rs:309-340 | A manifest takes at most 200 bytes a chunk, its name and 5500 |
| Content.ContentStream.Put | src/content.rs:138-167 | Single block up to 256 KiB, else every chunk in order, then the manifest, stopping at the first error |
| Content.ContentStream.Get | src/content.rs:170-210 | By codec byte: one rehashed block, or manifest, every block rehashed and appended, then verify; each error where the code gives it |
| PutThenGet.PutCases | src/content.rs:138-167 | A successful put returns the address and leaves exactly its blocks and manifest; it fails only through the network; where every call passes it succeeds exactly when the data is one block or its manifest's call goes through |
| PutThenGet.LaidReadsBack | src/content.rs:155-210 | The stored blocks read back in order join to the data if and only if no two different chunks have one hash |
| PutThenGet.GetCases | src/content.rs:170-210 | From what a put left, a get that the network does not cut short gives the data if and only if no two different chunks collide; where every call passes it is not cut short |
| PutThenGet.PutThenGet | src/content.rs:138-210 | Put then get over any network, any data length: a get that is not cut short gives the data back if and only if no two different chunks collide; where every call passes the put succeeds exactly when its manifest's call goes through, and the get after it is not cut short |
| PutThenGet.LongDataGoes | src/content.rs:155-166 | The manifest of data up to 80000 chunks always goes through where every call passes |
| PutThenGet.AddressKinds | src/manifest.rs:165-187 | A put's address is a manifest's exactly when the data is over 256 KiB, so `get` takes the branch `put` took |
| PutThenGet.BlocksReadMatch | src/content.rs:198-207 | Whatever the station serves, the bytes a get joins are blocks that hash to the addresses asked for, in order |
| PutThenGet.BlockGetsAgree | src/content.rs:180-186 | Two gets of one block address from any stations give equal bytes, or a BLAKE3 collision |
| PutThenGet.ManifestGetsAgree | src/content.rs:188-209 | Two gets served the same manifest, by any stations, give equal bytes, or a collision among strings hashed to verify them |
| PoolLink.StepKeeps | src/pool.rs:497-713 | Every step of every task keeps a link sound: claim flag, claimant, lock holder, failure counter against the dial history, reason for giving up |
| PoolLink.DroppingKeeps | src/pool.rs:658-666 | Dropping a task at an await releases its lock and leaks its claim, and keeps the link sound |
| PoolInvariant.MoveKeeps | src/pool.rs:497-713 | A task's step keeps the whole pool's invariant |
| PoolInvariant.SpawnKeeps | src/pool.rs:638-643 | Spawning hands the claim to the new lifecycle |
| PoolInvariant.PushKeeps | src/pool.rs:990-1004 | Pushing after a separate count keeps the budget and repeats no seed |
| PoolInvariant.CloseKeeps | src/pool.rs:604-615 | Every step of `close` keeps the invariant; if it was heard or no call overlapped it, drained links are dead |
| PoolRuns.NextKeeps | src/pool.rs:429-1004 | Every action of the pool keeps the invariant and removes no link |
| PoolRuns.OneRedial | src/pool.rs:647-713 | In every reachable state a link has at most one claimed or running lifecycle, and one exactly if its flag is set and no task was dropped with the claim |
| PoolRuns.FlagMeansRedial | src/pool.rs:647-671 | In runs without dropped tasks the flag is set exactly while one task redials |
| PoolRuns.LeaksWhenDropped | src/pool.rs:658-671 | A step leaves a claim without a task exactly when it drops the task that holds it, or one had been left before; only a caller's owner and `close` drop tasks |
| PoolRuns.AbandonedWhenDropped | src/pool.rs:638-671 | In every reachable state a link is flagged as redialing with no task redialing it if and only if the run dropped a task that was |
| PoolRuns.OneLockHolder | src/pool.rs:503-520 | At most one task holds a link's state lock, and none while `close` has it |
| PoolRuns.GivesUpRightly | src/pool.rs:215-229 | A link that has given up was discovered, never bootstrap, and its last five dials had all failed |
| PoolGiveUp.GivesUpInTime | src/pool.rs:694-702 | In every reachable state a discovered link whose last five dials all failed has been given up, or is just being judged |
| PoolGiveUp.Judgement | src/pool.rs:695-701 | At the fifth failure a discovered link is given up and its lifecycle ends; otherwise it sleeps and dials again |
| PoolGiveUp.CountAnswers | src/pool.rs:869-890 | Discovery goes on with a row exactly while discovered links not given up are fewer than max_links |
| PoolGiveUp.PushAnswers | src/pool.rs:990-1004 | A row's station is added, as a discovered link, exactly if no link has its seed |
| PoolGiveUp.CallGoesOn | src/pool.rs:503-563 | An answered call is done, a publish goes on to the other links, a failure marks the link, a link without a session is passed over |
| PoolGiveUp.StartsSo | src/pool.rs:429-485 | A new pool has a claimed bootstrap link and a lifecycle per seed, discovery if it is enabled, and nobody yet who holds a receiver of the stop signal |
| PoolGiveUp.ReceiverAnswers | src/pool.rs:678-746 | A receiver is held by discovery from its first poll to its end, by a lifecycle from its first poll until it only has to release its claim |
| PoolGiveUp.SpawnAnswers | src/pool.rs:638-643 | A claim's winner can spawn its lifecycle whenever `close` has not the task lock |
| PoolGiveUp.DropAnswers | src/pool.rs:604-607 | A task can be dropped exactly at an await: a caller at any time, a background task while `close` aborts them |
| PoolGiveUp.DiscoveryEndsSo | src/pool.rs:730-759 | Discovery ends at its first poll under pinned trust, else only once it sees the stop signal |
| PoolGiveUp.StopsSo | src/pool.rs:678-708 | A lifecycle told to stop ends before it dials and out of its sleep, any other goes on |
| PoolRuns.CloseLeavesNothingAlive | src/pool.rs:604-615 | When `close` has returned, heard or not overlapped by a call, every link ever added has no session and is not connected and no lifecycle will dial; and if no call overlapped it, no task is live and no lock or claim is held |
| PoolRuns.ClosedStaysClosed | src/pool.rs:604-615 | Nothing then comes back to life in any continuation |
| PoolRuns.DiscoveryBudget | src/pool.rs:880-1004 | Discovered links that have not given up never exceed max_links; no discovered link shares a seed with an earlier link; the bootstrap seeds come first in order |
| PoolRuns.ListOnlyGrows | src/pool.rs:990-1004 | Until the drain the list is every link ever added, and only grows |
| PoolDiscovery.DiscoveryCanAdd | src/pool.rs:730-1004 | From every reachable open state in which discovery is between rounds, a link is up, a slot is free and a station is not the pool's, some run without dropped tasks adds it as the next link, connects it and brings discovery to its next round |
| PoolDiscovery.CallsOut | src/pool.rs:617-626 | Discovery calls out between rounds, over any of the pool's links, each once |
| PoolDiscovery.AsksConnected | src/pool.rs:811-842 | It asks a link for records, or for its node id, only if it saw it connected |
| PoolDiscovery.AsksUnderLock | src/pool.rs:811-842 | It does so under the link's lock, waiting for nothing else |
| PoolDiscovery.PassesOver | src/pool.rs:885-928 | A row passed over leads to the next one, the last row to the next round |
| PoolRevival.NextRevives | src/pool.rs:604-713 | Whatever the action, a link keeps its chance of coming up exactly if it had one and the action does not take the last one; a link without a chance is not dialed |
| PoolRevival.LostOnTheWay | src/pool.rs:604-713 | In every reachable state a link can come up if and only if no action of the run took its last chance |
| PoolQuiesce.SomethingGoes | src/pool.rs:497-713 | After a `close` nobody hears, while any caller or lifecycle is left one can take a step, never stuck on the links' locks, that leaves less to do and keeps a link's chance |
| PoolQuiesce.LinkGoes | src/pool.rs:497-713 | In an open pool a link with a chance that is not up has a task that can take a step towards it: the holder of its lock, else of its claim, else one after the claim |
| PoolLimits.ComesUpAgain | src/pool.rs:617-713 | In every reachable open state a link can be connected, unflagged and unlocked again, by a run with or without dropped tasks, if and only if its claim is not abandoned and it has a session or a task that can lead to one |
| PoolLimits.LostStays | src/pool.rs:617-713 | A link without a chance never gets one, is never dialed again and gets no session |
| PoolLimits.BootstrapLoses | src/pool.rs:629-671 | While the pool is open and drops no task, a step takes a bootstrap link's last chance if and only if its last failed call finds the claim held by a lifecycle that has done its dialing |
| PoolLimits.LinkCanBeForgotten | src/pool.rs:629-693 | From any start with a seed, with no task dropped, the open pool can forget a bootstrap link: down, unflagged, not given up, never dialed again |
| PoolLimits.ForgottenLinkCanLookUp | src/pool.rs:629-693 | The same with the link shown as connected |
| PoolLimits.OvertakenWhenWonOver | src/pool.rs:647-671 | At some time of a run a redial is about to replace a session that is set if and only if the run wins a claim while one is set |
| PoolLimits.SessionCanBeOvertaken | src/pool.rs:629-713 | From any start with a seed, with no task dropped and the pool open, a lifecycle can dial while its link has a session that calls see |
| PoolLimits.ClaimCanLeak | src/pool.rs:638-643 | From any start with a seed a caller can be dropped with a claim, leaving its link down and flagged with the pool open |
| PoolLimits.AbandonedStays | src/pool.rs:638-652 | An abandoned claim stays set in every run, and its link is never dialed again |
| PoolClose.UnheardCloseLeavesALink | src/pool.rs:604-643 | Any link that can come up when nobody holds a receiver does so in some run, after `close` has returned |
| PoolClose.CloseIsFinal | src/pool.rs:604-713 | In every reachable open state but the one case `PoolClose.Undecided` names, `close` leaves every link dead in every run if and only if some task holds a receiver of the stop signal or no link can come up |
| PoolClose.ClosedPoolComesAlive | src/pool.rs:604-615 | With one seed and no discovery a run from the start closes the pool and then connects its link again |
| PoolFinish.CloseCanFinish | src/pool.rs:604-615 | From every reachable state in which `close` has been called some run takes it to its end: no task and no lock can keep it for ever |

## Left out

- QUIC, TLS and X.509, key stores, UniFFI wrappers, real clocks and sleeps: I/O and foreign libraries; a timeout is a call's fate, a sleep a step.
- The insides of BLAKE3, SHA-256 and Ed25519.
- Ieee.SingleIsExact: which NaN a binary32 NaN widens to; the model quiets it as hardware does, the language leaves it open.
- Vector capacities and allocation: values of `with_capacity` change no result.
- Field-by-field parsers other than those of CALL, RESULT, ERROR, HELLO and manifests repeat these.
- GOODBYE, PUBLISH, SUBSCRIBE, ADVERTISE and stream frame builders; the publisher signature results hold of any map.
- UCAN and JSON tokens, stream-mode enums, Display texts, BOLT#4 names, telemetry announcements, DHT records and direct dialing.
- Opening the dedicated stream (`OpenStream` errors), and the bytes a timed-out earlier call may still deliver: each call of `Station` reads a stream that begins with its reply; `Connection.FirstAnswerWins` covers frames in front of it.
- Manifests in get: the code checks the data against the manifest it was served, not the manifest against the address asked for, and no theorem says otherwise. `get` rehashes blocks with BLAKE3 whatever the manifest's algorithm, as the code does; the round trip is for manifests `put` makes.
- Interference between put and get: the round trip is from the store the put left.
- The pool is a step system on values, not a class, since its results are about interleavings; `peer_node_id`, `status` and `links` are not part of the state, so whether `has_link_for_node_id` finds a row's node is left open.
- PoolClose.CloseIsFinal: leaves open whether `close` is final where discovery has been spawned and not yet polled, nobody holds a receiver, no link can come up, and a link whose claim is abandoned has a session that discovery might ask.
- A second call of `close`.
- Wrap-around of `consecutive_failures` after 2^32 failed dials of a bootstrap link: the counter is unbounded.
- That a stale failure never clears a fresh session (src/pool.rs:246-257): it rests on the order in which tasks queue for a link's lock, which the model does not record. That every disconnect is followed by a redial is false, as "Findings" says.
- Progress in every run: that a dial, an await or a lock wait ends is not part of the pool model; `PoolFinish.CloseCanFinish` is about some run.
- The handshake's 30-second limit, and what is dialed: dialing, opening and writing are `Handshake.Fault`.
