/** The signed frame layer: signatures over canonical bytes, the end-to-end
    publisher signature, and the length-prefixed wire codec (src/frame.rs). */
module Frame {
  import opened ByteStrings
  import opened ByteOrder
  import opened Wrappers
  import opened CborValue
  import opened CborParse
  import opened CborSound
  import opened CborRoundTrip
  import opened CborFields
  import opened CborRecords
  import Utf8

  // --- Ed25519, by what it promises --------------------------------------------------

  /** A signature scheme; a secret key is any byte string. */
  datatype Scheme = Scheme(
    pub: seq<byte> -> Id32,
    sign: (seq<byte>, seq<byte>) -> Sig64,
    verify: (seq<byte>, seq<byte>, seq<byte>) -> bool)

  /** A signature by a key verifies under that key's public half. */
  ghost predicate Correct(s: Scheme) {
    forall key, msg :: s.verify(msg, s.sign(key, msg), s.pub(key))
  }

  type Ed25519 = s: Scheme | Correct(s)
    ghost witness Scheme(key => ToBE(0, 32), (key, msg) => ToBE(0, 64), (msg, sig, pub) => true)

  // --- the per-hop signature ------------------------------------------------------

  const SIG_DOMAIN: seq<byte> := Utf8.Encode("macula-v2-frame\0")

  const SIGNATURE_FIELDS: set<string> := {"signature", "publisher_sig"}

  function SignableBytes(frame: Value): seq<byte> {
    SIG_DOMAIN + Enc(Without(frame, SIGNATURE_FIELDS))
  }

  function Sign(ed: Ed25519, frame: Value, key: seq<byte>): Value {
    WithField(frame, "signature", Bytes(ed.sign(key, SignableBytes(frame))))
  }

  datatype VerifyError = MissingSignature | BadSignature | SignatureInvalid

  function Verify(ed: Ed25519, frame: Value, pubkey: seq<byte>): Result<(), VerifyError> {
    match Get(frame, "signature")
    case Some(Bytes(sig)) =>
      if |sig| != 64 then Err(BadSignature)
      else if ed.verify(SignableBytes(frame), sig, pubkey) then Ok(())
      else Err(SignatureInvalid)
    case _ => Err(MissingSignature)
  }

  // --- the publisher's end-to-end signature --------------------------------------------

  const EVENT_PUBLISHER_DOMAIN: seq<byte> := Utf8.Encode("macula-v2-event-pub\0")

  const PUBLISHER_FIELDS: seq<string> := ["topic", "realm", "publisher", "seq", "payload"]

  function FieldOrNull(frame: Value, key: string): Value {
    match Get(frame, key)
    case Some(v) => v
    case None => Null
  }

  function PublisherEntries(frame: Value): (r: seq<Entry>)
    ensures |r| == |PUBLISHER_FIELDS|
    ensures forall i :: 0 <= i < |r| ==>
      r[i] == Entry(Text(PUBLISHER_FIELDS[i]), FieldOrNull(frame, PUBLISHER_FIELDS[i]))
  {
    seq(|PUBLISHER_FIELDS|, i requires 0 <= i < |PUBLISHER_FIELDS| =>
      Entry(Text(PUBLISHER_FIELDS[i]), FieldOrNull(frame, PUBLISHER_FIELDS[i])))
  }

  function PublisherSigningBytes(frame: Value): seq<byte> {
    EVENT_PUBLISHER_DOMAIN + Enc(Map(PublisherEntries(frame)))
  }

  function SignPublisher(ed: Ed25519, frame: Value, key: seq<byte>): Value {
    WithField(frame, "publisher_sig", Bytes(ed.sign(key, PublisherSigningBytes(frame))))
  }

  datatype VerifyPublisherError = MissingPublisherSig | BadPublisherSig | PublisherSigInvalid

  /** The verdict on the `publisher_sig` and `publisher` fields over the signed bytes. */
  function PublisherVerdict(ed: Ed25519, sig: Option<Value>, publisher: Option<Value>, signed: seq<byte>)
    : Result<(), VerifyPublisherError> {
    match sig
    case Some(Bytes(s)) =>
      if |s| != 64 then Err(BadPublisherSig)
      else (match publisher
            case Some(Bytes(pubkey)) =>
              if |pubkey| != 32 then Err(BadPublisherSig)
              else if ed.verify(signed, s, pubkey) then Ok(())
              else Err(PublisherSigInvalid)
            case _ => Err(BadPublisherSig))
    case _ => Err(MissingPublisherSig)
  }

  function VerifyPublisher(ed: Ed25519, frame: Value): Result<(), VerifyPublisherError> {
    PublisherVerdict(ed, Get(frame, "publisher_sig"), Get(frame, "publisher"), PublisherSigningBytes(frame))
  }

  // --- the wire ------------------------------------------------------------------------

  const MAX_FRAME_BYTES := 0x00FF_FFFF

  datatype EncodeFrameError = TooLarge(n: nat) | IntOutOfRange(bad: int)

  function Encode(frame: Value): Result<seq<byte>, EncodeFrameError> {
    match FirstBad(frame)
    case Some(n) => Err(IntOutOfRange(n))
    case None =>
      var payload := Enc(frame);
      if |payload| > MAX_FRAME_BYTES then Err(EncodeFrameError.TooLarge(|payload|))
      else Ok(ToBE(|payload|, 4) + payload)
  }

  /** A whole frame and the bytes it took, or how many more are needed. */
  datatype Decoded = Frame(value: Value, consumed: nat) | More(n: nat)

  datatype DecodeFrameError = TooLarge(n: nat) | Cbor(error: DecodeError)

  function Decode(buf: seq<byte>): Result<Decoded, DecodeFrameError> {
    if |buf| < 4 then Ok(More(4 - |buf|))
    else
      var len := FromBE(buf[..4]);
      if len > MAX_FRAME_BYTES then Err(DecodeFrameError.TooLarge(len))
      else if |buf| < 4 + len then Ok(More(4 + len - |buf|))
      else match CborParse.Decode(buf[4..4 + len])
        case Ok(v) => Ok(Frame(v, 4 + len))
        case Err(e) => Err(Cbor(e))
  }

  /** A value `Encode` accepts and the peer's decoder accepts back. */
  ghost predicate Sendable(frame: Value) {
    Proper(frame) && Height(frame) <= MAX_NESTING_DEPTH && |Enc(frame)| <= MAX_FRAME_BYTES
  }

  // --- framing --------------------------------------------------------------------

  lemma {:induction false} EncodeSendable(frame: Value)
    requires Sendable(frame)
    ensures Encode(frame) == Ok(ToBE(|Enc(frame)|, 4) + Enc(frame))
  {
    ProperFirstBad(frame);
  }

  /** The wire bytes of a frame, with any bytes after them, decode to its normal form
      and consume exactly themselves. */
  lemma {:induction false} DecodeEncoded(frame: Value, tail: seq<byte>)
    requires Sendable(frame)
    ensures Encode(frame).Ok?
    ensures Decode(Encode(frame).value + tail) == Ok(Frame(Norm(frame), |Encode(frame).value|))
  {
    hide Enc, Norm, CborParse.Decode, Height, Encodable, DistinctKeys;
    EncodeSendable(frame);
    var payload := Enc(frame);
    var len := ToBE(|payload|, 4);
    var buf := len + payload + tail;
    assert buf == Encode(frame).value + tail;
    Widths();
    FromToBE(|payload|, 4);
    assert buf[..4] == len && buf[4..4 + |payload|] == payload;
    DecodeEnc(frame);
  }

  /** A verdict on a buffer stands whatever is appended to it. */
  lemma {:induction false} VerdictStands(buf: seq<byte>, more: seq<byte>)
    requires Decode(buf).Err? || Decode(buf).value.Frame?
    ensures Decode(buf + more) == Decode(buf)
    ensures Decode(buf).Ok? ==> 4 <= Decode(buf).value.consumed <= |buf|
  {
    hide CborParse.Decode;
    assert (buf + more)[..4] == buf[..4];
    var len := FromBE(buf[..4]);
    if |buf| >= 4 + len { assert (buf + more)[4..4 + len] == buf[4..4 + len]; }
  }

  /** `More(n)` counts down by what arrives, until the prefix or the frame is whole. */
  lemma {:induction false} MoreCountsDown(buf: seq<byte>, more: seq<byte>)
    requires Decode(buf).Ok? && Decode(buf).value.More? && |more| < Decode(buf).value.n
    ensures Decode(buf + more) == Ok(More(Decode(buf).value.n - |more|))
  {
    hide CborParse.Decode;
    if |buf| >= 4 { assert (buf + more)[..4] == buf[..4]; }
  }

  // --- the signature survives the wire -------------------------------------------------

  lemma {:induction false} SignedVerifies(ed: Ed25519, frame: Value, key: seq<byte>)
    requires frame.Map?
    ensures Verify(ed, Sign(ed, frame, key), ed.pub(key)) == Ok(())
  {
    hide Enc, Find, Filter;
    var sig := Bytes(ed.sign(key, SignableBytes(frame)));
    GetWithField(frame, "signature", sig);
    WithoutSet(frame, "signature", sig, SIGNATURE_FIELDS);
  }

  /** Verification does not see the order the decoder gives map entries. */
  lemma {:induction false} VerifyNorm(ed: Ed25519, frame: Value, pubkey: seq<byte>)
    requires frame.Map? && DistinctKeys(frame)
    ensures Verify(ed, Norm(frame), pubkey) == Verify(ed, frame, pubkey)
  {
    hide Enc, Get, Without, Norm;
    GetNorm(frame, "signature");
    WithoutNorm(frame, SIGNATURE_FIELDS);
    NormOfBytes(Get(frame, "signature"));
  }

  /** Normalisation changes neither a byte string nor whether a field is one. */
  lemma {:induction false} NormOfBytes(o: Option<Value>)
    ensures o.Some? && o.value.Bytes? ==> NormOption(o) == o
    ensures NormOption(o).Some? && NormOption(o).value.Bytes? ==> NormOption(o) == o
  {
  }

  lemma {:induction false} SignatureNamesShort()
    ensures |Utf8.Encode("signature")| < TWO64 && |Utf8.Encode("publisher_sig")| < TWO64
  {
    ShortText("signature");
    ShortText("publisher_sig");
  }

  /** Signing keeps a frame proper and no deeper than it must be. */
  lemma {:induction false} SignKeepsProper(ed: Ed25519, frame: Value, key: seq<byte>)
    requires frame.Map? && Proper(frame) && |frame.entries| + 1 < TWO64
    ensures Proper(Sign(ed, frame, key)) && Height(Sign(ed, frame, key)) <= Max(Height(frame), 1)
  {
    hide Enc, Utf8.Encode, SignableBytes;
    SignatureNamesShort();
    WithFieldProper(frame, "signature", Bytes(ed.sign(key, SignableBytes(frame))));
  }

  lemma {:induction false} EncNonempty(v: Value)
    ensures |Enc(v)| >= 1
  {
    hide EncItems, EncEntries, Sorted, Join, Utf8.Encode, ToBE, ExtraBytes;
  }

  /** A map's encoding has at least a byte for every entry. */
  lemma {:induction false} EntriesWithin(es: seq<Entry>)
    ensures |es| <= |Join(EncEntries(es))|
  {
    hide Enc;
    if es != [] {
      EntriesWithin(es[1..]);
      EncNonempty(es[0].key);
      assert EncEntries(es)[1..] == EncEntries(es[1..]);
    }
  }

  lemma {:induction false} MapLengthAtLeast(es: seq<Entry>)
    ensures |es| <= |Enc(Map(es))|
  {
    hide Enc, EncEntries, Join, Sorted;
    EntriesWithin(es);
    SortedLength(EncEntries(es));
    MapBytes(es);
  }

  lemma {:induction false} FieldCount(v: Value, key: string, val: Value)
    requires v.Map? && |Enc(WithField(v, key, val))| <= MAX_FRAME_BYTES
    ensures WithField(v, key, val).Map? && |v.entries| <= MAX_FRAME_BYTES
  {
    hide Enc, Find;
    MapLengthAtLeast(WithField(v, key, val).entries);
  }

  /** Within the size and depth limits, what the peer decodes from a signed frame, with
      any bytes after it, is its normal form and verifies under the signer's key. */
  lemma {:induction false} SignatureSurvivesTheWire(ed: Ed25519, frame: Value, key: seq<byte>, tail: seq<byte>)
    requires frame.Map? && Proper(frame) && Height(frame) <= MAX_NESTING_DEPTH
    requires |Enc(Sign(ed, frame, key))| <= MAX_FRAME_BYTES
    ensures var signed := Sign(ed, frame, key);
      && Sendable(signed)
      && Encode(signed).Ok?
      && Decode(Encode(signed).value + tail) == Ok(Frame(Norm(signed), |Encode(signed).value|))
      && Verify(ed, Norm(signed), ed.pub(key)) == Ok(())
  {
    hide Enc, Encode, Decode, Norm, Verify, Encodable, DistinctKeys, Height, SignableBytes, WithField;
    var signed := Sign(ed, frame, key);
    FieldCount(frame, "signature", Bytes(ed.sign(key, SignableBytes(frame))));
    SignKeepsProper(ed, frame, key);
    hide Sign;
    DecodeEncoded(signed, tail);
    SignedVerifies(ed, frame, key);
    VerifyNorm(ed, signed, ed.pub(key));
  }

  // --- two signatures on one frame ------------------------------------------------------

  lemma {:induction false} PublisherFieldNames()
    ensures forall i :: 0 <= i < |PUBLISHER_FIELDS| ==>
      PUBLISHER_FIELDS[i] != "signature" && PUBLISHER_FIELDS[i] != "publisher_sig"
    ensures forall i, j :: 0 <= i < j < |PUBLISHER_FIELDS| ==> PUBLISHER_FIELDS[i] != PUBLISHER_FIELDS[j]
  {
    assert |"topic"| == 5 && |"realm"| == 5 && |"publisher"| == 9 && |"seq"| == 3 && |"payload"| == 7;
    assert "topic"[0] == 't' && "realm"[0] == 'r' && "publisher"[0] == 'p' && "signature"[0] == 's';
  }

  /** Neither signature is part of what the publisher signs. */
  lemma {:induction false} PublisherBytesIgnore(frame: Value, key: string, val: Value)
    requires key == "signature" || key == "publisher_sig"
    ensures PublisherSigningBytes(WithField(frame, key, val)) == PublisherSigningBytes(frame)
  {
    hide Enc, WithField, Get;
    PublisherFieldNames();
    var after := WithField(frame, key, val);
    forall i | 0 <= i < |PUBLISHER_FIELDS| ensures PublisherEntries(after)[i] == PublisherEntries(frame)[i] {
      GetOtherField(frame, key, val, PUBLISHER_FIELDS[i]);
    }
    assert PublisherEntries(after) == PublisherEntries(frame);
  }

  lemma {:induction false} PublisherSignedVerifies(ed: Ed25519, frame: Value, key: seq<byte>)
    requires frame.Map? && Get(frame, "publisher") == Some(Bytes(ed.pub(key)))
    ensures VerifyPublisher(ed, SignPublisher(ed, frame, key)) == Ok(())
  {
    hide Enc, WithField, Get, PublisherSigningBytes;
    var sig := Bytes(ed.sign(key, PublisherSigningBytes(frame)));
    GetWithField(frame, "publisher_sig", sig);
    GetOtherField(frame, "publisher_sig", sig, "publisher");
    PublisherBytesIgnore(frame, "publisher_sig", sig);
  }

  lemma {:induction false} HopVerdictKept(ed: Ed25519, frame: Value, sig: Value, pubkey: seq<byte>)
    ensures Verify(ed, WithField(frame, "publisher_sig", sig), pubkey) == Verify(ed, frame, pubkey)
  {
    hide Enc, WithField, Get, Without;
    GetOtherField(frame, "publisher_sig", sig, "signature");
    WithoutSet(frame, "publisher_sig", sig, SIGNATURE_FIELDS);
  }

  lemma {:induction false} PublisherVerdictKept(ed: Ed25519, frame: Value, sig: Value)
    ensures VerifyPublisher(ed, WithField(frame, "signature", sig)) == VerifyPublisher(ed, frame)
  {
    hide WithField, Get, PublisherSigningBytes, PublisherVerdict;
    PublisherBytesIgnore(frame, "signature", sig);
    GetOtherField(frame, "signature", sig, "publisher_sig");
    GetOtherField(frame, "signature", sig, "publisher");
  }

  /** Both signatures hold in whichever order they are added. */
  lemma {:induction false} BothSignaturesEitherOrder(ed: Ed25519, frame: Value, hop: seq<byte>, publisher: seq<byte>)
    requires frame.Map? && Get(frame, "publisher") == Some(Bytes(ed.pub(publisher)))
    ensures var a := SignPublisher(ed, Sign(ed, frame, hop), publisher);
      Verify(ed, a, ed.pub(hop)) == Ok(()) && VerifyPublisher(ed, a) == Ok(())
    ensures var b := Sign(ed, SignPublisher(ed, frame, publisher), hop);
      Verify(ed, b, ed.pub(hop)) == Ok(()) && VerifyPublisher(ed, b) == Ok(())
  {
    hide Enc, Get, Verify, VerifyPublisher, PublisherSigningBytes, SignableBytes;
    var signed, published := Sign(ed, frame, hop), SignPublisher(ed, frame, publisher);
    GetOtherField(frame, "signature", Bytes(ed.sign(hop, SignableBytes(frame))), "publisher");
    SignedVerifies(ed, frame, hop);
    PublisherSignedVerifies(ed, signed, publisher);
    HopVerdictKept(ed, signed, Bytes(ed.sign(publisher, PublisherSigningBytes(signed))), ed.pub(hop));
    PublisherSignedVerifies(ed, frame, publisher);
    SignedVerifies(ed, published, hop);
    PublisherVerdictKept(ed, published, Bytes(ed.sign(hop, SignableBytes(published))));
  }

  // --- relays -----------------------------------------------------------------------

  /** The two frames say the same under `key`, up to the order of map entries. */
  ghost predicate Agree(f: Value, g: Value, key: string) {
    Norm(FieldOrNull(f, key)) == Norm(FieldOrNull(g, key))
  }

  /** The two frames say the same under each of the five names a publisher signs for. */
  ghost predicate SameEvent(f: Value, g: Value) {
    && Agree(f, g, "topic")
    && Agree(f, g, "realm")
    && Agree(f, g, "publisher")
    && Agree(f, g, "seq")
    && Agree(f, g, "payload")
  }

  lemma {:induction false} SameEventFields(f: Value, g: Value)
    ensures SameEvent(f, g) <==> forall i :: 0 <= i < |PUBLISHER_FIELDS| ==> Agree(f, g, PUBLISHER_FIELDS[i])
  {
    hide Agree;
    var p := PUBLISHER_FIELDS;
    if forall i :: 0 <= i < |p| ==> Agree(f, g, p[i]) {
      assert Agree(f, g, p[0]) && Agree(f, g, p[1]) && Agree(f, g, p[2]) && Agree(f, g, p[3]) && Agree(f, g, p[4]);
    }
  }

  /** `g` may be any frame that keeps what `f`'s publisher signed, and the signature. */
  ghost predicate Carries(f: Value, g: Value) {
    && SameEvent(f, g)
    && NormOption(Get(g, "publisher_sig")) == NormOption(Get(f, "publisher_sig"))
    && NormOption(Get(g, "publisher")) == NormOption(Get(f, "publisher"))
  }

  lemma {:induction false} FieldDistinct(f: Value, key: string)
    requires DistinctKeys(f)
    ensures DistinctKeys(FieldOrNull(f, key))
  {
  }

  lemma {:induction false} EncEntriesAlike(es: seq<Entry>, fs: seq<Entry>)
    requires |es| == |fs| && forall i :: 0 <= i < |es| ==> es[i].key == fs[i].key && Enc(es[i].val) == Enc(fs[i].val)
    ensures EncEntries(es) == EncEntries(fs)
  {
    hide Enc;
  }

  lemma {:induction false} AgreedFieldEncodesAlike(f: Value, g: Value, key: string)
    requires DistinctKeys(f) && DistinctKeys(g) && Agree(f, g, key)
    ensures Enc(FieldOrNull(f, key)) == Enc(FieldOrNull(g, key))
  {
    hide DistinctKeys, Norm, Enc, FieldOrNull;
    FieldDistinct(f, key);
    FieldDistinct(g, key);
    EncNorm(FieldOrNull(f, key));
    EncNorm(FieldOrNull(g, key));
  }

  /** Agreement on the five fields is agreement on the signed bytes. */
  lemma {:induction false} SamePublisherBytes(f: Value, g: Value)
    requires DistinctKeys(f) && DistinctKeys(g) && SameEvent(f, g)
    ensures PublisherSigningBytes(f) == PublisherSigningBytes(g)
  {
    var es, fs := PublisherEntries(f), PublisherEntries(g);
    SameEventFields(f, g);
    hide DistinctKeys, FieldOrNull, Enc, Agree, PublisherEntries;
    forall i | 0 <= i < |es| ensures Enc(es[i].val) == Enc(fs[i].val) {
      AgreedFieldEncodesAlike(f, g, PUBLISHER_FIELDS[i]);
    }
    EncEntriesAlike(es, fs);
    MapBytes(es);
    MapBytes(fs);
  }

  /** A map's bytes depend only on its encoded entries. */
  lemma {:induction false} MapBytes(es: seq<Entry>)
    ensures Enc(Map(es)) == Head(5, Wrap(|es|)) + Join(Sorted(EncEntries(es)))
  {
  }

  lemma {:induction false} CarriedVerifies(ed: Ed25519, f: Value, g: Value)
    requires DistinctKeys(f) && DistinctKeys(g) && Carries(f, g) && VerifyPublisher(ed, f) == Ok(())
    ensures VerifyPublisher(ed, g) == Ok(())
  {
    SamePublisherBytes(f, g);
    hide PublisherSigningBytes, Get, DistinctKeys, Agree;
    BytesNorm(Get(f, "publisher_sig"), Get(g, "publisher_sig"));
    BytesNorm(Get(f, "publisher"), Get(g, "publisher"));
  }

  /** Only the bytes themselves have a byte string as normal form. */
  lemma {:induction false} BytesNorm(a: Option<Value>, b: Option<Value>)
    requires NormOption(a) == NormOption(b) && a.Some? && a.value.Bytes?
    ensures a == b
  {
  }

  /** One hop: encoded, decoded by the next station, and re-sent in any frame that
      carries the publisher's fields on. */
  ghost predicate Hop(f: Value, g: Value) {
    f.Map? && g.Map? && Sendable(f) && DistinctKeys(g) && Carries(Norm(f), g)
  }

  lemma {:induction false} NormCarries(f: Value)
    requires f.Map? && Proper(f)
    ensures Carries(f, Norm(f))
  {
    hide Enc, Get, Norm, DistinctKeys;
    forall i | 0 <= i < |PUBLISHER_FIELDS| ensures Agree(f, Norm(f), PUBLISHER_FIELDS[i]) {
      NormField(f, PUBLISHER_FIELDS[i]);
      NormOfNull();
    }
    SameEventFields(f, Norm(f));
    NormField(f, "publisher_sig");
    NormField(f, "publisher");
  }

  lemma {:induction false} NormOfNull()
    ensures Norm(Null) == Null
  {
  }

  lemma {:induction false} NormField(f: Value, key: string)
    requires f.Map? && Proper(f)
    ensures Get(Norm(f), key) == NormOption(Get(f, key))
    ensures NormOption(Get(Norm(f), key)) == NormOption(Get(f, key))
  {
    hide Enc;
    GetNorm(f, key);
    var i := Find(f.entries, key);
    if i < |f.entries| {
      ProperEntries(f.entries);
      assert ProperEntry(f.entries[i]);
      NormProper(f.entries[i].val);
    }
  }

  lemma {:induction false} HopKeepsSignature(ed: Ed25519, f: Value, g: Value)
    requires Hop(f, g) && VerifyPublisher(ed, f) == Ok(())
    ensures DistinctKeys(g) && VerifyPublisher(ed, g) == Ok(())
  {
    hide VerifyPublisher, Carries, Norm, Enc, DistinctKeys, Encodable, Height;
    NormCarries(f);
    NormProper(f);
    CarriedVerifies(ed, f, Norm(f));
    CarriedVerifies(ed, Norm(f), g);
  }

  /** A publisher signature made once verifies at the end of any chain of hops, whatever
      else the frames along the way say. */
  lemma {:induction false} PublisherSignatureSurvivesRelays(ed: Ed25519, path: seq<Value>)
    requires path != [] && VerifyPublisher(ed, path[0]) == Ok(())
    requires forall i :: 0 <= i < |path| - 1 ==> Hop(path[i], path[i + 1])
    ensures VerifyPublisher(ed, path[|path| - 1]) == Ok(())
    decreases |path|
  {
    hide VerifyPublisher, Hop;
    if |path| > 1 {
      HopKeepsSignature(ed, path[0], path[1]);
      PublisherSignatureSurvivesRelays(ed, path[1..]);
    }
  }
}
