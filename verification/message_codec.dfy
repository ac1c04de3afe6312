/** The `CATCHER-CMP-1` envelope and the message encode/decode pair built on it. */
module MessageCodec {
  import opened Prelude

  // "CATCHER-CMP-1"
  const MAGIC: Bytes := [67, 65, 84, 67, 72, 69, 82, 45, 67, 77, 80, 45, 49]
  const ALGORITHM_GZIP: byte := 1
  const ALGORITHM_ZSTD: byte := 2
  const KIND_TEXT: byte := 1
  const KIND_BINARY: byte := 2
  const HEADER_LENGTH: nat := 19

  datatype Algorithm = Gzip | Zstd

  datatype CodecError =
    | PayloadTooLong
    | CompressorFailed
    | Truncated
    | UnknownAlgorithm
    | BeyondMaxPayload
    | DecompressorFailed
    | LengthMismatch
    | UnknownKind

  /** A decompressing reader: the bytes it yields, then end of input or a failure. */
  datatype Reader = Reader(output: Bytes, fails: bool)

  /** The compression and msgpack libraries, as opaque functions. */
  datatype Libraries = Libraries(
    compress: (Algorithm, Bytes) -> Option<Bytes>,
    reader: (Algorithm, Bytes) -> Option<Reader>,
    jsonToMsgpack: Bytes -> Option<Bytes>,
    msgpackToJson: Bytes -> Option<Bytes>
  )

  datatype CompressionConfig = CompressionConfig(enabled: bool, algorithm: Algorithm, thresholdBytes: nat)

  datatype CodecConfig = CodecConfig(
    libraries: Libraries,
    perMessageDeflate: bool,
    applicationCompression: Option<CompressionConfig>,
    maxPayloadBytes: u64,
    msgpack: bool
  )

  datatype Envelope = Envelope(data: Bytes, isBinary: bool)

  datatype Frame = TextFrame(payload: Bytes) | BinaryFrame(payload: Bytes)

  /** What an application hands over, and what the receiving application is given. */
  datatype Message = Message(data: Bytes, isBinary: bool)

  /** The only law asked of a compressor: its own reader gives the input back. */
  ghost predicate Lossless(libraries: Libraries) {
    forall algorithm, data {:trigger libraries.compress(algorithm, data)} ::
      libraries.compress(algorithm, data).Some? ==>
        libraries.reader(algorithm, libraries.compress(algorithm, data).value) == Some(Reader(data, false))
  }

  function ToBigEndian(n: nat): Bytes
    requires n <= U32_MAX
  {
    [(n / 0x100_0000) as byte, (n / 0x1_0000 % 0x100) as byte, (n / 0x100 % 0x100) as byte, (n % 0x100) as byte]
  }

  function FromBigEndian(b: Bytes): nat
    requires |b| == 4
  {
    b[0] as nat * 0x100_0000 + b[1] as nat * 0x1_0000 + b[2] as nat * 0x100 + b[3] as nat
  }

  lemma BigEndianRoundTrip(n: nat)
    requires n <= U32_MAX
    ensures FromBigEndian(ToBigEndian(n)) == n
  {
    LowestDigit(n, n / 0x100);
    LowestDigit(n / 0x100, n / 0x1_0000);
    LowestDigit(n / 0x1_0000, n / 0x100_0000);
  }

  lemma LowestDigit(n: nat, rest: nat)
    requires rest == n / 0x100
    ensures n == rest * 0x100 + n % 0x100
  {
  }

  function AlgorithmToWire(algorithm: Algorithm): byte {
    match algorithm
    case Gzip => ALGORITHM_GZIP
    case Zstd => ALGORITHM_ZSTD
  }

  function WireToAlgorithm(value: byte): Option<Algorithm> {
    if value == ALGORITHM_GZIP then Some(Gzip)
    else if value == ALGORITHM_ZSTD then Some(Zstd)
    else None
  }

  function EncodeFrame(libraries: Libraries, data: Bytes, isBinary: bool, config: CompressionConfig)
    : Result<Option<Bytes>, CodecError>
  {
    if !config.enabled || |data| < config.thresholdBytes then Ok(None)
    else if |data| > U32_MAX then Err(PayloadTooLong)
    else
      match libraries.compress(config.algorithm, data)
      case None => Err(CompressorFailed)
      case Some(compressed) =>
        Ok(Some(MAGIC
                + [AlgorithmToWire(config.algorithm), if isBinary then KIND_BINARY else KIND_TEXT]
                + ToBigEndian(|data|)
                + compressed))
  }

  /** The encoder as written: the frame is filled field by field. */
  method FillFrame(libraries: Libraries, data: Bytes, isBinary: bool, config: CompressionConfig)
    returns (r: Result<Option<Bytes>, CodecError>)
    ensures r == EncodeFrame(libraries, data, isBinary, config)
  {
    if !config.enabled || |data| < config.thresholdBytes {
      return Ok(None);
    }
    if |data| > U32_MAX {
      return Err(PayloadTooLong);
    }
    var compressed := libraries.compress(config.algorithm, data);
    if compressed.None? {
      return Err(CompressorFailed);
    }
    var frame: Bytes := [];
    frame := frame + MAGIC;
    frame := frame + [AlgorithmToWire(config.algorithm)];
    frame := frame + [if isBinary then KIND_BINARY else KIND_TEXT];
    frame := frame + ToBigEndian(|data|);
    frame := frame + compressed.value;
    assert frame == EncodeFrame(libraries, data, isBinary, config).value.value;
    r := Ok(Some(frame));
  }

  /** `take(max + 1)` then `read_to_end`; the increment is 64-bit and wraps. */
  function ReadLimited(reader: Reader, max: u64): Result<Bytes, CodecError> {
    var limit := (max + 1) % U64_MODULUS;
    if limit > |reader.output| && reader.fails then Err(DecompressorFailed)
    else
      var decoded := reader.output[..Min(limit, |reader.output|)];
      if |decoded| > max then Err(BeyondMaxPayload) else Ok(decoded)
  }

  function DecodeFrame(libraries: Libraries, data: Bytes, max: u64): Result<Option<Envelope>, CodecError> {
    if !(MAGIC <= data) then Ok(None)
    else if |data| < HEADER_LENGTH then Err(Truncated)
    else
      match WireToAlgorithm(data[13])
      case None => Err(UnknownAlgorithm)
      case Some(algorithm) =>
        var expected := FromBigEndian(data[15..19]);
        if expected > max then Err(BeyondMaxPayload)
        else
          match libraries.reader(algorithm, data[HEADER_LENGTH..])
          case None => Err(DecompressorFailed)
          case Some(reader) =>
            match ReadLimited(reader, max)
            case Err(e) => Err(e)
            case Ok(decoded) =>
              if |decoded| != expected then Err(LengthMismatch)
              else if data[14] == KIND_TEXT then Ok(Some(Envelope(decoded, false)))
              else if data[14] == KIND_BINARY then Ok(Some(Envelope(decoded, true)))
              else Err(UnknownKind)
  }

  function EncodeText(text: Bytes, config: CodecConfig): Result<Frame, CodecError> {
    var packed := if config.msgpack then config.libraries.jsonToMsgpack(text) else None;
    if packed.Some? then EncodeBinary(packed.value, config)
    else if config.perMessageDeflate || config.applicationCompression.None? then Ok(TextFrame(text))
    else
      match EncodeFrame(config.libraries, text, false, config.applicationCompression.value)
      case Err(e) => Err(e)
      case Ok(None) => Ok(TextFrame(text))
      case Ok(Some(frame)) => Ok(BinaryFrame(frame))
  }

  function EncodeBinary(data: Bytes, config: CodecConfig): Result<Frame, CodecError> {
    if config.perMessageDeflate || config.applicationCompression.None? then Ok(BinaryFrame(data))
    else
      match EncodeFrame(config.libraries, data, true, config.applicationCompression.value)
      case Err(e) => Err(e)
      case Ok(None) => Ok(BinaryFrame(data))
      case Ok(Some(frame)) => Ok(BinaryFrame(frame))
  }

  function DecodeBinary(data: Bytes, config: CodecConfig): Result<Message, CodecError> {
    match DecodeFrame(config.libraries, data, config.maxPayloadBytes)
    case Err(e) => Err(e)
    case Ok(found) =>
      var (payload, isBinary) := if found.Some? then (found.value.data, found.value.isBinary) else (data, true);
      var json := if config.msgpack && isBinary then config.libraries.msgpackToJson(payload) else None;
      if json.Some? then Ok(Message(json.value, false)) else Ok(Message(payload, isBinary))
  }

  function Encode(message: Message, config: CodecConfig): Result<Frame, CodecError> {
    if message.isBinary then EncodeBinary(message.data, config) else EncodeText(message.data, config)
  }

  /** What the receiving side emits for a data frame. */
  function Receive(frame: Frame, config: CodecConfig): Result<Message, CodecError> {
    match frame
    case TextFrame(payload) => Ok(Message(payload, false))
    case BinaryFrame(payload) => DecodeBinary(payload, config)
  }

  // ---------------------------------------------------------------- properties

  /** Whatever bytes arrive, an envelope never yields more than the receiver allows, nor a length its header denies. */
  lemma DecodedLengthIsBounded(libraries: Libraries, data: Bytes, max: u64)
    requires DecodeFrame(libraries, data, max).Ok? && DecodeFrame(libraries, data, max).value.Some?
    ensures |data| >= HEADER_LENGTH && MAGIC <= data
    ensures |DecodeFrame(libraries, data, max).value.value.data| == FromBigEndian(data[15..19]) <= max
  {
  }

  /** A receiver can hold a payload of this length: `max_payload_bytes + 1` must not wrap. */
  predicate Accepts(max: u64, length: nat) {
    length <= max && (max + 1 < U64_MODULUS || length == 0)
  }

  lemma ReadLimitedExactly(data: Bytes, max: u64)
    ensures ReadLimited(Reader(data, false), max) == Ok(data) <==> Accepts(max, |data|)
    ensures max + 1 < U64_MODULUS && |data| > max ==> ReadLimited(Reader(data, false), max).Err?
    ensures max + 1 == U64_MODULUS ==> ReadLimited(Reader(data, false), max) == Ok([])
  {
    assert data[..|data|] == data;
    if max + 1 < U64_MODULUS {
      assert (max + 1) % U64_MODULUS == max + 1;
    }
  }

  lemma EnvelopeRoundTrip(libraries: Libraries, data: Bytes, isBinary: bool, config: CompressionConfig, max: u64)
    requires Lossless(libraries)
    requires EncodeFrame(libraries, data, isBinary, config).Ok?
    requires EncodeFrame(libraries, data, isBinary, config).value.Some?
    ensures var frame := EncodeFrame(libraries, data, isBinary, config).value.value;
            var decoded := DecodeFrame(libraries, frame, max);
            && MAGIC <= frame
            && (decoded == Ok(Some(Envelope(data, isBinary))) <==> Accepts(max, |data|))
            && (!Accepts(max, |data|) ==> decoded.Err?)
  {
    var frame := EncodeFrame(libraries, data, isBinary, config).value.value;
    var compressed := libraries.compress(config.algorithm, data).value;
    assert frame[..13] == MAGIC;
    assert frame[13] == AlgorithmToWire(config.algorithm);
    assert frame[14] == if isBinary then KIND_BINARY else KIND_TEXT;
    assert frame[15..19] == ToBigEndian(|data|);
    assert frame[HEADER_LENGTH..] == compressed;
    BigEndianRoundTrip(|data|);
    ReadLimitedExactly(data, max);
  }

  /** The frame travels in an envelope. */
  predicate Enveloped(message: Message, config: CodecConfig) {
    && !config.perMessageDeflate
    && config.applicationCompression.Some?
    && config.applicationCompression.value.enabled
    && |message.data| >= config.applicationCompression.value.thresholdBytes
  }

  /** A raw binary payload the receiver will mistake for an envelope. */
  predicate Masquerades(message: Message, config: CodecConfig) {
    message.isBinary && !Enveloped(message, config) && MAGIC <= message.data
  }

  /**
   * End to end, msgpack off: unless a raw binary payload imitates an envelope, what the receiver emits equals what
   * was sent exactly when the payload is either not enveloped or within what the receiver accepts.
   */
  lemma {:induction false} MessageRoundTrip(message: Message, sender: CodecConfig, receiver: CodecConfig)
    requires !sender.msgpack && !receiver.msgpack
    requires sender.libraries == receiver.libraries && Lossless(sender.libraries)
    requires Encode(message, sender).Ok?
    requires !Masquerades(message, sender)
    ensures Receive(Encode(message, sender).value, receiver) == Ok(message)
            <==> (Enveloped(message, sender) ==> Accepts(receiver.maxPayloadBytes, |message.data|))
  {
    if Enveloped(message, sender) {
      EnvelopeRoundTrip(sender.libraries, message.data, message.isBinary, sender.applicationCompression.value,
                        receiver.maxPayloadBytes);
    }
  }

  /** When sending fails: only an enveloped payload can be refused, for its length or by the compressor. */
  lemma EncodeFailsExactly(message: Message, config: CodecConfig)
    requires !config.msgpack
    ensures Encode(message, config).Err? <==>
            && Enveloped(message, config)
            && (|message.data| > U32_MAX
                || config.libraries.compress(config.applicationCompression.value.algorithm, message.data).None?)
  {
  }

  /** Bytes that are a binary envelope of themselves, and of a length the receiver accepts. */
  predicate HoldsItself(libraries: Libraries, data: Bytes, max: u64) {
    && |data| >= HEADER_LENGTH
    && data[14] == KIND_BINARY
    && FromBigEndian(data[15..19]) == |data|
    && Accepts(max, |data|)
    && WireToAlgorithm(data[13]).Some?
    && libraries.reader(WireToAlgorithm(data[13]).value, data[HEADER_LENGTH..]) == Some(Reader(data, false))
  }

  /**
   * The excepted family: a masquerading payload comes back exactly if it is an envelope whose own content is the
   * payload itself; every one shorter than a header, such as the bare magic, is refused.
   */
  lemma MasqueradeSurvivesOnlyAsQuine(message: Message, sender: CodecConfig, receiver: CodecConfig)
    requires !sender.msgpack && !receiver.msgpack
    requires Masquerades(message, sender)
    ensures Encode(message, sender) == Ok(BinaryFrame(message.data))
    ensures |message.data| < HEADER_LENGTH ==> Receive(BinaryFrame(message.data), receiver) == Err(Truncated)
    ensures Receive(BinaryFrame(message.data), receiver) == Ok(message)
            <==> HoldsItself(receiver.libraries, message.data, receiver.maxPayloadBytes)
  {
    var data, max := message.data, receiver.maxPayloadBytes;
    if |data| >= HEADER_LENGTH && WireToAlgorithm(data[13]).Some? {
      var found := receiver.libraries.reader(WireToAlgorithm(data[13]).value, data[HEADER_LENGTH..]);
      if found.Some? {
        ReadsTheWhole(found.value, data, max);
      }
    }
  }

  lemma ReadsTheWhole(reader: Reader, data: Bytes, max: u64)
    requires data != []
    ensures ReadLimited(reader, max) == Ok(data) <==> reader == Reader(data, false) && Accepts(max, |data|)
  {
    assert reader.output[..|reader.output|] == reader.output;
    if max + 1 < U64_MODULUS {
      assert (max + 1) % U64_MODULUS == max + 1;
    }
  }
}
