/** The binary frame format. */
module FrameCodec {
  import opened Common
  import opened ByteStrings

  const MAGIC: byte := 0x59
  const PROTOCOL_VERSION: byte := 1
  const MAX_PAYLOAD_LEN := 16 * 1024 * 1024
  const HEADER_LEN := 12

  datatype FrameType =
    | Hello | HelloAck | Auth | Ticket | Register | RegisterAck
    | Heartbeat | OnlineList | OnlineDelta
    | MemoryRecall | MemoryRecallResult | MemoryCapture | MemoryCaptureResult
    | FileTree | FileDiff | FileDiffResult | FileGet | FilePut | FileChunk | FilePutAck
    | LockAcquire | LockRenew | LockRelease | LockGranted | LockDenied | LockNotify
    | PeerHello | PeerAuth | PeerAuthOk | PeerHint
    | Error

  type u32 = n: int | 0 <= n < 0x1_0000_0000

  datatype Frame = Frame(frameType: FrameType, flags: byte, streamId: u32, payload: Bytes)

  datatype NsmtError =
    | InvalidMagic(b: byte) | UnsupportedVersion(b: byte) | UnknownType(b: byte) | FrameTooLarge(len: nat)
    | EofInHeader | EofInPayload

  datatype Result<+T> = Ok(value: T) | Err(error: NsmtError)

  function Raw(t: FrameType): byte {
    match t
    case Hello => 0x01 case HelloAck => 0x02 case Auth => 0x03 case Ticket => 0x04
    case Register => 0x05 case RegisterAck => 0x06
    case Heartbeat => 0x10 case OnlineList => 0x11 case OnlineDelta => 0x12
    case MemoryRecall => 0x20 case MemoryRecallResult => 0x21
    case MemoryCapture => 0x22 case MemoryCaptureResult => 0x23
    case FileTree => 0x30 case FileDiff => 0x31 case FileDiffResult => 0x32 case FileGet => 0x33
    case FilePut => 0x34 case FileChunk => 0x35 case FilePutAck => 0x36
    case LockAcquire => 0x40 case LockRenew => 0x41 case LockRelease => 0x42
    case LockGranted => 0x43 case LockDenied => 0x44 case LockNotify => 0x45
    case PeerHello => 0x50 case PeerAuth => 0x51 case PeerAuthOk => 0x52 case PeerHint => 0x53
    case Error => 0xF0
  }

  function FromRaw(b: byte): Option<FrameType> {
    match b
    case 0x01 => Some(Hello) case 0x02 => Some(HelloAck) case 0x03 => Some(Auth) case 0x04 => Some(Ticket)
    case 0x05 => Some(Register) case 0x06 => Some(RegisterAck)
    case 0x10 => Some(Heartbeat) case 0x11 => Some(OnlineList) case 0x12 => Some(OnlineDelta)
    case 0x20 => Some(MemoryRecall) case 0x21 => Some(MemoryRecallResult)
    case 0x22 => Some(MemoryCapture) case 0x23 => Some(MemoryCaptureResult)
    case 0x30 => Some(FileTree) case 0x31 => Some(FileDiff) case 0x32 => Some(FileDiffResult) case 0x33 => Some(FileGet)
    case 0x34 => Some(FilePut) case 0x35 => Some(FileChunk) case 0x36 => Some(FilePutAck)
    case 0x40 => Some(LockAcquire) case 0x41 => Some(LockRenew) case 0x42 => Some(LockRelease)
    case 0x43 => Some(LockGranted) case 0x44 => Some(LockDenied) case 0x45 => Some(LockNotify)
    case 0x50 => Some(PeerHello) case 0x51 => Some(PeerAuth) case 0x52 => Some(PeerAuthOk) case 0x53 => Some(PeerHint)
    case 0xF0 => Some(Error)
    case _ => None
  }

  /** Every type has its own code. */
  lemma FromRawOfRaw(t: FrameType)
    ensures FromRaw(Raw(t)) == Some(t)
  {
  }

  /** A code that is accepted is the code of the type it is read as. */
  lemma FromRawSound(b: byte)
    requires FromRaw(b).Some?
    ensures Raw(FromRaw(b).value) == b
  {
  }

  function Header(f: Frame): (b: Bytes)
    ensures |b| == HEADER_LEN
  {
    [MAGIC, PROTOCOL_VERSION, f.flags, Raw(f.frameType)] + LE(f.streamId, 4) + LE(|f.payload|, 4)
  }

  predicate Fits(f: Frame) { |f.payload| <= MAX_PAYLOAD_LEN }

  /** The bytes of a frame that fits. */
  function Wire(f: Frame): Bytes { Header(f) + f.payload }

  function Encode(f: Frame): Result<Bytes> {
    if !Fits(f) then Err(FrameTooLarge(|f.payload|)) else Ok(Wire(f))
  }

  /** `None` asks for more bytes. */
  function Decode(buf: Bytes): Result<Option<Frame>> {
    if |buf| < HEADER_LEN then Ok(None)
    else if buf[0] != MAGIC then Err(InvalidMagic(buf[0]))
    else if buf[1] != PROTOCOL_VERSION then Err(UnsupportedVersion(buf[1]))
    else if FromRaw(buf[3]).None? then Err(UnknownType(buf[3]))
    else
      var len := FromLE(buf[8..12]);
      if len > MAX_PAYLOAD_LEN then Err(FrameTooLarge(len))
      else if |buf| < HEADER_LEN + len then Ok(None)
      else
        Widths();
        Ok(Some(Frame(FromRaw(buf[3]).value, buf[2], FromLE(buf[4..8]), buf[12..12 + len])))
  }

  /**
   * A frame is refused exactly when its payload is longer than 16 MiB. Otherwise it is sent as 'Y', version 1, flags,
   * type, stream id and payload length with their least significant bytes first, and the payload.
   */
  lemma EncodeMeans(f: Frame, k: nat)
    requires k < 4
    ensures if |f.payload| > 16777216 then Encode(f) == Err(FrameTooLarge(|f.payload|))
            else
              && Encode(f).Ok?
              && var b := Encode(f).value;
              && |b| == 12 + |f.payload| && b[0] == 'Y' as int && b[1] == 1 && b[2] == f.flags && b[3] == Raw(f.frameType)
              && b[4 + k] == (f.streamId / Pow256(k)) % 256 && b[8 + k] == (|f.payload| / Pow256(k)) % 256
              && b[12..] == f.payload
  {
    LEDigit(f.streamId, 4, k);
    LEDigit(|f.payload|, 4, k);
  }

  /**
   * What is wrong with a buffer that holds a header is found in this order: its first byte, its version, its type
   * and its length. A buffer that holds none is never refused.
   */
  lemma DecodeRefuses(buf: Bytes)
    ensures |buf| < 12 ==> Decode(buf) == Ok(None)
    ensures |buf| >= 12 ==>
              && var typeKnown, len := FromRaw(buf[3]).Some?, FromLE(buf[8..12]);
              && (Decode(buf) == Err(InvalidMagic(buf[0])) <==> buf[0] != 0x59)
              && (Decode(buf) == Err(UnsupportedVersion(buf[1])) <==> buf[0] == 0x59 && buf[1] != 1)
              && (Decode(buf) == Err(UnknownType(buf[3])) <==> buf[0] == 0x59 && buf[1] == 1 && !typeKnown)
              && (Decode(buf) == Err(FrameTooLarge(len)) <==> buf[0] == 0x59 && buf[1] == 1 && typeKnown && len > 16777216)
              && (Decode(buf) == Ok(None) <==>
                    buf[0] == 0x59 && buf[1] == 1 && typeKnown && len <= 16777216 && |buf| < 12 + len)
  {
  }

  lemma HeaderFields(f: Frame, rest: Bytes)
    requires Fits(f)
    ensures var b := Header(f) + rest;
            && b[0] == MAGIC && b[1] == PROTOCOL_VERSION && b[2] == f.flags && b[3] == Raw(f.frameType)
            && FromLE(b[4..8]) == f.streamId && FromLE(b[8..12]) == |f.payload| && b[12..] == rest
  {
    var b := Header(f) + rest;
    assert b[4..8] == LE(f.streamId, 4) && b[8..12] == LE(|f.payload|, 4);
    Widths();
    RoundTripLE(f.streamId, 4);
    RoundTripLE(|f.payload|, 4);
  }

  /** Decoding what was encoded gives the frame back, whatever follows it. */
  lemma DecodeEncoded(f: Frame, rest: Bytes)
    requires Fits(f)
    ensures Decode(Wire(f) + rest) == Ok(Some(f))
  {
    assert Wire(f) + rest == Header(f) + (f.payload + rest);
    HeaderFields(f, f.payload + rest);
    FromRawOfRaw(f.frameType);
    assert (Wire(f) + rest)[12..12 + |f.payload|] == f.payload;
  }

  /** A decoded frame was encoded: the consumed prefix is exactly its encoding. */
  lemma DecodedWasEncoded(buf: Bytes)
    requires Decode(buf).Ok? && Decode(buf).value.Some?
    ensures var f := Decode(buf).value.value;
            Fits(f) && |Wire(f)| <= |buf| && buf[..|Wire(f)|] == Wire(f)
  {
    var f := Decode(buf).value.value;
    EncodeLE(buf[4..8]);
    EncodeLE(buf[8..12]);
    FromRawSound(buf[3]);
    HeaderOf(buf, f);
    SplitAtHeader(buf, 12 + |f.payload|);
  }

  lemma HeaderOf(buf: Bytes, f: Frame)
    requires |buf| >= 12 && buf[0] == MAGIC && buf[1] == PROTOCOL_VERSION && buf[2] == f.flags && buf[3] == Raw(f.frameType)
    requires LE(f.streamId, 4) == buf[4..8] && LE(|f.payload|, 4) == buf[8..12]
    ensures Header(f) == buf[..12]
  {
  }

  lemma SplitAtHeader(buf: Bytes, n: nat)
    requires 12 <= n <= |buf|
    ensures buf[..n] == buf[..12] + buf[12..n]
  {
  }

  /** A frame cut short never decodes; it asks for more. */
  lemma CutNeedsMore(f: Frame, n: nat)
    requires Fits(f) && n < |Wire(f)|
    ensures Decode(Wire(f)[..n]) == Ok(None)
  {
    if n >= HEADER_LEN {
      var cut := Wire(f)[..n];
      assert cut == Header(f) + f.payload[..n - HEADER_LEN];
      HeaderFields(f, f.payload[..n - HEADER_LEN]);
      FromRawOfRaw(f.frameType);
    }
  }
}
