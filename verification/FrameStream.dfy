/** Frames over a byte stream that hands out arbitrary fragments. */
module FrameStream {
  import opened Common
  import opened ByteStrings
  import opened FrameCodec

  /** What one `recv` makes of the bytes still to come, however they are fragmented. */
  datatype Received = CleanEof | Got(frame: Frame) | Failed(error: NsmtError)

  function RecvOn(bytes: Bytes): Received {
    if bytes == [] then CleanEof
    else if |bytes| < HEADER_LEN then Failed(EofInHeader)
    else if bytes[0] != MAGIC then Failed(InvalidMagic(bytes[0]))
    else if bytes[1] != PROTOCOL_VERSION then Failed(UnsupportedVersion(bytes[1]))
    else
      var len := FromLE(bytes[8..12]);
      if len > MAX_PAYLOAD_LEN then Failed(FrameTooLarge(len))
      else if |bytes| < HEADER_LEN + len then Failed(EofInPayload)
      else
        var r := Decode(bytes[..HEADER_LEN + len]);
        if r.Err? then Failed(r.error)
        else if r.value.None? then CleanEof
        else Got(r.value.value)
  }

  lemma SameHeader(bytes: Bytes, n: nat)
    requires HEADER_LEN <= n <= |bytes|
    ensures bytes[..n][8..12] == bytes[8..12] && bytes[..n][4..8] == bytes[4..8] && bytes[..n][12..n] == bytes[12..n]
  {
  }

  /** `recv` finds a frame when the plain codec does, and the same one; it ends cleanly only at the end. */
  lemma RecvFrame(bytes: Bytes)
    ensures RecvOn(bytes).Got? <==> Decode(bytes).Ok? && Decode(bytes).value.Some?
    ensures RecvOn(bytes).Got? ==> RecvOn(bytes).frame == Decode(bytes).value.value
    ensures RecvOn(bytes).CleanEof? <==> bytes == []
  {
    if |bytes| >= HEADER_LEN {
      var len := FromLE(bytes[8..12]);
      if |bytes| >= HEADER_LEN + len { SameHeader(bytes, HEADER_LEN + len); }
    }
  }

  /** The codec's error, unless it is about the type of a frame too large or cut off. */
  function LateError(bytes: Bytes, error: NsmtError): NsmtError
    requires |bytes| >= HEADER_LEN
  {
    var len := FromLE(bytes[8..12]);
    if !error.UnknownType? then error
    else if len > MAX_PAYLOAD_LEN then FrameTooLarge(len)
    else if |bytes| < HEADER_LEN + len then EofInPayload
    else error
  }

  /**
   * `recv` agrees with the plain codec. Where the codec asks for more bytes `recv` reports the end of the
   * stream, and where the codec fails so does `recv`, with the same error, except that it looks at the frame's
   * type only after its length and payload.
   */
  lemma RecvAgreesWithDecode(bytes: Bytes)
    ensures RecvOn(bytes) ==
              if bytes == [] then CleanEof
              else match Decode(bytes) {
                case Ok(Some(f)) => Got(f)
                case Ok(None) => Failed(if |bytes| < HEADER_LEN then EofInHeader else EofInPayload)
                case Err(e) => Failed(if |bytes| < HEADER_LEN then e else LateError(bytes, e))
              }
  {
    RecvFrame(bytes);
    if |bytes| >= HEADER_LEN {
      var len := FromLE(bytes[8..12]);
      if |bytes| >= HEADER_LEN + len { SameHeader(bytes, HEADER_LEN + len); }
    }
  }

  // ---- whole streams ----

  function WireAll(fs: seq<Frame>): Bytes {
    if fs == [] then [] else Wire(fs[0]) + WireAll(fs[1..])
  }

  datatype Drained = Drained(frames: seq<Frame>, end: Received)

  /** Receive until something other than a frame comes. */
  function DrainOn(bytes: Bytes): Drained
    decreases |bytes|
  {
    var r := RecvOn(bytes);
    if r.Got? then
      RecvFrame(bytes);
      DecodedWasEncoded(bytes);
      var rest := DrainOn(bytes[|Wire(r.frame)|..]);
      Drained([r.frame] + rest.frames, rest.end)
    else Drained([], r)
  }

  lemma DrainStep(f: Frame, rest: Bytes)
    requires Fits(f)
    ensures DrainOn(Wire(f) + rest) == Drained([f] + DrainOn(rest).frames, DrainOn(rest).end)
  {
    DecodeEncoded(f, rest);
    RecvFrame(Wire(f) + rest);
    assert (Wire(f) + rest)[|Wire(f)|..] == rest;
  }

  /** The bytes of `fs` cut after `n` bytes hold `k` whole frames. */
  ghost predicate WholeFrames(fs: seq<Frame>, n: nat, k: nat) {
    && k <= |fs| && |WireAll(fs[..k])| <= n
    && (k < |fs| ==> n < |WireAll(fs[..k + 1])|)
  }

  ghost predicate AllFit(fs: seq<Frame>) { forall f | f in fs :: Fits(f) }

  lemma AllFitTail(fs: seq<Frame>)
    requires AllFit(fs) && fs != []
    ensures Fits(fs[0]) && AllFit(fs[1..]) && |WireAll(fs)| == |Wire(fs[0])| + |WireAll(fs[1..])|
  {
  }

  /** Cut after `n` bytes, the stream of `fs` yields its first `k` frames, and ends cleanly only at a boundary. */
  ghost predicate CutAt(fs: seq<Frame>, n: nat, k: nat)
    requires n <= |WireAll(fs)|
  {
    && WholeFrames(fs, n, k)
    && var d := DrainOn(WireAll(fs)[..n]);
       d.frames == fs[..k] && !d.end.Got? && (d.end.CleanEof? <==> n == |WireAll(fs[..k])|)
  }

  /**
   * Cutting a stream anywhere yields exactly the whole frames before the cut, and then a clean end if
   * and only if the cut is at a frame boundary: a cut inside a frame is an error, never a frame.
   */
  lemma {:induction false} CutStream(fs: seq<Frame>, n: nat) returns (k: nat)
    requires AllFit(fs) && n <= |WireAll(fs)|
    ensures CutAt(fs, n, k)
    decreases |fs|
  {
    if fs == [] {
      k := 0;
      CutNothing();
    } else {
      AllFitTail(fs);
      if n < |Wire(fs[0])| {
        k := 0;
        CutFirst(fs, n);
      } else {
        k := CutStream(fs[1..], n - |Wire(fs[0])|);
        CutOnward(fs, n, k);
        k := k + 1;
      }
    }
  }

  lemma CutNothing()
    ensures CutAt([], 0, 0)
  {
  }

  lemma CutOnward(fs: seq<Frame>, n: nat, j: nat)
    requires fs != [] && Fits(fs[0]) && |Wire(fs[0])| <= n <= |WireAll(fs)| && CutAt(fs[1..], n - |Wire(fs[0])|, j)
    ensures CutAt(fs, n, j + 1)
  {
    CutLater(fs, n, j);
    DrainLater(Wire(fs[0]), WireAll(fs[1..]), n, fs[0]);
  }

  lemma CutFirst(fs: seq<Frame>, n: nat)
    requires fs != [] && Fits(fs[0]) && n < |Wire(fs[0])|
    ensures n <= |WireAll(fs)| && CutAt(fs, n, 0)
  {
    var w := Wire(fs[0]);
    assert WireAll(fs)[..n] == w[..n];
    WireAllCons(fs, 1);
    CutNeedsMore(fs[0], n);
    RecvFrame(w[..n]);
  }

  lemma CutLater(fs: seq<Frame>, n: nat, j: nat)
    requires fs != [] && Fits(fs[0]) && |Wire(fs[0])| <= n <= |WireAll(fs)|
    requires WholeFrames(fs[1..], n - |Wire(fs[0])|, j)
    ensures WholeFrames(fs, n, j + 1)
    ensures |WireAll(fs[..j + 1])| == |Wire(fs[0])| + |WireAll(fs[1..][..j])|
    ensures fs[..j + 1] == [fs[0]] + fs[1..][..j]
  {
    WireAllCons(fs, j + 1);
    if j + 1 < |fs| { WireAllCons(fs, j + 2); }
  }

  lemma DrainLater(w: Bytes, rest: Bytes, n: nat, f: Frame)
    requires Fits(f) && w == Wire(f) && |w| <= n <= |w| + |rest|
    ensures var d := DrainOn(rest[..n - |w|]); DrainOn((w + rest)[..n]) == Drained([f] + d.frames, d.end)
  {
    assert (w + rest)[..n] == w + rest[..n - |w|];
    DrainStep(f, rest[..n - |w|]);
  }

  lemma WireAllCons(fs: seq<Frame>, k: nat)
    requires 0 < k <= |fs|
    ensures WireAll(fs[..k]) == Wire(fs[0]) + WireAll(fs[1..][..k - 1])
  {
    assert fs[..k][1..] == fs[1..][..k - 1];
  }

  /** An uncut stream yields every frame and ends cleanly. */
  lemma WholeStream(fs: seq<Frame>)
    requires AllFit(fs)
    ensures DrainOn(WireAll(fs)) == Drained(fs, CleanEof)
  {
    var n := |WireAll(fs)|;
    assert WireAll(fs)[..n] == WireAll(fs);
    var k := CutStream(fs, n);
    if k < |fs| { WireAllMonotone(fs, k + 1); }
    assert fs[..|fs|] == fs;
  }

  lemma {:induction false} WireAllMonotone(fs: seq<Frame>, k: nat)
    requires k <= |fs|
    ensures |WireAll(fs[..k])| <= |WireAll(fs)|
  {
    if k > 0 {
      WireAllCons(fs, k);
      WireAllMonotone(fs[1..], k - 1);
    }
  }

  // ---- the reader and the stream as objects ----

  /** Put bytes into a buffer from `at` on. */
  method CopyInto(buf: array<byte>, at: nat, bytes: Bytes)
    requires at + |bytes| <= buf.Length
    modifies buf
    ensures buf[..at] == old(buf[..at]) && buf[at..at + |bytes|] == bytes
  {
    for i := 0 to |bytes|
      invariant buf[..at] == old(buf[..at]) && buf[at..at + i] == bytes[..i]
    {
      buf[at + i] := bytes[i];
      assert buf[at..at + i + 1] == bytes[..i] + [bytes[i]];
      assert bytes[..i + 1] == bytes[..i] + [bytes[i]];
    }
    assert bytes[..|bytes|] == bytes;
  }

  /** A byte source: the `n`th read hands out at most `1 + grant(n)` bytes, and none only at the end. */
  class Source {
    const data: Bytes
    const grant: nat -> nat
    var pos: nat
    var turn: nat

    ghost predicate Valid()
      reads this
    {
      pos <= |data|
    }

    ghost function Left(): Bytes
      requires Valid()
      reads this
    {
      data[pos..]
    }

    constructor (data: Bytes, grant: nat -> nat)
      ensures Valid() && Left() == data
    {
      this.data, this.grant := data, grant;
      pos, turn := 0, 0;
    }

    /** Fill `buf` from `at` on with some of what is left. */
    method Read(buf: array<byte>, at: nat) returns (n: nat)
      requires Valid() && at < buf.Length
      modifies this, buf
      ensures Valid() && n <= |old(Left())| && at + n <= buf.Length
      ensures n == 0 <==> old(Left()) == []
      ensures Left() == old(Left())[n..]
      ensures buf[..at] == old(buf[..at]) && buf[at..at + n] == old(Left())[..n]
    {
      n := 1 + grant(turn);
      if n > buf.Length - at { n := buf.Length - at; }
      if n > |data| - pos { n := |data| - pos; }
      CopyInto(buf, at, data[pos..pos + n]);
      assert data[pos..pos + n] == old(Left())[..n];
      pos, turn := pos + n, turn + 1;
      assert Left() == old(Left())[n..];
    }

    /** Fill the whole buffer, or report how much came before the end. */
    method Fill(buf: array<byte>) returns (got: nat)
      requires Valid()
      modifies this, buf
      ensures Valid() && got <= buf.Length && got <= |old(Left())|
      ensures buf[..got] == old(Left())[..got] && Left() == old(Left())[got..]
      ensures got < buf.Length ==> Left() == []
    {
      got := 0;
      ghost var all := Left();
      while got < buf.Length
        invariant Valid() && got <= buf.Length && got <= |all|
        invariant buf[..got] == all[..got] && Left() == all[got..]
      {
        var n := Read(buf, got);
        if n == 0 { return; }
        assert buf[..got + n] == buf[..got] + buf[got..got + n];
        assert all[..got + n] == all[..got] + all[got..][..n];
        got := got + n;
      }
    }
  }

  /** Read into a new buffer of `n` bytes: what came of it before the end. */
  method ReadBuffer(source: Source, n: nat) returns (data: Bytes)
    requires source.Valid()
    modifies source
    ensures source.Valid() && |data| <= n && |data| <= |old(source.Left())|
    ensures data == old(source.Left())[..|data|] && source.Left() == old(source.Left())[|data|..]
    ensures |data| < n ==> source.Left() == []
  {
    var buf := new byte[n](_ => 0);
    var got := source.Fill(buf);
    data := buf[..got];
  }

  lemma Reassemble(all: Bytes, m: nat, n: nat)
    requires m + n <= |all|
    ensures all[..m] + all[m..][..n] == all[..m + n] && all[m..][n..] == all[m + n..]
  {
  }

  /** Once header and payload are in, what is left to do is to decode them. */
  lemma WholeFrame(all: Bytes, header: Bytes, payload: Bytes)
    requires |all| >= HEADER_LEN && header == all[..HEADER_LEN] && all[0] == MAGIC && all[1] == PROTOCOL_VERSION
    requires |payload| == FromLE(all[8..12]) <= MAX_PAYLOAD_LEN && HEADER_LEN + |payload| <= |all|
    requires payload == all[HEADER_LEN..HEADER_LEN + |payload|]
    ensures var d := Decode(header + payload);
            && RecvOn(all) == (if d.Err? then Failed(d.error) else if d.value.None? then CleanEof
                               else Got(d.value.value.(payload := payload)))
            && (d.Ok? && d.value.Some? ==> |Wire(d.value.value)| == |Wire(d.value.value.(payload := payload))| == HEADER_LEN + |payload|)
  {
    assert header + payload == all[..HEADER_LEN + |payload|];
    SameHeader(all, HEADER_LEN + |payload|);
  }

  lemma HeaderBytes(all: Bytes, header: Bytes)
    requires |all| >= HEADER_LEN && header == all[..HEADER_LEN]
    ensures header[0] == all[0] && header[1] == all[1] && header[8..12] == all[8..12]
  {
  }

  lemma DrainOnce(bytes: Bytes, f: Frame)
    requires RecvOn(bytes) == Got(f) && |Wire(f)| <= |bytes|
    ensures var rest := DrainOn(bytes[|Wire(f)|..]); DrainOn(bytes) == Drained([f] + rest.frames, rest.end)
  {
  }

  lemma DrainedSoFar(frames: seq<Frame>, f: Frame, rest: seq<Frame>)
    ensures frames + ([f] + rest) == (frames + [f]) + rest
  {
  }

  class Stream {
    const source: Source
    var written: Bytes

    constructor (source: Source)
      ensures this.source == source && written == []
    {
      this.source, written := source, [];
    }

    method Send(f: Frame) returns (r: Result<()>)
      modifies this
      ensures r == if Fits(f) then Ok(()) else Err(FrameTooLarge(|f.payload|))
      ensures written == if Fits(f) then old(written) + Wire(f) else old(written)
    {
      var wire := Encode(f);
      if wire.Err? { return Err(wire.error); }
      written := written + wire.value;
      return Ok(());
    }

    /** One frame from the source, however the bytes are fragmented. */
    method Recv() returns (r: Received)
      requires source.Valid()
      modifies source
      ensures source.Valid()
      ensures r == RecvOn(old(source.Left()))
      ensures r.Got? ==> |Wire(r.frame)| <= |old(source.Left())| && source.Left() == old(source.Left())[|Wire(r.frame)|..]
    {
      ghost var all := source.Left();
      var header := ReadBuffer(source, HEADER_LEN);
      if |header| < HEADER_LEN {
        return if header == [] then CleanEof else Failed(EofInHeader);
      }
      if header[0] != MAGIC { return Failed(InvalidMagic(header[0])); }
      if header[1] != PROTOCOL_VERSION { return Failed(UnsupportedVersion(header[1])); }
      HeaderBytes(all, header);
      var len := FromLE(header[8..12]);
      if len > MAX_PAYLOAD_LEN { return Failed(FrameTooLarge(len)); }
      var payload := ReadBuffer(source, len);
      if |payload| < len { return Failed(EofInPayload); }
      Reassemble(all, HEADER_LEN, len);
      WholeFrame(all, header, payload);
      var decoded := Decode(header + payload);
      if decoded.Err? { return Failed(decoded.error); }
      if decoded.value.None? { return CleanEof; }
      r := Got(decoded.value.value.(payload := payload));
    }

    /** Receive until the stream ends or breaks. */
    method Drain() returns (frames: seq<Frame>, end: Received)
      requires source.Valid()
      modifies source
      ensures source.Valid() && Drained(frames, end) == DrainOn(old(source.Left()))
    {
      frames := [];
      end := Recv();
      ghost var before := old(source.Left());
      while end.Got?
        invariant source.Valid() && end == RecvOn(before)
        invariant end.Got? ==> |Wire(end.frame)| <= |before| && source.Left() == before[|Wire(end.frame)|..]
        invariant DrainOn(old(source.Left())) == Drained(frames + DrainOn(before).frames, DrainOn(before).end)
        decreases |before|
      {
        DrainOnce(before, end.frame);
        DrainedSoFar(frames, end.frame, DrainOn(source.Left()).frames);
        frames := frames + [end.frame];
        before := source.Left();
        end := Recv();
      }
    }
  }
}
