/** Chunked upload: the sender's slicing and the server's sparse reassembly. */
module Upload {
  import opened Common
  import opened ByteStrings
  import opened E2E

  // ---- chunks ----

  /** `div_ceil` */
  function NumChunks(len: nat, C: nat): nat
    requires C > 0
  {
    (len + C - 1) / C
  }

  /** The bytes of chunk `i`; empty past the end. */
  function Slice(bytes: Bytes, C: nat, i: nat): (s: Bytes)
    requires C > 0
    ensures |s| <= C
  {
    if i * C < |bytes| then
      bytes[i * C..if i * C + C <= |bytes| then i * C + C else |bytes|]
    else []
  }

  function ChunkPayload(c: Cipher, bytes: Bytes, C: nat, i: nat): (p: Bytes)
    requires C > 0
    ensures |p| >= 4
  {
    LE(i, 4) + Protect(c, Slice(bytes, C, i), i)
  }

  lemma Scale(a: nat, b: nat, C: nat)
    requires a <= b
    ensures a * C <= b * C
  {
  }

  lemma CeilBounds(len: nat, C: nat)
    requires C > 0
    ensures len <= NumChunks(len, C) * C < len + C
  {
    var x := len + C - 1;
    assert (x / C) * C + x % C == x;
  }

  lemma ChunkBounds(len: nat, C: nat, i: nat)
    requires C > 0 && i < NumChunks(len, C)
    ensures i * C < len
    ensures i + 1 < NumChunks(len, C) ==> i * C + C < len
    ensures i + 1 == NumChunks(len, C) ==> len <= i * C + C
  {
    CeilBounds(len, C);
    assert (i + 1) * C == i * C + C;
    Scale(i + 1, NumChunks(len, C), C);
    if i + 1 < NumChunks(len, C) {
      assert (i + 2) * C == i * C + C + C;
      Scale(i + 2, NumChunks(len, C), C);
    }
  }

  lemma SomeChunk(len: nat, C: nat)
    requires C > 0 && len > 0
    ensures 0 < NumChunks(len, C) <= len / C + 1
  {
    CeilBounds(len, C);
    assert (len / C) * C + len % C == len;
    assert (len / C + 2) * C == (len / C) * C + C + C;
    if NumChunks(len, C) > len / C + 1 { Scale(len / C + 2, NumChunks(len, C), C); }
  }

  lemma ChunkOf(len: nat, C: nat, j: nat)
    requires C > 0 && j < len
    ensures j / C < NumChunks(len, C) && (j / C) * C <= j < (j / C) * C + C
  {
    CeilBounds(len, C);
    assert (j / C) * C + j % C == j;
    if NumChunks(len, C) <= j / C { Scale(NumChunks(len, C), j / C, C); }
  }

  /** Different chunks do not overlap. */
  lemma ChunksApart(C: nat, i: nat, k: nat)
    requires i < k
    ensures i * C + C <= k * C
  {
    Scale(i + 1, k, C);
  }

  // ---- the sparse temporary file ----

  function Max(a: nat, b: nat): nat { if a < b then b else a }

  /** Seek and write; a gap reads as zeros, and writing nothing leaves the file alone. */
  function WriteAt(file: Bytes, off: nat, data: Bytes): (r: Bytes)
    ensures data == [] ==> r == file
    ensures data != [] ==> |r| == Max(|file|, off + |data|)
    ensures forall j | off <= j < off + |data| :: r[j] == data[j - off]
    ensures forall j | 0 <= j < |file| && !(off <= j < off + |data|) :: r[j] == file[j]
  {
    if data == [] then file
    else
      seq(Max(|file|, off + |data|), j requires 0 <= j < Max(|file|, off + |data|) =>
        if off <= j < off + |data| then data[j - off] else if j < |file| then file[j] else 0)
  }

  function CountTrue(flags: seq<bool>): nat {
    if flags == [] then 0 else (if flags[0] then 1 else 0) + CountTrue(flags[1..])
  }

  lemma {:induction false} CountSet(flags: seq<bool>, i: nat)
    requires i < |flags| && !flags[i]
    ensures CountTrue(flags[i := true]) == CountTrue(flags) + 1
  {
    if i > 0 {
      CountSet(flags[1..], i - 1);
      assert flags[i := true][1..] == flags[1..][i - 1 := true];
    } else {
      assert flags[0 := true][1..] == flags[1..];
    }
  }

  lemma {:induction false} CountBounds(flags: seq<bool>)
    ensures CountTrue(flags) <= |flags|
    ensures CountTrue(flags) == |flags| <==> forall i | 0 <= i < |flags| :: flags[i]
  {
    if flags != [] {
      CountBounds(flags[1..]);
      assert forall i | 0 <= i < |flags[1..]| :: flags[1..][i] == flags[i + 1];
      assert forall i | 1 <= i < |flags| :: flags[i] == flags[1..][i - 1];
    }
  }

  lemma {:induction false} CountNone(flags: seq<bool>)
    requires forall i | 0 <= i < |flags| :: !flags[i]
    ensures CountTrue(flags) == 0
  {
    if flags != [] { CountNone(flags[1..]); }
  }

  // ---- one upload ----

  datatype Pending = Pending(blobId: Bytes, temp: Bytes, received: seq<bool>, receivedCount: nat)

  datatype Outcome<+T> = Ok(value: T) | Err

  function Begin(blobId: Bytes, totalChunks: nat): Pending {
    Pending(blobId, [], seq(totalChunks, _ => false), 0)
  }

  /** What one FILE_CHUNK payload does; only a payload that no key opens is an error. */
  function Handle(c: Cipher, C: nat, u: Pending, payload: Bytes): Outcome<Pending>
    requires C > 0
  {
    if |payload| < 4 then Ok(u)
    else
      var idx := FromLE(payload[..4]);
      if idx >= |u.received| || u.received[idx] then Ok(u)
      else
        var data := Unprotect(c, payload[4..], idx);
        if data.None? then Err
        else Ok(u.(temp := WriteAt(u.temp, idx * C, data.value),
                   received := u.received[idx := true],
                   receivedCount := u.receivedCount + 1))
  }

  /** `idx` is the index a payload carries; payloads shorter than an index carry none. */
  predicate Carries(payload: Bytes, idx: nat) { |payload| >= 4 && FromLE(payload[..4]) == idx }

  /** Whatever arrives for a chunk of the file holds that chunk. Anything else may hold anything. */
  ghost predicate Honest(c: Cipher, C: nat, bytes: Bytes, payload: Bytes)
    requires C > 0
  {
    forall idx | 0 <= idx < NumChunks(|bytes|, C) && Carries(payload, idx) ::
      Unprotect(c, payload[4..], idx) == Some(Slice(bytes, C, idx))
  }

  predicate RangeRight(C: nat, bytes: Bytes, file: Bytes, i: nat)
    requires C > 0
  {
    var s := Slice(bytes, C, i);
    i * C + |s| <= |file| && file[i * C..i * C + |s|] == s
  }

  /** The flags are counted right and every received range of the file is right. */
  ghost predicate UploadInv(C: nat, bytes: Bytes, u: Pending)
    requires C > 0
  {
    && |u.received| == NumChunks(|bytes|, C)
    && u.receivedCount == CountTrue(u.received)
    && |u.temp| <= |bytes|
    && forall i | 0 <= i < |u.received| && u.received[i] :: RangeRight(C, bytes, u.temp, i)
  }

  lemma BeginInv(C: nat, bytes: Bytes, blobId: Bytes)
    requires C > 0
    ensures UploadInv(C, bytes, Begin(blobId, NumChunks(|bytes|, C)))
  {
    CountNone(Begin(blobId, NumChunks(|bytes|, C)).received);
  }

  lemma HandleKeepsInv(c: Cipher, C: nat, bytes: Bytes, u: Pending, payload: Bytes)
    requires C > 0 && UploadInv(C, bytes, u) && Honest(c, C, bytes, payload)
    ensures var r := Handle(c, C, u, payload);
            && r.Ok? && UploadInv(C, bytes, r.value) && r.value.blobId == u.blobId
            && forall i | 0 <= i < |u.received| ::
                 r.value.received[i] <==> u.received[i] || Carries(payload, i)
  {
    if |payload| >= 4 {
      var idx := FromLE(payload[..4]);
      if idx < |u.received| && !u.received[idx] {
        assert Carries(payload, idx);
        CountSet(u.received, idx);
        WriteKeepsRanges(C, bytes, u, idx);
      }
    }
  }

  lemma WriteKeepsRanges(C: nat, bytes: Bytes, u: Pending, idx: nat)
    requires C > 0 && UploadInv(C, bytes, u) && idx < |u.received| && !u.received[idx]
    ensures var w := WriteAt(u.temp, idx * C, Slice(bytes, C, idx));
            && |w| <= |bytes|
            && forall i | 0 <= i < |u.received| && (u.received[i] || i == idx) :: RangeRight(C, bytes, w, i)
  {
    WriteFits(C, bytes, u.temp, idx);
    forall i | 0 <= i < |u.received| && (u.received[i] || i == idx)
      ensures RangeRight(C, bytes, WriteAt(u.temp, idx * C, Slice(bytes, C, idx)), i)
    {
      WriteKeepsOrMakes(C, bytes, u.temp, idx, i);
    }
  }

  lemma WriteFits(C: nat, bytes: Bytes, temp: Bytes, idx: nat)
    requires C > 0 && |temp| <= |bytes| && idx < NumChunks(|bytes|, C)
    ensures |WriteAt(temp, idx * C, Slice(bytes, C, idx))| <= |bytes|
  {
    ChunkBounds(|bytes|, C, idx);
  }

  lemma WriteKeepsOrMakes(C: nat, bytes: Bytes, temp: Bytes, idx: nat, i: nat)
    requires C > 0 && idx < NumChunks(|bytes|, C) && (i != idx ==> RangeRight(C, bytes, temp, i))
    ensures RangeRight(C, bytes, WriteAt(temp, idx * C, Slice(bytes, C, idx)), i)
  {
    if i == idx {
      ChunkBounds(|bytes|, C, idx);
      WriteIsRight(C, bytes, temp, idx);
    } else {
      WriteKeepsRange(C, bytes, temp, idx, i);
    }
  }

  lemma WriteIsRight(C: nat, bytes: Bytes, temp: Bytes, idx: nat)
    requires C > 0 && idx * C < |bytes|
    ensures RangeRight(C, bytes, WriteAt(temp, idx * C, Slice(bytes, C, idx)), idx)
  {
    WriteThere(temp, idx * C, Slice(bytes, C, idx));
  }

  lemma WriteKeepsRange(C: nat, bytes: Bytes, temp: Bytes, idx: nat, i: nat)
    requires C > 0 && i != idx && RangeRight(C, bytes, temp, i)
    ensures RangeRight(C, bytes, WriteAt(temp, idx * C, Slice(bytes, C, idx)), i)
  {
    if i < idx { ChunksApart(C, i, idx); } else { ChunksApart(C, idx, i); }
    WriteElsewhere(temp, idx * C, Slice(bytes, C, idx), i * C, |Slice(bytes, C, i)|);
  }

  lemma WriteThere(temp: Bytes, at: nat, s: Bytes)
    requires s != []
    ensures at + |s| <= |WriteAt(temp, at, s)| && WriteAt(temp, at, s)[at..at + |s|] == s
  {
  }

  lemma WriteElsewhere(temp: Bytes, at: nat, s: Bytes, from: nat, n: nat)
    requires from + n <= |temp| && (from + n <= at || at + |s| <= from)
    ensures from + n <= |WriteAt(temp, at, s)| && WriteAt(temp, at, s)[from..from + n] == temp[from..from + n]
  {
  }

  lemma RangeByte(C: nat, bytes: Bytes, file: Bytes, i: nat, j: nat)
    requires C > 0 && RangeRight(C, bytes, file, i) && i * C <= j < i * C + C && j < |bytes|
    ensures j < |file| && file[j] == bytes[j]
  {
    var start := i * C;
    var s := Slice(bytes, C, i);
    assert s == bytes[start..start + |s|] && j - start < |s|;
    assert file[start..start + |s|][j - start] == s[j - start] == bytes[j];
  }

  lemma ReceivedByteRight(C: nat, bytes: Bytes, u: Pending, j: nat)
    requires C > 0 && UploadInv(C, bytes, u) && j < |bytes|
    requires forall i | 0 <= i < |u.received| :: u.received[i]
    ensures j < |u.temp| && u.temp[j] == bytes[j]
  {
    ChunkOf(|bytes|, C, j);
    RangeByte(C, bytes, u.temp, j / C, j);
  }

  /** When every flag is set the temporary file is the original. */
  lemma CompleteIsOriginal(C: nat, bytes: Bytes, u: Pending)
    requires C > 0 && UploadInv(C, bytes, u) && u.receivedCount == |u.received|
    ensures u.temp == bytes
  {
    CountBounds(u.received);
    if bytes != [] { ReceivedByteRight(C, bytes, u, |bytes| - 1); }
    forall j | 0 <= j < |bytes| ensures u.temp[j] == bytes[j] {
      ReceivedByteRight(C, bytes, u, j);
    }
  }

  // ---- the session: an upload in progress and the store it ends in ----

  datatype Session = Session(pending: Option<Pending>, objects: map<Bytes, Bytes>)

  function OnFilePut(s: Session, blobId: Bytes, totalChunks: nat): Session {
    s.(pending := Some(Begin(blobId, totalChunks)))
  }

  /**
   * The FILE_CHUNK arm: a chunk without an upload is dropped, and a complete upload is read back
   * from its temporary file into the store.
   */
  function OnFileChunk(c: Cipher, C: nat, s: Session, payload: Bytes): Outcome<Session>
    requires C > 0
  {
    if s.pending.None? then Ok(s)
    else
      var r := Handle(c, C, s.pending.value, payload);
      if r.Err? then Err
      else if r.value.receivedCount == |r.value.received| then
        if r.value.received == [] then Err // there is no temporary file to read back
        else
          Ok(Session(None, if r.value.blobId in s.objects then s.objects else s.objects[r.value.blobId := r.value.temp]))
      else Ok(s.(pending := Some(r.value)))
  }

  function Deliver(c: Cipher, C: nat, s: Session, payloads: seq<Bytes>): Outcome<Session>
    requires C > 0
    decreases |payloads|
  {
    if payloads == [] then Ok(s)
    else
      var r := OnFileChunk(c, C, s, payloads[0]);
      if r.Err? then Err else Deliver(c, C, r.value, payloads[1..])
  }

  ghost predicate Arrived(payloads: seq<Bytes>, i: nat) { exists p :: p in payloads && Carries(p, i) }

  /** What has become of session `s`, whose upload is pending, after these payloads. */
  ghost predicate Delivered(C: nat, bytes: Bytes, s: Session, payloads: seq<Bytes>, r: Outcome<Session>)
    requires C > 0 && s.pending.Some? && |s.pending.value.received| == NumChunks(|bytes|, C)
  {
    var u := s.pending.value;
    && r.Ok?
    && if forall i | 0 <= i < |u.received| :: u.received[i] || Arrived(payloads, i)
       then r.value == Session(None, if u.blobId in s.objects then s.objects else s.objects[u.blobId := bytes])
       else
         && r.value.pending.Some? && r.value.objects == s.objects
         && UploadInv(C, bytes, r.value.pending.value) && r.value.pending.value.blobId == u.blobId
         && forall i | 0 <= i < |u.received| :: r.value.pending.value.received[i] <==> u.received[i] || Arrived(payloads, i)
  }

  /**
   * Reassembly. Whatever the order, with duplicates, strays and short payloads mixed in: the upload
   * never fails; while a chunk is missing, the store is untouched and the flags say exactly which
   * chunks came; and once every chunk has come, the store has the original under its id, unless it had an
   * object there already, which it keeps.
   */
  lemma {:induction false} DeliveryReassembles(c: Cipher, C: nat, bytes: Bytes, s: Session, payloads: seq<Bytes>)
    requires C > 0 && s.pending.Some? && UploadInv(C, bytes, s.pending.value)
    requires CountTrue(s.pending.value.received) < NumChunks(|bytes|, C)
    requires forall p | p in payloads :: Honest(c, C, bytes, p)
    ensures Delivered(C, bytes, s, payloads, Deliver(c, C, s, payloads))
    decreases |payloads|
  {
    var u := s.pending.value;
    CountBounds(u.received);
    if payloads != [] {
      var p, rest := payloads[0], payloads[1..];
      assert p in payloads && forall q | q in rest :: q in payloads;
      HandleKeepsInv(c, C, bytes, u, p);
      var u1 := Handle(c, C, u, p).value;
      CountBounds(u1.received);
      assert [p] + rest == payloads;
      if u1.receivedCount == |u1.received| {
        LastChunk(c, C, bytes, s, u1, p, rest);
      } else {
        DeliveryReassembles(c, C, bytes, s.(pending := Some(u1)), rest);
        MoreChunks(C, bytes, s, u1, p, rest, Deliver(c, C, s.(pending := Some(u1)), rest));
      }
    }
  }

  lemma MoreChunks(C: nat, bytes: Bytes, s: Session, u1: Pending, p: Bytes, rest: seq<Bytes>, r: Outcome<Session>)
    requires C > 0 && s.pending.Some? && |s.pending.value.received| == |u1.received| == NumChunks(|bytes|, C)
    requires u1.blobId == s.pending.value.blobId
    requires forall i | 0 <= i < |u1.received| :: u1.received[i] <==> s.pending.value.received[i] || Carries(p, i)
    requires Delivered(C, bytes, s.(pending := Some(u1)), rest, r)
    ensures Delivered(C, bytes, s, [p] + rest, r)
  {
    assert ([p] + rest)[1..] == rest;
    forall i: nat ensures Arrived([p] + rest, i) <==> Carries(p, i) || Arrived(rest, i) { ArrivedSplits([p] + rest, i); }
  }

  lemma LastChunk(c: Cipher, C: nat, bytes: Bytes, s: Session, u1: Pending, p: Bytes, rest: seq<Bytes>)
    requires C > 0 && s.pending.Some? && |s.pending.value.received| == NumChunks(|bytes|, C) > 0
    requires Handle(c, C, s.pending.value, p) == Ok(u1) && UploadInv(C, bytes, u1) && u1.blobId == s.pending.value.blobId
    requires u1.receivedCount == |u1.received| && forall i | 0 <= i < |u1.received| :: u1.received[i]
    requires forall i | 0 <= i < |u1.received| :: u1.received[i] <==> s.pending.value.received[i] || Carries(p, i)
    ensures Delivered(C, bytes, s, [p] + rest, Deliver(c, C, s, [p] + rest))
  {
    assert ([p] + rest)[1..] == rest;
    forall i: nat ensures Arrived([p] + rest, i) <==> Carries(p, i) || Arrived(rest, i) { ArrivedSplits([p] + rest, i); }
    CompleteIsOriginal(C, bytes, u1);
    NothingPending(c, C, OnFileChunk(c, C, s, p).value, rest);
  }

  lemma ArrivedSplits(payloads: seq<Bytes>, i: nat)
    requires payloads != []
    ensures Arrived(payloads, i) <==> Carries(payloads[0], i) || Arrived(payloads[1..], i)
  {
    assert forall p :: p in payloads <==> p == payloads[0] || p in payloads[1..];
  }

  lemma {:induction false} NothingPending(c: Cipher, C: nat, s: Session, payloads: seq<Bytes>)
    requires C > 0 && s.pending.None?
    ensures Deliver(c, C, s, payloads) == Ok(s)
    decreases |payloads|
  {
    if payloads != [] { NothingPending(c, C, s, payloads[1..]); }
  }

  /** What the sender makes of a chunk is honest to every server that lists the sender's newest key. */
  lemma SentIsHonest(writer: Cipher, reader: Cipher, C: nat, bytes: Bytes, i: nat)
    requires C > 0 && Reads(writer, reader) && i < 0x1_0000_0000
    ensures Honest(reader, C, bytes, ChunkPayload(writer, bytes, C, i)) && Carries(ChunkPayload(writer, bytes, C, i), i)
  {
    var p := ChunkPayload(writer, bytes, C, i);
    assert p[..4] == LE(i, 4) && p[4..] == Protect(writer, Slice(bytes, C, i), i);
    Widths();
    RoundTripLE(i, 4);
    ReadsBack(writer, reader, Slice(bytes, C, i), i);
  }

  /**
   * An empty file has no chunk, and its upload never completes: sending nothing leaves it pending,
   * and a stray chunk ends the session because no temporary file was ever created.
   */
  lemma EmptyNeverStored(c: Cipher, C: nat, s: Session, blobId: Bytes, payloads: seq<Bytes>)
    requires C > 0
    ensures var r := Deliver(c, C, OnFilePut(s, blobId, NumChunks(0, C)), payloads);
            if payloads == [] then r.Ok? && r.value.pending.Some? && r.value.objects == s.objects else r.Err?
  {
    CeilBounds(0, C);
    Scale(1, NumChunks(0, C) + 1, C);
    assert NumChunks(0, C) == 0;
  }

  // ---- payloads that no key opens, and nothing assumed of the others ----

  /** The payload carries this index, and a key of the server opens it. */
  predicate Opens(c: Cipher, payload: Bytes, idx: nat) { Carries(payload, idx) && Unprotect(c, payload[4..], idx).Some? }

  /** The payload is of a chunk that is still missing, and no key opens it. */
  predicate Unopenable(c: Cipher, u: Pending, payload: Bytes) {
    exists idx :: 0 <= idx < |u.received| && Carries(payload, idx) && !u.received[idx] && !Opens(c, payload, idx)
  }

  /** `data` was written at `off`, with zeros before it if the file was shorter; the rest is as it was. */
  ghost predicate WrittenAt(was: Bytes, now: Bytes, off: nat, data: Bytes) {
    && (data == [] ==> now == was)
    && (data != [] ==> |now| == Max(|was|, off + |data|))
    && forall j | 0 <= j < |now| ::
         now[j] == if off <= j < off + |data| then data[j - off] else if j < |was| then was[j] else 0
  }

  /** The flags of the upload are those it had and those of chunks that were opened. */
  ghost predicate FlagsOpened(c: Cipher, was: Pending, now: Pending, payload: Bytes) {
    && now.blobId == was.blobId && |now.received| == |was.received|
    && forall i | 0 <= i < |was.received| :: now.received[i] <==> was.received[i] || Opens(c, payload, i)
  }

  /**
   * Whatever the payload is: it is an error exactly when it is of a missing chunk and no key opens it; a flag is
   * set exactly when a key opened the chunk, and then its bytes are in the file; any other payload does nothing.
   */
  lemma HandleMeans(c: Cipher, C: nat, u: Pending, payload: Bytes)
    requires C > 0
    ensures var r := Handle(c, C, u, payload);
            && (r.Err? <==> Unopenable(c, u, payload))
            && (r.Ok? ==> FlagsOpened(c, u, r.value, payload))
            && (r.Ok? && u.receivedCount == CountTrue(u.received) ==> r.value.receivedCount == CountTrue(r.value.received))
            && (r.Ok? && r.value.received == u.received ==> r.value == u)
            && (forall i | r.Ok? && 0 <= i < |u.received| && !u.received[i] && Opens(c, payload, i) ::
                  WrittenAt(u.temp, r.value.temp, i * C, Unprotect(c, payload[4..], i).value))
  {
    if |payload| >= 4 {
      var idx := FromLE(payload[..4]);
      assert Carries(payload, idx);
      if idx < |u.received| && !u.received[idx] { CountSet(u.received, idx); }
    }
  }

  ghost predicate OpenedBy(c: Cipher, payloads: seq<Bytes>, i: nat) { exists p :: p in payloads && Opens(c, p, i) }

  /**
   * Whatever arrives: an upload that completes has had every missing chunk opened by a key of the server, and the
   * store changes only with it.
   */
  lemma {:induction false} StoredMeansOpened(c: Cipher, C: nat, s: Session, payloads: seq<Bytes>)
    requires C > 0 && s.pending.Some? && s.pending.value.receivedCount == CountTrue(s.pending.value.received)
    ensures var u, r := s.pending.value, Deliver(c, C, s, payloads);
            && (r.Ok? && r.value.pending.Some? ==> r.value.objects == s.objects)
            && (r.Ok? && r.value.pending.None? ==>
                  forall i | 0 <= i < |u.received| :: u.received[i] || OpenedBy(c, payloads, i))
    decreases |payloads|
  {
    if payloads != [] {
      var u, p, rest := s.pending.value, payloads[0], payloads[1..];
      HandleMeans(c, C, u, p);
      assert p in payloads && forall q | q in rest :: q in payloads;
      var h := Handle(c, C, u, p);
      if h.Ok? {
        CountBounds(h.value.received);
        assert forall i | 0 <= i < |u.received| :: Opens(c, p, i) ==> OpenedBy(c, payloads, i);
        if h.value.receivedCount == |h.value.received| {
          if h.value.received != [] { NothingPending(c, C, OnFileChunk(c, C, s, p).value, rest); }
        } else {
          StoredMeansOpened(c, C, s.(pending := Some(h.value)), rest);
          assert forall i | OpenedBy(c, rest, i) :: OpenedBy(c, payloads, i);
        }
      }
    }
  }

  // ---- the objects that do this step by step ----

  class PendingUpload {
    const blobId: Bytes
    var temp: Bytes
    const received: array<bool>
    var receivedCount: nat

    ghost function State(): Pending
      reads this, received
    {
      Pending(blobId, temp, received[..], receivedCount)
    }

    constructor (blobId: Bytes, totalChunks: nat)
      ensures State() == Begin(blobId, totalChunks) && fresh(received)
    {
      this.blobId := blobId;
      temp, receivedCount := [], 0;
      received := new bool[totalChunks](_ => false);
      new;
      assert received[..] == Begin(blobId, totalChunks).received;
    }

    method HandleChunk(c: Cipher, C: nat, payload: Bytes) returns (ok: bool)
      requires C > 0
      modifies this, received
      ensures ok <==> Handle(c, C, old(State()), payload).Ok?
      ensures State() == if ok then Handle(c, C, old(State()), payload).value else old(State())
      ensures !ok <==> Unopenable(c, old(State()), payload)
    {
      HandleMeans(c, C, State(), payload);
      if |payload| < 4 { return true; }
      var idx := FromLE(payload[..4]);
      if idx >= received.Length || received[idx] { return true; }
      var data := Unprotect(c, payload[4..], idx);
      if data.None? { return false; }
      temp := WriteAt(temp, idx * C, data.value);
      received[idx] := true;
      receivedCount := receivedCount + 1;
      return true;
    }
  }

  class SessionLoop {
    const c: Cipher
    const C: nat
    var pending: PendingUpload?
    var objects: map<Bytes, Bytes>

    ghost function Repr(): set<object>
      reads this
    {
      {this} + if pending == null then {} else {pending, pending.received}
    }

    ghost function State(): Session
      reads Repr()
    {
      Session(if pending == null then None else Some(pending.State()), objects)
    }

    constructor (c: Cipher, C: nat, objects: map<Bytes, Bytes>)
      ensures this.c == c && this.C == C && State() == Session(None, objects) && fresh(Repr())
    {
      this.c, this.C, this.pending, this.objects := c, C, null, objects;
    }

    method FilePut(blobId: Bytes, totalChunks: nat)
      modifies this
      ensures State() == OnFilePut(old(State()), blobId, totalChunks) && fresh(Repr() - old(Repr()))
    {
      pending := new PendingUpload(blobId, totalChunks);
    }

    method ReceiveChunk(payload: Bytes) returns (ok: bool, completed: bool)
      requires C > 0
      modifies Repr()
      ensures Repr() <= old(Repr())
      ensures var r := OnFileChunk(c, C, old(State()), payload);
              && (ok <==> r.Ok?)
              && (ok ==> State() == r.value && (completed <==> old(State()).pending.Some? && r.value.pending.None?))
      ensures !ok ==> old(pending) != null && objects == old(objects)
    {
      completed := false;
      if pending == null { return true, false; }
      ok := pending.HandleChunk(c, C, payload);
      if ok && pending.receivedCount == pending.received.Length {
        if pending.received.Length == 0 { return false, false; }
        if pending.blobId !in objects {
          objects := objects[pending.blobId := pending.temp];
        }
        pending := null;
        completed := true;
      }
    }

    /** Chunks as they arrive, until one cannot be opened. */
    method ReceiveAll(payloads: seq<Bytes>) returns (ok: bool)
      requires C > 0
      modifies Repr()
      ensures var r := Deliver(c, C, old(State()), payloads);
              (ok <==> r.Ok?) && (ok ==> State() == r.value)
      ensures !ok ==> objects == old(objects)
    {
      ok := true;
      var i := 0;
      while i < |payloads|
        invariant i <= |payloads| && ok && Repr() <= old(Repr())
        invariant pending == null || objects == old(objects)
        invariant Deliver(c, C, old(State()), payloads) == Deliver(c, C, State(), payloads[i..])
      {
        assert payloads[i..][1..] == payloads[i + 1..];
        var completed;
        ok, completed := ReceiveChunk(payloads[i]);
        if !ok { return; }
        i := i + 1;
      }
    }

    /** A whole upload: its start, and then its chunks as they arrive. */
    method ReceiveFile(blobId: Bytes, totalChunks: nat, payloads: seq<Bytes>) returns (ok: bool)
      requires C > 0
      modifies Repr()
      ensures var r := Deliver(c, C, OnFilePut(old(State()), blobId, totalChunks), payloads);
              (ok <==> r.Ok?) && (ok ==> State() == r.value)
      ensures !ok ==> objects == old(objects)
    {
      FilePut(blobId, totalChunks);
      ok := ReceiveAll(payloads);
    }
  }

  // ---- sending ----

  /** The chunks below `n` that the server does not have, in order. */
  function Missing(n: nat, have: set<nat>): seq<nat> {
    if n == 0 then [] else if n - 1 in have then Missing(n - 1, have) else Missing(n - 1, have) + [n - 1]
  }

  predicate Ascending(s: seq<nat>) { forall j, k | 0 <= j < k < |s| :: s[j] < s[k] }

  lemma {:induction false} MissingInOrder(n: nat, have: set<nat>)
    ensures Ascending(Missing(n, have)) && forall i: nat :: i in Missing(n, have) <==> i < n && i !in have
  {
    if n != 0 {
      MissingInOrder(n - 1, have);
      var m := Missing(n - 1, have);
      forall k | 0 <= k < |m| ensures m[k] < n - 1 { assert m[k] in m; }
      assert Ascending(m + [n - 1]);
    }
  }

  /** The sending loop of `push_entry`; `have` lists the chunks the server says it already has. */
  method SendChunks(c: Cipher, C: nat, bytes: Bytes, have: set<nat>) returns (sent: seq<Bytes>)
    requires C > 0
    ensures |sent| == |Missing(NumChunks(|bytes|, C), have)|
    ensures forall k | 0 <= k < |sent| :: sent[k] == ChunkPayload(c, bytes, C, Missing(NumChunks(|bytes|, C), have)[k])
  {
    sent := [];
    for idx := 0 to NumChunks(|bytes|, C)
      invariant |sent| == |Missing(idx, have)|
      invariant forall k | 0 <= k < |sent| :: sent[k] == ChunkPayload(c, bytes, C, Missing(idx, have)[k])
    {
      if idx in have { continue; }
      var payload := Payload(c, C, bytes, idx);
      sent := sent + [payload];
    }
  }

  /** One pass through that loop: cut out the slice, protect it and put its index in front. */
  method Payload(c: Cipher, C: nat, bytes: Bytes, idx: nat) returns (payload: Bytes)
    requires C > 0 && idx < NumChunks(|bytes|, C)
    ensures payload == ChunkPayload(c, bytes, C, idx)
  {
    ChunkBounds(|bytes|, C, idx);
    var start := idx * C;
    var end := if start + C < |bytes| then start + C else |bytes|;
    payload := LE(idx, 4) + Protect(c, bytes[start..end], idx);
  }

  lemma SentCarry(writer: Cipher, reader: Cipher, C: nat, bytes: Bytes, order: seq<nat>, sent: seq<Bytes>)
    requires C > 0 && Reads(writer, reader) && |sent| == |order|
    requires forall k | 0 <= k < |order| :: order[k] < 0x1_0000_0000 && sent[k] == ChunkPayload(writer, bytes, C, order[k])
    ensures forall p | p in sent :: Honest(reader, C, bytes, p)
    ensures forall i | i in order :: Arrived(sent, i)
  {
    forall k | 0 <= k < |order| ensures Honest(reader, C, bytes, sent[k]) && Carries(sent[k], order[k]) {
      SentIsHonest(writer, reader, C, bytes, order[k]);
    }
  }

  lemma AllArrive(writer: Cipher, reader: Cipher, C: nat, bytes: Bytes, sent: seq<Bytes>, n: nat)
    requires C > 0 && Reads(writer, reader) && n < 0x1_0000_0000
    requires var order := Missing(n, {});
             |sent| == |order| && forall k | 0 <= k < |sent| :: sent[k] == ChunkPayload(writer, bytes, C, order[k])
    ensures forall p | p in sent :: Honest(reader, C, bytes, p)
    ensures forall i | 0 <= i < n :: Arrived(sent, i)
  {
    MissingInOrder(n, {});
    var order := Missing(n, {});
    forall k | 0 <= k < |order| ensures order[k] < n { assert order[k] in order; }
    SentCarry(writer, reader, C, bytes, order, sent);
    assert forall i | 0 <= i < n :: i in order;
  }

  /** Sent to a session that lists the sender's newest key, the loop's chunks store the file. */
  lemma SentReassembles(writer: Cipher, reader: Cipher, C: nat, bytes: Bytes, s: Session, blobId: Bytes, sent: seq<Bytes>)
    requires C > 0 && Reads(writer, reader) && bytes != [] && NumChunks(|bytes|, C) < 0x1_0000_0000
    requires var order := Missing(NumChunks(|bytes|, C), {});
             |sent| == |order| && forall k | 0 <= k < |sent| :: sent[k] == ChunkPayload(writer, bytes, C, order[k])
    ensures Deliver(reader, C, OnFilePut(s, blobId, NumChunks(|bytes|, C)), sent) ==
            Ok(Session(None, if blobId in s.objects then s.objects else s.objects[blobId := bytes]))
  {
    AllArrive(writer, reader, C, bytes, sent, NumChunks(|bytes|, C));
    SomeChunk(|bytes|, C);
    BeginInv(C, bytes, blobId);
    DeliveryReassembles(reader, C, bytes, OnFilePut(s, blobId, NumChunks(|bytes|, C)), sent);
  }

  lemma {:induction false} MissingFirst(n: nat)
    requires n > 0
    ensures Missing(n, {}) != [] && Missing(n, {})[0] == 0
    decreases n
  {
    if n > 1 { MissingFirst(n - 1); }
  }

  /** Sent by a client whose newest key the server does not list, the very first chunk is an error. */
  lemma SentUnread(writer: Cipher, reader: Cipher, C: nat, bytes: Bytes, s: Session, blobId: Bytes, sent: seq<Bytes>)
    requires C > 0 && writer.aead == reader.aead && writer.aead.Valid() && writer.keys.Some? && reader.keys.Some?
    requires writer.keys.value.newest !in reader.keys.value.all
    requires sent != [] && sent[0] == ChunkPayload(writer, bytes, C, 0) && NumChunks(|bytes|, C) > 0
    ensures Deliver(reader, C, OnFilePut(s, blobId, NumChunks(|bytes|, C)), sent).Err?
  {
    var p := sent[0];
    assert p[..4] == LE(0, 4) && p[4..] == Protect(writer, Slice(bytes, C, 0), 0);
    Widths();
    RoundTripLE(0, 4);
    DecryptIff(writer.aead, writer.keys.value, reader.keys.value.all, Slice(bytes, C, 0), 0);
  }

  /**
   * With keys at both ends, what the loop sends of a file is stored exactly when the server lists the client's
   * newest key; otherwise the session ends with an error.
   */
  lemma SentStoredIff(writer: Cipher, reader: Cipher, C: nat, bytes: Bytes, s: Session, blobId: Bytes, sent: seq<Bytes>)
    requires C > 0 && writer.aead == reader.aead && writer.aead.Valid() && writer.keys.Some? && reader.keys.Some?
    requires bytes != [] && NumChunks(|bytes|, C) < 0x1_0000_0000
    requires var order := Missing(NumChunks(|bytes|, C), {});
             |sent| == |order| && forall k | 0 <= k < |sent| :: sent[k] == ChunkPayload(writer, bytes, C, order[k])
    ensures Deliver(reader, C, OnFilePut(s, blobId, NumChunks(|bytes|, C)), sent) ==
            if writer.keys.value.newest in reader.keys.value.all then
              Ok(Session(None, if blobId in s.objects then s.objects else s.objects[blobId := bytes]))
            else Err
  {
    if writer.keys.value.newest in reader.keys.value.all {
      SentReassembles(writer, reader, C, bytes, s, blobId, sent);
    } else {
      SomeChunk(|bytes|, C);
      MissingFirst(NumChunks(|bytes|, C));
      SentUnread(writer, reader, C, bytes, s, blobId, sent);
    }
  }

  /** A file sent to a session, keys at both ends: it is stored exactly when the session lists the client's newest key. */
  method PushFile(writer: Cipher, server: SessionLoop, blobId: Bytes, bytes: Bytes) returns (ok: bool)
    requires server.C > 0 && writer.aead == server.c.aead && writer.aead.Valid()
    requires writer.keys.Some? && server.c.keys.Some?
    requires bytes != [] && NumChunks(|bytes|, server.C) < 0x1_0000_0000
    modifies server.Repr()
    ensures ok <==> writer.keys.value.newest in server.c.keys.value.all
    ensures server.objects ==
            if ok && blobId !in old(server.objects) then old(server.objects)[blobId := bytes] else old(server.objects)
  {
    var sent := SendChunks(writer, server.C, bytes, {});
    SentStoredIff(writer, server.c, server.C, bytes, server.State(), blobId, sent);
    ok := server.ReceiveFile(blobId, NumChunks(|bytes|, server.C), sent);
  }
}
