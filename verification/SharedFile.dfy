/** A temporary file that is written chunk by chunk and now and then removed. */
module SharedFile {
  import opened Common
  import opened ByteStrings
  import opened Upload

  datatype Event = Wrote(i: nat) | Removed

  /** The file after a history of chunk writes and removals; `None` while it does not exist. */
  function FileAfter(C: nat, bytes: Bytes, evs: seq<Event>): Option<Bytes>
    requires C > 0
  {
    if evs == [] then None
    else
      match evs[|evs| - 1]
      case Removed => None
      case Wrote(i) =>
        var was := FileAfter(C, bytes, evs[..|evs| - 1]);
        Some(WriteAt(if was.Some? then was.value else [], i * C, Slice(bytes, C, i)))
  }

  /** The chunks written since the last removal. */
  function Since(evs: seq<Event>): set<nat> {
    if evs == [] then {}
    else
      match evs[|evs| - 1]
      case Removed => {}
      case Wrote(i) => Since(evs[..|evs| - 1]) + {i}
  }

  predicate AllInRange(C: nat, len: nat, evs: seq<Event>)
    requires C > 0
  {
    forall e | e in evs && e.Wrote? :: e.i < NumChunks(len, C)
  }

  predicate AllZero(s: Bytes) { forall j | 0 <= j < |s| :: s[j] == 0 }

  /** Chunk `i` of the file is all zeros as far as the file reaches. */
  ghost predicate Blank(C: nat, file: Bytes, i: nat) {
    forall j | i * C <= j < i * C + C && j < |file| :: file[j] == 0
  }

  function EndOfChunk(C: nat, len: nat, i: nat): nat { if i * C + C <= len then i * C + C else len }

  /** What a file with the chunks `w` written looks like. */
  ghost predicate Looks(C: nat, bytes: Bytes, file: Bytes, w: set<nat>)
    requires C > 0
  {
    && |file| <= |bytes|
    && (forall i | i in w :: i < NumChunks(|bytes|, C) && EndOfChunk(C, |bytes|, i) <= |file| && RangeRight(C, bytes, file, i))
    && (forall i: nat | i !in w :: Blank(C, file, i))
    && (w == {} <==> file == [])
    && (w != {} ==> exists i :: i in w && |file| == EndOfChunk(C, |bytes|, i))
  }

  lemma SliceEnds(C: nat, bytes: Bytes, i: nat)
    requires C > 0 && i < NumChunks(|bytes|, C)
    ensures i * C < EndOfChunk(C, |bytes|, i) == i * C + |Slice(bytes, C, i)| <= |bytes|
  {
    ChunkBounds(|bytes|, C, i);
  }

  lemma BlankStays(C: nat, file: Bytes, s: Bytes, k: nat, i: nat)
    requires i != k && Blank(C, file, i) && |s| <= C
    ensures Blank(C, WriteAt(file, k * C, s), i)
  {
    var w := WriteAt(file, k * C, s);
    if i < k { ChunksApart(C, i, k); } else { ChunksApart(C, k, i); }
    GapIsZero(file, k * C, s);
    forall j | i * C <= j < i * C + C && j < |w| ensures w[j] == 0 {
      assert !(k * C <= j < k * C + |s|);
    }
  }

  /** Between the old end and what is written lie zeros. */
  lemma GapIsZero(file: Bytes, at: nat, s: Bytes)
    ensures var w := WriteAt(file, at, s);
            forall j | 0 <= j < |w| && !(at <= j < at + |s|) :: w[j] == if j < |file| then file[j] else 0
  {
  }

  lemma WriteLooks(C: nat, bytes: Bytes, file: Bytes, w: set<nat>, k: nat)
    requires C > 0 && Looks(C, bytes, file, w) && k < NumChunks(|bytes|, C)
    ensures Looks(C, bytes, WriteAt(file, k * C, Slice(bytes, C, k)), w + {k})
  {
    var now := WriteAt(file, k * C, Slice(bytes, C, k));
    SliceEnds(C, bytes, k);
    WriteIsRight(C, bytes, file, k);
    forall i | i in w + {k}
      ensures i < NumChunks(|bytes|, C) && EndOfChunk(C, |bytes|, i) <= |now| && RangeRight(C, bytes, now, i)
    {
      if i != k { WriteKeepsRange(C, bytes, file, k, i); }
    }
    forall i: nat | i !in w + {k} ensures Blank(C, now, i) { BlankStays(C, file, Slice(bytes, C, k), k, i); }
    if |now| == EndOfChunk(C, |bytes|, k) {
      assert k in w + {k};
    } else {
      var i :| i in w && |file| == EndOfChunk(C, |bytes|, i);
      assert i in w + {k};
    }
  }

  function Content(file: Option<Bytes>): Bytes { if file.Some? then file.value else [] }

  lemma {:induction false} FileLooks(C: nat, bytes: Bytes, evs: seq<Event>)
    requires C > 0 && AllInRange(C, |bytes|, evs)
    ensures Looks(C, bytes, Content(FileAfter(C, bytes, evs)), Since(evs))
    ensures FileAfter(C, bytes, evs).Some? <==> Since(evs) != {}
    decreases |evs|
  {
    if evs != [] && evs[|evs| - 1].Wrote? {
      var init := evs[..|evs| - 1];
      assert evs[|evs| - 1] in evs && forall e | e in init :: e in evs;
      FileLooks(C, bytes, init);
      WriteLooks(C, bytes, Content(FileAfter(C, bytes, init)), Since(init), evs[|evs| - 1].i);
    }
  }

  /** Chunk `i` need not be written: a later one leaves zeros in its place, and zeros are what it holds. */
  predicate Excused(C: nat, bytes: Bytes, i: nat)
    requires C > 0
  {
    i + 1 < NumChunks(|bytes|, C) && AllZero(Slice(bytes, C, i))
  }

  ghost predicate Covered(C: nat, bytes: Bytes, w: set<nat>)
    requires C > 0
  {
    forall i | 0 <= i < NumChunks(|bytes|, C) :: i in w || Excused(C, bytes, i)
  }

  lemma BlankSlice(C: nat, bytes: Bytes, i: nat)
    requires C > 0 && Blank(C, bytes, i)
    ensures AllZero(Slice(bytes, C, i))
  {
    var s, start := Slice(bytes, C, i), i * C;
    forall j | 0 <= j < |s| ensures s[j] == 0 { assert s[j] == bytes[start + j]; }
  }

  lemma WholeIsCovered(C: nat, bytes: Bytes, w: set<nat>, i: nat)
    requires C > 0 && Looks(C, bytes, bytes, w) && i < NumChunks(|bytes|, C) && i !in w
    ensures Excused(C, bytes, i)
  {
    BlankSlice(C, bytes, i);
    var last :| last in w && |bytes| == EndOfChunk(C, |bytes|, last);
    LastReaches(C, |bytes|, last, i);
  }

  /** Only the last chunk ends where the file ends. */
  lemma LastReaches(C: nat, len: nat, last: nat, i: nat)
    requires C > 0 && last < NumChunks(len, C) && i < NumChunks(len, C) && last != i && EndOfChunk(C, len, last) == len
    ensures i + 1 < NumChunks(len, C)
  {
    if last + 1 < NumChunks(len, C) { ChunkBounds(len, C, last); }
  }

  lemma ExcusedByte(C: nat, bytes: Bytes, file: Bytes, i: nat, j: nat)
    requires C > 0 && i * C <= j < i * C + C && j < |bytes| && j < |file| && Blank(C, file, i) && AllZero(Slice(bytes, C, i))
    ensures file[j] == bytes[j]
  {
    var start := i * C;
    var s := Slice(bytes, C, i);
    assert s == bytes[start..start + |s|];
    assert s[j - start] == bytes[j];
  }

  lemma CoveredByte(C: nat, bytes: Bytes, file: Bytes, w: set<nat>, i: nat, j: nat)
    requires C > 0 && i < NumChunks(|bytes|, C) && i * C <= j < i * C + C && j < |bytes| && j < |file|
    requires i in w ==> RangeRight(C, bytes, file, i)
    requires i !in w ==> Blank(C, file, i) && AllZero(Slice(bytes, C, i))
    ensures file[j] == bytes[j]
  {
    if i in w { RangeByte(C, bytes, file, i, j); } else { ExcusedByte(C, bytes, file, i, j); }
  }

  lemma ChunkAt(len: nat, C: nat, j: nat) returns (i: nat)
    requires C > 0 && j < len
    ensures i < NumChunks(len, C) && i * C <= j < i * C + C
  {
    ChunkOf(len, C, j);
    i := j / C;
  }

  lemma CoveredIsWhole(C: nat, bytes: Bytes, file: Bytes, w: set<nat>)
    requires C > 0 && bytes != [] && Looks(C, bytes, file, w) && Covered(C, bytes, w)
    ensures file == bytes
  {
    CeilBounds(|bytes|, C);
    var last := NumChunks(|bytes|, C) - 1;
    ChunkBounds(|bytes|, C, last);
    assert last in w;
    assert |file| == |bytes|;
    forall j | 0 <= j < |bytes| ensures file[j] == bytes[j] {
      var i := ChunkAt(|bytes|, C, j);
      CoveredByte(C, bytes, file, w, i, j);
    }
  }

  /**
   * The temporary file is the original exactly when every chunk has been written since the last removal, except
   * that chunks of zeros before the last one need not have been.
   */
  lemma FileIsOriginalIff(C: nat, bytes: Bytes, evs: seq<Event>)
    requires C > 0 && bytes != [] && AllInRange(C, |bytes|, evs)
    ensures FileAfter(C, bytes, evs) == Some(bytes) <==> Covered(C, bytes, Since(evs))
  {
    FileLooks(C, bytes, evs);
    var file, w := Content(FileAfter(C, bytes, evs)), Since(evs);
    if Covered(C, bytes, w) {
      CoveredIsWhole(C, bytes, file, w);
    }
    if file == bytes {
      forall i | 0 <= i < NumChunks(|bytes|, C) && i !in w ensures Excused(C, bytes, i) { WholeIsCovered(C, bytes, w, i); }
    }
  }

  /** An empty file has no chunk to write. */
  lemma EmptyHasNoFile(C: nat, evs: seq<Event>)
    requires C > 0 && AllInRange(C, 0, evs)
    ensures FileAfter(C, [], evs).None?
  {
    CeilBounds(0, C);
    Scale(1, NumChunks(0, C) + 1, C);
    FileLooks(C, [], evs);
  }
}
