/** The backup archive: length-prefixed records, one per file. */
module Archive {
  import opened ByteStrings
  import Utf8

  datatype Record = Record(rel: Bytes, data: Bytes)

  /** Both lengths are cast to 32 bits. */
  function RecordBytes(r: Record): (b: Bytes)
    ensures |b| == 8 + |r.rel| + |r.data|
  {
    LE(|r.rel|, 4) + LE(|r.data|, 4) + r.rel + r.data
  }

  function Tar(rs: seq<Record>): Bytes {
    if rs == [] then [] else RecordBytes(rs[0]) + Tar(rs[1..])
  }

  predicate Short(r: Record) { |r.rel| < 0x1_0000_0000 && |r.data| < 0x1_0000_0000 }

  /** The whole records at the front of a buffer. */
  function Records(buf: Bytes): seq<Record>
    decreases |buf|
  {
    if |buf| < 8 then []
    else
      var relLen, dataLen := FromLE(buf[0..4]), FromLE(buf[4..8]);
      if 8 + relLen + dataLen > |buf| then []
      else
        [Record(buf[8..8 + relLen], buf[8 + relLen..8 + relLen + dataLen])] + Records(buf[8 + relLen + dataLen..])
  }

  /** A record is the two lengths, four bytes each with the least significant first, then the name and the data. */
  lemma RecordSpelled(r: Record, k: nat)
    requires k < 4
    ensures var b, n := RecordBytes(r), |r.rel|;
            && b[k] == (n / Pow256(k)) % 256 && b[4 + k] == (|r.data| / Pow256(k)) % 256
            && b[8..8 + n] == r.rel && b[8 + n..] == r.data
  {
    LEDigit(|r.rel|, 4, k);
    LEDigit(|r.data|, 4, k);
    assert RecordBytes(r) == LE(|r.rel|, 4) + (LE(|r.data|, 4) + (r.rel + r.data));
  }

  // ---- round trip ----

  lemma FiveParts(a: Bytes, b: Bytes, c: Bytes, d: Bytes, rest: Bytes)
    requires |a| == 4 && |b| == 4
    ensures var s := a + b + c + d + rest;
            && s[0..4] == a && s[4..8] == b && s[8..8 + |c|] == c
            && s[8 + |c|..8 + |c| + |d|] == d && s[8 + |c| + |d|..] == rest
  {
    assert a + b + c + d + rest == a + (b + (c + (d + rest)));
  }

  lemma FirstRecord(r: Record, rest: Bytes)
    requires Short(r)
    ensures Records(RecordBytes(r) + rest) == [r] + Records(rest)
  {
    FiveParts(LE(|r.rel|, 4), LE(|r.data|, 4), r.rel, r.data, rest);
    Widths();
    RoundTripLE(|r.rel|, 4);
    RoundTripLE(|r.data|, 4);
  }

  lemma {:induction false} TarSnoc(rs: seq<Record>, r: Record)
    ensures Tar(rs + [r]) == Tar(rs) + RecordBytes(r)
    decreases |rs|
  {
    var all := rs + [r];
    if rs == [] {
      assert all == [r] && [r][1..] == [];
      assert Tar([r]) == RecordBytes(r);
    } else {
      assert all[0] == rs[0] && all[1..] == rs[1..] + [r];
      TarSnoc(rs[1..], r);
      assert Tar(all) == RecordBytes(rs[0]) + (Tar(rs[1..]) + RecordBytes(r));
    }
  }

  ghost predicate WholeRecords(rs: seq<Record>, n: nat, k: nat) {
    && k <= |rs| && |Tar(rs[..k])| <= n
    && (k < |rs| ==> n < |Tar(rs[..k + 1])|)
  }

  lemma CutHeader(a: Bytes, b: Bytes, c: Bytes, d: Bytes, n: nat)
    requires |a| == 4 && |b| == 4 && 8 <= n <= |a + b + c + d|
    ensures (a + b + c + d)[..n][0..4] == a && (a + b + c + d)[..n][4..8] == b
  {
    var s := a + b + c + d;
    assert s == a + (b + (c + d));
    assert s[..n][0..4] == s[0..4] == a;
    assert s[..n][4..8] == s[4..8] == b;
  }

  lemma CutRecord(r: Record, n: nat)
    requires Short(r) && n < |RecordBytes(r)|
    ensures Records(RecordBytes(r)[..n]) == []
  {
    if n >= 8 {
      CutHeader(LE(|r.rel|, 4), LE(|r.data|, 4), r.rel, r.data, n);
      Widths();
      RoundTripLE(|r.rel|, 4);
      RoundTripLE(|r.data|, 4);
    }
  }

  /** An archive cut anywhere unpacks to exactly the whole records before the cut. */
  lemma {:induction false} CutArchive(rs: seq<Record>, n: nat) returns (k: nat)
    requires forall r | r in rs :: Short(r)
    requires n <= |Tar(rs)|
    ensures WholeRecords(rs, n, k) && Records(Tar(rs)[..n]) == rs[..k]
    decreases |rs|
  {
    if rs == [] {
      k := 0;
    } else if n < |RecordBytes(rs[0])| {
      k := 0;
      assert Tar(rs)[..n] == RecordBytes(rs[0])[..n];
      CutRecord(rs[0], n);
      TarPrefix(rs, 1);
    } else {
      var m := n - |RecordBytes(rs[0])|;
      var j := CutArchive(rs[1..], m);
      k := j + 1;
      assert Tar(rs)[..n] == RecordBytes(rs[0]) + Tar(rs[1..])[..m];
      FirstRecord(rs[0], Tar(rs[1..])[..m]);
      CutLater(rs, n, j);
    }
  }

  lemma CutLater(rs: seq<Record>, n: nat, j: nat)
    requires rs != [] && |RecordBytes(rs[0])| <= n && WholeRecords(rs[1..], n - |RecordBytes(rs[0])|, j)
    ensures WholeRecords(rs, n, j + 1) && rs[..j + 1] == [rs[0]] + rs[1..][..j]
  {
    TarPrefix(rs, j + 1);
    if j + 1 < |rs| { TarPrefix(rs, j + 2); }
  }

  lemma TarPrefix(rs: seq<Record>, k: nat)
    requires 0 < k <= |rs|
    ensures |Tar(rs[..k])| == |RecordBytes(rs[0])| + |Tar(rs[1..][..k - 1])|
  {
    assert rs[..k][1..] == rs[1..][..k - 1];
  }

  lemma {:induction false} RecordsOfTar(rs: seq<Record>)
    requires forall r | r in rs :: Short(r)
    ensures Records(Tar(rs)) == rs
    decreases |rs|
  {
    if rs != [] {
      FirstRecord(rs[0], Tar(rs[1..]));
      RecordsOfTar(rs[1..]);
    }
  }

  /** Lengths read from four bytes fit in 32 bits, so only short records are ever read back. */
  lemma {:induction false} RecordsAreShort(buf: Bytes)
    ensures forall r | r in Records(buf) :: Short(r)
    decreases |buf|
  {
    if |buf| >= 8 {
      var relLen, dataLen := FromLE(buf[0..4]), FromLE(buf[4..8]);
      Widths();
      if 8 + relLen + dataLen <= |buf| { RecordsAreShort(buf[8 + relLen + dataLen..]); }
    }
  }

  /** An archive gives its files back exactly when all their lengths fit in 32 bits. */
  lemma SurvivesIffShort(rs: seq<Record>)
    ensures Records(Tar(rs)) == rs <==> forall r | r in rs :: Short(r)
  {
    RecordsAreShort(Tar(rs));
    if forall r | r in rs :: Short(r) { RecordsOfTar(rs); }
  }

  // ---- restoring into a directory ----

  /** A directory being filled, and how many files were written. Names are decoded lossily. */
  datatype Unpacked = Unpacked(files: map<Bytes, Bytes>, count: nat)

  /** An empty name is the directory itself: writing to it fails and is not counted. */
  function WriteFile(u: Unpacked, r: Record): Unpacked {
    if r.rel == [] then u else Unpacked(u.files[Utf8.Lossy(r.rel) := r.data], u.count + 1)
  }

  /** How many records have a name. */
  function Named(rs: seq<Record>): (n: nat)
    ensures n <= |rs|
    ensures n == |rs| <==> forall r | r in rs :: r.rel != []
  {
    if rs == [] then 0
    else
      assert forall r :: r in rs <==> r == rs[0] || r in rs[1..];
      (if rs[0].rel == [] then 0 else 1) + Named(rs[1..])
  }

  function Restore(u: Unpacked, rs: seq<Record>): (r: Unpacked)
    ensures r.count == u.count + Named(rs)
    decreases |rs|
  {
    if rs == [] then u else Restore(WriteFile(u, rs[0]), rs[1..])
  }

  ghost predicate DistinctNames(rs: seq<Record>) { forall i, j | 0 <= i < j < |rs| :: rs[i].rel != rs[j].rel }

  /** The record is written to `p`. */
  predicate Lands(r: Record, p: Bytes) { r.rel != [] && Utf8.Lossy(r.rel) == p }

  /** Paths that no record is written to stay as they were. */
  lemma {:induction false} RestoreKeeps(u: Unpacked, rs: seq<Record>, p: Bytes)
    requires forall r | r in rs :: !Lands(r, p)
    ensures var out := Restore(u, rs).files; (p in out <==> p in u.files) && (p in u.files ==> out[p] == u.files[p])
    decreases |rs|
  {
    if rs != [] {
      assert rs[0] in rs && forall r | r in rs[1..] :: r in rs;
      RestoreKeeps(WriteFile(u, rs[0]), rs[1..], p);
    }
  }

  /** Of the records written to one path the last one stays, whatever was there before. */
  lemma {:induction false} RestoreWrites(u: Unpacked, rs: seq<Record>, i: nat, p: Bytes)
    requires i < |rs| && Lands(rs[i], p) && forall r | r in rs[i + 1..] :: !Lands(r, p)
    ensures var out := Restore(u, rs).files; p in out && out[p] == rs[i].data
    decreases |rs|
  {
    if i == 0 {
      RestoreKeeps(WriteFile(u, rs[0]), rs[1..], p);
    } else {
      assert rs[1..][i..] == rs[i + 1..];
      RestoreWrites(WriteFile(u, rs[0]), rs[1..], i - 1, p);
    }
  }

  /** Whatever the records are, every name written is a string. */
  lemma RestoredNames(rs: seq<Record>, p: Bytes)
    requires p in Restore(Unpacked(map[], 0), rs).files
    ensures Utf8.Valid(p) && exists r :: r in rs && Lands(r, p)
  {
    if forall r | r in rs :: !Lands(r, p) {
      RestoreKeeps(Unpacked(map[], 0), rs, p);
    } else {
      var r :| r in rs && Lands(r, p);
      Utf8.LossyIsValid(r.rel);
    }
  }

  ghost predicate ValidNames(rs: seq<Record>) { DistinctNames(rs) && forall r | r in rs :: Utf8.Valid(r.rel) }

  lemma OnlyOneLands(rs: seq<Record>, i: nat)
    requires ValidNames(rs) && i < |rs| && rs[i].rel != []
    ensures Lands(rs[i], rs[i].rel) && forall r | r in rs[i + 1..] :: !Lands(r, rs[i].rel)
  {
    Utf8.LossyKeepsValid(rs[i].rel);
    forall r | r in rs[i + 1..] ensures !Lands(r, rs[i].rel) {
      var j :| 0 <= j < |rs| - i - 1 && rs[i + 1..][j] == r;
      assert rs[i + 1 + j] == r;
      Utf8.LossyKeepsValid(r.rel);
    }
  }

  /** Unpacking what was packed restores exactly the files that have a name, and counts them. */
  lemma RoundTrip(rs: seq<Record>)
    requires ValidNames(rs) && forall r | r in rs :: Short(r)
    ensures var u := Restore(Unpacked(map[], 0), Records(Tar(rs))); var out := u.files;
            && u.count == Named(rs)
            && (forall r | r in rs && r.rel != [] :: r.rel in out && out[r.rel] == r.data)
            && (forall p | p in out :: p != [] && exists r :: r in rs && r.rel == p)
  {
    RecordsOfTar(rs);
    var empty := Unpacked(map[], 0);
    var out := Restore(empty, rs).files;
    forall r | r in rs && r.rel != [] ensures r.rel in out && out[r.rel] == r.data {
      var i :| 0 <= i < |rs| && rs[i] == r;
      OnlyOneLands(rs, i);
      RestoreWrites(empty, rs, i, r.rel);
    }
    forall p | p in out ensures p != [] && exists r :: r in rs && r.rel == p { NameOfRecord(rs, p); }
  }

  lemma NameOfRecord(rs: seq<Record>, p: Bytes)
    requires ValidNames(rs) && p in Restore(Unpacked(map[], 0), rs).files
    ensures p != [] && exists r :: r in rs && r.rel == p
  {
    RestoredNames(rs, p);
    var r :| r in rs && Lands(r, p);
    Utf8.LossyKeepsValid(r.rel);
  }

  // ---- the loops ----

  method TarDir(files: seq<Record>) returns (buf: Bytes, count: nat)
    ensures buf == Tar(files) && count == |files|
  {
    buf, count := [], 0;
    for i := 0 to |files|
      invariant buf == Tar(files[..i]) && count == i
    {
      var rel, data := files[i].rel, files[i].data;
      buf := buf + LE(|rel|, 4);
      buf := buf + LE(|data|, 4);
      buf := buf + rel;
      buf := buf + data;
      count := count + 1;
      TarSnoc(files[..i], files[i]);
      assert files[..i + 1] == files[..i] + [files[i]];
      assert buf == Tar(files[..i]) + RecordBytes(files[i]);
    }
    assert files[..|files|] == files;
  }

  lemma RestoreCons(u: Unpacked, r: Record, rs: seq<Record>)
    ensures Restore(u, [r] + rs) == Restore(WriteFile(u, r), rs)
  {
    assert ([r] + rs)[1..] == rs;
  }

  /** A whole record starts at `i`. */
  predicate WholeAt(buf: Bytes, i: nat) {
    i + 8 <= |buf| && i + 8 + FromLE(buf[i..i + 4]) + FromLE(buf[i + 4..i + 8]) <= |buf|
  }

  function NextAt(buf: Bytes, i: nat): (next: nat)
    requires WholeAt(buf, i)
    ensures i < next <= |buf|
  {
    i + 8 + FromLE(buf[i..i + 4]) + FromLE(buf[i + 4..i + 8])
  }

  function RecordHere(buf: Bytes, i: nat): Record
    requires WholeAt(buf, i)
  {
    var data := i + 8 + FromLE(buf[i..i + 4]);
    Record(buf[i + 8..data], buf[data..NextAt(buf, i)])
  }

  /** The whole records from offset `i` on, as a cursor finds them. */
  function RecordsFrom(buf: Bytes, i: nat): seq<Record>
    requires i <= |buf|
    decreases |buf| - i
  {
    if !WholeAt(buf, i) then [] else [RecordHere(buf, i)] + RecordsFrom(buf, NextAt(buf, i))
  }

  lemma ShiftedLens(buf: Bytes, i: nat)
    requires i + 8 <= |buf|
    ensures buf[i..][0..4] == buf[i..i + 4] && buf[i..][4..8] == buf[i + 4..i + 8]
  {
  }

  lemma ShiftedRecord(buf: Bytes, i: nat, m: nat, n: nat)
    requires i + 8 + m + n <= |buf|
    ensures var b := buf[i..]; var at := i + 8 + m;
            && b[8..8 + m] == buf[i + 8..at] && b[8 + m..8 + m + n] == buf[at..at + n]
            && b[8 + m + n..] == buf[at + n..]
  {
  }

  lemma RecordAt(buf: Bytes, i: nat)
    requires i <= |buf|
    ensures Records(buf[i..]) ==
              if WholeAt(buf, i) then [RecordHere(buf, i)] + Records(buf[NextAt(buf, i)..]) else []
  {
    if i + 8 <= |buf| {
      ShiftedLens(buf, i);
      var m, n := FromLE(buf[i..i + 4]), FromLE(buf[i + 4..i + 8]);
      if WholeAt(buf, i) { ShiftedRecord(buf, i, m, n); }
    }
  }

  /** The cursor over the whole buffer finds what unpacking each rest of it finds. */
  lemma {:induction false} CursorFindsRecords(buf: Bytes, i: nat)
    requires i <= |buf|
    ensures RecordsFrom(buf, i) == Records(buf[i..])
    decreases |buf| - i
  {
    RecordAt(buf, i);
    if WholeAt(buf, i) { CursorFindsRecords(buf, NextAt(buf, i)); }
  }

  /** One turn of the unpacking loop: a whole record and the offset after it, or none. */
  method NextRecord(buf: Bytes, i: nat) returns (found: bool, r: Record, next: nat)
    requires i + 8 <= |buf|
    ensures found ==> i < next <= |buf| && RecordsFrom(buf, i) == [r] + RecordsFrom(buf, next)
    ensures !found ==> RecordsFrom(buf, i) == []
  {
    var relLen := FromLE(buf[i..i + 4]);
    var dataLen := FromLE(buf[i + 4..i + 8]);
    next := i + 8;
    r := Record([], []);
    found := next + relLen + dataLen <= |buf|;
    if found {
      r := Record(buf[next..next + relLen], buf[next + relLen..next + relLen + dataLen]);
      next := next + relLen + dataLen;
    }
  }

  /** Unpack any bytes whatever into a directory. */
  method UntarDir(buf: Bytes, dst: map<Bytes, Bytes>) returns (out: map<Bytes, Bytes>, count: nat)
    ensures Unpacked(out, count) == Restore(Unpacked(dst, 0), Records(buf))
  {
    ghost var all := RecordsFrom(buf, 0);
    assert all == Records(buf) by {
      CursorFindsRecords(buf, 0);
      assert buf[0..] == buf;
    }
    var i := 0;
    out, count := dst, 0;
    ghost var left := all;
    while i + 8 <= |buf|
      invariant i <= |buf| && left == RecordsFrom(buf, i)
      invariant Restore(Unpacked(dst, 0), all) == Restore(Unpacked(out, count), left)
    {
      var found, r, next := NextRecord(buf, i);
      if !found { break; }
      left := RecordsFrom(buf, next);
      RestoreCons(Unpacked(out, count), r, left);
      if r.rel != [] {
        out := out[Utf8.Lossy(r.rel) := r.data];
        count := count + 1;
      }
      i := next;
    }
  }
}
