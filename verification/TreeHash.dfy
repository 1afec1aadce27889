/** Directory trees and the byte stream that both ends feed to SHA-256 to name a tree. */
module TreeHash {
  import opened ByteStrings
  import Utf8

  datatype Entry = Entry(path: Bytes, blobId: Bytes, mode: nat, size: nat, mtimeNs: int)

  datatype FileTree = FileTree(treeHash: Bytes, entries: seq<Entry>)

  const FILE_MODE := 0x1A4 // 0o644

  predicate IsHexDigit(b: byte) { 0x30 <= b <= 0x39 || 0x61 <= b <= 0x66 }

  predicate IsDigest(d: Bytes) {
    |d| == 64 && forall i | 0 <= i < 64 :: IsHexDigit(d[i])
  }

  /** What `build_tree` puts into an entry. */
  predicate WellFormed(e: Entry) {
    Utf8.Valid(e.path) && IsDigest(e.blobId) && e.mode == FILE_MODE && e.size < 0x1_0000_0000_0000_0000
  }

  // ---- sorting by path (stable, like `sort_by`) ----

  function Insert(e: Entry, es: seq<Entry>): (r: seq<Entry>)
    ensures multiset(r) == multiset([e]) + multiset(es)
  {
    if es == [] || AtMost(e.path, es[0].path) then [e] + es
    else
      assert es == [es[0]] + es[1..];
      [es[0]] + Insert(e, es[1..])
  }

  function SortByPath(es: seq<Entry>): (r: seq<Entry>)
    ensures multiset(r) == multiset(es)
  {
    if es == [] then []
    else
      assert es == [es[0]] + es[1..];
      Insert(es[0], SortByPath(es[1..]))
  }

  ghost predicate Sorted(es: seq<Entry>) {
    forall i, j | 0 <= i < j < |es| :: AtMost(es[i].path, es[j].path)
  }

  ghost predicate DistinctPaths(es: seq<Entry>) {
    forall i, j | 0 <= i < j < |es| :: es[i].path != es[j].path
  }

  lemma MemberOfEqualMultisets<T>(a: seq<T>, b: seq<T>, x: T)
    requires multiset(a) == multiset(b)
    ensures x in a <==> x in b
  {
    assert x in a <==> x in multiset(a);
    assert x in b <==> x in multiset(b);
  }

  lemma {:induction false} InsertKeepsSorted(e: Entry, es: seq<Entry>)
    requires Sorted(es)
    ensures Sorted(Insert(e, es))
  {
    if es == [] {
    } else if AtMost(e.path, es[0].path) {
      forall j | 0 <= j < |es| ensures AtMost(e.path, es[j].path) {
        if j > 0 { AtMostTransitive(e.path, es[0].path, es[j].path); }
      }
    } else {
      var rest := Insert(e, es[1..]);
      InsertKeepsSorted(e, es[1..]);
      forall j | 0 <= j < |rest| ensures AtMost(es[0].path, rest[j].path) {
        assert rest[j] in multiset(rest);
        if rest[j] == e {
          AtMostTotal(e.path, es[0].path);
        } else {
          assert rest[j] in multiset(es[1..]);
          assert rest[j] in es[1..];
        }
      }
    }
  }

  lemma {:induction false} SortSorts(es: seq<Entry>)
    ensures Sorted(SortByPath(es))
  {
    if es != [] {
      SortSorts(es[1..]);
      InsertKeepsSorted(es[0], SortByPath(es[1..]));
    }
  }

  // ---- the hashed stream ----

  /** An entry without its modification time: the part the stream covers. */
  function Erase(e: Entry): Entry { e.(mtimeNs := 0) }

  function EraseAll(es: seq<Entry>): (r: seq<Entry>)
    ensures |r| == |es| && forall i | 0 <= i < |es| :: r[i] == Erase(es[i])
  {
    seq(|es|, i requires 0 <= i < |es| => Erase(es[i]))
  }

  lemma EraseAllCons(es: seq<Entry>)
    requires es != []
    ensures EraseAll(es) == [Erase(es[0])] + EraseAll(es[1..])
  {
  }

  /** The hashed part of a tree: its set of (path, blob, mode, size). */
  function Content(es: seq<Entry>): set<Entry> { set e | e in es :: Erase(e) }

  function EntryBytes(e: Entry): Bytes {
    e.path + e.blobId + LE(e.mode, 2) + LE(e.size, 8)
  }

  function Stream(es: seq<Entry>): Bytes {
    if es == [] then [] else EntryBytes(es[0]) + Stream(es[1..])
  }

  /** Everything `tree_hash` feeds to the hasher. */
  function HashInput(es: seq<Entry>): Bytes { Stream(SortByPath(es)) }

  /** The stream does not look at modification times. */
  lemma {:induction false} StreamErases(es: seq<Entry>)
    ensures Stream(EraseAll(es)) == Stream(es)
  {
    if es != [] {
      assert EraseAll(es)[1..] == EraseAll(es[1..]);
      StreamErases(es[1..]);
    }
  }

  /**
   * An entry adds its path, its blob id, two bytes of mode and eight of size to the stream, each number with its
   * least significant byte first.
   */
  lemma EntrySpelled(e: Entry, k: nat)
    requires k < 8
    ensures var b, n := EntryBytes(e), |e.path| + |e.blobId|;
            && |b| == n + 10 && b[..|e.path|] == e.path && b[|e.path|..n] == e.blobId
            && (k < 2 ==> b[n + k] == (e.mode / Pow256(k)) % 256) && b[n + 2 + k] == (e.size / Pow256(k)) % 256
  {
    if k < 2 { LEDigit(e.mode, 2, k); }
    LEDigit(e.size, 8, k);
    assert EntryBytes(e) == e.path + (e.blobId + (LE(e.mode, 2) + LE(e.size, 8)));
  }

  // ---- unique decodability ----

  lemma EntryStarts(e: Entry, rest: Bytes)
    requires WellFormed(e)
    ensures var s, n := EntryBytes(e) + rest, |e.path|;
            && |s| >= n + 74 && (forall i | 0 <= i < n :: s[i] == e.path[i])
            && (forall i | n <= i < n + 64 :: s[i] == e.blobId[i - n])
  {
    var tail := LE(e.mode, 2) + (LE(e.size, 8) + rest);
    assert EntryBytes(e) + rest == e.path + (e.blobId + tail);
    assert |tail| >= 10;
  }

  /** Where the first path ends: 64 hex digits and then the low byte of the mode, 0xA4. */
  lemma PathEnd(e: Entry, rest: Bytes, k: nat)
    requires WellFormed(e)
    requires k < |e.path|
    ensures var s := EntryBytes(e) + rest;
            s[k + 64] != 0xA4 || exists i :: k <= i < k + 64 && !IsHexDigit(s[i])
  {
    EntryStarts(e, rest);
    var s := EntryBytes(e) + rest;
    if k + 64 < |e.path| {
      if s[k + 64] == 0xA4 {
        Utf8.TailFollowsNonAscii(e.path, k + 64);
        assert !IsHexDigit(s[k + 63]);
      }
    } else {
      assert IsHexDigit(s[k + 64]);
    }
  }

  lemma PathStart(e: Entry, rest: Bytes)
    requires WellFormed(e)
    ensures var s := EntryBytes(e) + rest; var n := |e.path|;
            && |s| >= n + 74
            && s[n + 64] == 0xA4
            && s[..n] == e.path && s[n..n + 64] == e.blobId && s[n + 66..n + 74] == LE(e.size, 8)
            && s[n + 74..] == rest
            && forall i | n <= i < n + 64 :: IsHexDigit(s[i])
  {
    var s := EntryBytes(e) + rest;
    var n := |e.path|;
    assert LE(e.mode, 2)[0] == 0xA4;
    assert s == e.path + (e.blobId + (LE(e.mode, 2) + (LE(e.size, 8) + rest)));
    assert s[n..n + 64] == e.blobId;
    forall i | n <= i < n + 64 ensures IsHexDigit(s[i]) {
      assert s[i] == e.blobId[i - n];
    }
  }

  /** Equal streams start with the same entry. */
  lemma FirstEntry(a: Entry, ra: Bytes, b: Entry, rb: Bytes)
    requires WellFormed(a) && WellFormed(b)
    requires EntryBytes(a) + ra == EntryBytes(b) + rb
    ensures Erase(a) == Erase(b) && ra == rb
  {
    PathStart(a, ra);
    PathStart(b, rb);
    if |a.path| < |b.path| {
      PathEnd(b, rb, |a.path|);
    } else if |b.path| < |a.path| {
      PathEnd(a, ra, |b.path|);
    }
    Widths();
    RoundTripLE(a.size, 8);
    RoundTripLE(b.size, 8);
  }

  /** The undelimited stream is uniquely decodable. */
  lemma {:induction false} StreamInjective(xs: seq<Entry>, ys: seq<Entry>)
    requires forall e | e in xs + ys :: WellFormed(e)
    requires Stream(xs) == Stream(ys)
    ensures EraseAll(xs) == EraseAll(ys)
  {
    if xs != [] && ys != [] {
      assert xs[0] in xs + ys && ys[0] in xs + ys;
      FirstEntry(xs[0], Stream(xs[1..]), ys[0], Stream(ys[1..]));
      assert forall e | e in xs[1..] + ys[1..] :: e in xs + ys;
      StreamInjective(xs[1..], ys[1..]);
      EraseAllCons(xs);
      EraseAllCons(ys);
    }
  }

  lemma SortKeepsDistinct(es: seq<Entry>)
    requires DistinctPaths(es)
    ensures DistinctPaths(SortByPath(es))
  {
    var s := SortByPath(es);
    forall i, j | 0 <= i < j < |s| ensures s[i].path != s[j].path {
      MemberOfEqualMultisets(s, es, s[i]);
      MemberOfEqualMultisets(s, es, s[j]);
      if s[i] == s[j] {
        TwiceMeansTwice(s, i, j);
        DistinctMeansOnce(es, s[i]);
      }
    }
  }

  lemma TwiceMeansTwice<T>(s: seq<T>, i: nat, j: nat)
    requires i < j < |s| && s[i] == s[j]
    ensures multiset(s)[s[i]] >= 2
  {
    assert s == s[..j] + [s[j]] + s[j + 1..];
    assert s[i] in s[..j];
    assert multiset(s) == multiset(s[..j]) + multiset([s[j]]) + multiset(s[j + 1..]);
  }

  lemma DistinctMeansOnce(es: seq<Entry>, e: Entry)
    requires DistinctPaths(es) && e in es
    ensures multiset(es)[e] == 1
  {
    var i :| 0 <= i < |es| && es[i] == e;
    assert es == es[..i] + [e] + es[i + 1..];
    assert e !in es[..i] && e !in es[i + 1..];
    assert multiset(es) == multiset(es[..i]) + multiset([e]) + multiset(es[i + 1..]);
  }

  /** A set of entries with distinct paths has one sorted listing. */
  lemma {:induction false} SortedListingUnique(xs: seq<Entry>, ys: seq<Entry>)
    requires Sorted(xs) && Sorted(ys) && DistinctPaths(xs) && DistinctPaths(ys)
    requires Content(xs) == Content(ys)
    ensures EraseAll(xs) == EraseAll(ys)
  {
    assert xs != [] ==> Erase(xs[0]) in Content(xs);
    assert ys != [] ==> Erase(ys[0]) in Content(ys);
    if xs != [] && ys != [] {
      SameHead(xs, ys);
      ContentOfTail(xs);
      ContentOfTail(ys);
      SortedListingUnique(xs[1..], ys[1..]);
      EraseAllCons(xs);
      EraseAllCons(ys);
    }
  }

  lemma SameHead(xs: seq<Entry>, ys: seq<Entry>)
    requires xs != [] && ys != []
    requires Sorted(xs) && Sorted(ys) && DistinctPaths(xs) && DistinctPaths(ys)
    requires Content(xs) == Content(ys)
    ensures Erase(xs[0]) == Erase(ys[0])
  {
    assert Erase(xs[0]) in Content(ys) && Erase(ys[0]) in Content(xs);
    var i :| 0 <= i < |ys| && Erase(ys[i]) == Erase(xs[0]);
    var j :| 0 <= j < |xs| && Erase(xs[j]) == Erase(ys[0]);
    if i > 0 && j > 0 {
      AtMostAntisymmetric(xs[0].path, ys[0].path);
    }
  }

  lemma ContentOfTail(xs: seq<Entry>)
    requires xs != [] && DistinctPaths(xs)
    ensures Content(xs[1..]) == Content(xs) - {Erase(xs[0])}
  {
    forall x | x in Content(xs[1..]) ensures x in Content(xs) && x != Erase(xs[0]) {
      var i :| 0 <= i < |xs[1..]| && Erase(xs[1..][i]) == x;
      assert xs[i + 1] in xs && x.path != xs[0].path;
    }
    forall x | x in Content(xs) && x != Erase(xs[0]) ensures x in Content(xs[1..]) {
      var i :| 0 <= i < |xs| && Erase(xs[i]) == x;
      assert xs[1..][i - 1] in xs[1..];
    }
  }

  lemma SameContent(es: seq<Entry>)
    ensures Content(SortByPath(es)) == Content(es)
  {
    forall e ensures e in SortByPath(es) <==> e in es {
      MemberOfEqualMultisets(SortByPath(es), es, e);
    }
  }

  /**
   * For trees that `build_tree` makes, in whatever order their entries are listed, the hashed
   * streams agree exactly when the trees hold the same (path, blob, mode, size).
   */
  lemma HashInputDeterminesContent(xs: seq<Entry>, ys: seq<Entry>)
    requires DistinctPaths(xs) && DistinctPaths(ys)
    requires forall e | e in xs + ys :: WellFormed(e)
    ensures HashInput(xs) == HashInput(ys) <==> Content(xs) == Content(ys)
  {
    var sx, sy := SortByPath(xs), SortByPath(ys);
    SameContent(xs);
    SameContent(ys);
    if Content(xs) == Content(ys) {
      SortSorts(xs);
      SortSorts(ys);
      SortKeepsDistinct(xs);
      SortKeepsDistinct(ys);
      SortedListingUnique(sx, sy);
      StreamErases(sx);
      StreamErases(sy);
    }
    if HashInput(xs) == HashInput(ys) {
      forall e | e in sx + sy ensures WellFormed(e) {
        MemberOfEqualMultisets(sx, xs, e);
        MemberOfEqualMultisets(sy, ys, e);
        assert e in xs + ys;
      }
      StreamInjective(sx, sy);
      EraseAllContent(sx);
      EraseAllContent(sy);
    }
  }

  lemma EraseAllContent(es: seq<Entry>)
    ensures Content(es) == set e | e in EraseAll(es)
  {
    forall e | e in EraseAll(es) ensures e in Content(es) {
      var i :| 0 <= i < |es| && EraseAll(es)[i] == e;
      assert es[i] in es;
    }
    forall e | e in Content(es) ensures e in EraseAll(es) {
      var i :| 0 <= i < |es| && Erase(es[i]) == e;
      assert EraseAll(es)[i] == e;
    }
  }

  lemma LoneStream(e: Entry)
    ensures HashInput([e]) == EntryBytes(e)
  {
    assert [e][1..] == [];
    assert SortByPath([e]) == [e];
    assert Stream([e]) == EntryBytes(e) + Stream([e][1..]);
  }

  /**
   * For trees that `build_tree` does not make the stream is ambiguous, since the fields carry no delimiters:
   * every entry with a blob id has the same bytes as another one, whose path ends one byte later.
   */
  lemma ForeignTreesCollide(e: Entry) returns (f: Entry)
    requires e.blobId != []
    ensures f.path != e.path && HashInput([f]) == HashInput([e])
  {
    f := e.(path := e.path + [e.blobId[0]], blobId := e.blobId[1..]);
    assert e.path + e.blobId == f.path + f.blobId;
    LoneStream(e);
    LoneStream(f);
  }
}
