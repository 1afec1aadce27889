/** Names of conflict copies, and which files a tree leaves out. Paths are relative, with '/' between components. */
module ConflictNames {
  import opened Common
  import opened ByteStrings

  const SLASH: byte := 0x2F
  const DASH: byte := 0x2D
  const SYNC_CONFLICT: Bytes := // ".sync-conflict-"
    [0x2E, 0x73, 0x79, 0x6E, 0x63, 0x2D, 0x63, 0x6F, 0x6E, 0x66, 0x6C, 0x69, 0x63, 0x74, 0x2D]
  const NSMT: Bytes := [0x2E, 0x6E, 0x73, 0x6D, 0x74, 0x2D] // ".nsmt-"

  /** Files that `walk` puts into a tree. */
  predicate Visible(path: Bytes) {
    !StartsWith(path, SYNC_CONFLICT) && !StartsWith(path, NSMT)
  }

  /** The directory part of a path, up to and including the last '/'. */
  function Dir(path: Bytes): (d: Bytes)
    ensures |d| <= |path| && path[..|d|] == d
    ensures d != [] ==> path[|d| - 1] == SLASH
    ensures forall i | |d| <= i < |path| :: path[i] != SLASH
  {
    if path == [] then []
    else if path[|path| - 1] == SLASH then path
    else Dir(path[..|path| - 1])
  }

  predicate Nested(path: Bytes) { !Free(path, SLASH) }

  /** `replace('/', "_")` */
  function Flatten(path: Bytes): (f: Bytes)
    ensures |f| == |path| && Free(f, SLASH)
    ensures forall i | 0 <= i < |path| && path[i] != SLASH :: f[i] == path[i]
  {
    seq(|path|, i requires 0 <= i < |path| => if path[i] == SLASH then 0x5F else path[i])
  }

  /** The requester's sanitised name holds no '/', and the clock reading is a run of digits. */
  predicate Stamped(who: Bytes, stamp: Bytes) {
    Free(who, SLASH) && forall i | 0 <= i < |stamp| :: 0x30 <= stamp[i] <= 0x39
  }

  function ConflictBase(path: Bytes, who: Bytes, stamp: Bytes): (n: Bytes)
    requires Stamped(who, stamp)
    ensures Free(n, SLASH)
  {
    (SYNC_CONFLICT + who + [DASH]) + (Flatten(path) + [DASH] + stamp)
  }

  /** The copy is written beside the file it preserves. */
  function ConflictName(path: Bytes, who: Bytes, stamp: Bytes): Bytes
    requires Stamped(who, stamp)
  {
    Dir(path) + ConflictBase(path, who, stamp)
  }

  lemma CutHead(head: Bytes, x: Bytes, y: Bytes)
    requires head + x == head + y
    ensures x == y
  {
    assert (head + x)[|head|..] == x && (head + y)[|head|..] == y;
  }

  /** A path splits in one way into a directory part and a last component. */
  lemma OneSplit(d: Bytes, b: Bytes, e: Bytes, c: Bytes)
    requires d + b == e + c && Free(b, SLASH) && Free(c, SLASH)
    requires (d != [] ==> d[|d| - 1] == SLASH) && (e != [] ==> e[|e| - 1] == SLASH)
    ensures d == e && b == c
  {
    NoLonger(d, b, e, c);
    NoLonger(e, c, d, b);
    assert (d + b)[..|d|] == d && (e + c)[..|e|] == e;
    CutHead(d, b, c);
  }

  lemma NoLonger(d: Bytes, b: Bytes, e: Bytes, c: Bytes)
    requires d + b == e + c && Free(b, SLASH) && (e != [] ==> e[|e| - 1] == SLASH)
    ensures |e| <= |d|
  {
    assert forall i | |d| <= i < |d + b| :: (d + b)[i] == b[i - |d|];
    assert e != [] ==> (e + c)[|e| - 1] == SLASH;
  }

  lemma LastDash(f1: Bytes, t1: Bytes, f2: Bytes, t2: Bytes)
    requires f1 + [DASH] + t1 == f2 + [DASH] + t2
    requires Free(t1, DASH) && Free(t2, DASH)
    ensures f1 == f2
  {
    var s := f1 + [DASH] + t1;
    assert s[|f1|] == DASH && s[|f2|] == DASH;
    assert forall i | |f1| < i < |s| :: s[i] == t1[i - |f1| - 1];
    assert forall i | |f2| < i < |s| :: s[i] == t2[i - |f2| - 1];
    assert s[..|f1|] == f1 && s[..|f2|] == f2;
  }

  lemma SameFlat(head: Bytes, f1: Bytes, t1: Bytes, f2: Bytes, t2: Bytes)
    requires head + (f1 + [DASH] + t1) == head + (f2 + [DASH] + t2) && Free(t1, DASH) && Free(t2, DASH)
    ensures f1 == f2
  {
    CutHead(head, f1 + [DASH] + t1, f2 + [DASH] + t2);
    LastDash(f1, t1, f2, t2);
  }

  /** A path is its directory followed by its last component, which flattening leaves alone. */
  lemma FlattenInjective(p: Bytes, q: Bytes)
    requires Dir(p) == Dir(q) && Flatten(p) == Flatten(q)
    ensures p == q
  {
    assert |p| == |q|;
    forall i | 0 <= i < |p| ensures p[i] == q[i] {
      if i < |Dir(p)| {
        assert Dir(p)[i] == p[i] && Dir(q)[i] == q[i];
      } else {
        assert Flatten(p)[i] == p[i] && Flatten(q)[i] == q[i];
      }
    }
  }

  /** One requester's copies of different files never share a name, whatever the clock reads. */
  lemma ConflictNameInjective(p: Bytes, q: Bytes, who: Bytes, t: Bytes, u: Bytes)
    requires Stamped(who, t) && Stamped(who, u)
    requires ConflictName(p, who, t) == ConflictName(q, who, u)
    ensures p == q
  {
    OneSplit(Dir(p), ConflictBase(p, who, t), Dir(q), ConflictBase(q, who, u));
    SameFlat(SYNC_CONFLICT + who + [DASH], Flatten(p), t, Flatten(q), u);
    FlattenInjective(p, q);
  }

  /** The copy's name in full: the file's directory, and there the mark, the requester, the path and the reading. */
  lemma NameSpelled(path: Bytes, who: Bytes, stamp: Bytes, dir: Bytes, flat: Bytes, mark: Bytes, dash: Bytes)
    requires Stamped(who, stamp) && Spells(mark, ".sync-conflict-") && Spells(dash, "-")
    requires |flat| == |path| && forall i | 0 <= i < |path| :: flat[i] == if path[i] == '/' as int then '_' as int else path[i]
    requires dir <= path && (dir != [] ==> path[|dir| - 1] == '/' as int)
    requires forall i | |dir| <= i < |path| :: path[i] != '/' as int
    ensures ConflictName(path, who, stamp) == dir + (mark + who + dash + (flat + dash + stamp))
  {
    assert mark == SYNC_CONFLICT && dash == [DASH];
    assert Flatten(path) == flat;
    OneDir(path, dir);
  }

  lemma OneDir(path: Bytes, dir: Bytes)
    requires dir <= path && (dir != [] ==> path[|dir| - 1] == SLASH) && forall i | |dir| <= i < |path| :: path[i] != SLASH
    ensures Dir(path) == dir
  {
    var d := Dir(path);
    assert |d| == |dir|;
    assert d == path[..|d|] == dir;
  }

  /**
   * Two copies of whichever requesters and clock readings have one name exactly when the files are in one directory,
   * the readings agree, and so do the two requesters each followed by a dash and its flattened path.
   */
  lemma SameNameIff(p: Bytes, q: Bytes, who: Bytes, other: Bytes, t: Bytes, u: Bytes)
    requires Stamped(who, t) && Stamped(other, u)
    ensures ConflictName(p, who, t) == ConflictName(q, other, u) <==>
            Dir(p) == Dir(q) && t == u && who + [DASH] + Flatten(p) == other + [DASH] + Flatten(q)
  {
    var f, g := who + [DASH] + Flatten(p), other + [DASH] + Flatten(q);
    BaseParts(p, who, t);
    BaseParts(q, other, u);
    if ConflictName(p, who, t) == ConflictName(q, other, u) {
      OneSplit(Dir(p), ConflictBase(p, who, t), Dir(q), ConflictBase(q, other, u));
      CutHead(SYNC_CONFLICT, f + [DASH] + t, g + [DASH] + u);
      LastDash(f, t, g, u);
      CutHead(f + [DASH], t, u);
    }
  }

  lemma BaseParts(p: Bytes, who: Bytes, t: Bytes)
    requires Stamped(who, t)
    ensures ConflictBase(p, who, t) == SYNC_CONFLICT + (who + [DASH] + Flatten(p) + [DASH] + t)
  {
  }

  /** Whether a hidden prefix applies is settled inside a shared directory part. */
  lemma HiddenPrefix(p: Bytes, q: Bytes, d: Bytes, prefix: Bytes)
    requires d != [] && d[|d| - 1] == SLASH && Free(prefix, SLASH)
    requires StartsWith(p, d) && StartsWith(q, d) && StartsWith(p, prefix)
    ensures StartsWith(q, prefix)
  {
    assert forall i | 0 <= i < |d| :: p[i] == p[..|d|][i] && q[i] == q[..|d|][i];
    assert forall i | 0 <= i < |prefix| :: p[i] == p[..|prefix|][i];
    assert |prefix| < |d|;
  }

  /** `walk` skips the copy of a top-level file and picks up the copy of a nested one. */
  lemma CopyVisibleIffNested(path: Bytes, who: Bytes, stamp: Bytes)
    requires Stamped(who, stamp) && Visible(path)
    ensures Visible(ConflictName(path, who, stamp)) <==> Nested(path)
  {
    var d, n := Dir(path), ConflictName(path, who, stamp);
    if d == [] {
      assert n[..|SYNC_CONFLICT|] == SYNC_CONFLICT;
    } else {
      if StartsWith(n, SYNC_CONFLICT) { HiddenPrefix(n, path, d, SYNC_CONFLICT); }
      if StartsWith(n, NSMT) { HiddenPrefix(n, path, d, NSMT); }
    }
  }
}
