/** A setting in which the runs of `SyncExample` happen: none of their conditions is empty. */
module SyncSetting {
  import opened Common
  import opened ByteStrings
  import opened TreeHash
  import opened ConflictNames
  import opened SyncModel
  import opened SyncInvariant
  import opened SyncRuns
  import opened SyncExample
  import Utf8

  /** A stand-in for SHA-256 that tells the few strings hashed here apart by their lengths and sizes. */
  function Sha(b: Bytes): (d: Bytes)
    ensures IsDigest(d) && d[0] == 0x30 + |b| % 10 && (|b| >= 8 ==> d[1] == 0x30 + b[|b| - 8] % 10)
  {
    seq(64, i => if i == 1 && |b| >= 8 then 0x30 + b[|b| - 8] % 10 else 0x30 + |b| % 10)
  }

  function Plain(path: Bytes, bytes: Bytes): Entry { Entry(path, Sha(bytes), FILE_MODE, |bytes|, 0) }

  ghost function Known(path: Bytes, copy: Bytes, text: Bytes, edited: Bytes, other: Bytes): iset<Bytes> {
    iset{[], text, edited, other, HashInput([Plain(path, text)]), HashInput([Plain(path, edited)]),
         HashInput([Plain(path, other)]), HashInput([Plain(path, edited), Plain(copy, text)])}
  }

  lemma SortTwo(e: Entry, f: Entry)
    ensures SortByPath([e, f]) == [e, f] || SortByPath([e, f]) == [f, e]
  {
    assert [e, f][1..] == [f] && [f][1..] == [];
    assert SortByPath([f]) == [f];
    assert SortByPath([e, f]) == Insert(e, [f]);
    assert Insert(e, [f]) == [e, f] || Insert(e, [f]) == [f] + Insert(e, []);
  }

  lemma StreamTwo(e: Entry, f: Entry)
    ensures Stream([e, f]) == EntryBytes(e) + (EntryBytes(f) + [])
  {
    assert [e, f][1..] == [f] && [f][1..] == [];
    assert Stream([f]) == EntryBytes(f) + Stream([]);
  }

  lemma TwoEntryLength(e: Entry, f: Entry)
    ensures |HashInput([e, f])| == |EntryBytes(e)| + |EntryBytes(f)|
  {
    SortTwo(e, f);
    StreamTwo(e, f);
    StreamTwo(f, e);
  }

  lemma SizeByte(path: Bytes, bytes: Bytes)
    requires |bytes| < 256
    ensures var b := EntryBytes(Plain(path, bytes)); |b| == |path| + 74 && b[|b| - 8] == |bytes|
  {
    assert LE(|bytes|, 8)[0] == |bytes|;
  }

  lemma ToldApart(t: Bytes, u: Bytes, w: Bytes, x: Bytes, y: Bytes, z: Bytes, both: Bytes)
    requires |t| == 1 && |u| == 2 && |w| == 4 && |x| == 77 && |y| == 77 && |z| == 77 && |both| == 173
    requires x[69] == 1 && y[69] == 2 && z[69] == 4
    ensures Hasher(Sha, iset{[], t, u, w, x, y, z, both}).Valid()
  {
    assert Sha([])[0] == 0x30 && Sha(t)[0] == 0x31 && Sha(u)[0] == 0x32 && Sha(w)[0] == 0x34 && Sha(both)[0] == 0x33;
    assert Sha(x)[0] == 0x37 && Sha(y)[0] == 0x37 && Sha(z)[0] == 0x37;
    assert Sha(x)[1] == 0x31 && Sha(y)[1] == 0x32 && Sha(z)[1] == 0x34;
  }

  lemma KnownFits(path: Bytes, copy: Bytes, text: Bytes, edited: Bytes, other: Bytes)
    requires |path| == 3 && |copy| == 22 && |text| == 1 && |edited| == 2 && |other| == 4
    ensures Hasher(Sha, Known(path, copy, text, edited, other)).Valid()
  {
    var a, b, d, c := Plain(path, text), Plain(path, edited), Plain(path, other), Plain(copy, text);
    LoneStream(a);
    LoneStream(b);
    LoneStream(d);
    TwoEntryLength(b, c);
    SizeByte(path, text);
    SizeByte(path, edited);
    SizeByte(path, other);
    SizeByte(copy, text);
    ToldApart(text, edited, other, HashInput([a]), HashInput([b]), HashInput([d]), HashInput([b, c]));
  }

  lemma TwoMembers(h: Hasher, share: Share, e: Entry, f: Entry)
    requires share.Keys == {e.path, f.path} && Visible(e.path) && Visible(f.path)
    requires e == EntryOf(h, e.path, share[e.path]) && f == EntryOf(h, f.path, share[f.path])
    ensures forall x :: x in TreeOf(h, share).entries <==> x in [e, f]
  {
    TreePaths(h, share);
  }

  lemma SameHashInput(xs: seq<Entry>, e: Entry, f: Entry)
    requires DistinctPaths(xs) && e.path != f.path && WellFormed(e) && WellFormed(f)
    requires forall x :: x in xs <==> x in [e, f]
    ensures HashInput(xs) == HashInput([e, f])
  {
    assert forall x | x in xs :: x == e || x == f;
    SameMembersSameContent(xs, [e, f]);
    HashInputDeterminesContent(xs, [e, f]);
  }

  /** A tree of two files hashes the same bytes in whatever order it lists them. */
  lemma TwoFileTree(h: Hasher, share: Share, e: Entry, f: Entry)
    requires share.Keys == {e.path, f.path} && e.path != f.path && Visible(e.path) && Visible(f.path)
    requires e == EntryOf(h, e.path, share[e.path]) && f == EntryOf(h, f.path, share[f.path]) && WellFormed(e) && WellFormed(f)
    ensures HashInput(TreeOf(h, share).entries) == HashInput([e, f])
  {
    TreePaths(h, share);
    TwoMembers(h, share, e, f);
    SameHashInput(TreeOf(h, share).entries, e, f);
  }

  lemma SameMembersSameContent(xs: seq<Entry>, ys: seq<Entry>)
    requires forall e :: e in xs <==> e in ys
    ensures Content(xs) == Content(ys)
  {
  }

  lemma EmptyOk(h: Hasher)
    requires [] in h.known
    ensures ShareOk(h, map[])
  {
    EmptyTree(h);
    assert HashInput([]) == [];
  }

  lemma OneOk(h: Hasher, p: Bytes, f: File)
    requires Visible(p) && Utf8.Valid(p) && f.bytes in h.known && |f.bytes| < 256 && HashInput([EntryOf(h, p, f)]) in h.known
    ensures ShareOk(h, One(p, f))
  {
    OneFileTree(h, p, f);
  }

  lemma TwoPaths(h: Hasher, share: Share, e: Entry, f: Entry)
    requires share.Keys == {e.path, f.path} && WellFormed(e) && WellFormed(f)
    requires e == EntryOf(h, e.path, share[e.path]) && f == EntryOf(h, f.path, share[f.path])
    requires share[e.path].bytes in h.known && share[f.path].bytes in h.known
    ensures forall p | p in share :: share[p].bytes in h.known && |share[p].bytes| < 0x1_0000_0000_0000_0000 && Utf8.Valid(p)
  {
    forall p | p in share ensures share[p].bytes in h.known && |share[p].bytes| < 0x1_0000_0000_0000_0000 && Utf8.Valid(p) {
      assert p == e.path || p == f.path;
    }
  }

  lemma OkFromParts(h: Hasher, share: Share)
    requires forall p | p in share :: share[p].bytes in h.known && |share[p].bytes| < 0x1_0000_0000_0000_0000 && Utf8.Valid(p)
    requires HashInput(TreeOf(h, share).entries) in h.known
    ensures ShareOk(h, share)
  {
  }

  lemma TwoOk(h: Hasher, share: Share, e: Entry, f: Entry)
    requires share.Keys == {e.path, f.path} && e.path != f.path && Visible(e.path) && Visible(f.path)
    requires e == EntryOf(h, e.path, share[e.path]) && f == EntryOf(h, f.path, share[f.path]) && WellFormed(e) && WellFormed(f)
    requires share[e.path].bytes in h.known && share[f.path].bytes in h.known && HashInput([e, f]) in h.known
    ensures ShareOk(h, share)
  {
    TwoFileTree(h, share, e, f);
    TwoPaths(h, share, e, f);
    OkFromParts(h, share);
  }

  lemma {:induction false} AsciiValid(s: Bytes)
    requires forall i | 0 <= i < |s| :: s[i] < 0x80
    ensures Utf8.Valid(s)
    decreases |s|
  {
    if s != [] { AsciiValid(s[1..]); }
  }

  /** "d/p" and its copy. */
  lemma NestedPath() returns (p: Bytes, v: Visit)
    ensures v.Valid() && (forall q :: v.now(q) == 0) && |p| == 3 && |CopyName(v, p)| == 22
    ensures Visible(p) && Nested(p) && Utf8.Valid(p) && Visible(CopyName(v, p)) && Utf8.Valid(CopyName(v, p))
  {
    p, v := [0x64, 0x2F, 0x70], Visit([], (q: Bytes) => [], (q: Bytes) => 0);
    assert Dir(p) == [0x64, 0x2F];
    var copy := CopyName(v, p);
    assert copy == Dir(p) + ((SYNC_CONFLICT + [] + [DASH]) + (Flatten(p) + [DASH] + []));
    assert Flatten(p) == [0x64, 0x5F, 0x70];
    AsciiValid(p);
    AsciiValid(copy);
    CopyVisibleIffNested(p, [], []);
  }

  ghost function Newcomer(share: Share): Client { Client(share, map[], FileTree([], [])) }

  ghost function Begin(zero: Share, one: Share): System {
    System(Server(map[], None, map[]), map[0 := Newcomer(zero), 1 := Newcomer(one)], map[], {})
  }

  lemma BeginFits(h: Hasher, zero: Share, one: Share)
    requires ShareOk(h, zero) && ShareOk(h, one) && Uploadable(zero) && Uploadable(one)
    ensures TwoClients(h, Begin(zero, one), 0, 1, zero, one)
  {
    BeginInits(h, zero, one);
  }

  lemma NewcomerOk(h: Hasher, share: Share)
    requires ShareOk(h, share)
    ensures ClientOk(h, Newcomer(share))
  {
  }

  lemma BeginInits(h: Hasher, zero: Share, one: Share)
    requires ShareOk(h, zero) && ShareOk(h, one)
    ensures Init(h, Begin(zero, one))
  {
    NewcomerOk(h, zero);
    NewcomerOk(h, one);
    var clients := Begin(zero, one).clients;
    assert forall c | c in clients :: clients[c] == Newcomer(zero) || clients[c] == Newcomer(one);
  }

  /** Everything hashed in a run about these files and the copy that a conflict of the first two leaves is known. */
  ghost predicate Hashes(h: Hasher, p: Bytes, copy: Bytes, f: File, g: File, x: File) {
    && [] in h.known && f.bytes in h.known && g.bytes in h.known && x.bytes in h.known
    && HashInput([EntryOf(h, p, f)]) in h.known && HashInput([EntryOf(h, p, g)]) in h.known
    && HashInput([EntryOf(h, p, x)]) in h.known && HashInput([EntryOf(h, p, g), EntryOf(h, copy, f)]) in h.known
  }

  lemma HasherFor(p: Bytes, copy: Bytes, f: File, g: File, x: File) returns (h: Hasher)
    requires |p| == 3 && |copy| == 22 && |f.bytes| == 1 && |g.bytes| == 2 && |x.bytes| == 4
    requires f.mtimeNs == 0 && g.mtimeNs == 0 && x.mtimeNs == 0
    ensures h.Valid() && Hashes(h, p, copy, f, g, x)
  {
    h := Hasher(Sha, Known(p, copy, f.bytes, g.bytes, x.bytes));
    KnownFits(p, copy, f.bytes, g.bytes, x.bytes);
  }

  /** Shares with one file each. */
  lemma SharesFit(h: Hasher, p: Bytes, f: File, g: File, x: File, v: Visit)
    requires h.Valid() && v.Valid() && Hashes(h, p, CopyName(v, p), f, g, x)
    requires Visible(p) && Utf8.Valid(p) && |f.bytes| < 256 && |g.bytes| < 256 && |x.bytes| < 256
    ensures ShareOk(h, map[]) && ShareOk(h, One(p, f)) && ShareOk(h, One(p, g)) && ShareOk(h, One(p, x))
  {
    EmptyOk(h);
    OneOk(h, p, f);
    OneOk(h, p, g);
    OneOk(h, p, x);
  }

  lemma ConflictedFiles(p: Bytes, f: File, g: File, v: Visit)
    requires v.Valid() && CopyName(v, p) != p
    requires f == File(f.bytes, v.now(CopyName(v, p))) && g == File(g.bytes, v.now(p))
    ensures var share := Conflicted(p, f, g, v);
            share.Keys == {p, CopyName(v, p)} && share[p] == g && share[CopyName(v, p)] == f
  {
  }

  lemma EntryFits(h: Hasher, p: Bytes, f: File)
    requires h.Valid() && Utf8.Valid(p) && |f.bytes| < 256
    ensures WellFormed(EntryOf(h, p, f)) && EntryOf(h, p, f).path == p
  {
  }

  /** What a conflict of the first two leaves. */
  lemma CopyFits(h: Hasher, p: Bytes, f: File, g: File, x: File, v: Visit)
    requires h.Valid() && v.Valid() && Hashes(h, p, CopyName(v, p), f, g, x)
    requires Visible(p) && Utf8.Valid(p) && Visible(CopyName(v, p)) && Utf8.Valid(CopyName(v, p)) && CopyName(v, p) != p
    requires f == File(f.bytes, v.now(CopyName(v, p))) && g == File(g.bytes, v.now(p)) && |f.bytes| < 256 && |g.bytes| < 256
    ensures ShareOk(h, Conflicted(p, f, g, v))
  {
    ConflictedFiles(p, f, g, v);
    EntryFits(h, p, g);
    EntryFits(h, CopyName(v, p), f);
    TwoOk(h, Conflicted(p, f, g, v), EntryOf(h, p, g), EntryOf(h, CopyName(v, p), f));
  }

  /** The three systems from which the runs start. */
  lemma StartsExist(h: Hasher, p: Bytes, f: File, g: File)
    requires ShareOk(h, map[]) && ShareOk(h, One(p, f)) && ShareOk(h, One(p, g)) && f.bytes != [] && g.bytes != []
    ensures TwoClients(h, Begin(map[], One(p, f)), 0, 1, map[], One(p, f))
    ensures TwoClients(h, Begin(One(p, f), One(p, g)), 0, 1, One(p, f), One(p, g))
    ensures TwoClients(h, Begin(One(p, f), map[]), 0, 1, One(p, f), map[])
  {
    OneUploadable(p, f);
    OneUploadable(p, g);
    BeginFits(h, map[], One(p, f));
    BeginFits(h, One(p, f), One(p, g));
    BeginFits(h, One(p, f), map[]);
  }

  lemma OneUploadable(p: Bytes, f: File)
    requires f.bytes != []
    ensures Uploadable(map[]) && Uploadable(One(p, f))
  {
  }

  /** There are a hash, a nested path and three contents for it that meet every condition used above. */
  lemma SettingExists() returns (h: Hasher, p: Bytes, f: File, g: File, x: File, v: Visit)
    ensures h.Valid() && v.Valid() && Visible(p) && Nested(p)
    ensures f.bytes != g.bytes && g.bytes != x.bytes && f.bytes != [] && g.bytes != [] && x.bytes != []
    ensures ShareOk(h, map[]) && ShareOk(h, One(p, f)) && ShareOk(h, One(p, g)) && ShareOk(h, One(p, x))
    ensures ShareOk(h, Conflicted(p, f, g, v)) && f == File(f.bytes, v.now(p))
  {
    p, v := NestedPath();
    f, g, x := File([0x61], 0), File([0x62, 0x62], 0), File([0x63, 0x63, 0x63, 0x63], 0);
    h := HasherFor(p, CopyName(v, p), f, g, x);
    SharesFit(h, p, f, g, x, v);
    CopyFits(h, p, f, g, x, v);
  }

  // ---- the runs happen ----

  lemma StoryStart() returns (h: Hasher, p: Bytes, f: File, g: File, v: Visit)
    ensures h.Valid() && v.Valid() && Visible(p) && Nested(p) && f.bytes != g.bytes && f == File(f.bytes, v.now(p))
    ensures ShareOk(h, One(p, f)) && ShareOk(h, One(p, g)) && ShareOk(h, Conflicted(p, f, g, v))
    ensures TwoClients(h, Begin(map[], One(p, f)), 0, 1, map[], One(p, f))
    ensures TwoClients(h, Begin(One(p, f), One(p, g)), 0, 1, One(p, f), One(p, g))
    ensures TwoClients(h, Begin(One(p, f), map[]), 0, 1, One(p, f), map[])
  {
    var x;
    h, p, f, g, x, v := SettingExists();
    StartsExist(h, p, f, g);
  }

  /** There is a run from an empty server after which a client without files has the other's. */
  lemma ArrivalHappens() returns (h: Hasher, s: System, run: seq<Action>, p: Bytes, u: System)
    ensures h.Valid() && Init(h, s) && RunOk(h, s, run) && u == Run(h, s, run) && 0 in s.clients && 0 in u.clients
    ensures s.clients[0].share == map[] && p in u.clients[0].share && View(h, u.clients[0].share) == LatestView(u)
  {
    var f, g, v;
    h, p, f, g, v := StoryStart();
    var got := map[h.sha(f.bytes) := f.bytes];
    s, run := Begin(map[], One(p, f)), Story(0, 1, map[], got, v);
    u := FileArrives(h, s, 0, 1, p, f, got, v);
  }

  /** There is a run from an empty server that writes over a nested file and ends with a share unlike the latest tree. */
  lemma NestedOverwriteHappens() returns (h: Hasher, s: System, run: seq<Action>, u: System)
    ensures h.Valid() && Init(h, s) && RunOk(h, s, run) && u == Run(h, s, run)
    ensures 0 in u.clients && View(h, u.clients[0].share) != LatestView(u)
  {
    var p, f, g, v;
    h, p, f, g, v := StoryStart();
    var got := map[h.sha(g.bytes) := g.bytes];
    s, run := Begin(One(p, f), One(p, g)), Story(0, 1, One(p, f), got, v);
    u := NestedOverwriteShows(h, s, 0, 1, p, f, g, got, v);
  }

  /** There is a run from an empty server in which a client's edited file is lost for good. */
  lemma EditLossHappens() returns (h: Hasher, s: System, run: seq<Action>, u: System, p: Bytes, edited: Share)
    ensures h.Valid() && Init(h, s) && RunOk(h, s, run) && u == Run(h, s, run) && Edit(0, edited) in run && p in edited
    ensures 0 in u.clients && u.clients[0].share == map[] && h.sha(edited[p].bytes) !in u.server.objects
  {
    var f, g, v;
    h, p, f, g, v := StoryStart();
    edited := One(p, g);
    s, run := Begin(One(p, f), map[]), Story(0, 1, edited, map[], v);
    u := EditIsLost(h, s, 0, 1, p, f, g, v);
  }

  /** There are two overlapping startups on an empty server that publish a file and drop it again. */
  lemma OverlapHappens() returns (h: Hasher, s: System, run: seq<Action>, t: System, more: seq<Action>, u: System, p: Bytes)
    ensures h.Valid() && Init(h, s) && RunOk(h, s, run) && t == Run(h, s, run) && p in LatestView(t)
    ensures RunOk(h, t, more) && u == Run(h, t, more) && p !in LatestView(u)
  {
    var f, g, v;
    h, p, f, g, v := StoryStart();
    s := Begin(map[], One(p, f));
    run, t, more, u := OverlappingStartupsClobber(h, s, 0, 1, v, p);
  }

  /** There are two watch pushes on an empty server, the second of which drops what the first has published. */
  lemma WatchClobberHappens() returns (h: Hasher, s: System, t: System, p: Bytes)
    ensures h.Valid() && Init(h, s) && Enabled(h, s, WatchPush(1)) && t == Next(h, s, WatchPush(1)) && p in LatestView(t)
    ensures Enabled(h, t, WatchPush(0)) && p !in LatestView(Next(h, t, WatchPush(0)))
  {
    var f, g, v;
    h, p, f, g, v := StoryStart();
    s := Begin(map[], One(p, f));
    WatchPushClobbers(h, s, 0, 1, p);
    t := Next(h, s, WatchPush(1));
  }
}
