/** Small runs of the system: what its promises look like, and the runs in which they fail. */
module SyncExample {
  import opened Common
  import opened ByteStrings
  import opened TreeHash
  import opened ConflictNames
  import opened SyncModel
  import opened SyncInvariant
  import opened SyncRuns

  // ---- what single steps do ----

  lemma TwoSteps(h: Hasher, s: System, a: Action, b: Action, rest: seq<Action>)
    requires Enabled(h, s, a) && Enabled(h, Next(h, s, a), b) && RunOk(h, Next(h, Next(h, s, a), b), rest)
    ensures RunOk(h, s, [a] + ([b] + rest)) && Run(h, s, [a] + ([b] + rest)) == Run(h, Next(h, Next(h, s, a), b), rest)
  {
    assert ([a] + ([b] + rest))[1..] == [b] + rest && ([b] + rest)[1..] == rest;
  }

  /** A push makes the share's tree the latest, whatever was there. */
  lemma PushMeans(h: Hasher, s: Server, c: Client)
    ensures var r, t := Push(h, s, c), TreeOf(h, c.share);
            && r.server.latest == Some(t) && r.server.trees == s.trees[t.treeHash := t]
            && r.client.share == c.share && r.client.localTree == t
            && TreeView(EntriesOf(r.server.latest)) == View(h, c.share)
            && ObjectsFrom(h, s.objects, c.share, r.server.objects)
  {
    TreePaths(h, c.share);
    TreeViewOfShare(h, c.share);
    PushAddsOnly(h, TreeOf(h, c.share).entries, c.share, Stores(c.cache, s.objects));
  }

  /** The only new objects are named after files of the share. */
  ghost predicate ObjectsFrom(h: Hasher, was: map<Bytes, Bytes>, share: Share, now: map<Bytes, Bytes>) {
    forall k | k in now :: k in was || exists p :: p in share && h.sha(share[p].bytes) == k
  }

  lemma {:induction false} PushAddsOnly(h: Hasher, es: seq<Entry>, share: Share, st: Stores)
    requires forall e | e in es :: e.path in share && e.blobId == h.sha(share[e.path].bytes)
    ensures ObjectsFrom(h, st.objects, share, PushObjects(es, share, st).objects)
    decreases |es|
  {
    if es != [] {
      var n := |es| - 1;
      assert es[n] in es && forall e | e in es[..n] :: e in es;
      PushAddsOnly(h, es[..n], share, st);
    }
  }

  /** Every client but `c` is as it was, and `c` has the given share. */
  ghost predicate Only(s: System, t: System, c: nat, share: Share) {
    && t.clients.Keys == s.clients.Keys && c in t.clients && t.clients[c].share == share
    && forall d | d in s.clients && d != c :: t.clients[d] == s.clients[d]
  }

  lemma WatchStep(h: Hasher, s: System, c: nat)
    requires Enabled(h, s, WatchPush(c))
    ensures var t := Next(h, s, WatchPush(c)); var tree := TreeOf(h, s.clients[c].share);
            && t.flights == s.flights && t.starting == s.starting && Only(s, t, c, s.clients[c].share)
            && t.clients[c].localTree == tree && LatestView(t) == View(h, s.clients[c].share)
            && t.server.latest == Some(tree) && t.server.trees == s.server.trees[tree.treeHash := tree]
            && ObjectsFrom(h, s.server.objects, s.clients[c].share, t.server.objects)
  {
    PushMeans(h, s.server, s.clients[c]);
  }

  lemma StartPushStep(h: Hasher, s: System, c: nat)
    requires Enabled(h, s, StartPush(c))
    ensures LatestView(Next(h, s, StartPush(c))) == View(h, s.clients[c].share)
  {
    PushMeans(h, s.server, s.clients[c]);
  }

  /** A client with the given share has asked a server without a tree, and waits for the answer. */
  ghost predicate Waits(s: System, c: nat, share: Share) {
    c in s.clients && s.clients[c].share == share && c in s.flights && s.flights[c].latest.None? && c in s.starting
  }

  lemma EmptyAsk(h: Hasher, s: System, c: nat)
    requires c in s.clients && Idle(s, c) && s.server.latest.None?
    ensures Enabled(h, s, StartAsk(c))
    ensures var t := Next(h, s, StartAsk(c)); t.server == s.server && Moves(s, t, c) && Waits(t, c, s.clients[c].share)
  {
    StepMoves(h, s, StartAsk(c));
  }

  lemma NothingToLand(h: Hasher, c: Client, r: Reply, v: Visit)
    requires v.Valid() && r.latest.None?
    ensures StartLand(h, c, r, map[], v).share == c.share && FreshFor(c.share, r, v)
  {
    assert r.ChangedPaths() == [];
  }

  /** With no tree in the reply a pull changes no file. */
  lemma EmptyPull(h: Hasher, s: System, c: nat, v: Visit, share: Share)
    requires v.Valid() && Waits(s, c, share) && ShareOk(h, share)
    ensures Enabled(h, s, StartPull(c, map[], v))
    ensures var t := Next(h, s, StartPull(c, map[], v));
            t.server == s.server && Moves(s, t, c) && t.clients[c].share == share && c in t.starting && c !in t.flights
  {
    NothingToLand(h, s.clients[c], s.flights[c], v);
    StepMoves(h, s, StartPull(c, map[], v));
  }

  // ---- pushes that clobber ----

  /** In any state: a client publishes a file, and then another, whose share lacks it, pushes for a change of its own. */
  lemma WatchPushClobbers(h: Hasher, s: System, c: nat, d: nat, p: Bytes)
    requires Enabled(h, s, WatchPush(c)) && Enabled(h, s, WatchPush(d)) && c != d
    requires Visible(p) && p in s.clients[d].share && p !in s.clients[c].share
    ensures var t := Next(h, s, WatchPush(d));
            Enabled(h, t, WatchPush(c)) && p in LatestView(t) && p !in LatestView(Next(h, t, WatchPush(c)))
  {
    WatchStep(h, s, d);
    WatchStep(h, Next(h, s, WatchPush(d)), c);
  }

  /** One of the starting clients pulls nothing, the reply being empty, and publishes its share. */
  lemma PullAndPush(h: Hasher, s: System, c: nat, v: Visit, share: Share) returns (t: System, u: System)
    requires v.Valid() && Waits(s, c, share) && ShareOk(h, share) && Uploadable(share)
    ensures Enabled(h, s, StartPull(c, map[], v)) && t == Next(h, s, StartPull(c, map[], v))
    ensures Enabled(h, t, StartPush(c)) && u == Next(h, t, StartPush(c))
    ensures Moves(s, t, c) && Moves(t, u, c) && LatestView(u) == View(h, share)
  {
    EmptyPull(h, s, c, v, share);
    t := Next(h, s, StartPull(c, map[], v));
    StartPushStep(h, t, c);
    u := Next(h, t, StartPush(c));
    StepMoves(h, t, StartPush(c));
  }

  /** Two clients ask before anything is published. */
  lemma BothAsk(h: Hasher, s: System, c: nat, d: nat) returns (t: System, u: System)
    requires c in s.clients && d in s.clients && c != d && s.server.latest.None? && Idle(s, c) && Idle(s, d)
    ensures Enabled(h, s, StartAsk(c)) && t == Next(h, s, StartAsk(c))
    ensures Enabled(h, t, StartAsk(d)) && u == Next(h, t, StartAsk(d))
    ensures Waits(u, c, s.clients[c].share) && Waits(u, d, s.clients[d].share)
  {
    EmptyAsk(h, s, c);
    t := Next(h, s, StartAsk(c));
    assert SameFor(s, t, d);
    EmptyAsk(h, t, d);
    u := Next(h, t, StartAsk(d));
    assert SameFor(t, u, c);
  }

  /** Clients `c` and `d` ask, `d` pulls and pushes. */
  lemma OvertakenStartup(h: Hasher, s: System, c: nat, d: nat, v: Visit) returns (run: seq<Action>, t: System)
    requires v.Valid() && Init(h, s) && c in s.clients && d in s.clients && c != d && Uploadable(s.clients[d].share)
    ensures run == [StartAsk(c)] + ([StartAsk(d)] + ([StartPull(d, map[], v)] + ([StartPush(d)] + [])))
    ensures RunOk(h, s, run) && t == Run(h, s, run)
    ensures Waits(t, c, s.clients[c].share) && LatestView(t) == View(h, s.clients[d].share)
  {
    var s1, s2 := BothAsk(h, s, c, d);
    var s3, s4 := PullAndPush(h, s2, d, v, s.clients[d].share);
    assert SameFor(s2, s3, c) && SameFor(s3, s4, c);
    run := [StartPull(d, map[], v)] + ([StartPush(d)] + []);
    TwoSteps(h, s2, StartPull(d, map[], v), StartPush(d), []);
    TwoSteps(h, s, StartAsk(c), StartAsk(d), run);
    run, t := [StartAsk(c)] + ([StartAsk(d)] + run), s4;
  }

  /** The overtaken client pulls nothing and pushes. */
  lemma LateStartup(h: Hasher, s: System, c: nat, v: Visit, share: Share) returns (run: seq<Action>, t: System)
    requires v.Valid() && Waits(s, c, share) && ShareOk(h, share) && Uploadable(share)
    ensures run == [StartPull(c, map[], v)] + ([StartPush(c)] + []) && RunOk(h, s, run) && t == Run(h, s, run)
    ensures LatestView(t) == View(h, share)
  {
    var pulled;
    pulled, t := PullAndPush(h, s, c, v, share);
    TwoSteps(h, s, StartPull(c, map[], v), StartPush(c), []);
    run := [StartPull(c, map[], v)] + ([StartPush(c)] + []);
  }

  /**
   * Overlapping startups clobber: on a fresh server clients `c` and `d` ask, `d` pulls and pushes, and then `c`
   * pulls what its reply says, which is nothing, and pushes. A file that only `d` has is published and gone.
   */
  lemma OverlappingStartupsClobber(h: Hasher, s: System, c: nat, d: nat, v: Visit, p: Bytes)
    returns (run: seq<Action>, t: System, more: seq<Action>, u: System)
    requires v.Valid() && Init(h, s) && c in s.clients && d in s.clients && c != d
    requires Uploadable(s.clients[c].share) && Uploadable(s.clients[d].share)
    requires Visible(p) && p in s.clients[d].share && p !in s.clients[c].share
    ensures run == [StartAsk(c)] + ([StartAsk(d)] + ([StartPull(d, map[], v)] + ([StartPush(d)] + [])))
    ensures more == [StartPull(c, map[], v)] + ([StartPush(c)] + [])
    ensures RunOk(h, s, run) && t == Run(h, s, run) && p in LatestView(t)
    ensures RunOk(h, t, more) && u == Run(h, t, more) && p !in LatestView(u)
  {
    run, t := OvertakenStartup(h, s, c, d, v);
    more, u := LateStartup(h, t, c, v, s.clients[c].share);
    assert p in View(h, s.clients[d].share) && p !in View(h, s.clients[c].share);
  }

  // ---- polls after two pushes ----

  ghost function One(p: Bytes, f: File): (share: Share)
    ensures share.Keys == {p} && share[p] == f
  {
    map[p := f]
  }

  lemma DifferentHash(h: Hasher, a: Share, b: Share)
    requires h.Valid() && ShareOk(h, a) && ShareOk(h, b) && View(h, a) != View(h, b)
    ensures TreeOf(h, a).treeHash != TreeOf(h, b).treeHash
  {
    TreeFits(h, a);
    TreeFits(h, b);
    SameBytesSameView(TreeOf(h, a).entries, TreeOf(h, b).entries);
  }

  lemma TreeFits(h: Hasher, share: Share)
    requires h.Valid() && ShareOk(h, share)
    ensures var es := TreeOf(h, share).entries;
            DistinctPaths(es) && (forall e | e in es :: WellFormed(e)) && TreeView(es) == View(h, share)
  {
    TreePaths(h, share);
    TreeViewOfShare(h, share);
  }

  lemma SameBytesSameView(xs: seq<Entry>, ys: seq<Entry>)
    requires DistinctPaths(xs) && DistinctPaths(ys) && forall e | e in xs || e in ys :: WellFormed(e)
    ensures HashInput(xs) == HashInput(ys) ==> TreeView(xs) == TreeView(ys)
  {
    if HashInput(xs) == HashInput(ys) {
      HashInputDeterminesContent(xs, ys);
      SameContentSameView(xs, ys);
    }
  }

  /** Every object is named after a file of one of the two shares. */
  ghost predicate NamedBy(h: Hasher, a: Share, b: Share, objects: map<Bytes, Bytes>) {
    forall k | k in objects :: (exists p :: p in a && h.sha(a[p].bytes) == k) || (exists p :: p in b && h.sha(b[p].bytes) == k)
  }

  lemma TwoSources(h: Hasher, a: Share, b: Share, mid: map<Bytes, Bytes>, now: map<Bytes, Bytes>)
    requires ObjectsFrom(h, map[], a, mid) && ObjectsFrom(h, mid, b, now)
    ensures NamedBy(h, a, b, now)
  {
  }

  lemma BothPush(h: Hasher, s: System, c: nat, d: nat) returns (t: System)
    requires c in s.clients && d in s.clients && c != d && Idle(s, c) && Idle(s, d) && s.server.objects == map[]
    requires Uploadable(s.clients[c].share) && Uploadable(s.clients[d].share)
    requires TreeOf(h, s.clients[c].share).treeHash != TreeOf(h, s.clients[d].share).treeHash
    ensures Enabled(h, s, WatchPush(c)) && Enabled(h, Next(h, s, WatchPush(c)), WatchPush(d))
    ensures t == Next(h, Next(h, s, WatchPush(c)), WatchPush(d))
    ensures c in t.clients && t.clients[c].share == s.clients[c].share && Idle(t, c)
    ensures t.clients[c].localTree == TreeOf(h, s.clients[c].share)
    ensures GetTree(t.server, t.clients[c].localTree.treeHash) == Some(TreeOf(h, s.clients[c].share))
    ensures t.server.latest == Some(TreeOf(h, s.clients[d].share)) && LatestView(t) == View(h, s.clients[d].share)
    ensures NamedBy(h, s.clients[c].share, s.clients[d].share, t.server.objects)
  {
    WatchStep(h, s, c);
    var mid := Next(h, s, WatchPush(c));
    WatchStep(h, mid, d);
    t := Next(h, mid, WatchPush(d));
    TwoSources(h, s.clients[c].share, s.clients[d].share, mid.server.objects, t.server.objects);
  }

  /** The reply to a client whose pushed tree another client's push has replaced. */
  ghost function Replaced(h: Hasher, mine: Share, theirs: Share): Reply {
    Reply(Some(TreeOf(h, mine)), Some(TreeOf(h, theirs)))
  }

  lemma EditAndAsk(h: Hasher, s: System, c: nat, edited: Share)
    requires c in s.clients && Idle(s, c) && ShareOk(h, edited)
    ensures Enabled(h, s, Edit(c, edited)) && Enabled(h, Next(h, s, Edit(c, edited)), AskDiff(c))
    ensures var t := Next(h, Next(h, s, Edit(c, edited)), AskDiff(c));
            && t.server == s.server && c in t.clients && t.clients[c].share == edited && c !in t.starting
            && c in t.flights && t.flights[c] == Ask(s.server, s.clients[c].localTree.treeHash)
  {
  }

  lemma LandStep(h: Hasher, s: System, c: nat, got: map<Bytes, Bytes>, v: Visit, after: Share)
    requires c in s.clients && c !in s.starting && CanLand(h, s, c, got, v)
    requires PollLand(h, s.clients[c], s.flights[c], got, v).share == after && ShareOk(h, after)
    ensures Enabled(h, s, LandDiff(c, got, v))
    ensures var t := Next(h, s, LandDiff(c, got, v));
            t.server == s.server && c in t.clients && t.clients[c].share == after && LatestView(t) == LatestView(s)
  {
  }

  // ---- the three polls ----

  /** What landing the reply makes of a share, whatever else its client holds. */
  ghost predicate LandsAs(h: Hasher, share: Share, r: Reply, got: map<Bytes, Bytes>, v: Visit, after: Share) {
    v.Valid() && FreshFor(share, r, v) && forall c: Client | c.share == share :: PollLand(h, c, r, got, v).share == after
  }

  lemma HasMember(es: seq<Entry>)
    requires es != []
    ensures exists e :: e in es
  {
    assert es[0] in es;
  }

  lemma EmptyTree(h: Hasher)
    ensures TreeOf(h, map[]).entries == []
  {
    TreePaths(h, map[]);
    if TreeOf(h, map[]).entries != [] { HasMember(TreeOf(h, map[]).entries); }
  }

  lemma OneEntry(es: seq<Entry>, e: Entry)
    requires DistinctPaths(es) && forall x :: x in es <==> x == e
    ensures es == [e]
  {
    assert e in es;
    assert |es| > 1 ==> es[0] in es && es[1] in es && es[0].path == es[1].path;
  }

  lemma OneFileTree(h: Hasher, p: Bytes, f: File)
    requires Visible(p)
    ensures TreeOf(h, One(p, f)).entries == [EntryOf(h, p, f)]
  {
    TreePaths(h, One(p, f));
    OneEntry(TreeOf(h, One(p, f)).entries, EntryOf(h, p, f));
  }

  lemma MapOfOne(e: Entry)
    ensures PathMap([e]) == map[e.path := e] && FindEntry([e], e.path) == Some(e)
  {
    assert [e][..0] == [];
  }

  /** What a diff reports when the latest tree has one file. */
  lemma OneChange(e: Entry, was: map<Bytes, Entry>)
    requires was == map[] || (was.Keys == {e.path} && was[e.path].blobId != e.blobId)
    ensures Changed(was, [e]) == [e.path] && Removed(was, [e]) == {}
  {
    assert [e][..0] == [];
    assert IsChanged(was, [e], 0);
    assert Changed(was, [e]) == Changed(was, [e][..0]) + [e.path];
  }

  lemma PullOne(h: Hasher, c: Client, e: Entry, got: map<Bytes, Bytes>, v: Visit)
    requires v.Valid() && e.blobId in got
    ensures PullAll(h, c, [e.path], [e], got, v).share == Materialize(h, c.share, e, got[e.blobId], v)
  {
    assert [e.path][..0] == [];
    MapOfOne(e);
    assert PullAll(h, c, [], [e], got, v) == c;
  }

  lemma LandOne(h: Hasher, c: Client, e: Entry, r: Reply, got: map<Bytes, Bytes>, v: Visit)
    requires v.Valid() && e.blobId in got && r.latest.Some? && r.latest.value.entries == [e]
    requires r.ChangedPaths() == [e.path] && r.RemovedPaths() == {}
    ensures PollLand(h, c, r, got, v).share == Materialize(h, c.share, e, got[e.blobId], v)
  {
    PullOne(h, c, e, got, v);
    var after := Materialize(h, c.share, e, got[e.blobId], v);
    assert RemoveFiles(after, {}) == after;
  }

  lemma FreshAlone(share: Share, p: Bytes, r: Reply, v: Visit)
    requires v.Valid() && r.ChangedPaths() == [p] && share.Keys <= {p}
    requires PathMap(EntriesOf(r.asked)).Keys <= {p} && PathMap(EntriesOf(r.latest)).Keys <= {p}
    ensures FreshFor(share, r, v)
  {
    assert |CopyName(v, p)| > |p|;
  }

  /** A poll into an empty share brings the file. */
  lemma ArrivalLands(h: Hasher, p: Bytes, f: File, got: map<Bytes, Bytes>, v: Visit)
    requires v.Valid() && Visible(p) && got == map[h.sha(f.bytes) := f.bytes]
    ensures LandsAs(h, map[], Replaced(h, map[], One(p, f)), got, v, One(p, File(f.bytes, v.now(p))))
  {
    var e, r := EntryOf(h, p, f), Replaced(h, map[], One(p, f));
    EmptyTree(h);
    OneFileTree(h, p, f);
    MapOfOne(e);
    OneChange(e, map[]);
    FreshAlone(map[], p, r, v);
    forall c: Client | c.share == map[] ensures PollLand(h, c, r, got, v).share == One(p, File(f.bytes, v.now(p))) {
      LandOne(h, c, e, r, got, v);
    }
  }

  /** The share after a conflict: the other file, and a copy of the own one. */
  ghost function Conflicted(p: Bytes, f: File, g: File, v: Visit): Share
    requires v.Valid()
  {
    map[CopyName(v, p) := File(f.bytes, v.now(CopyName(v, p))), p := File(g.bytes, v.now(p))]
  }

  lemma ConflictReply(h: Hasher, share: Share, p: Bytes, f: File, g: File, v: Visit)
    requires v.Valid() && Visible(p) && share.Keys == {p} && h.sha(f.bytes) != h.sha(g.bytes)
    ensures var r := Replaced(h, One(p, f), One(p, g));
            && FreshFor(share, r, v) && r.ChangedPaths() == [p] && r.RemovedPaths() == {}
            && r.latest.value.entries == [EntryOf(h, p, g)]
  {
    OneFileTree(h, p, f);
    OneFileTree(h, p, g);
    ReplacedEntry(EntryOf(h, p, f), EntryOf(h, p, g), share, Replaced(h, One(p, f), One(p, g)), v);
  }

  /** A diff between two trees of one file each, with the same path. */
  lemma ReplacedEntry(e: Entry, f: Entry, share: Share, r: Reply, v: Visit)
    requires v.Valid() && e.path == f.path && e.blobId != f.blobId && share.Keys == {e.path}
    requires EntriesOf(r.asked) == [e] && EntriesOf(r.latest) == [f]
    ensures FreshFor(share, r, v) && r.ChangedPaths() == [f.path] && r.RemovedPaths() == {}
  {
    MapOfOne(e);
    MapOfOne(f);
    OneChange(f, PathMap([e]));
    FreshAlone(share, f.path, r, v);
  }

  lemma WriteOver(h: Hasher, share: Share, p: Bytes, f: File, g: File, v: Visit)
    requires v.Valid() && share == One(p, f) && h.sha(f.bytes) != h.sha(g.bytes)
    ensures Materialize(h, share, EntryOf(h, p, g), g.bytes, v) == Conflicted(p, f, g, v)
  {
    assert |CopyName(v, p)| > |p|;
  }

  /** A poll over a file with other content keeps a copy of it. */
  lemma ConflictLands(h: Hasher, p: Bytes, f: File, g: File, got: map<Bytes, Bytes>, v: Visit)
    requires v.Valid() && Visible(p) && h.sha(f.bytes) != h.sha(g.bytes) && got == map[h.sha(g.bytes) := g.bytes]
    ensures LandsAs(h, One(p, f), Replaced(h, One(p, f), One(p, g)), got, v, Conflicted(p, f, g, v))
  {
    var r := Replaced(h, One(p, f), One(p, g));
    ConflictReply(h, One(p, f), p, f, g, v);
    WriteOver(h, One(p, f), p, f, g, v);
    forall c: Client | c.share == One(p, f) ensures PollLand(h, c, r, got, v).share == Conflicted(p, f, g, v) {
      LandOne(h, c, EntryOf(h, p, g), r, got, v);
    }
  }

  /** A poll after another client has withdrawn the only file. */
  lemma WithdrawalLands(h: Hasher, p: Bytes, f: File, g: File, v: Visit)
    requires v.Valid() && Visible(p)
    ensures LandsAs(h, One(p, g), Replaced(h, One(p, f), map[]), map[], v, map[])
  {
    var r := Replaced(h, One(p, f), map[]);
    EmptyTree(h);
    OneFileTree(h, p, f);
    MapOfOne(EntryOf(h, p, f));
    assert r.ChangedPaths() == [] && r.RemovedPaths() == {p};
  }

  ghost predicate TwoClients(h: Hasher, s: System, c: nat, d: nat, mine: Share, theirs: Share) {
    && Init(h, s) && c in s.clients && d in s.clients && c != d
    && s.clients[c].share == mine && s.clients[d].share == theirs && Uploadable(mine) && Uploadable(theirs)
  }

  /** Two pushes, an edit, and a poll. */
  ghost function Story(c: nat, d: nat, edited: Share, got: map<Bytes, Bytes>, v: Visit): seq<Action> {
    [WatchPush(c)] + ([WatchPush(d)] + ([Edit(c, edited)] + ([AskDiff(c)] + ([LandDiff(c, got, v)] + []))))
  }

  lemma OneStep(h: Hasher, s: System, a: Action)
    requires Enabled(h, s, a)
    ensures RunOk(h, s, [a] + []) && Run(h, s, [a] + []) == Next(h, s, a)
  {
    assert ([a] + [])[1..] == [];
  }

  lemma StoryTold(h: Hasher, s: System, c: nat, d: nat, mine: Share, theirs: Share, edited: Share,
                  got: map<Bytes, Bytes>, v: Visit, after: Share) returns (u: System)
    requires h.Valid() && TwoClients(h, s, c, d, mine, theirs) && View(h, mine) != View(h, theirs)
    requires ShareOk(h, edited) && ShareOk(h, after) && Addressed(h, got)
    requires LandsAs(h, edited, Replaced(h, mine, theirs), got, v, after)
    ensures RunOk(h, s, Story(c, d, edited, got, v)) && u == Run(h, s, Story(c, d, edited, got, v))
    ensures c in u.clients && u.clients[c].share == after && LatestView(u) == View(h, theirs)
    ensures NamedBy(h, mine, theirs, u.server.objects)
  {
    DifferentHash(h, mine, theirs);
    var s2 := BothPush(h, s, c, d);
    EditAndAsk(h, s2, c, edited);
    var s3 := Next(h, s2, Edit(c, edited));
    var s4 := Next(h, s3, AskDiff(c));
    LandStep(h, s4, c, got, v, after);
    u := Next(h, s4, LandDiff(c, got, v));
    OneStep(h, s4, LandDiff(c, got, v));
    TwoSteps(h, s2, Edit(c, edited), AskDiff(c), [LandDiff(c, got, v)] + []);
    TwoSteps(h, s, WatchPush(c), WatchPush(d), [Edit(c, edited)] + ([AskDiff(c)] + ([LandDiff(c, got, v)] + [])));
  }

  lemma SharesOk(h: Hasher, s: System, c: nat, d: nat, mine: Share, theirs: Share)
    requires TwoClients(h, s, c, d, mine, theirs)
    ensures ShareOk(h, mine) && ShareOk(h, theirs)
  {
  }

  lemma OneView(h: Hasher, p: Bytes, f: File, g: File)
    requires Visible(p) && f.bytes == g.bytes
    ensures View(h, One(p, f)) == View(h, One(p, g)) && View(h, One(p, f)) != View(h, map[])
  {
    assert p in View(h, One(p, f));
  }

  lemma OneObject(h: Hasher, p: Bytes, f: File)
    requires ShareOk(h, One(p, f))
    ensures Addressed(h, map[h.sha(f.bytes) := f.bytes])
  {
    assert One(p, f)[p].bytes in h.known;
  }

  lemma ArrivalFits(h: Hasher, p: Bytes, f: File, got: map<Bytes, Bytes>, v: Visit, after: Share)
    requires h.Valid() && v.Valid() && Visible(p) && ShareOk(h, One(p, f)) && got == map[h.sha(f.bytes) := f.bytes]
    requires after == One(p, File(f.bytes, v.now(p)))
    ensures Addressed(h, got) && View(h, map[]) != View(h, One(p, f)) && View(h, after) == View(h, One(p, f))
    ensures LandsAs(h, map[], Replaced(h, map[], One(p, f)), got, v, after)
  {
    OneObject(h, p, f);
    OneView(h, p, f, File(f.bytes, v.now(p)));
    ArrivalLands(h, p, f, got, v);
  }

  /** A client without files polls after another has published one: the file has arrived. */
  lemma FileArrives(h: Hasher, s: System, c: nat, d: nat, p: Bytes, f: File, got: map<Bytes, Bytes>, v: Visit) returns (u: System)
    requires h.Valid() && v.Valid() && Visible(p) && TwoClients(h, s, c, d, map[], One(p, f))
    requires ShareOk(h, One(p, File(f.bytes, v.now(p)))) && got == map[h.sha(f.bytes) := f.bytes]
    ensures RunOk(h, s, Story(c, d, map[], got, v)) && u == Run(h, s, Story(c, d, map[], got, v))
    ensures c in u.clients && u.clients[c].share == One(p, File(f.bytes, v.now(p))) && View(h, u.clients[c].share) == LatestView(u)
  {
    SharesOk(h, s, c, d, map[], One(p, f));
    ArrivalFits(h, p, f, got, v, One(p, File(f.bytes, v.now(p))));
    u := StoryTold(h, s, c, d, map[], One(p, f), map[], got, v, One(p, File(f.bytes, v.now(p))));
  }

  lemma ConflictFits(h: Hasher, p: Bytes, f: File, g: File, got: map<Bytes, Bytes>, v: Visit)
    requires h.Valid() && v.Valid() && Visible(p) && Nested(p) && ShareOk(h, One(p, f)) && ShareOk(h, One(p, g))
    requires f.bytes != g.bytes && got == map[h.sha(g.bytes) := g.bytes]
    ensures Addressed(h, got) && View(h, One(p, f)) != View(h, One(p, g)) && View(h, Conflicted(p, f, g, v)) != View(h, One(p, g))
    ensures LandsAs(h, One(p, f), Replaced(h, One(p, f), One(p, g)), got, v, Conflicted(p, f, g, v))
    ensures OverwritesNested(h, One(p, f), Replaced(h, One(p, f), One(p, g)))
  {
    DifferentContent(h, p, f, g);
    ConflictLands(h, p, f, g, got, v);
    ConflictNested(h, p, f, g, v);
    CopyShows(h, p, f, g, v);
  }

  /** A poll writes over a nested file: the copy shows, and the share is not the latest tree. */
  lemma NestedOverwriteShows(h: Hasher, s: System, c: nat, d: nat, p: Bytes, f: File, g: File, got: map<Bytes, Bytes>, v: Visit)
    returns (u: System)
    requires h.Valid() && v.Valid() && Visible(p) && Nested(p) && TwoClients(h, s, c, d, One(p, f), One(p, g))
    requires f.bytes != g.bytes && ShareOk(h, Conflicted(p, f, g, v)) && got == map[h.sha(g.bytes) := g.bytes]
    ensures OverwritesNested(h, One(p, f), Replaced(h, One(p, f), One(p, g)))
    ensures RunOk(h, s, Story(c, d, One(p, f), got, v)) && u == Run(h, s, Story(c, d, One(p, f), got, v))
    ensures c in u.clients && View(h, u.clients[c].share) != LatestView(u)
  {
    SharesOk(h, s, c, d, One(p, f), One(p, g));
    ConflictFits(h, p, f, g, got, v);
    u := StoryTold(h, s, c, d, One(p, f), One(p, g), One(p, f), got, v, Conflicted(p, f, g, v));
  }

  lemma ConflictNested(h: Hasher, p: Bytes, f: File, g: File, v: Visit)
    requires v.Valid() && Visible(p) && Nested(p) && h.sha(f.bytes) != h.sha(g.bytes)
    ensures OverwritesNested(h, One(p, f), Replaced(h, One(p, f), One(p, g)))
  {
    ConflictReply(h, One(p, f), p, f, g, v);
    MapOfOne(EntryOf(h, p, g));
  }

  lemma DifferentContent(h: Hasher, p: Bytes, f: File, g: File)
    requires h.Valid() && Visible(p) && ShareOk(h, One(p, f)) && ShareOk(h, One(p, g)) && f.bytes != g.bytes
    ensures h.sha(f.bytes) != h.sha(g.bytes) && View(h, One(p, f)) != View(h, One(p, g))
    ensures f.bytes in h.known && g.bytes in h.known
  {
    assert One(p, f)[p].bytes in h.known && One(p, g)[p].bytes in h.known;
    assert View(h, One(p, f))[p] == h.sha(f.bytes) && View(h, One(p, g))[p] == h.sha(g.bytes);
  }

  lemma CopyShows(h: Hasher, p: Bytes, f: File, g: File, v: Visit)
    requires v.Valid() && Visible(p) && Nested(p)
    ensures View(h, Conflicted(p, f, g, v)) != View(h, One(p, g))
  {
    CopyVisibleIffNested(p, v.who, v.stamp(p));
    assert |CopyName(v, p)| > |p|;
    assert CopyName(v, p) in View(h, Conflicted(p, f, g, v)) && CopyName(v, p) !in View(h, One(p, g));
  }

  lemma WithdrawalFits(h: Hasher, p: Bytes, f: File, g: File, v: Visit)
    requires h.Valid() && v.Valid() && Visible(p) && ShareOk(h, One(p, f)) && ShareOk(h, One(p, g)) && f.bytes != g.bytes
    ensures View(h, One(p, f)) != View(h, map[]) && LandsAs(h, One(p, g), Replaced(h, One(p, f), map[]), map[], v, map[])
  {
    assert p in View(h, One(p, f));
    WithdrawalLands(h, p, f, g, v);
  }

  lemma NotNamed(h: Hasher, p: Bytes, f: File, g: File, objects: map<Bytes, Bytes>)
    requires h.sha(f.bytes) != h.sha(g.bytes) && NamedBy(h, One(p, f), map[], objects)
    ensures h.sha(g.bytes) !in objects
  {
  }

  /**
   * A published file is withdrawn by another client while its owner edits it: the owner's next poll
   * removes it, and the edited bytes are neither in the share nor in the store.
   */
  lemma EditIsLost(h: Hasher, s: System, c: nat, d: nat, p: Bytes, f: File, g: File, v: Visit) returns (u: System)
    requires h.Valid() && v.Valid() && Visible(p) && TwoClients(h, s, c, d, One(p, f), map[])
    requires f.bytes != g.bytes && ShareOk(h, One(p, g))
    ensures RunOk(h, s, Story(c, d, One(p, g), map[], v)) && u == Run(h, s, Story(c, d, One(p, g), map[], v))
    ensures c in u.clients && u.clients[c].share == map[] && h.sha(g.bytes) !in u.server.objects
  {
    SharesOk(h, s, c, d, One(p, f), map[]);
    WithdrawalFits(h, p, f, g, v);
    u := StoryTold(h, s, c, d, One(p, f), map[], One(p, g), map[], v, map[]);
    DifferentContent(h, p, f, g);
    NotNamed(h, p, f, g, u.server.objects);
  }
}
