/** A run from an empty server in which a nested file is written over again after every client has landed a reply. */
module SyncStale {
  import opened Common
  import opened ByteStrings
  import opened TreeHash
  import opened ConflictNames
  import opened SyncModel
  import opened SyncInvariant
  import opened SyncRuns
  import opened SyncExample
  import opened SyncSetting
  import opened SyncPeace
  import R = SyncRounds

  // ---- three clients ----

  /** Clients with these shares, and a server with no tree yet. */
  ghost function Fresh(shares: map<nat, Share>): System {
    System(Server(map[], None, map[]), map c | c in shares :: Newcomer(shares[c]), map[], {})
  }

  lemma FreshInits(h: Hasher, shares: map<nat, Share>)
    requires forall c | c in shares :: ShareOk(h, shares[c])
    ensures Init(h, Fresh(shares))
  {
    forall c | c in Fresh(shares).clients ensures ClientOk(h, Fresh(shares).clients[c]) { NewcomerOk(h, shares[c]); }
  }

  lemma ThreeShares(zero: Share, one: Share, two: Share) returns (shares: map<nat, Share>)
    ensures shares.Keys == {0, 1, 2} && shares[0] == zero && shares[1] == one && shares[2] == two
  {
    shares := map[0 := zero, 1 := one, 2 := two];
  }

  /** No reply is in flight and nobody is starting, so everybody can push. */
  ghost predicate Quiescent(h: Hasher, s: System) {
    Inv(h, s) && s.flights == map[] && s.starting == {} && forall c | c in s.clients :: Uploadable(s.clients[c].share)
  }

  lemma PushFrom(h: Hasher, s: System, c: nat)
    requires h.Valid() && Quiescent(h, s) && c in s.clients
    ensures Enabled(h, s, WatchPush(c))
    ensures var t := Next(h, s, WatchPush(c));
            && Quiescent(h, t) && R.Settles(h, s, t, {c})
            && t.server.latest == Some(TreeOf(h, s.clients[c].share)) && LatestView(t) == View(h, s.clients[c].share)
  {
    WatchStep(h, s, c);
    StepKeepsInv(h, s, WatchPush(c));
    R.PushSettles(h, s, WatchPush(c));
  }

  ghost function Pushes(): seq<Action> { [WatchPush(0)] + ([WatchPush(2)] + ([WatchPush(1)] + [])) }

  lemma RunThree(h: Hasher, s: System, a: Action, b: Action, c: Action)
    requires Enabled(h, s, a) && Enabled(h, Next(h, s, a), b) && Enabled(h, Next(h, Next(h, s, a), b), c)
    ensures RunOk(h, s, [a] + ([b] + ([c] + [])))
    ensures Run(h, s, [a] + ([b] + ([c] + []))) == Next(h, Next(h, Next(h, s, a), b), c)
  {
    RunCons(h, Next(h, Next(h, s, a), b), c, []);
    RunCons(h, Next(h, s, a), b, [c] + []);
    RunCons(h, s, a, [b] + ([c] + []));
  }

  lemma SettlesThree(h: Hasher, s: System, s1: System, s2: System, t: System)
    requires R.Settles(h, s, s1, {0}) && R.Settles(h, s1, s2, {2}) && R.Settles(h, s2, t, {1})
    ensures R.Settles(h, s, t, {0, 1, 2})
  {
    R.SettlesOn(h, s, s1, s2, {0}, {2});
    R.SettlesOn(h, s, s2, t, {0} + {2}, {1});
    assert ({0} + {2}) + {1} == {0, 1, 2};
  }

  lemma ThreePushes(h: Hasher, s: System) returns (t: System)
    requires h.Valid() && Quiescent(h, s) && s.clients.Keys == {0, 1, 2}
    ensures RunOk(h, s, Pushes()) && t == Run(h, s, Pushes()) && Quiescent(h, t) && R.Settles(h, s, t, {0, 1, 2})
    ensures t.server.latest == Some(TreeOf(h, s.clients[1].share)) && LatestView(t) == View(h, s.clients[1].share)
  {
    PushFrom(h, s, 0);
    var s1 := Next(h, s, WatchPush(0));
    PushFrom(h, s1, 2);
    var s2 := Next(h, s1, WatchPush(2));
    PushFrom(h, s2, 1);
    t := Next(h, s2, WatchPush(1));
    SettlesThree(h, s, s1, s2, t);
    RunThree(h, s, WatchPush(0), WatchPush(2), WatchPush(1));
  }

  // ---- the conflict ----

  /** A reply with another file at the only path: the own one is kept as a copy. */
  lemma ConflictArrives(h: Hasher, c: Client, r: Reply, p: Bytes, f: File, g: File, v: Visit)
    requires v.Valid() && Visible(p) && c.share == One(p, f) && h.sha(f.bytes) != h.sha(g.bytes)
    requires r.asked.Some? && AskedMatches(h, c.share, r) && r.latest.Some? && r.latest.value.entries == [EntryOf(h, p, g)]
    ensures FreshFor(c.share, r, v) && AllObtained(r, map[h.sha(g.bytes) := g.bytes])
    ensures PollLand(h, c, r, map[h.sha(g.bytes) := g.bytes], v).share == Conflicted(p, f, g, v)
  {
    var e, was := EntryOf(h, p, g), PathMap(r.asked.value.entries);
    MapOfOne(e);
    AskedOnly(h, p, f, r.asked.value.entries);
    OneChange(e, was);
    FreshAlone(c.share, p, r, v);
    LandOne(h, c, e, r, map[h.sha(g.bytes) := g.bytes], v);
    WriteOver(h, c.share, p, f, g, v);
  }

  lemma AskedOnly(h: Hasher, p: Bytes, f: File, es: seq<Entry>)
    requires Visible(p) && TreeView(es) == View(h, One(p, f))
    ensures PathMap(es).Keys == {p} && PathMap(es)[p].blobId == h.sha(f.bytes)
  {
    assert PathMap(es).Keys == TreeView(es).Keys == View(h, One(p, f)).Keys == {p};
    assert TreeView(es)[p] == h.sha(f.bytes);
  }

  lemma ConflictEnabled(h: Hasher, s: System, p: Bytes, f: File, g: File, v: Visit)
    requires h.Valid() && v.Valid() && Inv(h, s) && R.Settled(h, s, 0) && Idle(s, 0) && s.clients[0].share == One(p, f)
    requires Visible(p) && ShareOk(h, One(p, g)) && ShareOk(h, Conflicted(p, f, g, v)) && h.sha(f.bytes) != h.sha(g.bytes)
    requires s.server.latest == Some(TreeOf(h, One(p, g)))
    ensures var got := map[h.sha(g.bytes) := g.bytes];
            && Enabled(h, s, AskDiff(0)) && Enabled(h, Next(h, s, AskDiff(0)), LandDiff(0, got, v))
            && AllObtained(Ask(s.server, s.clients[0].localTree.treeHash), got)
  {
    AskMatches(h, s, 0);
    OneFileTree(h, p, g);
    OneObject(h, p, g);
    ConflictArrives(h, s.clients[0], Ask(s.server, s.clients[0].localTree.treeHash), p, f, g, v);
  }

  // ---- the run ----

  /** The three have published their shares, the second one last. */
  ghost predicate Published(h: Hasher, s: System, zero: Share, one: Share, two: Share) {
    && s.clients.Keys == {0, 1, 2} && Quiescent(h, s) && (forall c | c in s.clients :: R.Settled(h, s, c))
    && s.clients[0].share == zero && s.clients[1].share == one && s.clients[2].share == two
    && s.server.latest == Some(TreeOf(h, one)) && LatestView(s) == View(h, one)
  }

  lemma FreshIsQuiescent(h: Hasher, shares: map<nat, Share>)
    requires forall c | c in shares :: ShareOk(h, shares[c]) && Uploadable(shares[c])
    ensures Init(h, Fresh(shares)) && Quiescent(h, Fresh(shares))
  {
    FreshInits(h, shares);
    InitInv(h, Fresh(shares));
  }

  lemma ThreeStart(h: Hasher, zero: Share, one: Share, two: Share) returns (start: System)
    requires ShareOk(h, zero) && ShareOk(h, one) && ShareOk(h, two) && Uploadable(zero) && Uploadable(one) && Uploadable(two)
    ensures Init(h, start) && Quiescent(h, start) && start.clients.Keys == {0, 1, 2}
    ensures start.clients[0].share == zero && start.clients[1].share == one && start.clients[2].share == two
  {
    var shares := ThreeShares(zero, one, two);
    assert forall c | c in shares :: c == 0 || c == 1 || c == 2;
    FreshIsQuiescent(h, shares);
    start := Fresh(shares);
  }

  lemma SettlesPublishes(h: Hasher, start: System, s: System)
    requires start.clients.Keys == {0, 1, 2} && Quiescent(h, s) && R.Settles(h, start, s, {0, 1, 2})
    requires s.server.latest == Some(TreeOf(h, start.clients[1].share)) && LatestView(s) == View(h, start.clients[1].share)
    ensures Published(h, s, start.clients[0].share, start.clients[1].share, start.clients[2].share)
  {
  }

  lemma ThreePublish(h: Hasher, zero: Share, one: Share, two: Share) returns (start: System, s: System)
    requires h.Valid() && ShareOk(h, zero) && ShareOk(h, one) && ShareOk(h, two)
    requires Uploadable(zero) && Uploadable(one) && Uploadable(two)
    ensures Init(h, start) && RunOk(h, start, Pushes()) && s == Run(h, start, Pushes()) && Published(h, s, zero, one, two)
  {
    start := ThreeStart(h, zero, one, two);
    s := ThreePushes(h, start);
    SettlesPublishes(h, start, s);
  }

  lemma StaleSetting() returns (h: Hasher, p: Bytes, f: File, g: File, x: File, v: Visit, start: System, s: System)
    ensures h.Valid() && v.Valid() && Visible(p) && Nested(p) && f.bytes != g.bytes && g.bytes != x.bytes
    ensures ShareOk(h, One(p, f)) && ShareOk(h, One(p, g)) && ShareOk(h, One(p, x)) && ShareOk(h, Conflicted(p, f, g, v))
    ensures Init(h, start) && RunOk(h, start, Pushes()) && s == Run(h, start, Pushes())
    ensures Published(h, s, One(p, f), One(p, g), One(p, x))
  {
    h, p, f, g, x, v := SettingExists();
    OneUploadable(p, f);
    OneUploadable(p, g);
    OneUploadable(p, x);
    start, s := ThreePublish(h, One(p, f), One(p, g), One(p, x));
  }

  lemma OtherBytes(h: Hasher, p: Bytes, f: File, g: File)
    requires h.Valid() && Visible(p) && ShareOk(h, One(p, f)) && ShareOk(h, One(p, g)) && f.bytes != g.bytes
    ensures p in View(h, One(p, f)) && p in View(h, One(p, g)) && View(h, One(p, f))[p] != View(h, One(p, g))[p]
    ensures h.sha(f.bytes) != h.sha(g.bytes)
  {
    DifferentContent(h, p, f, g);
  }

  /**
   * From the empty start the pushes lead to `s`, where every client is in step with an archived tree, and from there
   * the run leads to `t`: nobody edits, everybody lands a reply, and a nested file of the first client that the run
   * has written over will be written over again.
   */
  ghost predicate WrittenAgain(h: Hasher, start: System, s: System, run: seq<Action>, t: System) {
    && h.Valid() && Init(h, start) && RunOk(h, start, Pushes()) && s == Run(h, start, Pushes())
    && s.server.latest.Some? && s.flights == map[] && (forall c | c in s.clients :: R.Settled(h, s, c))
    && RunOk(h, s, run) && t == Run(h, s, run) && R.NoEdits(run) && Landed(run) == s.clients.Keys
    && 0 in s.clients && OverwritesNested(h, s.clients[0].share, Ask(s.server, s.clients[0].localTree.treeHash))
    && 0 in t.clients && OverwritesNested(h, t.clients[0].share, Ask(t.server, t.clients[0].localTree.treeHash))
  }

  /**
   * Three clients publish their versions of a nested file, each in step with its archived tree at the end. Nobody
   * edits any more. The second, whose version is the latest, polls and gets nothing; the first polls and writes over
   * its own; the third pushes its old version before it polls, and then gets nothing. Everybody has landed a reply,
   * and the next reply to the first client will write over the nested file again.
   */
  lemma StaleHappens() returns (h: Hasher, start: System, s: System, run: seq<Action>, t: System)
    ensures WrittenAgain(h, start, s, run, t)
  {
    var p, f, g, x, v;
    h, p, f, g, x, v, start, s := StaleSetting();
    OtherBytes(h, p, f, g);
    OtherBytes(h, p, x, g);
    var got := map[h.sha(g.bytes) := g.bytes];
    ConflictEnabled(h, s, p, f, g, v);
    t := StalePushWritesAgain(h, s, 0, 2, p, got, v);
    EmptyPoll(h, s, 1, v);
    var rest := StaleRun(0, 2, got, v);
    RunCons(h, Next(h, s, AskDiff(1)), LandDiff(1, map[], v), rest);
    RunCons(h, s, AskDiff(1), [LandDiff(1, map[], v)] + rest);
    run := [AskDiff(1)] + ([LandDiff(1, map[], v)] + rest);
    AllLand(got, v);
  }

  lemma LandedCons(a: Action, rest: seq<Action>)
    ensures Landed([a] + rest) == (if Lands(a) then {a.c} else {}) + Landed(rest)
  {
    assert ([a] + rest)[1..] == rest;
  }

  lemma AllLand(got: map<Bytes, Bytes>, v: Visit)
    ensures var run := [AskDiff(1)] + ([LandDiff(1, map[], v)] + StaleRun(0, 2, got, v));
            Landed(run) == {0, 1, 2} && R.NoEdits(run)
  {
    var last := [LandDiff(2, map[], v)] + [];
    LandedCons(LandDiff(2, map[], v), []);
    LandedCons(AskDiff(2), last);
    LandedCons(WatchPush(2), [AskDiff(2)] + last);
    LandedCons(LandDiff(0, got, v), [WatchPush(2)] + ([AskDiff(2)] + last));
    LandedCons(AskDiff(0), [LandDiff(0, got, v)] + ([WatchPush(2)] + ([AskDiff(2)] + last)));
    LandedCons(LandDiff(1, map[], v), StaleRun(0, 2, got, v));
    LandedCons(AskDiff(1), [LandDiff(1, map[], v)] + StaleRun(0, 2, got, v));
  }
}
