/** Exactly when conflicts are over, and a run without edits in which a file is written over twice. */
module SyncPeace {
  import opened Common
  import opened ByteStrings
  import opened TreeHash
  import opened ConflictNames
  import opened SyncModel
  import opened SyncInvariant
  import opened SyncRuns
  import opened SyncRounds

  // ---- conflicts are over exactly when shares and the latest tree agree ----

  ghost predicate SameWhereBoth(a: map<Bytes, Bytes>, b: map<Bytes, Bytes>) { forall q | q in a && q in b :: a[q] == b[q] }

  /** The shares and the latest tree agree wherever two of them overlap. */
  ghost predicate Compatible(h: Hasher, s: System) {
    && (forall c | c in s.clients :: SameWhereBoth(View(h, s.clients[c].share), LatestView(s)))
    && forall c, d | c in s.clients && d in s.clients ::
         SameWhereBoth(View(h, s.clients[c].share), View(h, s.clients[d].share))
  }

  /** No reply in flight would write over a file with other content. */
  ghost predicate AtPeace(h: Hasher, s: System) {
    forall c | c in s.flights && c in s.clients :: !Clashes(h, s.clients[c].share, s.flights[c])
  }

  ghost predicate AlwaysAtPeace(h: Hasher, s: System) {
    forall run: seq<Action> | RunOk(h, s, run) && NoEdits(run) :: AtPeace(h, Run(h, s, run))
  }

  /** The content that some share or the latest tree has at a path. */
  ghost function Held(h: Hasher, s: System): Bytes -> Bytes {
    (q: Bytes) =>
      if q in LatestView(s) then LatestView(s)[q]
      else if exists c :: c in s.clients && q in View(h, s.clients[c].share) then
        var c :| c in s.clients && q in View(h, s.clients[c].share); View(h, s.clients[c].share)[q]
      else []
  }

  lemma CompatibleAgrees(h: Hasher, s: System)
    requires Compatible(h, s) && s.flights == map[]
    ensures Agreed(h, s, Held(h, s))
  {
    forall c | c in s.clients ensures Agrees(h, s, c, Held(h, s)) {
      forall q | q in View(h, s.clients[c].share) ensures View(h, s.clients[c].share)[q] == Held(h, s)(q) {
        assert SameWhereBoth(View(h, s.clients[c].share), LatestView(s));
      }
    }
  }

  lemma AgreedIsAtPeace(h: Hasher, s: System, u: Bytes -> Bytes)
    requires Inv(h, s) && Agreed(h, s, u)
    ensures AtPeace(h, s)
  {
    forall c | c in s.flights && c in s.clients ensures !Clashes(h, s.clients[c].share, s.flights[c]) {
      assert Agrees(h, s, c, u);
      AgreedNeverClashes(h, s.clients[c].share, s.flights[c], s.server.objects, u);
    }
  }

  /** A client in step asks while the latest tree has other content for one of its files: the reply will write over it. */
  lemma AskClashes(h: Hasher, s: System, c: nat, q: Bytes)
    requires h.Valid() && Inv(h, s) && InStep(h, s, c) && s.server.latest.Some?
    requires q in LatestView(s) && q in View(h, s.clients[c].share) && LatestView(s)[q] != View(h, s.clients[c].share)[q]
    ensures var r := Ask(s.server, s.clients[c].localTree.treeHash);
            Clashes(h, s.clients[c].share, r) && (Nested(q) ==> OverwritesNested(h, s.clients[c].share, r))
  {
    ReplyFits(h, s, c);
    ReplyClashes(h, s.clients[c].share, Ask(s.server, s.clients[c].localTree.treeHash), s.server.objects, q);
  }

  lemma ReplyClashes(h: Hasher, share: Share, r: Reply, objects: map<Bytes, Bytes>, q: Bytes)
    requires ReplyOk(h, r, objects) && AskedMatches(h, share, r) && r.latest.Some?
    requires q in TreeView(r.latest.value.entries) && q in View(h, share) && TreeView(r.latest.value.entries)[q] != View(h, share)[q]
    ensures Clashes(h, share, r) && (Nested(q) ==> OverwritesNested(h, share, r))
  {
    var es, was := r.latest.value.entries, PathMap(EntriesOf(r.asked));
    ChangedMeans(was, es, q);
    if r.asked.Some? && q in was { assert TreeView(r.asked.value.entries)[q] == was[q].blobId; }
    ChangedInLatest(h, r, objects);
    assert q in r.ChangedPaths() && PathMap(es)[q].path == q;
  }

  lemma AskStep(h: Hasher, s: System, c: nat)
    requires Enabled(h, s, AskDiff(c))
    ensures RunOk(h, s, [AskDiff(c)]) && NoEdits([AskDiff(c)])
    ensures var t := Run(h, s, [AskDiff(c)]);
            && c in t.flights && t.flights[c] == Ask(s.server, s.clients[c].localTree.treeHash)
            && c in t.clients && t.clients[c] == s.clients[c]
  {
    assert [AskDiff(c)][1..] == [];
  }

  lemma PushAskStep(h: Hasher, s: System, d: nat, c: nat)
    requires Enabled(h, s, WatchPush(d)) && Enabled(h, Next(h, s, WatchPush(d)), AskDiff(c))
    ensures RunOk(h, s, [WatchPush(d), AskDiff(c)]) && NoEdits([WatchPush(d), AskDiff(c)])
    ensures Run(h, s, [WatchPush(d), AskDiff(c)]) == Run(h, Next(h, s, WatchPush(d)), [AskDiff(c)])
  {
    AskStep(h, Next(h, s, WatchPush(d)), c);
    assert [WatchPush(d), AskDiff(c)][1..] == [AskDiff(c)];
  }

  lemma ClashInFlight(h: Hasher, s: System, run: seq<Action>, c: nat)
    requires RunOk(h, s, run) && NoEdits(run)
    requires var t := Run(h, s, run); c in t.flights && c in t.clients && Clashes(h, t.clients[c].share, t.flights[c])
    ensures !AlwaysAtPeace(h, s)
  {
    assert !AtPeace(h, Run(h, s, run));
  }

  lemma LatestDiffers(h: Hasher, s: System, c: nat, q: Bytes)
    requires h.Valid() && Inv(h, s) && InStep(h, s, c) && s.server.latest.Some? && Idle(s, c)
    requires q in LatestView(s) && q in View(h, s.clients[c].share) && LatestView(s)[q] != View(h, s.clients[c].share)[q]
    ensures !AlwaysAtPeace(h, s)
  {
    AskStep(h, s, c);
    AskClashes(h, s, c, q);
    ClashInFlight(h, s, [AskDiff(c)], c);
  }

  lemma PushFound(h: Hasher, s: System, d: nat, c: nat)
    requires h.Valid() && Inv(h, s) && InStep(h, s, c) && Idle(s, c) && c != d && Enabled(h, s, WatchPush(d))
    ensures var t := Next(h, s, WatchPush(d));
            && Inv(h, t) && InStep(h, t, c) && Idle(t, c) && t.clients[c] == s.clients[c]
            && t.server.latest.Some? && LatestView(t) == View(h, s.clients[d].share)
  {
    StepKeepsInv(h, s, WatchPush(d));
    StepMoves(h, s, WatchPush(d));
    PushPublishes(h, s, WatchPush(d));
    assert SameFor(s, Next(h, s, WatchPush(d)), c);
  }

  lemma SharesDiffer(h: Hasher, s: System, c: nat, d: nat, q: Bytes)
    requires h.Valid() && Inv(h, s) && InStep(h, s, c) && Idle(s, c) && Idle(s, d) && c != d && d in s.clients
    requires Uploadable(s.clients[d].share) && q in View(h, s.clients[c].share) && q in View(h, s.clients[d].share)
    requires View(h, s.clients[c].share)[q] != View(h, s.clients[d].share)[q]
    ensures !AlwaysAtPeace(h, s)
  {
    var t := Next(h, s, WatchPush(d));
    PushFound(h, s, d, c);
    PushAskStep(h, s, d, c);
    AskStep(h, t, c);
    AskClashes(h, t, c, q);
    ClashInFlight(h, s, [WatchPush(d), AskDiff(c)], c);
  }

  /**
   * At rest, conflicts are over, in every run without edits and whatever is pushed and pulled in it, exactly when
   * the shares and the latest tree agree wherever two of them overlap.
   */
  lemma PeaceIff(h: Hasher, s: System)
    requires h.Valid() && Inv(h, s) && s.server.latest.Some? && s.flights == map[] && s.starting == {}
    requires forall c | c in s.clients :: InStep(h, s, c) && Uploadable(s.clients[c].share)
    ensures AlwaysAtPeace(h, s) <==> Compatible(h, s)
  {
    PeaceNeedsAgreement(h, s);
    if Compatible(h, s) {
      CompatibleAgrees(h, s);
      forall run: seq<Action> | RunOk(h, s, run) && NoEdits(run) ensures AtPeace(h, Run(h, s, run)) {
        NothingOverwrittenAgain(h, s, run, Held(h, s));
        AgreedIsAtPeace(h, Run(h, s, run), Held(h, s));
      }
    }
  }

  lemma LatestIncompatible(h: Hasher, s: System, c: nat)
    requires h.Valid() && Inv(h, s) && InStep(h, s, c) && s.server.latest.Some? && Idle(s, c)
    requires !SameWhereBoth(View(h, s.clients[c].share), LatestView(s))
    ensures !AlwaysAtPeace(h, s)
  {
    var q := Difference(View(h, s.clients[c].share), LatestView(s));
    LatestDiffers(h, s, c, q);
  }

  lemma SharesIncompatible(h: Hasher, s: System, c: nat, d: nat)
    requires h.Valid() && Inv(h, s) && InStep(h, s, c) && Idle(s, c) && Idle(s, d) && d in s.clients && Uploadable(s.clients[d].share)
    requires !SameWhereBoth(View(h, s.clients[c].share), View(h, s.clients[d].share))
    ensures !AlwaysAtPeace(h, s)
  {
    var q := Difference(View(h, s.clients[c].share), View(h, s.clients[d].share));
    SharesDiffer(h, s, c, d, q);
  }

  lemma PeaceNeedsAgreement(h: Hasher, s: System)
    requires h.Valid() && Inv(h, s) && s.server.latest.Some? && s.flights == map[] && s.starting == {}
    requires forall c | c in s.clients :: InStep(h, s, c) && Uploadable(s.clients[c].share)
    ensures AlwaysAtPeace(h, s) ==> Compatible(h, s)
  {
    forall c | c in s.clients && !SameWhereBoth(View(h, s.clients[c].share), LatestView(s)) ensures !AlwaysAtPeace(h, s) {
      LatestIncompatible(h, s, c);
    }
    forall c, d | c in s.clients && d in s.clients && !SameWhereBoth(View(h, s.clients[c].share), View(h, s.clients[d].share))
      ensures !AlwaysAtPeace(h, s)
    {
      SharesIncompatible(h, s, c, d);
    }
  }

  lemma Difference(a: map<Bytes, Bytes>, b: map<Bytes, Bytes>) returns (q: Bytes)
    requires !SameWhereBoth(a, b)
    ensures q in a && q in b && a[q] != b[q]
  {
    q :| q in a && q in b && a[q] != b[q];
  }

  // ---- a push before its client has landed ----

  /** Client `c` polls and gets everything. */
  lemma PollStep(h: Hasher, s: System, c: nat, got: map<Bytes, Bytes>, v: Visit)
    requires h.Valid() && Inv(h, s) && Settled(h, s, c) && s.server.latest.Some?
    requires Enabled(h, s, AskDiff(c)) && Enabled(h, Next(h, s, AskDiff(c)), LandDiff(c, got, v))
    requires AllObtained(Ask(s.server, s.clients[c].localTree.treeHash), got)
    ensures var t := Next(h, Next(h, s, AskDiff(c)), LandDiff(c, got, v));
            && Inv(h, t) && t.server == s.server && Idle(t, c) && InStep(h, t, c)
            && SubView(LatestView(s), View(h, t.clients[c].share))
  {
    var s1 := Next(h, s, AskDiff(c));
    StepKeepsInv(h, s, AskDiff(c));
    StepKeepsInv(h, s1, LandDiff(c, got, v));
    OwnAsk(h, s, AskDiff(c));
    AskMatches(h, s, c);
    OwnLand(h, s1, LandDiff(c, got, v));
    LandCovers(h, s.clients[c], s1.flights[c], s.server.objects, got, v);
  }

  lemma NothingLands(h: Hasher, c: Client, r: Reply, v: Visit)
    requires v.Valid() && r.ChangedPaths() == [] && r.RemovedPaths() == {}
    ensures PollLand(h, c, r, map[], v) == c && FreshFor(c.share, r, v)
  {
  }

  lemma BackAgain(s: System, c: nat, r: Reply)
    requires c in s.clients && c !in s.flights
    ensures s.(clients := s.clients[c := s.clients[c]], flights := s.flights[c := r] - {c}) == s
  {
    assert s.clients[c := s.clients[c]] == s.clients && s.flights[c := r] - {c} == s.flights;
  }

  /** A client whose share is the latest tree polls: nothing changes. */
  lemma EmptyPoll(h: Hasher, s: System, c: nat, v: Visit)
    requires h.Valid() && v.Valid() && Inv(h, s) && InStep(h, s, c) && Idle(s, c) && s.server.latest.Some?
    requires View(h, s.clients[c].share) == LatestView(s)
    ensures Enabled(h, s, AskDiff(c)) && Enabled(h, Next(h, s, AskDiff(c)), LandDiff(c, map[], v))
    ensures Next(h, Next(h, s, AskDiff(c)), LandDiff(c, map[], v)) == s
  {
    SettledDiffEmpty(h, s, c);
    var r := Ask(s.server, s.clients[c].localTree.treeHash);
    NothingLands(h, s.clients[c], r, v);
    BackAgain(s, c, r);
  }

  /** Client `c` polls, `e` pushes and then polls. */
  ghost function StaleRun(c: nat, e: nat, got: map<Bytes, Bytes>, v: Visit): seq<Action> {
    [AskDiff(c)] + ([LandDiff(c, got, v)] + ([WatchPush(e)] + ([AskDiff(e)] + ([LandDiff(e, map[], v)] + []))))
  }

  lemma RunCons(h: Hasher, s: System, a: Action, rest: seq<Action>)
    requires Enabled(h, s, a) && RunOk(h, Next(h, s, a), rest)
    ensures RunOk(h, s, [a] + rest) && Run(h, s, [a] + rest) == Run(h, Next(h, s, a), rest)
  {
    assert ([a] + rest)[1..] == rest;
  }

  lemma StalePushAndPoll(h: Hasher, s: System, c: nat, e: nat, v: Visit) returns (t: System)
    requires h.Valid() && v.Valid() && Inv(h, s) && c != e && InStep(h, s, c) && Idle(s, c)
    requires Enabled(h, s, WatchPush(e))
    ensures var run := [WatchPush(e)] + ([AskDiff(e)] + ([LandDiff(e, map[], v)] + [])); RunOk(h, s, run) && t == Run(h, s, run)
    ensures Inv(h, t) && SameFor(s, t, c) && t.server.latest.Some? && LatestView(t) == View(h, s.clients[e].share)
  {
    t := Next(h, s, WatchPush(e));
    StepKeepsInv(h, s, WatchPush(e));
    StepMoves(h, s, WatchPush(e));
    PushPublishes(h, s, WatchPush(e));
    EmptyPoll(h, t, e, v);
    RunCons(h, Next(h, t, AskDiff(e)), LandDiff(e, map[], v), []);
    RunCons(h, t, AskDiff(e), [LandDiff(e, map[], v)] + []);
    RunCons(h, s, WatchPush(e), [AskDiff(e)] + ([LandDiff(e, map[], v)] + []));
  }

  lemma PollLeaves(h: Hasher, s: System, c: nat, got: map<Bytes, Bytes>, v: Visit, e: nat)
    requires Enabled(h, s, AskDiff(c)) && Enabled(h, Next(h, s, AskDiff(c)), LandDiff(c, got, v)) && c != e && e in s.clients
    ensures SameFor(s, Next(h, Next(h, s, AskDiff(c)), LandDiff(c, got, v)), e)
  {
    var s1 := Next(h, s, AskDiff(c));
    StepMoves(h, s, AskDiff(c));
    StepMoves(h, s1, LandDiff(c, got, v));
    assert SameFor(s, s1, e);
  }

  /**
   * In any state: the latest tree has other content for a nested file than the share of `c` and than that of `e`.
   * Client `c` polls and writes over the file; `e`, which has not polled, pushes, and its poll then brings nothing.
   * Nobody has edited and both have landed a reply, and yet the next reply to `c` will write over the file again.
   */
  lemma StalePushWritesAgain(h: Hasher, s: System, c: nat, e: nat, p: Bytes, got: map<Bytes, Bytes>, v: Visit) returns (t: System)
    requires h.Valid() && v.Valid() && Inv(h, s) && s.server.latest.Some? && c != e && Settled(h, s, c)
    requires Enabled(h, s, AskDiff(c)) && Enabled(h, Next(h, s, AskDiff(c)), LandDiff(c, got, v))
    requires AllObtained(Ask(s.server, s.clients[c].localTree.treeHash), got) && Enabled(h, s, WatchPush(e))
    requires p in LatestView(s) && Nested(p)
    requires p in View(h, s.clients[c].share) && View(h, s.clients[c].share)[p] != LatestView(s)[p]
    requires p in View(h, s.clients[e].share) && View(h, s.clients[e].share)[p] != LatestView(s)[p]
    ensures RunOk(h, s, StaleRun(c, e, got, v)) && t == Run(h, s, StaleRun(c, e, got, v))
    ensures OverwritesNested(h, s.clients[c].share, Ask(s.server, s.clients[c].localTree.treeHash))
    ensures c in t.clients && Idle(t, c)
    ensures OverwritesNested(h, t.clients[c].share, Ask(t.server, t.clients[c].localTree.treeHash))
  {
    AskClashes(h, s, c, p);
    PollStep(h, s, c, got, v);
    var s1 := Next(h, s, AskDiff(c));
    var s2 := Next(h, s1, LandDiff(c, got, v));
    PollLeaves(h, s, c, got, v, e);
    t := StalePushAndPoll(h, s2, c, e, v);
    var rest := [WatchPush(e)] + ([AskDiff(e)] + ([LandDiff(e, map[], v)] + []));
    RunCons(h, s1, LandDiff(c, got, v), rest);
    RunCons(h, s, AskDiff(c), [LandDiff(c, got, v)] + rest);
    AskClashes(h, t, c, p);
  }
}
