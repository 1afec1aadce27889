/** What happens after the first conflicts: no second ones, and a second round that makes all shares equal. */
module SyncRounds {
  import opened Common
  import opened ByteStrings
  import opened TreeHash
  import opened ConflictNames
  import opened SyncModel
  import opened PullFacts
  import opened SyncInvariant
  import opened SyncRuns

  // ---- shares and trees that agree ----

  /** A view that binds its paths as `u` does. */
  ghost predicate Within(view: map<Bytes, Bytes>, u: Bytes -> Bytes) { forall p | p in view :: view[p] == u(p) }

  /** The client's share and its reply in flight bind their paths as `u` does. */
  ghost predicate Agrees(h: Hasher, s: System, c: nat, u: Bytes -> Bytes) {
    && c in s.clients && Within(View(h, s.clients[c].share), u)
    && (c in s.flights ==> Within(TreeView(EntriesOf(s.flights[c].latest)), u))
  }

  /** All shares, the latest tree and the trees on their way agree on every path they have in common. */
  ghost predicate Agreed(h: Hasher, s: System, u: Bytes -> Bytes) {
    Within(LatestView(s), u) && forall c | c in s.clients :: Agrees(h, s, c, u)
  }

  /** The pull would write over a local file, nested or not, whose content differs. */
  ghost predicate Clashes(h: Hasher, share: Share, r: Reply) {
    exists p :: p in r.ChangedPaths() && FindEntry(EntriesOf(r.latest), p).Some?
                && Conflicts(h, share, FindEntry(EntriesOf(r.latest), p).value)
  }

  lemma NothingConflicts(h: Hasher, share: Share, r: Reply, objects: map<Bytes, Bytes>, u: Bytes -> Bytes, p: Bytes)
    requires ReplyOk(h, r, objects) && r.latest.Some? && p in r.ChangedPaths()
    requires Within(View(h, share), u) && Within(TreeView(r.latest.value.entries), u)
    ensures FindEntry(EntriesOf(r.latest), p).Some? && !Conflicts(h, share, FindEntry(EntriesOf(r.latest), p).value)
  {
    ChangedInLatest(h, r, objects);
    var es := r.latest.value.entries;
    var e := PathMap(es)[p];
    assert e in es && e.path == p;
    assert TreeView(es)[p] == e.blobId;
    if p in share { assert View(h, share)[p] == h.sha(share[p].bytes); }
  }

  lemma AgreedNeverClashes(h: Hasher, share: Share, r: Reply, objects: map<Bytes, Bytes>, u: Bytes -> Bytes)
    requires ReplyOk(h, r, objects) && Within(View(h, share), u) && Within(TreeView(EntriesOf(r.latest)), u)
    ensures !Clashes(h, share, r)
  {
    forall p | p in r.ChangedPaths() && FindEntry(EntriesOf(r.latest), p).Some?
      ensures !Conflicts(h, share, FindEntry(EntriesOf(r.latest), p).value)
    {
      NothingConflicts(h, share, r, objects, u, p);
    }
  }

  lemma LandStaysWithin(h: Hasher, c: Client, r: Reply, objects: map<Bytes, Bytes>, got: map<Bytes, Bytes>, v: Visit,
                        u: Bytes -> Bytes)
    requires v.Valid() && ReplyOk(h, r, objects) && FreshFor(c.share, r, v) && Addressed(h, got)
    requires Within(View(h, c.share), u) && Within(TreeView(EntriesOf(r.latest)), u)
    ensures Within(View(h, Land(h, c, r, got, v).share), u)
  {
    if r.latest.Some? {
      LandDescribes(h, c, r, objects, got, v);
      var es, changed := r.latest.value.entries, r.ChangedPaths();
      var after := PullAll(h, c, changed, es, got, v).share;
      forall q | q in View(h, Land(h, c, r, got, v).share) ensures h.sha(after[q].bytes) == u(q) {
        LandedPath(h, c.share, r, objects, got, v, u, after, q);
      }
    } else {
      assert RemoveFiles(c.share, r.RemovedPaths()) == c.share;
    }
  }

  lemma LandedPath(h: Hasher, share: Share, r: Reply, objects: map<Bytes, Bytes>, got: map<Bytes, Bytes>, v: Visit,
                   u: Bytes -> Bytes,
                   after: Share, q: Bytes)
    requires v.Valid() && ReplyOk(h, r, objects) && Addressed(h, got) && r.latest.Some?
    requires Within(View(h, share), u) && Within(TreeView(r.latest.value.entries), u)
    requires PullDescribed(h, share, r.ChangedPaths(), r.latest.value.entries, got, v, after)
    requires q in after && Visible(q)
    ensures h.sha(after[q].bytes) == u(q)
  {
    var es, changed := r.latest.value.entries, r.ChangedPaths();
    if Pulled(changed, es, got, q) {
      ChangedInLatest(h, r, objects);
      assert TreeView(es)[q] == FindEntry(es, q).value.blobId;
    } else if q in share {
      assert q in View(h, share);
    } else {
      NoCopies(h, share, r, objects, got, v, u, q);
    }
  }

  lemma NoCopies(h: Hasher, share: Share, r: Reply, objects: map<Bytes, Bytes>, got: map<Bytes, Bytes>, v: Visit,
                 u: Bytes -> Bytes, q: Bytes)
    requires v.Valid() && ReplyOk(h, r, objects) && r.latest.Some?
    requires Within(View(h, share), u) && Within(TreeView(r.latest.value.entries), u)
    ensures !IsCopy(h, share, r.ChangedPaths(), r.latest.value.entries, got, v, q)
  {
    var es, changed := r.latest.value.entries, r.ChangedPaths();
    forall p | p in changed ensures !Kept(h, share, changed, es, got, p) { NothingConflicts(h, share, r, objects, u, p); }
  }

  // ---- no file is written over again ----

  ghost predicate NoEdits(run: seq<Action>) { forall a | a in run :: !a.Edit? }

  /** No reply that lands during the run writes over a file with other content. */
  ghost predicate Peaceful(h: Hasher, s: System, run: seq<Action>)
    requires RunOk(h, s, run)
    decreases |run|
  {
    run == [] ||
    var a := run[0];
    && (Lands(a) ==> !Clashes(h, s.clients[a.c].share, s.flights[a.c]))
    && Peaceful(h, Next(h, s, a), run[1..])
  }

  lemma AgreedMoves(h: Hasher, s: System, t: System, c: nat, u: Bytes -> Bytes)
    requires Agreed(h, s, u) && Moves(s, t, c) && Within(LatestView(t), u) && Agrees(h, t, c, u)
    ensures Agreed(h, t, u)
  {
    forall d | d in t.clients ensures Agrees(h, t, d, u) {
      if d != c { assert SameFor(s, t, d) && Agrees(h, s, d, u); }
    }
  }

  /** A landing leaves the server alone and the share within what everybody agrees on. */
  lemma AgreedLand(h: Hasher, s: System, a: Action, u: Bytes -> Bytes)
    requires Inv(h, s) && Agrees(h, s, a.c, u) && Enabled(h, s, a) && Lands(a)
    ensures Next(h, s, a).server == s.server && Agrees(h, Next(h, s, a), a.c, u)
  {
    var c, r := s.clients[a.c], s.flights[a.c];
    LandStaysWithin(h, c, r, s.server.objects, a.got, a.v, u);
    PollSkipsNothing(h, c, r, a.got, a.v);
  }

  lemma AgreedAsk(h: Hasher, s: System, a: Action, u: Bytes -> Bytes)
    requires Within(LatestView(s), u) && Agrees(h, s, a.c, u) && Enabled(h, s, a) && (a.AskDiff? || a.StartAsk?)
    ensures Next(h, s, a).server == s.server && Agrees(h, Next(h, s, a), a.c, u)
  {
  }

  lemma AgreedPush(h: Hasher, s: System, a: Action, u: Bytes -> Bytes)
    requires h.Valid() && Inv(h, s) && Agrees(h, s, a.c, u) && Enabled(h, s, a) && (a.WatchPush? || a.StartPush?)
    ensures var t := Next(h, s, a); t.server.latest.Some? && Within(LatestView(t), u) && Agrees(h, t, a.c, u)
  {
    PushPublishes(h, s, a);
  }

  /** What one step leaves of its own client's share, of its reply and of the latest tree. */
  lemma AgreedClient(h: Hasher, s: System, a: Action, u: Bytes -> Bytes)
    requires h.Valid() && Inv(h, s) && Agreed(h, s, u) && Enabled(h, s, a) && !a.Edit?
    ensures var t := Next(h, s, a);
            Within(LatestView(t), u) && Agrees(h, t, a.c, u) && (s.server.latest.Some? ==> t.server.latest.Some?)
  {
    assert Agrees(h, s, a.c, u);
    if Lands(a) {
      AgreedLand(h, s, a, u);
    } else if a.AskDiff? || a.StartAsk? {
      AgreedAsk(h, s, a, u);
    } else {
      AgreedPush(h, s, a, u);
    }
  }

  lemma AgreedStep(h: Hasher, s: System, a: Action, u: Bytes -> Bytes)
    requires h.Valid() && Inv(h, s) && Agreed(h, s, u) && Enabled(h, s, a) && !a.Edit?
    ensures Agreed(h, Next(h, s, a), u) && (s.server.latest.Some? ==> Next(h, s, a).server.latest.Some?)
  {
    StepMoves(h, s, a);
    AgreedClient(h, s, a, u);
    AgreedMoves(h, s, Next(h, s, a), a.c, u);
  }

  lemma AgreedLandsPeacefully(h: Hasher, s: System, a: Action, u: Bytes -> Bytes)
    requires Inv(h, s) && Agreed(h, s, u) && Enabled(h, s, a) && Lands(a)
    ensures !Clashes(h, s.clients[a.c].share, s.flights[a.c])
  {
    assert Agrees(h, s, a.c, u);
    AgreedNeverClashes(h, s.clients[a.c].share, s.flights[a.c], s.server.objects, u);
  }

  /**
   * Once shares and trees agree, they agree after every run without edits, whatever is pushed, asked and
   * pulled in whatever order, and no reply ever writes over a file with other content.
   */
  lemma {:induction false} NothingOverwrittenAgain(h: Hasher, s: System, run: seq<Action>, u: Bytes -> Bytes)
    requires h.Valid() && Inv(h, s) && Agreed(h, s, u) && RunOk(h, s, run) && NoEdits(run)
    ensures Peaceful(h, s, run) && Agreed(h, Run(h, s, run), u) && Inv(h, Run(h, s, run))
    ensures s.server.latest.Some? ==> Run(h, s, run).server.latest.Some?
    decreases |run|
  {
    if run != [] {
      assert run[0] in run && forall a | a in run[1..] :: a in run;
      StepKeepsInv(h, s, run[0]);
      AgreedStep(h, s, run[0], u);
      if Lands(run[0]) { AgreedLandsPeacefully(h, s, run[0], u); }
      NothingOverwrittenAgain(h, Next(h, s, run[0]), run[1..], u);
    }
  }

  // ---- rounds ----

  ghost predicate Settled(h: Hasher, s: System, c: nat) { InStep(h, s, c) && Archived(s, c) }

  /**
   * A step of a round in which `done` have landed a reply: nobody edits, every blob of a reply is obtained, and a
   * client pushes only after it has landed, or what is the latest tree already.
   */
  ghost predicate Patient(h: Hasher, s: System, a: Action, done: set<nat>)
    requires Enabled(h, s, a)
  {
    match a
    case Edit(_, _) => false
    case AskDiff(_) => true
    case StartAsk(_) => true
    case WatchPush(c) => c in done || View(h, s.clients[c].share) == LatestView(s)
    case StartPush(c) => c in done || View(h, s.clients[c].share) == LatestView(s)
    case _ => AllObtained(s.flights[a.c], a.got)
  }

  function WithLanded(done: set<nat>, a: Action): set<nat> { if Lands(a) then done + {a.c} else done }

  ghost predicate PatientRun(h: Hasher, s: System, run: seq<Action>, done: set<nat>)
    requires RunOk(h, s, run)
    decreases |run|
  {
    run == [] || (Patient(h, s, run[0], done) && PatientRun(h, Next(h, s, run[0]), run[1..], WithLanded(done, run[0])))
  }

  /** No share, no reply in flight and not the latest tree has a file of this name. */
  ghost predicate Unused(s: System, name: Bytes) {
    && name !in LatestView(s)
    && (forall d | d in s.clients :: name !in s.clients[d].share)
    && forall d | d in s.flights :: name !in TreeView(EntriesOf(s.flights[d].latest))
  }

  /** The copies this landing makes get unused names. */
  ghost predicate NewNames(h: Hasher, s: System, a: Action)
    requires Enabled(h, s, a) && Lands(a)
  {
    forall p | p in s.flights[a.c].ChangedPaths() :: Unused(s, CopyName(a.v, p))
  }

  ghost predicate OwnNames(h: Hasher, s: System, run: seq<Action>)
    requires RunOk(h, s, run)
    decreases |run|
  {
    run == [] || ((Lands(run[0]) ==> NewNames(h, s, run[0])) && OwnNames(h, Next(h, s, run[0]), run[1..]))
  }

  /** A view that has what was published at first, and agrees with `u`. */
  ghost predicate Fits(base: map<Bytes, Bytes>, view: map<Bytes, Bytes>, u: Bytes -> Bytes) {
    SubView(base, view) && Within(view, u)
  }

  ghost predicate Carries(h: Hasher, share: Share, r: Reply, base: map<Bytes, Bytes>, u: Bytes -> Bytes) {
    r.latest.Some? && AskedMatches(h, share, r) && Fits(base, TreeView(r.latest.value.entries), u)
  }

  /** Client `c` during the first round: once it has landed its share fits, and until then its tree is archived. */
  ghost predicate InRound(h: Hasher, s: System, c: nat, base: map<Bytes, Bytes>, done: set<nat>, u: Bytes -> Bytes) {
    && InStep(h, s, c)
    && (if c in s.flights then Carries(h, s.clients[c].share, s.flights[c], base, u) && (c in done || s.flights[c].asked.Some?)
        else c in done || Archived(s, c))
    && (c in done ==> Fits(base, View(h, s.clients[c].share), u))
  }

  /** The latest tree, the replies in flight and the shares of those who have landed agree and have what was published. */
  ghost predicate Round(h: Hasher, s: System, base: map<Bytes, Bytes>, done: set<nat>, u: Bytes -> Bytes) {
    && Inv(h, s) && s.server.latest.Some? && Fits(base, LatestView(s), u)
    && forall c | c in s.clients :: InRound(h, s, c, base, done, u)
  }

  /** After a step of client `c` the latest tree fits, and `c` takes part in the round as before. */
  ghost predicate RoundKept(h: Hasher, t: System, c: nat, base: map<Bytes, Bytes>, done: set<nat>, u: Bytes -> Bytes) {
    t.server.latest.Some? && Fits(base, LatestView(t), u) && InRound(h, t, c, base, done, u)
  }

  lemma OwnAsk(h: Hasher, s: System, a: Action)
    requires Enabled(h, s, a) && (a.AskDiff? || a.StartAsk?) && InStep(h, s, a.c)
    ensures var t := Next(h, s, a);
            && t.server == s.server && t.clients[a.c] == s.clients[a.c]
            && a.c in t.flights && t.flights[a.c] == Ask(s.server, s.clients[a.c].localTree.treeHash)
  {
    assert Rebuilt(h, s.clients[a.c]) == s.clients[a.c];
  }

  lemma AskCarries(h: Hasher, s: System, c: nat)
    requires h.Valid() && Inv(h, s) && InStep(h, s, c)
    ensures var r := Ask(s.server, s.clients[c].localTree.treeHash);
            r.latest == s.server.latest && AskedMatches(h, s.clients[c].share, r) && (Archived(s, c) ==> r.asked.Some?)
  {
    if Archived(s, c) { AskMatches(h, s, c); }
  }

  lemma RoundAsk(h: Hasher, s: System, a: Action, base: map<Bytes, Bytes>, done: set<nat>, u: Bytes -> Bytes)
    requires h.Valid() && Inv(h, s) && Enabled(h, s, a) && (a.AskDiff? || a.StartAsk?)
    requires RoundKept(h, s, a.c, base, done, u)
    ensures RoundKept(h, Next(h, s, a), a.c, base, done, u)
  {
    OwnAsk(h, s, a);
    AskCarries(h, s, a.c);
  }

  lemma RoundPush(h: Hasher, s: System, a: Action, base: map<Bytes, Bytes>, done: set<nat>, u: Bytes -> Bytes)
    requires h.Valid() && Inv(h, s) && Enabled(h, s, a) && (a.WatchPush? || a.StartPush?) && Patient(h, s, a, done)
    requires RoundKept(h, s, a.c, base, done, u)
    ensures RoundKept(h, Next(h, s, a), a.c, base, done, u)
  {
    PushPublishes(h, s, a);
  }

  lemma OwnLand(h: Hasher, s: System, a: Action)
    requires Enabled(h, s, a) && Lands(a) && InStep(h, s, a.c) && s.flights[a.c].latest.Some?
    ensures var t := Next(h, s, a);
            && t.server == s.server && a.c !in t.flights && InStep(h, t, a.c)
            && t.clients[a.c].share == Land(h, s.clients[a.c], s.flights[a.c], a.got, a.v).share
  {
    PollStaysInStep(h, s.clients[a.c], s.flights[a.c], a.got, a.v);
    PollSkipsNothing(h, s.clients[a.c], s.flights[a.c], a.got, a.v);
  }

  lemma RoundLandAgain(h: Hasher, s: System, a: Action, base: map<Bytes, Bytes>, done: set<nat>, u: Bytes -> Bytes)
    requires h.Valid() && Inv(h, s) && Enabled(h, s, a) && Lands(a) && a.c in done
    requires AllObtained(s.flights[a.c], a.got) && RoundKept(h, s, a.c, base, done, u)
    ensures RoundKept(h, Next(h, s, a), a.c, base, done, u)
  {
    OwnLand(h, s, a);
    LandCovers(h, s.clients[a.c], s.flights[a.c], s.server.objects, a.got, a.v);
    LandStaysWithin(h, s.clients[a.c], s.flights[a.c], s.server.objects, a.got, a.v, u);
  }

  /** What `u` becomes once the share with view `w` has landed: its copies are added. */
  function Extended(u: Bytes -> Bytes, w: map<Bytes, Bytes>): Bytes -> Bytes { q => if q in w then w[q] else u(q) }

  /** What the view shares with the landed one is as it was. */
  ghost predicate Meets(w: map<Bytes, Bytes>, u: Bytes -> Bytes, view: map<Bytes, Bytes>) {
    forall q | q in w && q in view :: w[q] == u(q)
  }

  lemma ExtendedKeeps(base: map<Bytes, Bytes>, view: map<Bytes, Bytes>, u: Bytes -> Bytes, w: map<Bytes, Bytes>)
    requires Fits(base, view, u) && Meets(w, u, view)
    ensures Fits(base, view, Extended(u, w))
  {
  }

  /** Beyond the tree it lands, a client that lands for the first time has only copies, whose names are new. */
  lemma CopiesAreNew(h: Hasher, c: Client, r: Reply, objects: map<Bytes, Bytes>, got: map<Bytes, Bytes>, v: Visit,
                     u: Bytes -> Bytes, view: map<Bytes, Bytes>)
    requires h.Valid() && v.Valid() && ReplyOk(h, r, objects) && FreshFor(c.share, r, v) && Addressed(h, got)
    requires AllObtained(r, got) && AskedMatches(h, c.share, r) && r.asked.Some? && Within(TreeView(EntriesOf(r.latest)), u)
    requires forall p | p in r.ChangedPaths() :: CopyName(v, p) !in view
    ensures Meets(View(h, Land(h, c, r, got, v).share), u, view)
  {
    LandConverges(h, c, r, objects, got, v);
    var w := View(h, Land(h, c, r, got, v).share);
    forall q | q in w && q in view ensures w[q] == u(q) {
      NotACopy(h, c.share, r, got, v, view, q);
      assert q in TreeView(r.latest.value.entries);
    }
  }

  lemma NotACopy(h: Hasher, share: Share, r: Reply, got: map<Bytes, Bytes>, v: Visit, view: map<Bytes, Bytes>, q: Bytes)
    requires v.Valid() && r.latest.Some? && q in view && forall p | p in r.ChangedPaths() :: CopyName(v, p) !in view
    ensures !IsCopy(h, share, r.ChangedPaths(), r.latest.value.entries, got, v, q)
  {
    forall p | Kept(h, share, r.ChangedPaths(), r.latest.value.entries, got, p) ensures q != CopyName(v, p) {
      assert p in r.ChangedPaths();
    }
  }

  /** A first landing: the share has the tree that it lands, and everything else fits what it makes of `u`. */
  ghost predicate Joins(h: Hasher, s: System, c: nat, u: Bytes -> Bytes, w: map<Bytes, Bytes>) {
    && Meets(w, u, LatestView(s))
    && (forall d | d in s.clients && d != c :: Meets(w, u, View(h, s.clients[d].share)))
    && forall d | d in s.flights && d != c :: Meets(w, u, TreeView(EntriesOf(s.flights[d].latest)))
  }

  lemma NewNamesJoin(h: Hasher, s: System, a: Action, u: Bytes -> Bytes)
    requires h.Valid() && Inv(h, s) && Enabled(h, s, a) && Lands(a) && NewNames(h, s, a) && AllObtained(s.flights[a.c], a.got)
    requires AskedMatches(h, s.clients[a.c].share, s.flights[a.c]) && s.flights[a.c].asked.Some?
    requires Within(TreeView(EntriesOf(s.flights[a.c].latest)), u)
    ensures Joins(h, s, a.c, u, View(h, Land(h, s.clients[a.c], s.flights[a.c], a.got, a.v).share))
  {
    var c, r := s.clients[a.c], s.flights[a.c];
    assert forall p | p in r.ChangedPaths() :: Unused(s, CopyName(a.v, p));
    CopiesAreNew(h, c, r, s.server.objects, a.got, a.v, u, LatestView(s));
    forall d | d in s.clients && d != a.c
      ensures Meets(View(h, Land(h, c, r, a.got, a.v).share), u, View(h, s.clients[d].share))
    {
      CopiesAreNew(h, c, r, s.server.objects, a.got, a.v, u, View(h, s.clients[d].share));
    }
    forall d | d in s.flights && d != a.c
      ensures Meets(View(h, Land(h, c, r, a.got, a.v).share), u, TreeView(EntriesOf(s.flights[d].latest)))
    {
      CopiesAreNew(h, c, r, s.server.objects, a.got, a.v, u, TreeView(EntriesOf(s.flights[d].latest)));
    }
  }

  lemma RoundLand(h: Hasher, s: System, a: Action, base: map<Bytes, Bytes>, done: set<nat>, u: Bytes -> Bytes)
    returns (w: map<Bytes, Bytes>)
    requires h.Valid() && Inv(h, s) && Enabled(h, s, a) && Lands(a) && a.c !in done && NewNames(h, s, a)
    requires AllObtained(s.flights[a.c], a.got) && InRound(h, s, a.c, base, done, u)
    ensures Next(h, s, a).server == s.server && Joins(h, s, a.c, u, w)
    ensures InRound(h, Next(h, s, a), a.c, base, done + {a.c}, Extended(u, w))
  {
    w := View(h, Land(h, s.clients[a.c], s.flights[a.c], a.got, a.v).share);
    OwnLand(h, s, a);
    LandCovers(h, s.clients[a.c], s.flights[a.c], s.server.objects, a.got, a.v);
    NewNamesJoin(h, s, a, u);
  }

  /** The others take part as before, and agree with the copies added. */
  lemma RoundOthers(h: Hasher, s: System, t: System, c: nat, d: nat, base: map<Bytes, Bytes>, done: set<nat>,
                    u: Bytes -> Bytes, w: map<Bytes, Bytes>)
    requires Moves(s, t, c) && d in t.clients && d != c && d in s.clients && InRound(h, s, d, base, done, u) && Joins(h, s, c, u, w)
    ensures InRound(h, t, d, base, done + {c}, Extended(u, w))
  {
    assert SameFor(s, t, d);
    if d in done { ExtendedKeeps(base, View(h, s.clients[d].share), u, w); }
    if d in s.flights { ExtendedKeeps(base, TreeView(EntriesOf(s.flights[d].latest)), u, w); }
  }

  lemma RoundMoves(h: Hasher, s: System, t: System, c: nat, base: map<Bytes, Bytes>, done: set<nat>, u: Bytes -> Bytes)
    requires Round(h, s, base, done, u) && Moves(s, t, c) && Inv(h, t) && RoundKept(h, t, c, base, done, u)
    ensures Round(h, t, base, done, u)
  {
    forall d | d in t.clients ensures InRound(h, t, d, base, done, u) {
      if d != c { assert SameFor(s, t, d) && InRound(h, s, d, base, done, u); }
    }
  }

  lemma RoundGrows(h: Hasher, s: System, t: System, c: nat, base: map<Bytes, Bytes>, done: set<nat>, u: Bytes -> Bytes,
                   w: map<Bytes, Bytes>)
    requires Round(h, s, base, done, u) && Moves(s, t, c) && Inv(h, t) && t.server == s.server && Joins(h, s, c, u, w)
    requires InRound(h, t, c, base, done + {c}, Extended(u, w))
    ensures Round(h, t, base, done + {c}, Extended(u, w))
  {
    ExtendedKeeps(base, LatestView(s), u, w);
    forall d | d in t.clients ensures InRound(h, t, d, base, done + {c}, Extended(u, w)) {
      if d != c {
        assert SameFor(s, t, d) && InRound(h, s, d, base, done, u);
        RoundOthers(h, s, t, c, d, base, done, u, w);
      }
    }
  }

  /** A client's first landing makes its copies part of what everybody agrees on. */
  lemma RoundLands(h: Hasher, s: System, a: Action, base: map<Bytes, Bytes>, done: set<nat>, u: Bytes -> Bytes)
    returns (u': Bytes -> Bytes)
    requires h.Valid() && Round(h, s, base, done, u) && Enabled(h, s, a) && Lands(a) && NewNames(h, s, a) && a.c !in done
    requires AllObtained(s.flights[a.c], a.got)
    ensures Round(h, Next(h, s, a), base, done + {a.c}, u')
  {
    assert InRound(h, s, a.c, base, done, u);
    StepKeepsInv(h, s, a);
    StepMoves(h, s, a);
    var w := RoundLand(h, s, a, base, done, u);
    RoundGrows(h, s, Next(h, s, a), a.c, base, done, u, w);
    u' := Extended(u, w);
  }

  /** Any other patient step leaves the own client where it was in the round. */
  lemma RoundOwn(h: Hasher, s: System, a: Action, base: map<Bytes, Bytes>, done: set<nat>, u: Bytes -> Bytes)
    requires h.Valid() && Inv(h, s) && Enabled(h, s, a) && Patient(h, s, a, done)
    requires RoundKept(h, s, a.c, base, done, u) && (Lands(a) ==> a.c in done)
    ensures RoundKept(h, Next(h, s, a), a.c, base, done, u)
  {
    if Lands(a) {
      RoundLandAgain(h, s, a, base, done, u);
    } else if a.AskDiff? || a.StartAsk? {
      RoundAsk(h, s, a, base, done, u);
    } else {
      RoundPush(h, s, a, base, done, u);
    }
  }

  lemma RoundStays(h: Hasher, s: System, a: Action, base: map<Bytes, Bytes>, done: set<nat>, u: Bytes -> Bytes)
    requires h.Valid() && Round(h, s, base, done, u) && Enabled(h, s, a) && Patient(h, s, a, done) && (Lands(a) ==> a.c in done)
    ensures Round(h, Next(h, s, a), base, done, u)
  {
    assert InRound(h, s, a.c, base, done, u);
    RoundOwn(h, s, a, base, done, u);
    StepKeepsInv(h, s, a);
    StepMoves(h, s, a);
    RoundMoves(h, s, Next(h, s, a), a.c, base, done, u);
  }

  lemma RoundStep(h: Hasher, s: System, a: Action, base: map<Bytes, Bytes>, done: set<nat>, u: Bytes -> Bytes)
    returns (done': set<nat>, u': Bytes -> Bytes)
    requires h.Valid() && Round(h, s, base, done, u) && Enabled(h, s, a) && Patient(h, s, a, done)
    requires Lands(a) ==> NewNames(h, s, a)
    ensures Round(h, Next(h, s, a), base, done', u') && done' == if Lands(a) then done + {a.c} else done
  {
    done', u' := done, u;
    if Lands(a) && a.c !in done {
      u' := RoundLands(h, s, a, base, done, u);
      done' := done + {a.c};
    } else {
      if Lands(a) { AlreadyLanded(done, a.c); }
      RoundStays(h, s, a, base, done, u);
    }
  }

  lemma AlreadyLanded(done: set<nat>, c: nat)
    requires c in done
    ensures done + {c} == done
  {
  }

  lemma LandedStep(run: seq<Action>, done: set<nat>)
    ensures run != [] ==> WithLanded(done, run[0]) + Landed(run[1..]) == done + Landed(run)
    ensures run == [] ==> done + Landed(run) == done
  {
  }

  lemma {:induction false} RoundRun(h: Hasher, s: System, run: seq<Action>, base: map<Bytes, Bytes>, done: set<nat>,
                                    u: Bytes -> Bytes)
    returns (done': set<nat>, u': Bytes -> Bytes)
    requires h.Valid() && Round(h, s, base, done, u) && RunOk(h, s, run) && PatientRun(h, s, run, done) && OwnNames(h, s, run)
    ensures Round(h, Run(h, s, run), base, done', u')
    ensures done' == done + Landed(run)
    decreases |run|
  {
    LandedStep(run, done);
    done', u' := done, u;
    if run != [] {
      done', u' := RoundStep(h, s, run[0], base, done, u);
      done', u' := RoundRun(h, Next(h, s, run[0]), run[1..], base, done', u');
    }
  }

  lemma RoundStarts(h: Hasher, s: System, u: Bytes -> Bytes)
    requires h.Valid() && Inv(h, s) && s.server.latest.Some? && s.flights == map[] && Within(LatestView(s), u)
    requires forall c | c in s.clients :: Settled(h, s, c)
    ensures Round(h, s, LatestView(s), {}, u)
  {
  }

  lemma RoundEnds(h: Hasher, t: System, base: map<Bytes, Bytes>, done: set<nat>, u: Bytes -> Bytes)
    requires Round(h, t, base, done, u) && t.clients.Keys <= done
    ensures Agreed(h, t, u) && SubView(base, LatestView(t))
    ensures forall c | c in t.clients :: SubView(base, View(h, t.clients[c].share))
  {
    forall c | c in t.clients ensures SubView(base, View(h, t.clients[c].share)) && Agrees(h, t, c, u) {
      assert InRound(h, t, c, base, done, u);
    }
  }

  /**
   * The first round: every client, in step with an archived tree, lands a reply with every blob obtained, writing
   * over whatever it must. Nobody edits, and a client pushes, copies and all, only after it has landed, or what is
   * the latest tree already. If copies get unused names, then all shares, the latest tree and the replies in flight
   * agree wherever they overlap, and every share and the latest tree have what was published at first.
   */
  lemma FirstRoundAgrees(h: Hasher, s: System, run: seq<Action>) returns (u: Bytes -> Bytes)
    requires h.Valid() && Inv(h, s) && s.server.latest.Some? && s.flights == map[]
    requires forall c | c in s.clients :: Settled(h, s, c)
    requires RunOk(h, s, run) && PatientRun(h, s, run, {}) && Landed(run) == s.clients.Keys && OwnNames(h, s, run)
    ensures var t := Run(h, s, run);
            && Inv(h, t) && Agreed(h, t, u) && t.server.latest.Some? && t.clients.Keys == s.clients.Keys
            && SubView(LatestView(s), LatestView(t))
            && forall c | c in t.clients :: SubView(LatestView(s), View(h, t.clients[c].share))
  {
    u := Extended(q => q, LatestView(s));
    RoundStarts(h, s, u);
    var done;
    done, u := RoundRun(h, s, run, LatestView(s), {}, u);
    RunKeepsClients(h, s, run);
    RoundEnds(h, Run(h, s, run), LatestView(s), done, u);
  }

  lemma CalmStepIsPatient(h: Hasher, s: System, a: Action, done: set<nat>)
    requires Enabled(h, s, a) && Calm(h, s, a, LatestView(s))
    ensures Patient(h, s, a, done)
  {
  }

  lemma CalmPush(h: Hasher, s: System, a: Action)
    requires h.Valid() && Inv(h, s) && Enabled(h, s, a) && (a.WatchPush? || a.StartPush?)
    requires View(h, s.clients[a.c].share) == LatestView(s)
    ensures LatestView(Next(h, s, a)) == LatestView(s)
  {
    PushPublishes(h, s, a);
  }

  lemma NoPush(h: Hasher, s: System, a: Action)
    requires Enabled(h, s, a) && !a.WatchPush? && !a.StartPush?
    ensures LatestView(Next(h, s, a)) == LatestView(s)
  {
    LatestStays(h, s, a);
  }

  lemma CalmKeepsLatest(h: Hasher, s: System, a: Action)
    requires h.Valid() && Inv(h, s) && Enabled(h, s, a) && Calm(h, s, a, LatestView(s))
    ensures LatestView(Next(h, s, a)) == LatestView(s)
  {
    if a.WatchPush? || a.StartPush? { CalmPush(h, s, a); } else { NoPush(h, s, a); }
  }

  lemma {:induction false} CalmIsPatient(h: Hasher, s: System, run: seq<Action>, done: set<nat>)
    requires h.Valid() && Inv(h, s) && RunOk(h, s, run) && CalmRun(h, s, run, LatestView(s))
    ensures PatientRun(h, s, run, done) && LatestView(Run(h, s, run)) == LatestView(s)
    decreases |run|
  {
    if run != [] {
      StepKeepsInv(h, s, run[0]);
      CalmStepIsPatient(h, s, run[0], done);
      CalmKeepsLatest(h, s, run[0]);
      CalmIsPatient(h, Next(h, s, run[0]), run[1..], WithLanded(done, run[0]));
    }
  }

  /** When only the latest tree is pushed meanwhile it stays the latest, and all shares end up covering it. */
  lemma CalmRoundCovers(h: Hasher, s: System, run: seq<Action>)
    requires h.Valid() && Inv(h, s) && s.server.latest.Some? && s.flights == map[]
    requires forall c | c in s.clients :: Settled(h, s, c)
    requires RunOk(h, s, run) && CalmRun(h, s, run, LatestView(s)) && Landed(run) == s.clients.Keys && OwnNames(h, s, run)
    ensures var t := Run(h, s, run);
            LatestView(t) == LatestView(s) && forall c | c in t.clients :: SubView(LatestView(t), View(h, t.clients[c].share))
  {
    CalmIsPatient(h, s, run, {});
    var u := FirstRoundAgrees(h, s, run);
  }

  // ---- the second round ----

  lemma PatientStepIsQuiet(h: Hasher, s: System, a: Action, view: map<Bytes, Bytes>, done: set<nat>, u: Bytes -> Bytes)
    requires Settling(h, s, view) && Hold(h, s, view, done) && Agreed(h, s, u) && Enabled(h, s, a) && Patient(h, s, a, done)
    ensures Quiet(h, s, a, view)
  {
    if Lands(a) { AgreedLandsPeacefully(h, s, a, u); }
  }

  /** From agreed shares a round is quiet: who has landed holds the latest tree, so only that is pushed. */
  lemma {:induction false} PatientIsQuiet(h: Hasher, s: System, run: seq<Action>, view: map<Bytes, Bytes>, done: set<nat>,
                                          u: Bytes -> Bytes)
    requires h.Valid() && Settling(h, s, view) && Hold(h, s, view, done) && Agreed(h, s, u)
    requires RunOk(h, s, run) && PatientRun(h, s, run, done)
    ensures QuietRun(h, s, run, view)
    decreases |run|
  {
    if run != [] {
      PatientStepIsQuiet(h, s, run[0], view, done, u);
      QuietStep(h, s, run[0], view, done);
      AgreedStep(h, s, run[0], u);
      PatientIsQuiet(h, Next(h, s, run[0]), run[1..], view, WithLanded(done, run[0]), u);
    }
  }

  lemma {:induction false} PatientHasNoEdits(h: Hasher, s: System, run: seq<Action>, done: set<nat>)
    requires RunOk(h, s, run) && PatientRun(h, s, run, done)
    ensures NoEdits(run)
    decreases |run|
  {
    if run != [] { PatientHasNoEdits(h, Next(h, s, run[0]), run[1..], WithLanded(done, run[0])); }
  }

  lemma AtRestSettles(h: Hasher, t: System)
    requires Inv(h, t) && t.server.latest.Some? && t.flights == map[] && forall c | c in t.clients :: Settled(h, t, c)
    ensures Settling(h, t, LatestView(t)) && Hold(h, t, LatestView(t), {})
  {
    forall c | c in t.clients ensures ClientSettling(h, t, c, LatestView(t)) { assert Settled(h, t, c); }
  }

  /** Every share is the latest tree, and every next diff is empty. */
  ghost predicate AllEqual(h: Hasher, s: System) {
    forall c | c in s.clients ::
      && View(h, s.clients[c].share) == LatestView(s)
      && var r := Ask(s.server, s.clients[c].localTree.treeHash);
         r.ChangedPaths() == [] && r.RemovedPaths() == {}
  }

  lemma SecondRound(h: Hasher, t: System, second: seq<Action>, u: Bytes -> Bytes)
    requires h.Valid() && Inv(h, t) && Agreed(h, t, u) && t.server.latest.Some? && t.flights == map[]
    requires forall c | c in t.clients :: Settled(h, t, c)
    requires RunOk(h, t, second) && PatientRun(h, t, second, {}) && Landed(second) == t.clients.Keys
    ensures Peaceful(h, t, second)
    ensures var e := Run(h, t, second); AllEqual(h, e) && LatestView(e) == LatestView(t)
  {
    PatientHasNoEdits(h, t, second, {});
    NothingOverwrittenAgain(h, t, second, u);
    AtRestSettles(h, t);
    PatientIsQuiet(h, t, second, LatestView(t), {}, u);
    QuietRunSettles(h, t, second, LatestView(t), {});
    assert forall c | c in t.clients :: InStep(h, t, c) && Archived(t, c) by {
      forall c | c in t.clients ensures InStep(h, t, c) && Archived(t, c) { assert Settled(h, t, c); }
    }
    EditsStopThenAllEqual(h, t, second);
  }

  /**
   * Two rounds, conflicts and all. After a first round as above, in which copies are pushed as soon as they are
   * made, and any further run without edits, once every client is in step with an archived tree and no reply is on
   * its way, a second round writes over nothing and makes every share bind the same paths, copies included, to the
   * same content as the latest tree; every next diff is empty.
   */
  lemma SecondRoundAllEqual(h: Hasher, s: System, first: seq<Action>, between: seq<Action>, second: seq<Action>)
    requires h.Valid() && Inv(h, s) && s.server.latest.Some? && s.flights == map[]
    requires forall c | c in s.clients :: Settled(h, s, c)
    requires RunOk(h, s, first) && PatientRun(h, s, first, {}) && Landed(first) == s.clients.Keys && OwnNames(h, s, first)
    requires RunOk(h, Run(h, s, first), between) && NoEdits(between)
    requires var t := Run(h, Run(h, s, first), between);
             && t.flights == map[] && (forall c | c in t.clients :: Settled(h, t, c))
             && RunOk(h, t, second) && PatientRun(h, t, second, {}) && Landed(second) == t.clients.Keys
    ensures Peaceful(h, Run(h, s, first), between) && Peaceful(h, Run(h, Run(h, s, first), between), second)
    ensures var t := Run(h, Run(h, s, first), between);
            var e := Run(h, t, second);
            AllEqual(h, e) && LatestView(e) == LatestView(t)
  {
    var u := FirstRoundAgrees(h, s, first);
    NothingOverwrittenAgain(h, Run(h, s, first), between, u);
    SecondRound(h, Run(h, Run(h, s, first), between), second, u);
  }

  // ---- between the rounds ----

  ghost predicate OnlyPushes(run: seq<Action>) { forall a | a in run :: a.WatchPush? }

  ghost function Pushed(run: seq<Action>): set<nat> { set a | a in run :: a.c }

  /** No file and no reply changes from `s` to `t`, the clients in `who` are settled and none is unsettled. */
  ghost predicate Settles(h: Hasher, s: System, t: System, who: set<nat>) {
    && t.flights == s.flights && t.clients.Keys == s.clients.Keys
    && (forall c | c in s.clients :: t.clients[c].share == s.clients[c].share)
    && (forall c | c in who || Settled(h, s, c) :: Settled(h, t, c))
  }

  lemma SettlesOn(h: Hasher, s: System, t: System, e: System, who: set<nat>, others: set<nat>)
    requires Settles(h, s, t, who) && Settles(h, t, e, others)
    ensures Settles(h, s, e, who + others)
  {
  }

  lemma PushSettles(h: Hasher, s: System, a: Action)
    requires h.Valid() && Inv(h, s) && Enabled(h, s, a) && a.WatchPush?
    ensures Settles(h, s, Next(h, s, a), {a.c})
  {
    var t := Next(h, s, a);
    StepMoves(h, s, a);
    PushPublishes(h, s, a);
    assert t.flights == s.flights;
    MovesSettles(h, s, t, a.c);
  }

  lemma MovesSettles(h: Hasher, s: System, t: System, c: nat)
    requires Moves(s, t, c) && t.flights == s.flights && t.clients.Keys == s.clients.Keys && Settled(h, t, c)
    requires c in s.clients && t.clients[c].share == s.clients[c].share
    ensures Settles(h, s, t, {c})
  {
    forall d | d in s.clients ensures t.clients[d].share == s.clients[d].share && (Settled(h, s, d) ==> Settled(h, t, d)) {
      if d != c { assert SameFor(s, t, d); }
    }
  }

  /** The client that acts last. */
  function Last(run: seq<Action>): nat
    requires run != []
  {
    run[|run| - 1].c
  }

  lemma LastStep(run: seq<Action>)
    requires run != []
    ensures Last(run) == if run[1..] == [] then run[0].c else Last(run[1..])
  {
  }

  lemma PushedStep(run: seq<Action>)
    requires run != []
    ensures Pushed(run) == {run[0].c} + Pushed(run[1..]) && (OnlyPushes(run) ==> OnlyPushes(run[1..]))
  {
  }

  /** When every watcher has fired, every client is in step with an archived tree, and no file has changed. */
  lemma {:induction false} PushesSettle(h: Hasher, s: System, run: seq<Action>)
    requires h.Valid() && Inv(h, s) && RunOk(h, s, run) && OnlyPushes(run)
    ensures Settles(h, s, Run(h, s, run), Pushed(run))
    decreases |run|
  {
    if run != [] {
      PushedStep(run);
      StepKeepsInv(h, s, run[0]);
      PushSettles(h, s, run[0]);
      PushesSettle(h, Next(h, s, run[0]), run[1..]);
      SettlesOn(h, s, Next(h, s, run[0]), Run(h, s, run), {run[0].c}, Pushed(run[1..]));
    }
  }

  /** The client that pushes last gives the latest tree. */
  lemma {:induction false} LastPushIsLatest(h: Hasher, s: System, run: seq<Action>) returns (c: nat)
    requires h.Valid() && Inv(h, s) && RunOk(h, s, run) && OnlyPushes(run) && run != []
    ensures c == Last(run) && c in s.clients && LatestView(Run(h, s, run)) == View(h, s.clients[c].share)
    decreases |run|
  {
    PushedStep(run);
    LastStep(run);
    if run[1..] == [] {
      c := OnePushIsLatest(h, s, run[0]);
    } else {
      StepKeepsInv(h, s, run[0]);
      c := LastPushIsLatest(h, Next(h, s, run[0]), run[1..]);
      SameShare(h, s, run[0], c);
    }
  }

  lemma SameShare(h: Hasher, s: System, a: Action, c: nat)
    requires h.Valid() && Inv(h, s) && Enabled(h, s, a) && a.WatchPush? && c in Next(h, s, a).clients
    ensures c in s.clients && Next(h, s, a).clients[c].share == s.clients[c].share
  {
    PushSettles(h, s, a);
  }

  lemma OnePushIsLatest(h: Hasher, s: System, a: Action) returns (c: nat)
    requires h.Valid() && Inv(h, s) && Enabled(h, s, a) && a.WatchPush?
    ensures c == a.c && c in s.clients && LatestView(Next(h, s, a)) == View(h, s.clients[c].share)
  {
    PushPublishes(h, s, a);
    c := a.c;
  }

  /**
   * So after a first round, conflicts and all, once every watcher has fired since its client's last pull, in the
   * round or after it, a second round brings every client to one share: that of the client that pushed last. It has
   * all that was published at first.
   */
  lemma TwoRoundsSuffice(h: Hasher, s: System, first: seq<Action>, pushes: seq<Action>, second: seq<Action>)
    requires h.Valid() && Inv(h, s) && s.server.latest.Some? && s.flights == map[]
    requires forall c | c in s.clients :: Settled(h, s, c)
    requires RunOk(h, s, first) && PatientRun(h, s, first, {}) && Landed(first) == s.clients.Keys && OwnNames(h, s, first)
    requires var s1 := Run(h, s, first);
             && s1.flights == map[] && RunOk(h, s1, pushes) && OnlyPushes(pushes)
             && forall c | c in s1.clients :: c in Pushed(pushes) || Settled(h, s1, c)
    requires var t := Run(h, Run(h, s, first), pushes);
             RunOk(h, t, second) && PatientRun(h, t, second, {}) && Landed(second) == s.clients.Keys
    ensures var s1 := Run(h, s, first);
            var e := Run(h, Run(h, s1, pushes), second);
            && AllEqual(h, e) && SubView(LatestView(s), LatestView(e))
            && LatestView(e) == if pushes == [] then LatestView(s1) else PushedView(h, s1, Last(pushes))
  {
    var s1 := Run(h, s, first);
    var u := FirstRoundAgrees(h, s, first);
    PushesSettle(h, s1, pushes);
    PushesHaveNoEdits(pushes);
    AfterPushes(h, s1, pushes);
    SecondRoundAllEqual(h, s, first, pushes, second);
  }

  lemma PushesHaveNoEdits(pushes: seq<Action>)
    requires OnlyPushes(pushes)
    ensures NoEdits(pushes)
  {
  }

  ghost function PushedView(h: Hasher, s: System, c: nat): map<Bytes, Bytes> {
    if c in s.clients then View(h, s.clients[c].share) else map[]
  }

  lemma AfterPushes(h: Hasher, s: System, pushes: seq<Action>)
    requires h.Valid() && Inv(h, s) && RunOk(h, s, pushes) && OnlyPushes(pushes)
    ensures LatestView(Run(h, s, pushes)) == if pushes == [] then LatestView(s) else PushedView(h, s, Last(pushes))
    ensures pushes != [] ==> Last(pushes) in s.clients
  {
    if pushes != [] { var c := LastPushIsLatest(h, s, pushes); }
  }
}
