/**
 * The whole system as a state machine: one server, any number of clients, and diff replies in
 * flight while other clients act. Results about every run.
 */
module SyncRuns {
  import opened Common
  import opened ByteStrings
  import opened TreeHash
  import opened ConflictNames
  import opened SyncModel
  import opened SyncInvariant
  import opened PullFacts

  /** `starting` are the clients that have asked for their first diff and not yet pushed. */
  datatype System = System(server: Server, clients: map<nat, Client>, flights: map<nat, Reply>, starting: set<nat>)

  /** Startup is three steps, since other sessions run between its round trips. */
  datatype Action =
    | Edit(c: nat, share: Share)
    | WatchPush(c: nat)
    | AskDiff(c: nat)
    | LandDiff(c: nat, got: map<Bytes, Bytes>, v: Visit)
    | StartAsk(c: nat)
    | StartPull(c: nat, got: map<Bytes, Bytes>, v: Visit)
    | StartPush(c: nat)

  /** An upload finishes only for a file with at least one chunk. */
  ghost predicate Uploadable(share: Share) {
    forall p | p in share && Visible(p) :: share[p].bytes != []
  }

  ghost predicate Idle(s: System, c: nat) { c !in s.flights && c !in s.starting }

  /** The blobs that arrive hash to their names, and conflict copies get new names. */
  ghost predicate CanLand(h: Hasher, s: System, c: nat, got: map<Bytes, Bytes>, v: Visit)
    requires c in s.clients
  {
    c in s.flights && v.Valid() && Addressed(h, got) && FreshFor(s.clients[c].share, s.flights[c], v)
  }

  ghost predicate Enabled(h: Hasher, s: System, a: Action) {
    && a.c in s.clients
    && match a
       case Edit(_, share) => ShareOk(h, share)
       case WatchPush(c) => Idle(s, c) && Uploadable(s.clients[c].share)
       case AskDiff(c) => Idle(s, c)
       case LandDiff(c, got, v) =>
         c !in s.starting && CanLand(h, s, c, got, v) && ShareOk(h, PollLand(h, s.clients[c], s.flights[c], got, v).share)
       case StartAsk(c) => Idle(s, c)
       case StartPull(c, got, v) =>
         c in s.starting && CanLand(h, s, c, got, v) && ShareOk(h, StartLand(h, s.clients[c], s.flights[c], got, v).share)
       case StartPush(c) => c in s.starting && c !in s.flights && Uploadable(s.clients[c].share)
  }

  /** The tree is built anew before the first question. */
  ghost function Rebuilt(h: Hasher, c: Client): Client { c.(localTree := TreeOf(h, c.share)) }

  ghost function Next(h: Hasher, s: System, a: Action): System
    requires Enabled(h, s, a)
  {
    match a
    case Edit(c, share) => s.(clients := s.clients[c := s.clients[c].(share := share)])
    case WatchPush(c) =>
      var r := Push(h, s.server, s.clients[c]);
      s.(server := r.server, clients := s.clients[c := r.client])
    case AskDiff(c) => s.(flights := s.flights[c := Ask(s.server, s.clients[c].localTree.treeHash)])
    case LandDiff(c, got, v) =>
      s.(clients := s.clients[c := PollLand(h, s.clients[c], s.flights[c], got, v)], flights := s.flights - {c})
    case StartAsk(c) =>
      var client := Rebuilt(h, s.clients[c]);
      s.(clients := s.clients[c := client], flights := s.flights[c := Ask(s.server, client.localTree.treeHash)],
         starting := s.starting + {c})
    case StartPull(c, got, v) =>
      s.(clients := s.clients[c := StartLand(h, s.clients[c], s.flights[c], got, v)], flights := s.flights - {c})
    case StartPush(c) =>
      var r := Push(h, s.server, s.clients[c]);
      s.(server := r.server, clients := s.clients[c := r.client], starting := s.starting - {c})
  }

  ghost predicate RunOk(h: Hasher, s: System, run: seq<Action>)
    decreases |run|
  {
    run == [] || (Enabled(h, s, run[0]) && RunOk(h, Next(h, s, run[0]), run[1..]))
  }

  ghost function Run(h: Hasher, s: System, run: seq<Action>): System
    requires RunOk(h, s, run)
    decreases |run|
  {
    if run == [] then s else Run(h, Next(h, s, run[0]), run[1..])
  }

  /** No tree yet; clients bring whatever shares and clean caches they have. */
  ghost predicate Init(h: Hasher, s: System) {
    && s.server == Server(map[], None, map[]) && s.flights == map[] && s.starting == {}
    && forall c | c in s.clients :: ClientOk(h, s.clients[c])
  }

  ghost predicate ClientOk(h: Hasher, c: Client) { ShareOk(h, c.share) && Addressed(h, c.cache) }

  ghost predicate Inv(h: Hasher, s: System) {
    && ServerInv(h, s.server)
    && (forall c | c in s.clients :: ClientOk(h, s.clients[c]))
    && (forall c | c in s.flights :: c in s.clients && ReplyOk(h, s.flights[c], s.server.objects))
  }

  // ---- the reachable-state invariant ----

  lemma InitInv(h: Hasher, s: System)
    requires Init(h, s)
    ensures Inv(h, s)
  {
  }

  lemma ReplyGrows(h: Hasher, r: Reply, a: map<Bytes, Bytes>, b: map<Bytes, Bytes>)
    requires ReplyOk(h, r, a) && Grows(a, b)
    ensures ReplyOk(h, r, b)
  {
    if r.asked.Some? { GenuineGrows(h, r.asked.value, a, b); }
    if r.latest.Some? { GenuineGrows(h, r.latest.value, a, b); }
  }

  /** Replacing one client and growing the server keeps the invariant. */
  lemma UpdateKeepsInv(h: Hasher, s: System, c: nat, server: Server, client: Client, flights: map<nat, Reply>, starting: set<nat>)
    requires Inv(h, s) && c in s.clients && ServerInv(h, server) && Grows(s.server.objects, server.objects) && ClientOk(h, client)
    requires forall d | d in flights :: (d in s.flights && flights[d] == s.flights[d]) || (d == c && ReplyOk(h, flights[d], server.objects))
    ensures Inv(h, System(server, s.clients[c := client], flights, starting))
  {
    forall d | d in flights ensures ReplyOk(h, flights[d], server.objects) {
      if d in s.flights && flights[d] == s.flights[d] {
        ReplyGrows(h, flights[d], s.server.objects, server.objects);
      }
    }
  }

  lemma LandCache(h: Hasher, c: Client, r: Reply, got: map<Bytes, Bytes>, v: Visit)
    requires v.Valid() && Addressed(h, c.cache) && Addressed(h, got)
    ensures Addressed(h, Land(h, c, r, got, v).cache)
  {
    if r.latest.Some? { PullCache(h, c, r.ChangedPaths(), r.latest.value.entries, got, v); }
  }

  lemma PushKeepsInv(h: Hasher, s: System, c: nat, starting: set<nat>)
    requires h.Valid() && Inv(h, s) && c in s.clients
    ensures var r := Push(h, s.server, s.clients[c]);
      && Inv(h, System(r.server, s.clients[c := r.client], s.flights, starting))
      && Grows(s.server.objects, r.server.objects)
  {
    PushKeepsServer(h, s.server, s.clients[c]);
    var r := Push(h, s.server, s.clients[c]);
    assert r.client.share == s.clients[c].share;
    UpdateKeepsInv(h, s, c, r.server, r.client, s.flights, starting);
  }

  lemma AskReplyOk(h: Hasher, s: Server, hash: Bytes)
    requires ServerInv(h, s)
    ensures ReplyOk(h, Ask(s, hash), s.objects)
  {
  }

  lemma EditKeepsInv(h: Hasher, s: System, c: nat, share: Share)
    requires Inv(h, s) && Enabled(h, s, Edit(c, share))
    ensures Inv(h, Next(h, s, Edit(c, share)))
  {
    UpdateKeepsInv(h, s, c, s.server, s.clients[c].(share := share), s.flights, s.starting);
  }

  lemma AskKeepsInv(h: Hasher, s: System, c: nat, client: Client, starting: set<nat>)
    requires Inv(h, s) && c in s.clients && ClientOk(h, client)
    ensures Inv(h, System(s.server, s.clients[c := client], s.flights[c := Ask(s.server, client.localTree.treeHash)], starting))
  {
    AskReplyOk(h, s.server, client.localTree.treeHash);
    UpdateKeepsInv(h, s, c, s.server, client, s.flights[c := Ask(s.server, client.localTree.treeHash)], starting);
  }

  lemma PollCache(h: Hasher, c: Client, r: Reply, got: map<Bytes, Bytes>, v: Visit)
    requires v.Valid() && ClientOk(h, c) && Addressed(h, got)
    ensures ShareOk(h, PollLand(h, c, r, got, v).share) ==> ClientOk(h, PollLand(h, c, r, got, v))
    ensures ShareOk(h, StartLand(h, c, r, got, v).share) ==> ClientOk(h, StartLand(h, c, r, got, v))
  {
    LandCache(h, c, r, got, v);
  }

  lemma LandKeepsInv(h: Hasher, s: System, c: nat, client: Client)
    requires Inv(h, s) && c in s.clients && ClientOk(h, client)
    ensures Inv(h, System(s.server, s.clients[c := client], s.flights - {c}, s.starting))
  {
    UpdateKeepsInv(h, s, c, s.server, client, s.flights - {c}, s.starting);
  }

  lemma PollKeepsInv(h: Hasher, s: System, c: nat, got: map<Bytes, Bytes>, v: Visit)
    requires Inv(h, s) && Enabled(h, s, LandDiff(c, got, v))
    ensures Inv(h, Next(h, s, LandDiff(c, got, v)))
  {
    PollCache(h, s.clients[c], s.flights[c], got, v);
    LandKeepsInv(h, s, c, PollLand(h, s.clients[c], s.flights[c], got, v));
  }

  lemma StartPullKeepsInv(h: Hasher, s: System, c: nat, got: map<Bytes, Bytes>, v: Visit)
    requires Inv(h, s) && Enabled(h, s, StartPull(c, got, v))
    ensures Inv(h, Next(h, s, StartPull(c, got, v)))
  {
    PollCache(h, s.clients[c], s.flights[c], got, v);
    LandKeepsInv(h, s, c, StartLand(h, s.clients[c], s.flights[c], got, v));
  }

  lemma AskDiffKeepsInv(h: Hasher, s: System, c: nat)
    requires Inv(h, s) && Enabled(h, s, AskDiff(c))
    ensures Inv(h, Next(h, s, AskDiff(c)))
  {
    assert s.clients[c := s.clients[c]] == s.clients;
    AskKeepsInv(h, s, c, s.clients[c], s.starting);
  }

  lemma StartAskKeepsInv(h: Hasher, s: System, c: nat)
    requires Inv(h, s) && Enabled(h, s, StartAsk(c))
    ensures Inv(h, Next(h, s, StartAsk(c)))
  {
    AskKeepsInv(h, s, c, Rebuilt(h, s.clients[c]), s.starting + {c});
  }

  lemma PushStepKeepsInv(h: Hasher, s: System, a: Action)
    requires h.Valid() && Inv(h, s) && Enabled(h, s, a) && (a.WatchPush? || a.StartPush?)
    ensures Inv(h, Next(h, s, a)) && Grows(s.server.objects, Next(h, s, a).server.objects)
  {
    PushKeepsInv(h, s, a.c, if a.WatchPush? then s.starting else s.starting - {a.c});
  }

  /** Every step keeps the invariant, and no stored object is ever dropped or rebound. */
  lemma StepKeepsInv(h: Hasher, s: System, a: Action)
    requires h.Valid() && Inv(h, s) && Enabled(h, s, a)
    ensures Inv(h, Next(h, s, a)) && Grows(s.server.objects, Next(h, s, a).server.objects)
  {
    match a
    case Edit(c, share) => EditKeepsInv(h, s, c, share);
    case WatchPush(_) => PushStepKeepsInv(h, s, a);
    case AskDiff(c) => AskDiffKeepsInv(h, s, c);
    case LandDiff(c, got, v) => PollKeepsInv(h, s, c, got, v);
    case StartAsk(c) => StartAskKeepsInv(h, s, c);
    case StartPull(c, got, v) => StartPullKeepsInv(h, s, c, got, v);
    case StartPush(_) => PushStepKeepsInv(h, s, a);
  }

  /** Every run keeps the invariant. */
  lemma {:induction false} RunKeepsInv(h: Hasher, s: System, run: seq<Action>)
    requires h.Valid() && Inv(h, s) && RunOk(h, s, run)
    ensures Inv(h, Run(h, s, run)) && Grows(s.server.objects, Run(h, s, run).server.objects)
    decreases |run|
  {
    if run != [] {
      StepKeepsInv(h, s, run[0]);
      RunKeepsInv(h, Next(h, s, run[0]), run[1..]);
    }
  }

  /**
   * In every state reachable from an empty server the latest tree is the one archived under its own
   * hash, every blob named by an archived tree is stored, and every stored object hashes to its key.
   */
  lemma ReachableInv(h: Hasher, s: System, run: seq<Action>)
    requires h.Valid() && Init(h, s) && RunOk(h, s, run)
    ensures Inv(h, Run(h, s, run))
  {
    InitInv(h, s);
    RunKeepsInv(h, s, run);
  }

  // ---- convergence of one poll, whatever others do meanwhile ----

  ghost predicate InStep(h: Hasher, s: System, c: nat) {
    c in s.clients && s.clients[c].localTree == TreeOf(h, s.clients[c].share)
  }

  ghost predicate Archived(s: System, c: nat) {
    c in s.clients && s.clients[c].localTree.treeHash in s.server.trees
  }

  /** What one client sees of the system: itself, its reply in flight and whether it is starting. */
  ghost predicate SameFor(s: System, t: System, c: nat) {
    && c in s.clients && c in t.clients && t.clients[c] == s.clients[c]
    && (c in t.flights <==> c in s.flights) && (c in s.flights ==> t.flights[c] == s.flights[c])
    && (c in t.starting <==> c in s.starting)
  }

  lemma {:induction false} OthersLeaveAlone(h: Hasher, s: System, run: seq<Action>, c: nat)
    requires RunOk(h, s, run) && c in s.clients && forall a | a in run :: a.c != c
    ensures SameFor(s, Run(h, s, run), c)
    decreases |run|
  {
    if run != [] {
      assert run[0] in run;
      StepMoves(h, s, run[0]);
      assert forall a | a in run[1..] :: a in run;
      OthersLeaveAlone(h, Next(h, s, run[0]), run[1..], c);
    }
  }

  /** The archived tree that an up-to-date client asks about is the tree of its share. */
  lemma AskMatches(h: Hasher, s: System, c: nat)
    requires h.Valid() && Inv(h, s) && InStep(h, s, c) && Archived(s, c)
    ensures var r := Ask(s.server, s.clients[c].localTree.treeHash);
            && r.asked.Some? && AskedMatches(h, s.clients[c].share, r) && ReplyOk(h, r, s.server.objects)
  {
    var share := s.clients[c].share;
    var asked := s.server.trees[s.clients[c].localTree.treeHash];
    TreeMatches(h, share, asked, s.server.objects);
  }

  /** A genuine tree filed under the hash of a share's tree binds the paths as the share does. */
  lemma TreeMatches(h: Hasher, share: Share, asked: FileTree, objects: map<Bytes, Bytes>)
    requires h.Valid() && ShareOk(h, share) && Genuine(h, asked, objects)
    requires asked.treeHash == TreeOf(h, share).treeHash
    ensures TreeView(asked.entries) == View(h, share)
  {
    var t := TreeOf(h, share);
    TreePaths(h, share);
    TreeViewOfShare(h, share);
    HashInputDeterminesContent(t.entries, asked.entries);
    SameContentSameView(asked.entries, t.entries);
  }

  /**
   * Convergence: a client in step with an archived tree asks for a diff, the others act freely, and
   * the reply lands with every blob obtained. Its share then binds every path of the tree that was
   * the latest when it asked, anything else is a conflict copy, and the two agree exactly when no
   * nested file was written over.
   */
  lemma PollConverges(h: Hasher, s: System, c: nat, others: seq<Action>, got: map<Bytes, Bytes>, v: Visit)
    requires h.Valid() && Inv(h, s) && InStep(h, s, c) && Archived(s, c) && Idle(s, c)
    requires var s1 := Next(h, s, AskDiff(c));
             && RunOk(h, s1, others) && (forall a | a in others :: a.c != c)
             && Enabled(h, Run(h, s1, others), LandDiff(c, got, v))
    requires AllObtained(Ask(s.server, s.clients[c].localTree.treeHash), got)
    ensures var s2 := Run(h, Next(h, s, AskDiff(c)), others);
            var w := View(h, Next(h, s2, LandDiff(c, got, v)).clients[c].share);
            var r := Ask(s.server, s.clients[c].localTree.treeHash);
            && r.latest.Some?
            && SubView(TreeView(r.latest.value.entries), w)
            && (forall q | q in w && q !in TreeView(r.latest.value.entries) ::
                  IsCopy(h, s.clients[c].share, r.ChangedPaths(), r.latest.value.entries, got, v, q))
            && (w == TreeView(r.latest.value.entries) <==> !OverwritesNested(h, s.clients[c].share, r))
  {
    var s1 := Next(h, s, AskDiff(c));
    var r := Ask(s.server, s.clients[c].localTree.treeHash);
    AskMatches(h, s, c);
    OthersLeaveAlone(h, s1, others, c);
    LandConverges(h, s.clients[c], r, s.server.objects, got, v);
    PollSkipsNothing(h, s.clients[c], r, got, v);
  }

  // ---- once edits stop ----

  ghost function LatestView(s: System): map<Bytes, Bytes> { TreeView(EntriesOf(s.server.latest)) }

  /** A step that lands a reply, at a poll or at a startup. */
  predicate Lands(a: Action) { a.LandDiff? || a.StartPull? }

  /**
   * Steps that happen by themselves once nobody edits: polls and startups that obtain every blob and
   * write over no nested file, and pushes of what was just pulled.
   */
  ghost predicate Quiet(h: Hasher, s: System, a: Action, view: map<Bytes, Bytes>)
    requires Enabled(h, s, a)
  {
    match a
    case Edit(_, _) => false
    case AskDiff(_) => true
    case StartAsk(_) => true
    case WatchPush(c) => View(h, s.clients[c].share) == view
    case StartPush(c) => View(h, s.clients[c].share) == view
    case _ => AllObtained(s.flights[a.c], a.got) && !OverwritesNested(h, s.clients[a.c].share, s.flights[a.c])
  }

  ghost predicate QuietRun(h: Hasher, s: System, run: seq<Action>, view: map<Bytes, Bytes>)
    requires RunOk(h, s, run)
    decreases |run|
  {
    run == [] || (Quiet(h, s, run[0], view) && QuietRun(h, Next(h, s, run[0]), run[1..], view))
  }

  /** The clients whose polls or startup pulls complete during a run. */
  function Landed(run: seq<Action>): set<nat> {
    if run == [] then {} else (if Lands(run[0]) then {run[0].c} else {}) + Landed(run[1..])
  }

  ghost predicate ClientSettling(h: Hasher, s: System, c: nat, view: map<Bytes, Bytes>)
    requires c in s.clients
  {
    && InStep(h, s, c)
    && if c in s.flights then
         var r := s.flights[c];
         && r.asked.Some? && r.latest.Some? && AskedMatches(h, s.clients[c].share, r)
         && TreeView(r.latest.value.entries) == view
       else Archived(s, c)
  }

  /** The latest tree is `view`, and every client is in step with an archived tree. */
  ghost predicate Settling(h: Hasher, s: System, view: map<Bytes, Bytes>) {
    && Inv(h, s) && s.server.latest.Some? && LatestView(s) == view
    && forall c | c in s.clients :: ClientSettling(h, s, c, view)
  }

  ghost predicate Hold(h: Hasher, s: System, view: map<Bytes, Bytes>, done: set<nat>) {
    forall c | c in done :: c in s.clients && View(h, s.clients[c].share) == view
  }

  lemma SettledIsArchived(h: Hasher, s: System, share: Share)
    requires h.Valid() && Inv(h, s) && s.server.latest.Some? && ShareOk(h, share)
    requires View(h, share) == LatestView(s)
    ensures TreeOf(h, share).treeHash == s.server.latest.value.treeHash
  {
    var t, latest := TreeOf(h, share), s.server.latest.value;
    TreeViewOfShare(h, share);
    ViewIsStocked(h, share, latest, s.server.objects);
    TreeOfGenuine(h, share, s.server.objects);
    HashNamesView(h, t, latest, s.server.objects);
  }

  lemma ViewIsStocked(h: Hasher, share: Share, t: FileTree, objects: map<Bytes, Bytes>)
    requires h.Valid() && Addressed(h, objects) && Genuine(h, t, objects) && ShareOk(h, share)
    requires View(h, share) == TreeView(t.entries)
    ensures Stocked(h, share, objects)
  {
    forall p | p in share && Visible(p)
      ensures h.sha(share[p].bytes) in objects && objects[h.sha(share[p].bytes)] == share[p].bytes
    {
      assert p in View(h, share);
      assert PathMap(t.entries)[p] in t.entries;
    }
  }

  /** Only client `c` moves, and the archive only grows. */
  ghost predicate Moves(s: System, t: System, c: nat) {
    && c in t.clients
    && (forall d | d in t.clients && d != c :: SameFor(s, t, d))
    && (forall d | d in s.clients :: d in t.clients)
    && (forall k | k in s.server.trees :: k in t.server.trees)
  }

  lemma MovesBy(s: System, c: nat, server: Server, client: Client, flights: map<nat, Reply>, starting: set<nat>)
    requires c in s.clients && forall k | k in s.server.trees :: k in server.trees
    requires forall d | d in flights && d != c :: d in s.flights && flights[d] == s.flights[d]
    requires forall d | d in s.flights && d != c :: d in flights
    requires forall d | d != c :: d in starting <==> d in s.starting
    ensures Moves(s, System(server, s.clients[c := client], flights, starting), c)
  {
  }

  lemma PushArchives(h: Hasher, s: Server, c: Client)
    ensures forall k | k in s.trees :: k in Push(h, s, c).server.trees
  {
  }

  lemma PushMoves(h: Hasher, s: System, c: nat, starting: set<nat>)
    requires c in s.clients && forall d | d != c :: d in starting <==> d in s.starting
    ensures var r := Push(h, s.server, s.clients[c]); Moves(s, System(r.server, s.clients[c := r.client], s.flights, starting), c)
  {
    PushArchives(h, s.server, s.clients[c]);
    var r := Push(h, s.server, s.clients[c]);
    MovesBy(s, c, r.server, r.client, s.flights, starting);
  }

  lemma AskMoves(h: Hasher, s: System, c: nat, client: Client, starting: set<nat>)
    requires c in s.clients && forall d | d != c :: d in starting <==> d in s.starting
    ensures Moves(s, System(s.server, s.clients[c := client], s.flights[c := Ask(s.server, client.localTree.treeHash)], starting), c)
  {
    MovesBy(s, c, s.server, client, s.flights[c := Ask(s.server, client.localTree.treeHash)], starting);
  }

  lemma AnswerMoves(s: System, c: nat, client: Client)
    requires c in s.clients
    ensures Moves(s, System(s.server, s.clients[c := client], s.flights - {c}, s.starting), c)
  {
    MovesBy(s, c, s.server, client, s.flights - {c}, s.starting);
  }

  lemma StepMoves(h: Hasher, s: System, a: Action)
    requires Enabled(h, s, a)
    ensures Moves(s, Next(h, s, a), a.c)
  {
    match a
    case Edit(c, share) => MovesBy(s, c, s.server, s.clients[c].(share := share), s.flights, s.starting);
    case WatchPush(c) => PushMoves(h, s, c, s.starting);
    case AskDiff(c) =>
      assert s.clients[c := s.clients[c]] == s.clients;
      AskMoves(h, s, c, s.clients[c], s.starting);
    case LandDiff(c, got, v) => AnswerMoves(s, c, PollLand(h, s.clients[c], s.flights[c], got, v));
    case StartAsk(c) => AskMoves(h, s, c, Rebuilt(h, s.clients[c]), s.starting + {c});
    case StartPull(c, got, v) => AnswerMoves(s, c, StartLand(h, s.clients[c], s.flights[c], got, v));
    case StartPush(c) => PushMoves(h, s, c, s.starting - {c});
  }

  lemma {:induction false} RunKeepsClients(h: Hasher, s: System, run: seq<Action>)
    requires RunOk(h, s, run)
    ensures Run(h, s, run).clients.Keys == s.clients.Keys
    decreases |run|
  {
    if run != [] {
      StepMoves(h, s, run[0]);
      RunKeepsClients(h, Next(h, s, run[0]), run[1..]);
    }
  }

  lemma SettlingMoves(h: Hasher, s: System, t: System, c: nat, view: map<Bytes, Bytes>)
    requires Settling(h, s, view) && Moves(s, t, c)
    requires Inv(h, t) && t.server.latest.Some? && LatestView(t) == view && ClientSettling(h, t, c, view)
    ensures Settling(h, t, view)
  {
    forall d | d in t.clients ensures ClientSettling(h, t, d, view) {
      if d != c { assert ClientSettling(h, s, d, view); }
    }
  }

  lemma HoldMoves(h: Hasher, s: System, t: System, c: nat, view: map<Bytes, Bytes>, done: set<nat>)
    requires Hold(h, s, view, done) && Moves(s, t, c)
    requires View(h, t.clients[c].share) == view || (c in s.clients && t.clients[c].share == s.clients[c].share)
    ensures Hold(h, t, view, if View(h, t.clients[c].share) == view then done + {c} else done)
  {
  }

  lemma PollReachesView(h: Hasher, c: Client, r: Reply, objects: map<Bytes, Bytes>, got: map<Bytes, Bytes>, v: Visit,
                        view: map<Bytes, Bytes>)
    requires h.Valid() && v.Valid() && ReplyOk(h, r, objects) && FreshFor(c.share, r, v)
    requires Addressed(h, got) && AllObtained(r, got) && AskedMatches(h, c.share, r) && !OverwritesNested(h, c.share, r)
    requires r.asked.Some? && r.latest.Some? && TreeView(r.latest.value.entries) == view
    ensures View(h, PollLand(h, c, r, got, v).share) == view
    ensures View(h, StartLand(h, c, r, got, v).share) == view
  {
    LandConverges(h, c, r, objects, got, v);
    PollSkipsNothing(h, c, r, got, v);
  }

  lemma PollStaysInStep(h: Hasher, c: Client, r: Reply, got: map<Bytes, Bytes>, v: Visit)
    requires v.Valid()
    ensures var d := PollLand(h, c, r, got, v); c.localTree == TreeOf(h, c.share) ==> d.localTree == TreeOf(h, d.share)
    ensures var d := StartLand(h, c, r, got, v); d.localTree == TreeOf(h, d.share)
  {
  }

  lemma LandSettlesClient(h: Hasher, s: System, a: Action, view: map<Bytes, Bytes>)
    requires h.Valid() && Settling(h, s, view) && Lands(a) && Enabled(h, s, a) && Quiet(h, s, a, view)
    ensures var t := Next(h, s, a);
            View(h, t.clients[a.c].share) == view && ClientSettling(h, t, a.c, view)
  {
    var t, c := Next(h, s, a), a.c;
    assert ClientSettling(h, s, c, view);
    PollReachesView(h, s.clients[c], s.flights[c], s.server.objects, a.got, a.v, view);
    PollStaysInStep(h, s.clients[c], s.flights[c], a.got, a.v);
    SettledIsArchived(h, s, t.clients[c].share);
  }

  lemma PushPublishes(h: Hasher, s: System, a: Action)
    requires h.Valid() && Inv(h, s) && (a.WatchPush? || a.StartPush?) && Enabled(h, s, a)
    ensures var t := Next(h, s, a);
            && t.server.latest.Some? && LatestView(t) == View(h, s.clients[a.c].share)
            && t.clients[a.c].share == s.clients[a.c].share && InStep(h, t, a.c) && Archived(t, a.c)
            && a.c !in t.flights
  {
    PushKeepsServer(h, s.server, s.clients[a.c]);
  }

  lemma AskSettlesClient(h: Hasher, s: System, a: Action, view: map<Bytes, Bytes>)
    requires h.Valid() && Settling(h, s, view) && (a.AskDiff? || a.StartAsk?) && Enabled(h, s, a)
    ensures var t := Next(h, s, a);
            t.clients[a.c] == s.clients[a.c] && ClientSettling(h, t, a.c, view)
  {
    assert ClientSettling(h, s, a.c, view);
    AskMatches(h, s, a.c);
    assert Rebuilt(h, s.clients[a.c]) == s.clients[a.c];
  }

  /** The step's own client stays settled, and the latest view stays. */
  lemma QuietClient(h: Hasher, s: System, a: Action, view: map<Bytes, Bytes>)
    requires h.Valid() && Settling(h, s, view) && Enabled(h, s, a) && Quiet(h, s, a, view)
    ensures var t := Next(h, s, a);
            && t.server.latest.Some? && LatestView(t) == view && ClientSettling(h, t, a.c, view)
            && (View(h, t.clients[a.c].share) == view || t.clients[a.c].share == s.clients[a.c].share)
            && (Lands(a) ==> View(h, t.clients[a.c].share) == view)
  {
    if Lands(a) {
      LandSettlesClient(h, s, a, view);
    } else if a.AskDiff? || a.StartAsk? {
      AskSettlesClient(h, s, a, view);
    } else {
      PushPublishes(h, s, a);
    }
  }

  lemma QuietStep(h: Hasher, s: System, a: Action, view: map<Bytes, Bytes>, done: set<nat>)
    requires h.Valid() && Settling(h, s, view) && Hold(h, s, view, done)
    requires Enabled(h, s, a) && Quiet(h, s, a, view)
    ensures var t := Next(h, s, a);
            Settling(h, t, view) && Hold(h, t, view, if Lands(a) then done + {a.c} else done)
  {
    var t := Next(h, s, a);
    QuietClient(h, s, a, view);
    StepKeepsInv(h, s, a);
    StepMoves(h, s, a);
    SettlingMoves(h, s, t, a.c, view);
    HoldMoves(h, s, t, a.c, view, done);
  }

  lemma {:induction false} QuietRunSettles(h: Hasher, s: System, run: seq<Action>, view: map<Bytes, Bytes>, done: set<nat>)
    requires h.Valid() && Settling(h, s, view) && Hold(h, s, view, done)
    requires RunOk(h, s, run) && QuietRun(h, s, run, view)
    ensures Settling(h, Run(h, s, run), view)
    ensures Hold(h, Run(h, s, run), view, done) && Hold(h, Run(h, s, run), view, Landed(run))
    decreases |run|
  {
    if run != [] {
      var a, t := run[0], Next(h, s, run[0]);
      QuietStep(h, s, a, view, done);
      QuietRunSettles(h, t, run[1..], view, if Lands(a) then done + {a.c} else done);
    }
  }

  /** A diff between a tree and itself is empty. */
  lemma {:induction false} SameTreeNoChange(was: map<Bytes, Entry>, es: seq<Entry>)
    requires DistinctPaths(es) && forall e | e in es :: e.path in was && was[e.path] == e
    ensures Changed(was, es) == []
  {
    if es != [] {
      var n := |es| - 1;
      assert forall e | e in es[..n] :: e in es;
      SameTreeNoChange(was, es[..n]);
      assert es[n] in es;
    }
  }

  lemma SettledDiffEmpty(h: Hasher, s: System, c: nat)
    requires h.Valid() && Inv(h, s) && InStep(h, s, c) && s.server.latest.Some?
    requires View(h, s.clients[c].share) == LatestView(s)
    ensures var r := Ask(s.server, s.clients[c].localTree.treeHash);
            r.ChangedPaths() == [] && r.RemovedPaths() == {}
  {
    SettledIsArchived(h, s, s.clients[c].share);
    var es := s.server.latest.value.entries;
    forall e | e in es ensures PathMap(es)[e.path] == e { PathMapLooksUp(es, e); }
    SameTreeNoChange(PathMap(es), es);
    forall p | p in PathMap(es) ensures p in set e | e in es :: e.path {
      assert PathMap(es)[p] in es;
    }
  }

  /**
   * Once edits stop: if every client is in step with an archived tree, then after any quiet run in
   * which every client completes a pull, all shares bind the same paths to the same content as the
   * latest tree, and the next diff is empty for each of them.
   */
  lemma EditsStopThenAllEqual(h: Hasher, s: System, run: seq<Action>)
    requires h.Valid() && Inv(h, s) && s.server.latest.Some? && s.flights == map[]
    requires forall c | c in s.clients :: InStep(h, s, c) && Archived(s, c)
    requires RunOk(h, s, run) && QuietRun(h, s, run, LatestView(s))
    requires Landed(run) == s.clients.Keys
    ensures var t := Run(h, s, run);
            forall c | c in t.clients ::
              && View(h, t.clients[c].share) == LatestView(t) == LatestView(s)
              && var r := Ask(t.server, t.clients[c].localTree.treeHash);
                 r.ChangedPaths() == [] && r.RemovedPaths() == {}
  {
    QuietRunSettles(h, s, run, LatestView(s), {});
    RunKeepsClients(h, s, run);
    var t := Run(h, s, run);
    forall c | c in t.clients
      ensures View(h, t.clients[c].share) == LatestView(t)
      ensures var r := Ask(t.server, t.clients[c].localTree.treeHash);
              r.ChangedPaths() == [] && r.RemovedPaths() == {}
    {
      assert c in Landed(run);
      assert ClientSettling(h, t, c, LatestView(s));
      SettledDiffEmpty(h, t, c);
    }
  }

  // ---- flat trees ----

  ghost predicate TopLevel(view: map<Bytes, Bytes>) { forall p | p in view :: !Nested(p) }

  /** Like a quiet step, but nothing is said about nested files. */
  ghost predicate Calm(h: Hasher, s: System, a: Action, view: map<Bytes, Bytes>)
    requires Enabled(h, s, a)
  {
    if Lands(a) then AllObtained(s.flights[a.c], a.got) else Quiet(h, s, a, view)
  }

  ghost predicate CalmRun(h: Hasher, s: System, run: seq<Action>, view: map<Bytes, Bytes>)
    requires RunOk(h, s, run)
    decreases |run|
  {
    run == [] || (Calm(h, s, run[0], view) && CalmRun(h, Next(h, s, run[0]), run[1..], view))
  }

  lemma FlatNeverNested(h: Hasher, share: Share, r: Reply, objects: map<Bytes, Bytes>, view: map<Bytes, Bytes>)
    requires ReplyOk(h, r, objects) && r.latest.Some? && TreeView(r.latest.value.entries) == view && TopLevel(view)
    ensures !OverwritesNested(h, share, r)
  {
    ChangedInLatest(h, r, objects);
    assert forall p | p in r.ChangedPaths() :: p in view;
  }

  lemma FlatStepIsQuiet(h: Hasher, s: System, a: Action, view: map<Bytes, Bytes>)
    requires Settling(h, s, view) && TopLevel(view) && Enabled(h, s, a) && Calm(h, s, a, view)
    ensures Quiet(h, s, a, view)
  {
    assert ClientSettling(h, s, a.c, view);
    if Lands(a) { FlatNeverNested(h, s.clients[a.c].share, s.flights[a.c], s.server.objects, view); }
  }

  lemma NobodyHolds(h: Hasher, s: System, view: map<Bytes, Bytes>)
    ensures Hold(h, s, view, {})
  {
  }

  /** While the latest tree has no directories, calm runs are quiet. */
  lemma {:induction false} FlatRunsAreQuiet(h: Hasher, s: System, run: seq<Action>, view: map<Bytes, Bytes>)
    requires h.Valid() && Settling(h, s, view) && TopLevel(view) && RunOk(h, s, run) && CalmRun(h, s, run, view)
    ensures QuietRun(h, s, run, view)
    decreases |run|
  {
    if run != [] {
      FlatStepIsQuiet(h, s, run[0], view);
      NobodyHolds(h, s, view);
      QuietStep(h, s, run[0], view, {});
      FlatRunsAreQuiet(h, Next(h, s, run[0]), run[1..], view);
    }
  }

  /** So on flat trees the outcome needs nothing but calm. */
  lemma FlatEditsStop(h: Hasher, s: System, run: seq<Action>)
    requires h.Valid() && Inv(h, s) && s.server.latest.Some? && s.flights == map[] && TopLevel(LatestView(s))
    requires forall c | c in s.clients :: InStep(h, s, c) && Archived(s, c)
    requires RunOk(h, s, run) && CalmRun(h, s, run, LatestView(s))
    requires Landed(run) == s.clients.Keys
    ensures var t := Run(h, s, run);
            forall c | c in t.clients :: View(h, t.clients[c].share) == LatestView(t) == LatestView(s)
  {
    FlatRunsAreQuiet(h, s, run, LatestView(s));
    EditsStopThenAllEqual(h, s, run);
  }

  // ---- startups ----

  /** Startup up to its push: ask, let others act, pull, let others act. */
  datatype Half = Half(others: seq<Action>, got: map<Bytes, Bytes>, v: Visit, more: seq<Action>)

  ghost predicate HalfOk(h: Hasher, s: System, c: nat, w: Half) {
    && Enabled(h, s, StartAsk(c)) && RunOk(h, Next(h, s, StartAsk(c)), w.others) && (forall a | a in w.others :: a.c != c)
    && var s2 := Run(h, Next(h, s, StartAsk(c)), w.others);
    && Enabled(h, s2, StartPull(c, w.got, w.v)) && RunOk(h, Next(h, s2, StartPull(c, w.got, w.v)), w.more)
    && (forall a | a in w.more :: a.c != c)
  }

  ghost function AfterPull(h: Hasher, s: System, c: nat, w: Half): System
    requires HalfOk(h, s, c, w)
  {
    Next(h, Run(h, Next(h, s, StartAsk(c)), w.others), StartPull(c, w.got, w.v))
  }

  ghost function BeforePush(h: Hasher, s: System, c: nat, w: Half): System
    requires HalfOk(h, s, c, w)
  {
    Run(h, AfterPull(h, s, c, w), w.more)
  }

  ghost function FirstReply(h: Hasher, s: System, c: nat): Reply
    requires c in s.clients
  {
    Ask(s.server, TreeOf(h, s.clients[c].share).treeHash)
  }

  lemma FirstReplyFits(h: Hasher, s: System, c: nat)
    requires h.Valid() && Inv(h, s) && c in s.clients
    ensures var r := FirstReply(h, s, c); ReplyOk(h, r, s.server.objects) && AskedMatches(h, s.clients[c].share, r)
  {
    AskReplyOk(h, s.server, TreeOf(h, s.clients[c].share).treeHash);
    var r := FirstReply(h, s, c);
    if r.asked.Some? { TreeMatches(h, s.clients[c].share, r.asked.value, s.server.objects); }
  }

  /** When the pull happens, the client is still as it was when it asked. */
  lemma PullFindsAsked(h: Hasher, s: System, c: nat, w: Half)
    requires HalfOk(h, s, c, w)
    ensures var s2 := Run(h, Next(h, s, StartAsk(c)), w.others);
            && c in s2.clients && s2.clients[c] == Rebuilt(h, s.clients[c])
            && c in s2.flights && s2.flights[c] == FirstReply(h, s, c)
  {
    OthersLeaveAlone(h, Next(h, s, StartAsk(c)), w.others, c);
  }

  lemma HalfKeepsInv(h: Hasher, s: System, c: nat, w: Half)
    requires h.Valid() && Inv(h, s) && HalfOk(h, s, c, w)
    ensures Inv(h, BeforePush(h, s, c, w))
    ensures c in BeforePush(h, s, c, w).clients && BeforePush(h, s, c, w).clients[c] == AfterPull(h, s, c, w).clients[c]
  {
    StepKeepsInv(h, s, StartAsk(c));
    RunKeepsInv(h, Next(h, s, StartAsk(c)), w.others);
    StepKeepsInv(h, Run(h, Next(h, s, StartAsk(c)), w.others), StartPull(c, w.got, w.v));
    RunKeepsInv(h, AfterPull(h, s, c, w), w.more);
    OthersLeaveAlone(h, AfterPull(h, s, c, w), w.more, c);
  }

  lemma PullCovers(h: Hasher, c: Client, r: Reply, objects: map<Bytes, Bytes>, got: map<Bytes, Bytes>, v: Visit)
    requires h.Valid() && v.Valid() && ReplyOk(h, r, objects) && FreshFor(c.share, r, v)
    requires Addressed(h, got) && AllObtained(r, got) && AskedMatches(h, c.share, r)
    ensures SubView(TreeView(EntriesOf(r.latest)), View(h, StartLand(h, c, r, got, v).share))
  {
    if r.latest.Some? { LandCovers(h, c, r, objects, got, v); }
  }

  /** The merged share has everything that was published when the client asked. */
  lemma MergedCovers(h: Hasher, s: System, c: nat, w: Half)
    requires h.Valid() && Inv(h, s) && HalfOk(h, s, c, w) && AllObtained(FirstReply(h, s, c), w.got)
    ensures var t := BeforePush(h, s, c, w);
            c in t.clients && SubView(LatestView(s), View(h, t.clients[c].share))
  {
    HalfKeepsInv(h, s, c, w);
    PullFindsAsked(h, s, c, w);
    FirstReplyFits(h, s, c);
    PullCovers(h, Rebuilt(h, s.clients[c]), FirstReply(h, s, c), s.server.objects, w.got, w.v);
  }

  /**
   * A startup's push, however others act between its round trips, keeps what is published exactly when
   * nothing published at its ask has been rebound since, and everything published since is in the merged
   * share already.
   */
  lemma StartPushKeepsIff(h: Hasher, s: System, c: nat, w: Half)
    requires h.Valid() && Inv(h, s) && HalfOk(h, s, c, w) && AllObtained(FirstReply(h, s, c), w.got)
    requires Enabled(h, BeforePush(h, s, c, w), StartPush(c))
    ensures var t := BeforePush(h, s, c, w);
            var merged, asked, now := View(h, t.clients[c].share), LatestView(s), LatestView(t);
            SubView(now, LatestView(Next(h, t, StartPush(c)))) <==>
              forall p | p in now :: if p in asked then now[p] == asked[p] else p in merged && merged[p] == now[p]
  {
    MergedCovers(h, s, c, w);
    HalfKeepsInv(h, s, c, w);
    var t := BeforePush(h, s, c, w);
    PushKeepsIff(h, t, t.clients[c]);
    CoverIff(LatestView(s), LatestView(t), View(h, t.clients[c].share));
  }

  lemma CoverIff(asked: map<Bytes, Bytes>, now: map<Bytes, Bytes>, merged: map<Bytes, Bytes>)
    requires SubView(asked, merged)
    ensures SubView(now, merged) <==>
              forall p | p in now :: if p in asked then now[p] == asked[p] else p in merged && merged[p] == now[p]
  {
  }

  /** A startup during which nothing new is published only adds to the latest tree's bindings. */
  lemma StartUpGrows(h: Hasher, s: System, c: nat, w: Half)
    requires h.Valid() && Inv(h, s) && HalfOk(h, s, c, w) && AllObtained(FirstReply(h, s, c), w.got)
    requires Enabled(h, BeforePush(h, s, c, w), StartPush(c))
    requires SubView(LatestView(BeforePush(h, s, c, w)), LatestView(s))
    ensures SubView(LatestView(s), LatestView(Next(h, BeforePush(h, s, c, w), StartPush(c))))
  {
    MergedCovers(h, s, c, w);
    HalfKeepsInv(h, s, c, w);
    PushPublishes(h, BeforePush(h, s, c, w), StartPush(c));
  }

  /** The startups under way that nothing has overtaken: no push, no edit and no missing blob since the ask. */
  ghost function CurrentAfter(s: System, a: Action, current: set<nat>): set<nat> {
    match a
    case StartAsk(c) => current + {c}
    case StartPull(c, got, _) => if c in s.flights && AllObtained(s.flights[c], got) then current else current - {c}
    case StartPush(_) => {}
    case WatchPush(_) => {}
    case Edit(c, _) => current - {c}
    case _ => current
  }

  /** Every push is that of a startup which nothing has overtaken. */
  ghost predicate Orderly(h: Hasher, s: System, run: seq<Action>, current: set<nat>)
    requires RunOk(h, s, run)
    decreases |run|
  {
    run == [] ||
    var a := run[0];
    && !a.WatchPush? && (a.StartPush? ==> a.c in current)
    && Orderly(h, Next(h, s, a), run[1..], CurrentAfter(s, a, current))
  }

  /** What holds of a startup that nothing has overtaken. */
  ghost predicate UpToDate(h: Hasher, s: System, c: nat) {
    && c in s.clients && c in s.starting
    && if c in s.flights then
         AskedMatches(h, s.clients[c].share, s.flights[c]) && TreeView(EntriesOf(s.flights[c].latest)) == LatestView(s)
       else SubView(LatestView(s), View(h, s.clients[c].share))
  }

  lemma UpToDateStays(h: Hasher, s: System, t: System, c: nat)
    requires UpToDate(h, s, c) && SameFor(s, t, c) && LatestView(t) == LatestView(s)
    ensures UpToDate(h, t, c)
  {
  }

  /** Steps that publish nothing leave the latest tree alone. */
  lemma LatestStays(h: Hasher, s: System, a: Action)
    requires Enabled(h, s, a) && !a.WatchPush? && !a.StartPush?
    ensures Next(h, s, a).server == s.server
  {
  }

  lemma OthersStayUpToDate(h: Hasher, s: System, a: Action, c: nat)
    requires Enabled(h, s, a) && !a.WatchPush? && !a.StartPush? && c != a.c && UpToDate(h, s, c)
    ensures UpToDate(h, Next(h, s, a), c)
  {
    LatestStays(h, s, a);
    StepMoves(h, s, a);
    UpToDateStays(h, s, Next(h, s, a), c);
  }

  lemma CurrentStaysUpToDate(h: Hasher, s: System, a: Action, current: set<nat>, c: nat)
    requires h.Valid() && Inv(h, s) && Enabled(h, s, a) && !a.WatchPush? && !a.StartPush?
    requires c in CurrentAfter(s, a, current) && forall d | d in current :: UpToDate(h, s, d)
    ensures UpToDate(h, Next(h, s, a), c)
  {
    assert c in current || (a.StartAsk? && c == a.c);
    if c != a.c { OthersStayUpToDate(h, s, a, c); } else { OwnStepStays(h, s, a); }
  }

  lemma OrderlyStep(h: Hasher, s: System, a: Action, current: set<nat>)
    requires h.Valid() && Inv(h, s) && Enabled(h, s, a) && !a.WatchPush? && (a.StartPush? ==> a.c in current)
    requires forall c | c in current :: UpToDate(h, s, c)
    ensures var t := Next(h, s, a);
            SubView(LatestView(s), LatestView(t)) && forall c | c in CurrentAfter(s, a, current) :: UpToDate(h, t, c)
  {
    if a.StartPush? {
      assert UpToDate(h, s, a.c);
      PushPublishes(h, s, a);
    } else {
      LatestStays(h, s, a);
      forall c | c in CurrentAfter(s, a, current) ensures UpToDate(h, Next(h, s, a), c) {
        CurrentStaysUpToDate(h, s, a, current, c);
      }
    }
  }

  lemma OwnStepStays(h: Hasher, s: System, a: Action)
    requires h.Valid() && Inv(h, s) && Enabled(h, s, a) && !a.WatchPush? && !a.StartPush? && !a.Edit?
    requires a.StartAsk? || UpToDate(h, s, a.c)
    requires a.StartPull? ==> AllObtained(s.flights[a.c], a.got)
    ensures UpToDate(h, Next(h, s, a), a.c)
  {
    if a.StartAsk? {
      FirstReplyFits(h, s, a.c);
    } else if a.StartPull? {
      PullCovers(h, s.clients[a.c], s.flights[a.c], s.server.objects, a.got, a.v);
    }
  }

  lemma {:induction false} OrderlyRunGrows(h: Hasher, s: System, run: seq<Action>, current: set<nat>)
    requires h.Valid() && Inv(h, s) && RunOk(h, s, run) && Orderly(h, s, run, current)
    requires forall c | c in current :: UpToDate(h, s, c)
    ensures SubView(LatestView(s), LatestView(Run(h, s, run)))
    decreases |run|
  {
    if run != [] {
      var a, t := run[0], Next(h, s, run[0]);
      StepKeepsInv(h, s, a);
      OrderlyStep(h, s, a, current);
      OrderlyRunGrows(h, t, run[1..], CurrentAfter(s, a, current));
    }
  }

  /**
   * Startups never clobber: over every run without watch pushes in which no startup's push is overtaken,
   * whatever shares clients bring and however asks, pulls, polls and edits interleave, no path of the
   * latest tree is dropped or rebound.
   */
  lemma StartupsNeverClobber(h: Hasher, s: System, run: seq<Action>)
    requires h.Valid() && Inv(h, s) && RunOk(h, s, run) && Orderly(h, s, run, {})
    ensures SubView(LatestView(s), LatestView(Run(h, s, run)))
  {
    OrderlyRunGrows(h, s, run, {});
  }

  /**
   * A push, from the watcher or at startup, keeps what is published exactly when the pusher's share
   * already has it.
   */
  lemma PushKeepsIff(h: Hasher, s: System, c: Client)
    requires h.Valid() && Inv(h, s) && ClientOk(h, c)
    ensures SubView(LatestView(s), TreeView(EntriesOf(Push(h, s.server, c).server.latest)))
            <==> SubView(LatestView(s), View(h, c.share))
  {
    PushKeepsServer(h, s.server, c);
  }

  // ---- no local byte is lost ----

  /** Every file is as the tree asked about says, so none is lost. */
  lemma AskedLosesNothing(h: Hasher, c: Client, r: Reply, objects: map<Bytes, Bytes>, got: map<Bytes, Bytes>, v: Visit, q: Bytes)
    requires h.Valid() && v.Valid() && ReplyOk(h, r, objects) && FreshFor(c.share, r, v) && r.latest.Some?
    requires Addressed(h, objects) && Addressed(h, got) && ShareOk(h, c.share) && AskedMatches(h, c.share, r) && q in c.share
    ensures Survives(h, c, r, objects, got, v, q)
  {
    assert Visible(q) ==> q in View(h, c.share);
    UneditedSurvives(h, c, r, objects, got, v, q);
  }

  /** In every reachable state, a pull by a client in step loses none of its files. */
  lemma PollLosesNothing(h: Hasher, s: System, c: nat, others: seq<Action>, got: map<Bytes, Bytes>, v: Visit, q: Bytes)
    requires h.Valid() && Inv(h, s) && InStep(h, s, c) && Idle(s, c)
    requires var s1 := Next(h, s, AskDiff(c));
             && RunOk(h, s1, others) && (forall a | a in others :: a.c != c)
             && Enabled(h, Run(h, s1, others), LandDiff(c, got, v))
    requires q in s.clients[c].share
    ensures var s2 := Run(h, Next(h, s, AskDiff(c)), others);
            var after, bytes := Next(h, s2, LandDiff(c, got, v)).clients[c].share, s.clients[c].share[q].bytes;
            || (q in after && after[q].bytes == bytes)
            || (CopyName(v, q) in after && after[CopyName(v, q)].bytes == bytes)
            || (h.sha(bytes) in s2.server.objects && s2.server.objects[h.sha(bytes)] == bytes)
  {
    var s1 := Next(h, s, AskDiff(c));
    var client := s.clients[c];
    var r := Ask(s.server, client.localTree.treeHash);
    StepKeepsInv(h, s, AskDiff(c));
    RunKeepsInv(h, s1, others);
    OthersLeaveAlone(h, s1, others, c);
    PollSkipsNothing(h, client, r, got, v);
    ReplyFits(h, s, c);
    if r.latest.Some? { AskedLosesNothing(h, client, r, s.server.objects, got, v, q); }
  }

  /** A reply to a client in step names its files. */
  lemma ReplyFits(h: Hasher, s: System, c: nat)
    requires h.Valid() && Inv(h, s) && InStep(h, s, c)
    ensures var r := Ask(s.server, s.clients[c].localTree.treeHash);
            ReplyOk(h, r, s.server.objects) && AskedMatches(h, s.clients[c].share, r)
  {
    AskReplyOk(h, s.server, s.clients[c].localTree.treeHash);
    if Archived(s, c) { AskMatches(h, s, c); }
  }

  /** Nor does the pull at startup. */
  lemma StartUpLosesNothing(h: Hasher, s: System, c: nat, w: Half, q: Bytes)
    requires h.Valid() && Inv(h, s) && HalfOk(h, s, c, w) && q in s.clients[c].share
    ensures var s2 := Run(h, Next(h, s, StartAsk(c)), w.others);
            var after, bytes := AfterPull(h, s, c, w).clients[c].share, s.clients[c].share[q].bytes;
            || (q in after && after[q].bytes == bytes)
            || (CopyName(w.v, q) in after && after[CopyName(w.v, q)].bytes == bytes)
            || (h.sha(bytes) in s2.server.objects && s2.server.objects[h.sha(bytes)] == bytes)
  {
    var client, r := Rebuilt(h, s.clients[c]), FirstReply(h, s, c);
    StepKeepsInv(h, s, StartAsk(c));
    RunKeepsInv(h, Next(h, s, StartAsk(c)), w.others);
    PullFindsAsked(h, s, c, w);
    FirstReplyFits(h, s, c);
    if r.latest.Some? { AskedLosesNothing(h, client, r, s.server.objects, w.got, w.v, q); }
  }
}
