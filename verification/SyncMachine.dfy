/** The server's file store and a client's share as objects updated in place. */
module SyncMachine {
  import opened Common
  import opened ByteStrings
  import opened TreeHash
  import opened ConflictNames
  import opened SyncModel
  import opened TreeFacts

  /** A set of entries with distinct paths has one sorted listing, modification times included. */
  lemma SameSetSameListing(xs: seq<Entry>, ys: seq<Entry>)
    requires Sorted(xs) && Sorted(ys) && DistinctPaths(xs) && DistinctPaths(ys)
    requires forall e :: e in xs <==> e in ys
    ensures xs == ys
  {
    SortedListingUnique(xs, ys);
    assert |EraseAll(xs)| == |EraseAll(ys)|;
    forall i | 0 <= i < |xs| ensures xs[i] == ys[i] {
      assert EraseAll(xs)[i].path == xs[i].path && EraseAll(ys)[i].path == ys[i].path;
      assert xs[i] in ys;
    }
  }

  lemma PathMapStep(es: seq<Entry>, i: nat)
    requires i < |es|
    ensures PathMap(es[..i + 1]) == PathMap(es[..i])[es[i].path := es[i]]
  {
    assert es[..i + 1][..i] == es[..i];
  }

  class ServerFs {
    const h: Hasher
    var trees: map<Bytes, FileTree>
    var latest: Option<FileTree>
    var objects: map<Bytes, Bytes>

    ghost function State(): Server
      reads this
    {
      Server(trees, latest, objects)
    }

    constructor (h: Hasher)
      ensures this.h == h && State() == Server(map[], None, map[])
    {
      this.h := h;
      trees, latest, objects := map[], None, map[];
    }

    method PutObject(blobId: Bytes, bytes: Bytes)
      modifies this
      ensures State() == old(State()).(objects := PutIfAbsent(old(objects), blobId, bytes))
    {
      if blobId in objects { return; }
      objects := objects[blobId := bytes];
    }

    method GetObject(blobId: Bytes) returns (r: Option<Bytes>)
      ensures r == if blobId in objects then Some(objects[blobId]) else None
    {
      r := if blobId in objects then Some(objects[blobId]) else None;
    }

    method SaveTree(t: FileTree)
      modifies this
      ensures State() == SyncModel.SaveTree(old(State()), t)
    {
      trees := trees[t.treeHash := t];
      latest := Some(t);
    }

    /** The FILE_TREE arm of a session: recompute the hash, then save. */
    method OnFileTree(t: FileTree)
      modifies this
      ensures State() == ReceiveTree(h, old(State()), t)
      ensures latest == Some(FileTree(h.sha(HashInput(t.entries)), t.entries))
    {
      var mine := t.(treeHash := TreeHashOf(h, t.entries));
      SaveTree(mine);
    }

    /** Calls of other sessions, in the order they arrive. */
    method Serve(calls: seq<ServerCall>)
      modifies this
      ensures State() == Served(h, old(State()), calls)
    {
      for i := 0 to |calls|
        invariant State() == Served(h, old(State()), calls[..i])
      {
        assert calls[..i + 1][..i] == calls[..i];
        match calls[i]
        case Store(id, bytes) => { PutObject(id, bytes); }
        case Publish(tree) => { OnFileTree(tree); }
      }
      assert calls[..|calls|] == calls;
    }

    /** The old entries by path. */
    static method IndexOld(asked: Option<FileTree>) returns (oldMap: map<Bytes, Entry>)
      ensures oldMap == PathMap(EntriesOf(asked))
    {
      oldMap := map[];
      var es := EntriesOf(asked);
      for i := 0 to |es|
        invariant oldMap == PathMap(es[..i])
      {
        PathMapStep(es, i);
        oldMap := oldMap[es[i].path := es[i]];
      }
      assert es[..|es|] == es;
    }

    /** Paths that are new or differ; what is left of the old map is what the latest tree dropped. */
    static method Compare(was: map<Bytes, Entry>, es: seq<Entry>) returns (changed: seq<Bytes>, oldMap: map<Bytes, Entry>)
      ensures changed == Changed(was, es) && oldMap.Keys == Removed(was, es)
    {
      oldMap := was;
      changed := [];
      for i := 0 to |es|
        invariant changed == Changed(was, es[..i]) && oldMap == was - PathsOf(es[..i])
      {
        var e := es[i];
        CompareStep(was, es, i);
        if e.path !in oldMap {
          changed := changed + [e.path];
        } else if oldMap[e.path].blobId != e.blobId || oldMap[e.path].mtimeNs != e.mtimeNs {
          changed := changed + [e.path];
        }
        oldMap := oldMap - {e.path};
      }
      assert es[..|es|] == es;
    }

    /** The keys of the map, in the arbitrary order its iterator gives them. */
    static method Leftover(keys: set<Bytes>) returns (removed: seq<Bytes>)
      ensures (set p | p in removed) == keys && Distinct(removed)
    {
      removed := [];
      var left := keys;
      while left != {}
        invariant left <= keys
        invariant forall p :: p in removed <==> p in keys && p !in left
        invariant Distinct(removed)
        decreases |left|
      {
        var p :| p in left;
        AppendDistinct(removed, p);
        removed := removed + [p];
        left := left - {p};
      }
    }

    /** Differences between two trees, by path. */
    static method Diff(asked: Option<FileTree>, latest: Option<FileTree>) returns (changed: seq<Bytes>, removed: seq<Bytes>)
      ensures changed == Reply(asked, latest).ChangedPaths()
      ensures (set p | p in removed) == Reply(asked, latest).RemovedPaths() && Distinct(removed)
    {
      var oldMap := IndexOld(asked);
      changed, oldMap := Compare(oldMap, EntriesOf(latest));
      removed := Leftover(oldMap.Keys);
    }

    /** The FILE_DIFF arm of a session. */
    method OnFileDiff(hash: Bytes) returns (changed: seq<Bytes>, removed: seq<Bytes>, tree: Option<FileTree>)
      ensures var r := Ask(State(), hash);
              changed == r.ChangedPaths() && (set p | p in removed) == r.RemovedPaths() && tree == r.latest
    {
      var asked := if hash in trees then Some(trees[hash]) else None;
      changed, removed := Diff(asked, latest);
      tree := latest;
    }
  }

  function PathsOf(es: seq<Entry>): set<Bytes> { set e | e in es :: e.path }

  /** The paths seen so far, and whether the next one is among them. */
  lemma SeenStep(es: seq<Entry>, i: nat)
    requires i < |es|
    ensures PathsOf(es[..i + 1]) == PathsOf(es[..i]) + {es[i].path}
    ensures es[i].path in PathsOf(es[..i]) <==> exists j | 0 <= j < i :: es[j].path == es[i].path
  {
    assert es[..i + 1] == es[..i] + [es[i]];
    forall j | 0 <= j < i ensures es[j] in es[..i] { assert es[..i][j] == es[j]; }
  }

  /** What one pass of the loop in `Compare` must do. */
  lemma CompareStep(was: map<Bytes, Entry>, es: seq<Entry>, i: nat)
    requires i < |es|
    ensures var e, first, left := es[i], Changed(was, es[..i]), was - PathsOf(es[..i]);
            && was - PathsOf(es[..i + 1]) == left - {e.path}
            && Changed(was, es[..i + 1]) ==
                 if e.path !in left || left[e.path].blobId != e.blobId || left[e.path].mtimeNs != e.mtimeNs
                 then first + [e.path] else first
  {
    DiffStep(was, es, i);
    SeenStep(es, i);
  }

  lemma AppendDistinct(ps: seq<Bytes>, p: Bytes)
    requires Distinct(ps) && p !in ps
    ensures Distinct(ps + [p])
  {
    assert forall i | 0 <= i < |ps| :: ps[i] in ps && (ps + [p])[i] == ps[i];
  }

  /** One more entry of the latest tree, compared as the loop of `Diff` compares it. */
  lemma DiffStep(was: map<Bytes, Entry>, es: seq<Entry>, i: nat)
    requires i < |es|
    ensures Changed(was, es[..i + 1]) ==
            if IsChanged(was, es, i) then Changed(was, es[..i]) + [es[i].path] else Changed(was, es[..i])
  {
    var now := es[..i + 1];
    assert now[..i] == es[..i] && now[i] == es[i];
    assert forall j | 0 <= j < i :: now[j] == es[j];
    assert IsChanged(was, now, i) <==> IsChanged(was, es, i);
  }

  /** A call of another session: an object of an upload, or a tree. */
  datatype ServerCall = Store(blobId: Bytes, bytes: Bytes) | Publish(tree: FileTree)

  function Served(h: Hasher, s: Server, calls: seq<ServerCall>): Server {
    if calls == [] then s
    else
      var t := Served(h, s, calls[..|calls| - 1]);
      match calls[|calls| - 1]
      case Store(id, bytes) => t.(objects := PutIfAbsent(t.objects, id, bytes))
      case Publish(tree) => ReceiveTree(h, t, tree)
  }

  /** `yggd` in file mode: the shared directory, the object cache and the remembered tree. */
  class Yggd {
    const h: Hasher
    var share: Share
    var cache: map<Bytes, Bytes>
    var localTree: FileTree

    ghost function State(): Client
      reads this
    {
      Client(share, cache, localTree)
    }

    constructor (h: Hasher, share: Share, cache: map<Bytes, Bytes>)
      ensures this.h == h && this.share == share && this.cache == cache
    {
      this.h, this.share, this.cache := h, share, cache;
      localTree := FileTree([], []);
    }

    /** Walk the directory in whatever order it is listed, then sort and hash. */
    method BuildTree() returns (t: FileTree)
      ensures t == TreeOf(h, share) && Describes(h, t.entries, share)
    {
      var out: seq<Entry> := [];
      var todo := share.Keys;
      while todo != {}
        invariant todo <= share.Keys
        invariant forall e :: e in out <==>
                    e.path in share && e.path !in todo && Visible(e.path) && e == EntryOf(h, e.path, share[e.path])
        invariant DistinctPaths(out)
        decreases |todo|
      {
        var p :| p in todo;
        if Visible(p) {
          out := out + [EntryOf(h, p, share[p])];
        }
        todo := todo - {p};
      }
      var entries := SortByPath(out);
      ListingIsTree(h, share, out);
      t := FileTree(TreeHashOf(h, entries), entries);
      TreeDescribes(h, share);
    }

    method EnsureObjectLocal(blobId: Bytes, bytes: Bytes)
      modifies this
      ensures State() == old(State()).(cache := PutIfAbsent(old(cache), blobId, bytes))
    {
      if blobId !in cache { cache := cache[blobId := bytes]; }
    }

    method MaterializeWithConflict(e: Entry, bytes: Bytes, v: Visit)
      requires v.Valid()
      modifies this
      ensures State() == old(State()).(share := Materialize(h, old(share), e, bytes, v))
    {
      if e.path in share {
        var local := share[e.path].bytes;
        if h.sha(local) != e.blobId {
          var conflict := ConflictName(e.path, v.who, v.stamp(e.path));
          share := share[conflict := File(local, v.now(conflict))];
        }
      }
      share := share[e.path := File(bytes, v.now(e.path))];
    }

    /** From the server first, then from a peer. */
    method PullObject(server: ServerFs, peers: map<Bytes, Bytes>, blobId: Bytes) returns (r: Option<Bytes>)
      ensures r == if blobId in peers + server.objects then Some((peers + server.objects)[blobId]) else None
    {
      r := server.GetObject(blobId);
      if r.None? && blobId in peers { r := Some(peers[blobId]); }
    }

    /** The loop over changed paths that startup and poll share. */
    method PullChanged(server: ServerFs, peers: map<Bytes, Bytes>, changed: seq<Bytes>, remote: FileTree, v: Visit)
      requires v.Valid() && server.h == h
      modifies this
      ensures State() == PullAll(h, old(State()), changed, remote.entries, peers + server.objects, v)
    {
      for i := 0 to |changed|
        invariant State() == PullAll(h, old(State()), changed[..i], remote.entries, peers + server.objects, v)
      {
        assert changed[..i + 1][..i] == changed[..i];
        var e := FindEntry(remote.entries, changed[i]);
        if e.Some? {
          var got := PullObject(server, peers, e.value.blobId);
          if got.Some? {
            MaterializeWithConflict(e.value, got.value, v);
            EnsureObjectLocal(e.value.blobId, got.value);
          }
        }
      }
      assert changed[..|changed|] == changed;
    }

    method RemoveLocal(removed: seq<Bytes>)
      modifies this
      ensures State() == old(State()).(share := RemoveFiles(old(share), set p | p in removed))
    {
      for i := 0 to |removed|
        invariant State() == old(State()).(share := RemoveFiles(old(share), set j | 0 <= j < i :: removed[j]))
      {
        share := share - {removed[i]};
      }
      assert (set p | p in removed) == set j | 0 <= j < |removed| :: removed[j];
    }

    /** One round of the periodic pull; `during` is what other sessions do between the question and the pull. */
    method Poll(server: ServerFs, peers: map<Bytes, Bytes>, v: Visit, during: seq<ServerCall>)
      requires v.Valid() && server.h == h
      modifies this, server
      ensures var at := Served(h, old(server.State()), during);
              && server.State() == at
              && State() == PollLand(h, old(State()), Ask(old(server.State()), old(localTree.treeHash)), peers + at.objects, v)
    {
      ghost var r := Ask(server.State(), localTree.treeHash);
      var changed, removed, tree := server.OnFileDiff(localTree.treeHash);
      assert removed != [] ==> removed[0] in r.RemovedPaths();
      server.Serve(during);
      if changed != [] || removed != [] {
        if tree.Some? {
          PullChanged(server, peers, changed, tree.value, v);
        }
        RemoveLocal(removed);
        localTree := BuildTree();
      }
    }

    /** Upload every object, then send the tree. */
    method SyncPush(server: ServerFs, tree: FileTree)
      requires server.h == h && forall e | e in tree.entries :: e.path in share
      modifies this, server
      ensures var st := PushObjects(tree.entries, old(share), Stores(old(cache), old(server.objects)));
              && State() == old(State()).(cache := st.cache)
              && server.State() == ReceiveTree(h, old(server.State()).(objects := st.objects), tree)
    {
      var es := tree.entries;
      for i := 0 to |es|
        invariant share == old(share) && localTree == old(localTree)
        invariant server.trees == old(server.trees) && server.latest == old(server.latest)
        invariant Stores(cache, server.objects) == PushObjects(es[..i], share, Stores(old(cache), old(server.objects)))
      {
        assert es[..i + 1][..i] == es[..i];
        var e := es[i];
        if e.blobId !in cache {
          EnsureObjectLocal(e.blobId, share[e.path].bytes);
        }
        server.PutObject(e.blobId, cache[e.blobId]);
      }
      assert es[..|es|] == es;
      server.OnFileTree(tree);
    }

    /** The watcher's reaction to a local change. */
    method OnWatchEvent(server: ServerFs)
      requires server.h == h
      modifies this, server
      ensures Pair(server.State(), State()) == Push(h, old(server.State()), old(State()))
    {
      var t := BuildTree();
      TreePaths(h, share);
      SyncPush(server, t);
      localTree := t;
    }

    /** The first question of startup, about a tree built for it. */
    method FirstAsk(server: ServerFs) returns (changed: seq<Bytes>, removed: seq<Bytes>, tree: Option<FileTree>)
      requires server.h == h
      modifies this
      ensures State() == old(State()).(localTree := TreeOf(h, old(share)))
      ensures var r := Ask(server.State(), TreeOf(h, old(share)).treeHash);
              changed == r.ChangedPaths() && (set p | p in removed) == r.RemovedPaths() && tree == r.latest
    {
      localTree := BuildTree();
      changed, removed, tree := server.OnFileDiff(localTree.treeHash);
    }

    /** Take over what the reply says, from the server or from peers. */
    method Align(server: ServerFs, peers: map<Bytes, Bytes>, changed: seq<Bytes>, removed: seq<Bytes>,
                 tree: Option<FileTree>, v: Visit, ghost r: Reply)
      requires v.Valid() && server.h == h
      requires changed == r.ChangedPaths() && (set p | p in removed) == r.RemovedPaths() && tree == r.latest
      modifies this
      ensures State() == StartLand(h, old(State()), r, peers + server.objects, v)
    {
      if tree.Some? {
        PullChanged(server, peers, changed, tree.value, v);
        RemoveLocal(removed);
      }
      localTree := BuildTree();
    }

    /**
     * Startup: ask, pull, then push the merged tree. `during` and `before` are what other sessions do to the
     * server between the question and the pull, and between the pull and the push.
     */
    method Start(server: ServerFs, peers: map<Bytes, Bytes>, v: Visit, during: seq<ServerCall>, before: seq<ServerCall>)
      requires v.Valid() && server.h == h
      modifies this, server
      ensures var asked := old(server.State());
              var r := Ask(asked, TreeOf(h, old(share)).treeHash);
              var at := Served(h, asked, during);
              var merged := StartLand(h, old(State()).(localTree := TreeOf(h, old(share))), r, peers + at.objects, v);
              Pair(server.State(), State()) == Push(h, Served(h, at, before), merged)
    {
      ghost var r := Ask(server.State(), TreeOf(h, share).treeHash);
      var changed, removed, tree := FirstAsk(server);
      server.Serve(during);
      Align(server, peers, changed, removed, tree, v, r);
      server.Serve(before);
      OnWatchEvent(server);
    }
  }

  lemma ListingIsTree(h: Hasher, share: Share, out: seq<Entry>)
    requires DistinctPaths(out)
    requires forall e :: e in out <==> e.path in share && Visible(e.path) && e == EntryOf(h, e.path, share[e.path])
    ensures SortByPath(out) == TreeOf(h, share).entries
  {
    var listed := Listing(h, share, VisiblePaths(share));
    SortSorts(out);
    SortSorts(listed);
    SortKeepsDistinct(out);
    SortKeepsDistinct(listed);
    forall e ensures e in SortByPath(out) <==> e in SortByPath(listed) {
      MemberOfEqualMultisets(SortByPath(out), out, e);
      MemberOfEqualMultisets(SortByPath(listed), listed, e);
    }
    SameSetSameListing(SortByPath(out), SortByPath(listed));
  }
}
