/** The invariant that pushes and pulls keep, and what one pull does to the files it touches. */
module SyncInvariant {
  import opened Common
  import opened ByteStrings
  import opened TreeHash
  import opened ConflictNames
  import opened SyncModel
  import opened PullFacts
  import Utf8

  ghost predicate Addressed(h: Hasher, store: map<Bytes, Bytes>) {
    forall k | k in store :: h.sha(store[k]) == k && store[k] in h.known
  }

  /** A tree as `build_tree` makes it, all of whose blobs are stored. */
  ghost predicate Genuine(h: Hasher, t: FileTree, objects: map<Bytes, Bytes>) {
    && t.treeHash == TreeHashOf(h, t.entries) && HashInput(t.entries) in h.known
    && DistinctPaths(t.entries)
    && forall e | e in t.entries ::
         WellFormed(e) && Visible(e.path) && e.blobId in objects && e.size == |objects[e.blobId]|
  }

  ghost predicate ServerInv(h: Hasher, s: Server) {
    && Addressed(h, s.objects)
    && (forall k | k in s.trees :: s.trees[k].treeHash == k && Genuine(h, s.trees[k], s.objects))
    && (s.latest.Some? ==> s.latest.value.treeHash in s.trees && s.trees[s.latest.value.treeHash] == s.latest.value)
    && (s.latest.None? ==> s.trees == map[])
  }

  /** A share whose files can be hashed and named in a tree. */
  ghost predicate ShareOk(h: Hasher, share: Share) {
    && (forall p | p in share :: share[p].bytes in h.known && |share[p].bytes| < 0x1_0000_0000_0000_0000)
    && (forall p | p in share && Visible(p) :: Utf8.Valid(p))
    && HashInput(TreeOf(h, share).entries) in h.known
  }

  ghost predicate ReplyOk(h: Hasher, r: Reply, objects: map<Bytes, Bytes>) {
    && (r.asked.Some? ==> r.latest.Some? && Genuine(h, r.asked.value, objects))
    && (r.latest.Some? ==> Genuine(h, r.latest.value, objects))
  }

  ghost predicate Grows(a: map<Bytes, Bytes>, b: map<Bytes, Bytes>) {
    forall k | k in a :: k in b && b[k] == a[k]
  }

  // ---- trees, hashes and views ----

  lemma SameContentSameView(xs: seq<Entry>, ys: seq<Entry>)
    requires DistinctPaths(xs) && DistinctPaths(ys) && Content(xs) == Content(ys)
    ensures TreeView(xs) == TreeView(ys)
  {
    forall p | p in TreeView(xs) ensures p in TreeView(ys) && TreeView(ys)[p] == TreeView(xs)[p] {
      ViewFollowsContent(xs, ys, p);
    }
    forall p | p in TreeView(ys) ensures p in TreeView(xs) {
      ViewFollowsContent(ys, xs, p);
    }
  }

  lemma ViewFollowsContent(xs: seq<Entry>, ys: seq<Entry>, p: Bytes)
    requires DistinctPaths(ys) && Content(xs) <= Content(ys) && p in TreeView(xs)
    ensures p in TreeView(ys) && TreeView(ys)[p] == TreeView(xs)[p]
  {
    var e := PathMap(xs)[p];
    assert Erase(e) in Content(ys);
    var i :| 0 <= i < |ys| && Erase(ys[i]) == Erase(e);
    PathMapLooksUp(ys, ys[i]);
  }

  lemma SameViewSameContent(h: Hasher, x: FileTree, y: FileTree, objects: map<Bytes, Bytes>)
    requires Genuine(h, x, objects) && Genuine(h, y, objects)
    requires TreeView(x.entries) == TreeView(y.entries)
    ensures Content(x.entries) <= Content(y.entries)
  {
    forall k | k in Content(x.entries) ensures k in Content(y.entries) {
      var e :| e in x.entries && Erase(e) == k;
      PathMapLooksUp(x.entries, e);
      assert e.path in TreeView(y.entries) && TreeView(y.entries)[e.path] == e.blobId;
      var f := PathMap(y.entries)[e.path];
      assert f in y.entries && f.path == e.path && f.blobId == e.blobId;
      assert Erase(f) == Erase(e);
    }
  }

  /** Genuine trees carry the same hash exactly when they bind the same paths to the same content. */
  lemma HashNamesView(h: Hasher, x: FileTree, y: FileTree, objects: map<Bytes, Bytes>)
    requires h.Valid() && Genuine(h, x, objects) && Genuine(h, y, objects)
    ensures x.treeHash == y.treeHash <==> TreeView(x.entries) == TreeView(y.entries)
  {
    HashInputDeterminesContent(x.entries, y.entries);
    if x.treeHash == y.treeHash {
      SameContentSameView(x.entries, y.entries);
    }
    if TreeView(x.entries) == TreeView(y.entries) {
      SameViewSameContent(h, x, y, objects);
      SameViewSameContent(h, y, x, objects);
    }
  }

  ghost predicate Stocked(h: Hasher, share: Share, objects: map<Bytes, Bytes>) {
    forall p | p in share && Visible(p) ::
      h.sha(share[p].bytes) in objects && objects[h.sha(share[p].bytes)] == share[p].bytes
  }

  lemma TreeOfGenuine(h: Hasher, share: Share, objects: map<Bytes, Bytes>)
    requires h.Valid() && ShareOk(h, share) && Stocked(h, share, objects)
    ensures Genuine(h, TreeOf(h, share), objects)
  {
    TreePaths(h, share);
  }

  lemma GenuineGrows(h: Hasher, t: FileTree, a: map<Bytes, Bytes>, b: map<Bytes, Bytes>)
    requires Genuine(h, t, a) && Grows(a, b)
    ensures Genuine(h, t, b)
  {
  }

  // ---- pushing ----

  /** Uploading through the cache stores the bytes themselves, because the cache is addressed by content. */
  lemma PushOne(h: Hasher, st: Stores, bytes: Bytes)
    requires h.Valid() && Addressed(h, st.cache) && Addressed(h, st.objects) && bytes in h.known
    ensures var k := h.sha(bytes);
            var cache := PutIfAbsent(st.cache, k, bytes);
            var objects := PutIfAbsent(st.objects, k, cache[k]);
            && Addressed(h, cache) && Addressed(h, objects) && Grows(st.cache, cache) && Grows(st.objects, objects)
            && k in cache && cache[k] == bytes && k in objects && objects[k] == bytes
  {
  }

  lemma GrowsOn(a: map<Bytes, Bytes>, b: map<Bytes, Bytes>, c: map<Bytes, Bytes>)
    requires Grows(a, b) && Grows(b, c)
    ensures Grows(a, c)
  {
  }

  ghost predicate Uploaded(es: seq<Entry>, share: Share, objects: map<Bytes, Bytes>) {
    forall e | e in es :: e.path in share && e.blobId in objects && objects[e.blobId] == share[e.path].bytes
  }

  lemma UploadedGrows(es: seq<Entry>, share: Share, a: map<Bytes, Bytes>, b: map<Bytes, Bytes>)
    requires es != [] && Uploaded(es[..|es| - 1], share, a) && Grows(a, b)
    requires var e := es[|es| - 1]; e.path in share && e.blobId in b && b[e.blobId] == share[e.path].bytes
    ensures Uploaded(es, share, b)
  {
    assert es == es[..|es| - 1] + [es[|es| - 1]];
  }

  lemma {:induction false} PushStores(h: Hasher, es: seq<Entry>, share: Share, st: Stores)
    requires h.Valid() && Addressed(h, st.cache) && Addressed(h, st.objects)
    requires forall e | e in es :: e.path in share && e.blobId == h.sha(share[e.path].bytes) && share[e.path].bytes in h.known
    ensures var r := PushObjects(es, share, st);
            && Addressed(h, r.cache) && Addressed(h, r.objects)
            && Grows(st.cache, r.cache) && Grows(st.objects, r.objects)
            && Uploaded(es, share, r.cache) && Uploaded(es, share, r.objects)
    decreases |es|
  {
    if es != [] {
      var n := |es| - 1;
      assert es[n] in es && forall e | e in es[..n] :: e in es;
      PushStores(h, es[..n], share, st);
      var mid, r := PushObjects(es[..n], share, st), PushObjects(es, share, st);
      PushOne(h, mid, share[es[n].path].bytes);
      GrowsOn(st.cache, mid.cache, r.cache);
      GrowsOn(st.objects, mid.objects, r.objects);
      UploadedGrows(es, share, mid.cache, r.cache);
      UploadedGrows(es, share, mid.objects, r.objects);
    }
  }

  /** A push keeps the server's invariant and makes the pushed share the latest tree. */
  lemma PushKeepsServer(h: Hasher, s: Server, c: Client)
    requires h.Valid() && ServerInv(h, s) && ShareOk(h, c.share) && Addressed(h, c.cache)
    ensures var r := Push(h, s, c);
            && ServerInv(h, r.server) && Addressed(h, r.client.cache)
            && Grows(s.objects, r.server.objects)
            && Stocked(h, c.share, r.server.objects) && Stocked(h, c.share, r.client.cache)
            && r.server.latest == Some(TreeOf(h, c.share))
            && TreeView(r.server.latest.value.entries) == View(h, c.share)
            && (forall k | k in s.trees :: k in r.server.trees)
  {
    var t := TreeOf(h, c.share);
    TreePaths(h, c.share);
    TreeViewOfShare(h, c.share);
    PushStores(h, t.entries, c.share, Stores(c.cache, s.objects));
    var r := Push(h, s, c);
    assert r.server.latest == Some(t);
    forall p | p in c.share && Visible(p)
      ensures var k := h.sha(c.share[p].bytes);
              && k in r.server.objects && r.server.objects[k] == c.share[p].bytes
              && k in r.client.cache && r.client.cache[k] == c.share[p].bytes
    {
      assert EntryOf(h, p, c.share[p]) in t.entries;
    }
    TreeOfGenuine(h, c.share, r.server.objects);
    forall k | k in r.server.trees
      ensures r.server.trees[k].treeHash == k && Genuine(h, r.server.trees[k], r.server.objects)
    {
      if k != t.treeHash { GenuineGrows(h, s.trees[k], s.objects, r.server.objects); }
    }
  }

  // ---- pulling ----

  /** New copies get names that neither the share nor either tree of the reply uses. */
  ghost predicate FreshFor(share: Share, r: Reply, v: Visit)
    requires v.Valid()
  {
    forall p | p in r.ChangedPaths() ::
      && CopyName(v, p) !in share
      && CopyName(v, p) !in PathMap(EntriesOf(r.asked))
      && CopyName(v, p) !in PathMap(EntriesOf(r.latest))
  }

  ghost predicate AllObtained(r: Reply, got: map<Bytes, Bytes>) {
    forall e | e in EntriesOf(r.latest) && e.path in r.ChangedPaths() :: e.blobId in got
  }

  lemma {:induction false} FindIsLookup(es: seq<Entry>, p: Bytes)
    requires DistinctPaths(es) && p in PathMap(es)
    ensures FindEntry(es, p) == Some(PathMap(es)[p])
  {
    var f := FindEntry(es, p);
    assert PathMap(es)[p] in es;
    PathMapLooksUp(es, f.value);
  }

  lemma ChangedInLatest(h: Hasher, r: Reply, objects: map<Bytes, Bytes>)
    requires ReplyOk(h, r, objects) && r.latest.Some?
    ensures Distinct(r.ChangedPaths())
    ensures var es := r.latest.value.entries;
            forall p | p in r.ChangedPaths() :: p in PathMap(es) && FindEntry(es, p) == Some(PathMap(es)[p])
  {
    var es := r.latest.value.entries;
    ChangedDistinct(PathMap(EntriesOf(r.asked)), es);
    forall p | p in r.ChangedPaths() ensures p in PathMap(es) && FindEntry(es, p) == Some(PathMap(es)[p]) {
      ChangedMeans(PathMap(EntriesOf(r.asked)), es, p);
      FindIsLookup(es, p);
    }
  }

  lemma NamesAreFresh(h: Hasher, share: Share, r: Reply, objects: map<Bytes, Bytes>, v: Visit)
    requires v.Valid() && ReplyOk(h, r, objects) && FreshFor(share, r, v) && r.latest.Some?
    ensures Distinct(r.ChangedPaths()) && FreshNames(share, r.ChangedPaths(), v)
  {
    ChangedInLatest(h, r, objects);
  }

  /** What a pull does, with the side conditions of `PullDescribes` discharged. */
  lemma LandDescribes(h: Hasher, c: Client, r: Reply, objects: map<Bytes, Bytes>, got: map<Bytes, Bytes>, v: Visit)
    requires v.Valid() && ReplyOk(h, r, objects) && FreshFor(c.share, r, v) && r.latest.Some?
    ensures var es := r.latest.value.entries; var after := PullAll(h, c, r.ChangedPaths(), es, got, v).share;
            && PullDescribed(h, c.share, r.ChangedPaths(), es, got, v, after)
            && (forall p | p in r.ChangedPaths() :: p in PathMap(es) && FindEntry(es, p) == Some(PathMap(es)[p]))
            && Land(h, c, r, got, v).share == RemoveFiles(after, r.RemovedPaths())
  {
    ChangedInLatest(h, r, objects);
    NamesAreFresh(h, c.share, r, objects, v);
    PullDescribes(h, c, r.ChangedPaths(), r.latest.value.entries, got, v);
  }

  /** An empty diff would change no file either, so skipping it loses nothing. */
  lemma PollSkipsNothing(h: Hasher, c: Client, r: Reply, got: map<Bytes, Bytes>, v: Visit)
    requires v.Valid()
    ensures PollLand(h, c, r, got, v).share == Land(h, c, r, got, v).share
  {
    if r.ChangedPaths() == [] && r.RemovedPaths() == {} {
      assert RemoveFiles(c.share, {}) == c.share;
    }
  }

  /** The tree asked about, when the server has it, is the tree of the files on disk. */
  ghost predicate AskedMatches(h: Hasher, share: Share, r: Reply) {
    r.asked.Some? ==> TreeView(r.asked.value.entries) == View(h, share)
  }

  ghost predicate SubView(a: map<Bytes, Bytes>, b: map<Bytes, Bytes>) {
    forall p | p in a :: p in b && b[p] == a[p]
  }

  lemma SameView(a: map<Bytes, Bytes>, b: map<Bytes, Bytes>)
    requires SubView(a, b) && forall p | p in b :: p in a
    ensures a == b
  {
  }

  /** After a pull that obtains every blob, the share covers the latest tree. */
  lemma LandCovers(h: Hasher, c: Client, r: Reply, objects: map<Bytes, Bytes>, got: map<Bytes, Bytes>, v: Visit)
    requires h.Valid() && v.Valid() && ReplyOk(h, r, objects) && FreshFor(c.share, r, v)
    requires Addressed(h, got) && AllObtained(r, got) && AskedMatches(h, c.share, r) && r.latest.Some?
    ensures SubView(TreeView(r.latest.value.entries), View(h, Land(h, c, r, got, v).share))
  {
    LandDescribes(h, c, r, objects, got, v);
    var es := r.latest.value.entries;
    var was := PathMap(EntriesOf(r.asked));
    var after := PullAll(h, c, r.ChangedPaths(), es, got, v).share;
    forall p | p in TreeView(es)
      ensures var w := View(h, Land(h, c, r, got, v).share); p in w && w[p] == TreeView(es)[p]
    {
      var e := PathMap(es)[p];
      assert e in es && e.path == p && p !in r.RemovedPaths();
      ChangedMeans(was, es, p);
      if p in r.ChangedPaths() {
        assert Pulled(r.ChangedPaths(), es, got, p);
      } else {
        assert p in TreeView(r.asked.value.entries) && p in View(h, c.share);
        assert !Pulled(r.ChangedPaths(), es, got, p);
      }
    }
  }

  /** After a pull by a client whose tree the server knows, anything beyond the latest tree is a conflict copy. */
  lemma LandAddsOnlyCopies(h: Hasher, c: Client, r: Reply, objects: map<Bytes, Bytes>, got: map<Bytes, Bytes>, v: Visit, q: Bytes)
    requires h.Valid() && v.Valid() && ReplyOk(h, r, objects) && FreshFor(c.share, r, v)
    requires AskedMatches(h, c.share, r) && r.asked.Some?
    requires q in View(h, Land(h, c, r, got, v).share) && q !in TreeView(r.latest.value.entries)
    ensures IsCopy(h, c.share, r.ChangedPaths(), r.latest.value.entries, got, v, q)
  {
    LandDescribes(h, c, r, objects, got, v);
    assert forall e | e in r.latest.value.entries :: e.path in PathMap(r.latest.value.entries);
    assert q in c.share && Visible(q) ==> q in View(h, c.share);
  }

  /** The pull would write over a file inside a directory whose local content differs. */
  ghost predicate OverwritesNested(h: Hasher, share: Share, r: Reply) {
    exists p :: p in r.ChangedPaths() && Nested(p) && p in share
                && FindEntry(EntriesOf(r.latest), p).Some?
                && h.sha(share[p].bytes) != FindEntry(EntriesOf(r.latest), p).value.blobId
  }

  /**
   * One pull by a client whose tree is archived makes its share the latest tree, except that copies
   * kept beside nested files are visible. So the share is the latest tree exactly when no nested
   * file was written over.
   */
  lemma LandConverges(h: Hasher, c: Client, r: Reply, objects: map<Bytes, Bytes>, got: map<Bytes, Bytes>, v: Visit)
    requires h.Valid() && v.Valid() && ReplyOk(h, r, objects) && FreshFor(c.share, r, v)
    requires Addressed(h, got) && AllObtained(r, got) && AskedMatches(h, c.share, r) && r.asked.Some?
    ensures var w := View(h, Land(h, c, r, got, v).share); var latest := TreeView(r.latest.value.entries);
            && SubView(latest, w)
            && (forall q | q in w && q !in latest ::
                  IsCopy(h, c.share, r.ChangedPaths(), r.latest.value.entries, got, v, q))
            && (w == latest <==> !OverwritesNested(h, c.share, r))
  {
    LandCovers(h, c, r, objects, got, v);
    var es, changed := r.latest.value.entries, r.ChangedPaths();
    var w, latest := View(h, Land(h, c, r, got, v).share), TreeView(r.latest.value.entries);
    forall q | q in w && q !in latest ensures IsCopy(h, c.share, changed, es, got, v, q) {
      LandAddsOnlyCopies(h, c, r, objects, got, v, q);
    }
    if OverwritesNested(h, c.share, r) {
      NestedCopyShows(h, c, r, objects, got, v);
    } else {
      forall q | q in w ensures q in latest {
        if q !in latest { VisibleCopyIsNested(h, c, r, objects, got, v, q); }
      }
      SameView(latest, w);
    }
  }

  lemma NestedCopyShows(h: Hasher, c: Client, r: Reply, objects: map<Bytes, Bytes>, got: map<Bytes, Bytes>, v: Visit)
    requires v.Valid() && ReplyOk(h, r, objects) && FreshFor(c.share, r, v)
    requires AllObtained(r, got) && r.latest.Some? && OverwritesNested(h, c.share, r)
    ensures View(h, Land(h, c, r, got, v).share) != TreeView(r.latest.value.entries)
  {
    LandDescribes(h, c, r, objects, got, v);
    var es, changed := r.latest.value.entries, r.ChangedPaths();
    var p :| p in changed && Nested(p) && p in c.share && h.sha(c.share[p].bytes) != FindEntry(es, p).value.blobId;
    CopyVisibleIffNested(p, v.who, v.stamp(p));
    assert Kept(h, c.share, changed, es, got, p);
    assert CopyName(v, p) in View(h, Land(h, c, r, got, v).share);
  }

  lemma VisibleCopyIsNested(h: Hasher, c: Client, r: Reply, objects: map<Bytes, Bytes>, got: map<Bytes, Bytes>,
                            v: Visit, q: Bytes)
    requires v.Valid() && ReplyOk(h, r, objects) && r.latest.Some? && Visible(q)
    requires IsCopy(h, c.share, r.ChangedPaths(), r.latest.value.entries, got, v, q)
    ensures OverwritesNested(h, c.share, r)
  {
    var p :| Kept(h, c.share, r.ChangedPaths(), r.latest.value.entries, got, p) && q == CopyName(v, p);
    CopyVisibleIffNested(p, v.who, v.stamp(p));
  }

  /** A local file survives at its path, or in a conflict copy, or in the server's store. */
  ghost predicate Survives(h: Hasher, c: Client, r: Reply, objects: map<Bytes, Bytes>, got: map<Bytes, Bytes>, v: Visit, q: Bytes)
    requires v.Valid() && q in c.share
  {
    var after := Land(h, c, r, got, v).share;
    var bytes := c.share[q].bytes;
    || (q in after && after[q].bytes == bytes)
    || (CopyName(v, q) in after && after[CopyName(v, q)].bytes == bytes)
    || (h.sha(bytes) in objects && objects[h.sha(bytes)] == bytes)
  }

  lemma UnremovedSurvives(h: Hasher, c: Client, r: Reply, objects: map<Bytes, Bytes>, got: map<Bytes, Bytes>, v: Visit, q: Bytes)
    requires h.Valid() && v.Valid() && ReplyOk(h, r, objects) && FreshFor(c.share, r, v) && r.latest.Some?
    requires Addressed(h, got) && q in c.share && c.share[q].bytes in h.known && q !in r.RemovedPaths()
    ensures Survives(h, c, r, objects, got, v, q)
  {
    LandDescribes(h, c, r, objects, got, v);
    if Kept(h, c.share, r.ChangedPaths(), r.latest.value.entries, got, q) {
      assert CopyName(v, q) !in r.RemovedPaths();
    }
  }

  lemma RemovedIsGone(h: Hasher, c: Client, r: Reply, objects: map<Bytes, Bytes>, got: map<Bytes, Bytes>, v: Visit, q: Bytes)
    requires v.Valid() && ReplyOk(h, r, objects) && FreshFor(c.share, r, v) && r.latest.Some?
    requires q in r.RemovedPaths() && CopyName(v, q) !in c.share && CopyName(v, q) !in r.ChangedPaths()
    ensures var after := Land(h, c, r, got, v).share; q !in after && CopyName(v, q) !in after
  {
    LandDescribes(h, c, r, objects, got, v);
    CopyOfOther(h, c.share, r, got, v, q);
  }

  /** A local file is lost exactly when the latest tree dropped its path and its content was never stored. */
  lemma LandLosesExactly(h: Hasher, c: Client, r: Reply, objects: map<Bytes, Bytes>, got: map<Bytes, Bytes>, v: Visit, q: Bytes)
    requires h.Valid() && v.Valid() && ReplyOk(h, r, objects) && FreshFor(c.share, r, v) && r.latest.Some?
    requires Addressed(h, objects) && Addressed(h, got) && q in c.share && c.share[q].bytes in h.known
    requires CopyName(v, q) !in c.share && CopyName(v, q) !in r.ChangedPaths()
    ensures Survives(h, c, r, objects, got, v, q) <==>
              q !in r.RemovedPaths() || h.sha(c.share[q].bytes) in objects
  {
    if q in r.RemovedPaths() {
      RemovedIsGone(h, c, r, objects, got, v, q);
    } else {
      UnremovedSurvives(h, c, r, objects, got, v, q);
    }
  }

  lemma CopyOfOther(h: Hasher, share: Share, r: Reply, got: map<Bytes, Bytes>, v: Visit, q: Bytes)
    requires v.Valid() && r.latest.Some? && q !in r.ChangedPaths()
    ensures !IsCopy(h, share, r.ChangedPaths(), r.latest.value.entries, got, v, CopyName(v, q))
  {
    var es, changed := r.latest.value.entries, r.ChangedPaths();
    if IsCopy(h, share, changed, es, got, v, CopyName(v, q)) {
      var p :| Kept(h, share, changed, es, got, p) && CopyName(v, q) == CopyName(v, p);
      ConflictNameInjective(p, q, v.who, v.stamp(p), v.stamp(q));
    }
  }

  /** A pull loses no file that has not been edited since the tree asked about was built. */
  lemma UneditedSurvives(h: Hasher, c: Client, r: Reply, objects: map<Bytes, Bytes>, got: map<Bytes, Bytes>, v: Visit, q: Bytes)
    requires h.Valid() && v.Valid() && ReplyOk(h, r, objects) && FreshFor(c.share, r, v) && r.latest.Some?
    requires Addressed(h, objects) && Addressed(h, got) && q in c.share && c.share[q].bytes in h.known
    requires q in TreeView(EntriesOf(r.asked)) ==> TreeView(EntriesOf(r.asked))[q] == h.sha(c.share[q].bytes)
    ensures Survives(h, c, r, objects, got, v, q)
  {
    if q in r.RemovedPaths() {
      assert PathMap(EntriesOf(r.asked))[q] in r.asked.value.entries;
    } else {
      UnremovedSurvives(h, c, r, objects, got, v, q);
    }
  }
}
