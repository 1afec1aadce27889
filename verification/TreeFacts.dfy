/** What the tree of a share and the difference of two trees say about the files themselves. */
module TreeFacts {
  import opened Common
  import opened ByteStrings
  import opened TreeHash
  import opened ConflictNames
  import opened SyncModel

  predicate BeginsWith(path: Bytes, text: string) { |text| <= |path| && Spells(path[..|text|], text) }

  predicate HiddenName(path: Bytes) { BeginsWith(path, ".sync-conflict-") || BeginsWith(path, ".nsmt-") }

  /** The files left out of trees are those whose names start with the text of one of the two marks. */
  lemma VisibleMeans(path: Bytes)
    ensures Visible(path) <==> !HiddenName(path)
  {
    assert Spells(SYNC_CONFLICT, ".sync-conflict-") && Spells(NSMT, ".nsmt-");
  }

  /** An entry that says of a file how it is found on disk. */
  ghost predicate Tells(h: Hasher, e: Entry, f: File) {
    e.blobId == h.sha(f.bytes) && e.mode == 0x1A4 && e.size == |f.bytes| && e.mtimeNs == f.mtimeNs
  }

  ghost predicate InPathOrder(es: seq<Entry>) { Sorted(es) && DistinctPaths(es) }

  ghost predicate OnlyFiles(h: Hasher, es: seq<Entry>, share: Share) {
    forall e | e in es :: e.path in share && !HiddenName(e.path) && Tells(h, e, share[e.path])
  }

  ghost predicate HasEntry(es: seq<Entry>, path: Bytes) { exists e :: e in es && e.path == path }

  ghost predicate AllFiles(es: seq<Entry>, share: Share) {
    forall p | p in share && !HiddenName(p) :: HasEntry(es, p)
  }

  /** One entry for each file that is not hidden, in path order, and no other entries. */
  ghost predicate Describes(h: Hasher, es: seq<Entry>, share: Share) {
    InPathOrder(es) && OnlyFiles(h, es, share) && AllFiles(es, share)
  }

  lemma TreeHasOnlyFiles(h: Hasher, share: Share)
    ensures OnlyFiles(h, TreeOf(h, share).entries, share)
  {
    TreePaths(h, share);
    forall e | e in TreeOf(h, share).entries ensures !HiddenName(e.path) { VisibleMeans(e.path); }
  }

  lemma TreeHasAllFiles(h: Hasher, share: Share)
    ensures AllFiles(TreeOf(h, share).entries, share)
  {
    forall p | p in share && !HiddenName(p) ensures HasEntry(TreeOf(h, share).entries, p) {
      VisibleMeans(p);
      FileInTree(h, share, p);
    }
  }

  lemma TreeDescribes(h: Hasher, share: Share)
    ensures Describes(h, TreeOf(h, share).entries, share)
    ensures TreeOf(h, share).treeHash == h.sha(HashInput(TreeOf(h, share).entries))
  {
    TreePaths(h, share);
    SortSorts(Listing(h, share, VisiblePaths(share)));
    TreeHasOnlyFiles(h, share);
    TreeHasAllFiles(h, share);
  }

  /**
   * The reply to a client that asks about the tree of share `a` when the latest tree is that of share `b`,
   * told from the files: changed is what `b` has and `a` lacks or has with other content or another time,
   * removed is what only `a` has.
   */
  lemma DiffOfShares(h: Hasher, a: Share, b: Share, p: Bytes)
    ensures var r := Reply(Some(TreeOf(h, a)), Some(TreeOf(h, b)));
            && (p in r.ChangedPaths() <==>
                  && p in b && !HiddenName(p)
                  && (p !in a || h.sha(a[p].bytes) != h.sha(b[p].bytes) || a[p].mtimeNs != b[p].mtimeNs))
            && (p in r.RemovedPaths() <==> p in a && p !in b && !HiddenName(p))
  {
    var was, es := PathMap(TreeOf(h, a).entries), TreeOf(h, b).entries;
    TreePaths(h, a);
    TreePaths(h, b);
    VisibleMeans(p);
    ChangedMeans(was, es, p);
    if p in a && Visible(p) { FileInTree(h, a, p); }
    if p in b && Visible(p) { FileInTree(h, b, p); }
    assert p in PathMap(es) <==> exists e :: e in es && e.path == p;
  }

  /** Where no two of the contents collide, changed is what `b` has otherwise than `a`. */
  lemma DiffOfFiles(h: Hasher, a: Share, b: Share, p: Bytes)
    requires h.Valid() && forall q :: (q in a ==> a[q].bytes in h.known) && (q in b ==> b[q].bytes in h.known)
    ensures p in Reply(Some(TreeOf(h, a)), Some(TreeOf(h, b))).ChangedPaths() <==>
            p in b && !HiddenName(p) && !(p in a && a[p] == b[p])
  {
    DiffOfShares(h, a, b, p);
  }

  /**
   * Whatever hash a tree comes with, the archive files it under the hash of its own stream, and it is the latest;
   * the other trees and the objects stay.
   */
  lemma FiledUnderOwnHash(h: Hasher, s: Server, t: FileTree)
    ensures var after, key := ReceiveTree(h, s, t), h.sha(HashInput(t.entries));
            && GetTree(after, key) == after.latest == Some(FileTree(key, t.entries))
            && (forall k | k != key :: GetTree(after, k) == GetTree(s, k))
            && after.objects == s.objects
  {
  }

  /**
   * After one client pushed and then another, the first asks about its own tree: its tree is compared with the
   * other's, unless both have one hash, when the other's is compared with itself and touched files go unreported.
   */
  lemma ReplyAfterPushes(h: Hasher, s: Server, a: Client, b: Client)
    ensures var mine, theirs := TreeOf(h, a.share), TreeOf(h, b.share);
            var r := Ask(Push(h, Push(h, s, a).server, b).server, mine.treeHash);
            && r.latest == Some(theirs)
            && r.asked == Some(if mine.treeHash == theirs.treeHash then theirs else mine)
            && (mine.treeHash == theirs.treeHash ==> r.ChangedPaths() == [] && r.RemovedPaths() == {})
  {
    var theirs := TreeOf(h, b.share);
    TreePaths(h, b.share);
    DiffWithItself(theirs.entries);
  }

  lemma DiffWithItself(es: seq<Entry>)
    requires DistinctPaths(es)
    ensures Changed(PathMap(es), es) == [] && Removed(PathMap(es), es) == {}
  {
    var changed := Changed(PathMap(es), es);
    if changed != [] { ChangedMeans(PathMap(es), es, changed[0]); }
  }
}
