/** The values that file synchronisation works on, and what each operation does to them. */
module SyncModel {
  import opened Common
  import opened ByteStrings
  import opened TreeHash
  import opened ConflictNames

  /**
   * SHA-256 in hexadecimal. No function into 64 digits is injective on all byte strings, so
   * collision freedom is assumed only of `known`, which stands for the strings hashed in a run.
   */
  datatype Hasher = Hasher(sha: Bytes -> Bytes, known: iset<Bytes>) {
    ghost predicate Valid() {
      && (forall b :: IsDigest(sha(b)))
      && (forall a, b | a in known && b in known && sha(a) == sha(b) :: a == b)
    }
  }

  // ---- shares and trees ----

  datatype File = File(bytes: Bytes, mtimeNs: int)
  type Share = map<Bytes, File>

  function VisiblePaths(share: Share): set<Bytes> { set p | p in share && Visible(p) }

  function EntryOf(h: Hasher, path: Bytes, f: File): Entry {
    Entry(path, h.sha(f.bytes), FILE_MODE, |f.bytes|, f.mtimeNs)
  }

  /** The entries `walk` collects for `paths`, in some order. */
  ghost function Listing(h: Hasher, share: Share, paths: set<Bytes>): (es: seq<Entry>)
    requires paths <= share.Keys
    ensures DistinctPaths(es)
    ensures forall e :: e in es <==> e.path in paths && e == EntryOf(h, e.path, share[e.path])
  {
    if paths == {} then []
    else
      var p :| p in paths;
      [EntryOf(h, p, share[p])] + Listing(h, share, paths - {p})
  }

  function TreeHashOf(h: Hasher, es: seq<Entry>): Bytes { h.sha(HashInput(es)) }

  /** The tree that `build_tree` makes of a share. */
  ghost function TreeOf(h: Hasher, share: Share): FileTree {
    var es := SortByPath(Listing(h, share, VisiblePaths(share)));
    FileTree(TreeHashOf(h, es), es)
  }

  /** Which content each synchronised path has. */
  function View(h: Hasher, share: Share): map<Bytes, Bytes> {
    map p | p in share && Visible(p) :: h.sha(share[p].bytes)
  }

  /** Entries by path; a later entry replaces an earlier one, as inserting into a map does. */
  function PathMap(es: seq<Entry>): (m: map<Bytes, Entry>)
    ensures forall p | p in m :: m[p] in es && m[p].path == p
    ensures forall e | e in es :: e.path in m
  {
    if es == [] then map[] else PathMap(es[..|es| - 1])[es[|es| - 1].path := es[|es| - 1]]
  }

  function TreeView(es: seq<Entry>): map<Bytes, Bytes> {
    map p | p in PathMap(es) :: PathMap(es)[p].blobId
  }

  // ---- server ----

  datatype Server = Server(trees: map<Bytes, FileTree>, latest: Option<FileTree>, objects: map<Bytes, Bytes>)

  function PutIfAbsent(objects: map<Bytes, Bytes>, key: Bytes, bytes: Bytes): map<Bytes, Bytes> {
    if key in objects then objects else objects[key := bytes]
  }

  function SaveTree(s: Server, t: FileTree): Server {
    s.(trees := s.trees[t.treeHash := t], latest := Some(t))
  }

  /** A tree from a client is filed under the hash the server computes itself. */
  function ReceiveTree(h: Hasher, s: Server, t: FileTree): Server {
    SaveTree(s, t.(treeHash := TreeHashOf(h, t.entries)))
  }

  function GetTree(s: Server, hash: Bytes): Option<FileTree> {
    if hash in s.trees then Some(s.trees[hash]) else None
  }

  function EntriesOf(t: Option<FileTree>): seq<Entry> {
    if t.Some? then t.value.entries else []
  }

  /** The `i`th latest entry is reported as changed. */
  predicate IsChanged(was: map<Bytes, Entry>, es: seq<Entry>, i: nat)
    requires i < |es|
  {
    || (exists j | 0 <= j < i :: es[j].path == es[i].path)
    || es[i].path !in was
    || was[es[i].path].blobId != es[i].blobId
    || was[es[i].path].mtimeNs != es[i].mtimeNs
  }

  function Changed(was: map<Bytes, Entry>, es: seq<Entry>): seq<Bytes> {
    if es == [] then []
    else
      var n := |es| - 1;
      var first := Changed(was, es[..n]);
      if IsChanged(was, es, n) then first + [es[n].path] else first
  }

  function Removed(was: map<Bytes, Entry>, es: seq<Entry>): set<Bytes> {
    was.Keys - set e | e in es :: e.path
  }

  /** The two trees a diff reply is computed from: the archived one asked about, and the latest. */
  datatype Reply = Reply(asked: Option<FileTree>, latest: Option<FileTree>) {
    function ChangedPaths(): seq<Bytes> { Changed(PathMap(EntriesOf(asked)), EntriesOf(latest)) }
    function RemovedPaths(): set<Bytes> { Removed(PathMap(EntriesOf(asked)), EntriesOf(latest)) }
  }

  function Ask(s: Server, hash: Bytes): Reply { Reply(GetTree(s, hash), s.latest) }

  // ---- client ----

  datatype Client = Client(share: Share, cache: map<Bytes, Bytes>, localTree: FileTree)

  /** What one pull reads from the outside: its name for conflict copies, clock readings and write times. */
  datatype Visit = Visit(who: Bytes, stamp: Bytes -> Bytes, now: Bytes -> int) {
    ghost predicate Valid() { forall p :: Stamped(who, stamp(p)) }
  }

  function FindEntry(es: seq<Entry>, path: Bytes): (r: Option<Entry>)
    ensures r.Some? ==> r.value in es && r.value.path == path
    ensures r.None? ==> forall e | e in es :: e.path != path
  {
    if es == [] then None
    else if es[0].path == path then Some(es[0])
    else FindEntry(es[1..], path)
  }

  ghost predicate Conflicts(h: Hasher, share: Share, e: Entry) {
    e.path in share && h.sha(share[e.path].bytes) != e.blobId
  }

  ghost function CopyName(v: Visit, path: Bytes): Bytes
    requires v.Valid()
  {
    ConflictName(path, v.who, v.stamp(path))
  }

  /** Keep a copy of a local file that differs, then write the remote bytes. */
  ghost function Materialize(h: Hasher, share: Share, e: Entry, bytes: Bytes, v: Visit): Share
    requires v.Valid()
  {
    var kept :=
      if Conflicts(h, share, e) then
        share[CopyName(v, e.path) := File(share[e.path].bytes, v.now(CopyName(v, e.path)))]
      else share;
    kept[e.path := File(bytes, v.now(e.path))]
  }

  /** Fetch and write every changed path; `got` holds the blobs that could be obtained. */
  ghost function PullAll(h: Hasher, c: Client, changed: seq<Bytes>, es: seq<Entry>,
                         got: map<Bytes, Bytes>, v: Visit): Client
    requires v.Valid()
  {
    if changed == [] then c
    else
      var n := |changed| - 1;
      var c1 := PullAll(h, c, changed[..n], es, got, v);
      var e := FindEntry(es, changed[n]);
      if e.Some? && e.value.blobId in got then
        var bytes := got[e.value.blobId];
        c1.(share := Materialize(h, c1.share, e.value, bytes, v),
            cache := PutIfAbsent(c1.cache, e.value.blobId, bytes))
      else c1
  }

  function RemoveFiles(share: Share, paths: set<Bytes>): Share {
    map p | p in share && p !in paths :: share[p]
  }

  /** Everything a non-empty diff reply does to the files. */
  ghost function Land(h: Hasher, c: Client, r: Reply, got: map<Bytes, Bytes>, v: Visit): Client
    requires v.Valid()
  {
    var c1 := if r.latest.Some? then PullAll(h, c, r.ChangedPaths(), r.latest.value.entries, got, v) else c;
    var c2 := c1.(share := RemoveFiles(c1.share, r.RemovedPaths()));
    c2.(localTree := TreeOf(h, c2.share))
  }

  /** The periodic pull: an empty diff leaves even the remembered tree alone. */
  ghost function PollLand(h: Hasher, c: Client, r: Reply, got: map<Bytes, Bytes>, v: Visit): Client
    requires v.Valid()
  {
    if r.ChangedPaths() == [] && r.RemovedPaths() == {} then c else Land(h, c, r, got, v)
  }

  /** The pull at startup: files are touched only when the server has a tree. */
  ghost function StartLand(h: Hasher, c: Client, r: Reply, got: map<Bytes, Bytes>, v: Visit): Client
    requires v.Valid()
  {
    if r.latest.Some? then Land(h, c, r, got, v) else c.(localTree := TreeOf(h, c.share))
  }

  datatype Stores = Stores(cache: map<Bytes, Bytes>, objects: map<Bytes, Bytes>)

  /** The upload loop of `sync_push`, each entry granted and accepted. */
  function PushObjects(es: seq<Entry>, share: Share, st: Stores): Stores
    requires forall e | e in es :: e.path in share
  {
    if es == [] then st
    else
      var n := |es| - 1;
      var st1 := PushObjects(es[..n], share, st);
      var cache := PutIfAbsent(st1.cache, es[n].blobId, share[es[n].path].bytes);
      Stores(cache, PutIfAbsent(st1.objects, es[n].blobId, cache[es[n].blobId]))
  }

  datatype Pair = Pair(server: Server, client: Client)

  /** Build the tree, upload every object, send the tree. */
  ghost function Push(h: Hasher, s: Server, c: Client): Pair {
    var t := TreeOf(h, c.share);
    TreePaths(h, c.share);
    var st := PushObjects(t.entries, c.share, Stores(c.cache, s.objects));
    Pair(ReceiveTree(h, s.(objects := st.objects), t), c.(cache := st.cache, localTree := t))
  }

  // ---- facts about trees and diffs ----

  lemma TreePaths(h: Hasher, share: Share)
    ensures DistinctPaths(TreeOf(h, share).entries)
    ensures forall e :: e in TreeOf(h, share).entries <==>
              e.path in share && Visible(e.path) && e == EntryOf(h, e.path, share[e.path])
  {
    var es := Listing(h, share, VisiblePaths(share));
    SortKeepsDistinct(es);
    forall e ensures e in SortByPath(es) <==> e in es {
      MemberOfEqualMultisets(SortByPath(es), es, e);
    }
  }

  lemma PathMapLooksUp(es: seq<Entry>, e: Entry)
    requires DistinctPaths(es) && e in es
    ensures PathMap(es)[e.path] == e
  {
    var m := PathMap(es)[e.path];
    var i :| 0 <= i < |es| && es[i] == e;
    var j :| 0 <= j < |es| && es[j] == m;
  }

  lemma FileInTree(h: Hasher, share: Share, p: Bytes)
    requires p in share && Visible(p)
    ensures var es := TreeOf(h, share).entries; p in PathMap(es) && PathMap(es)[p] == EntryOf(h, p, share[p])
  {
    TreePaths(h, share);
    PathMapLooksUp(TreeOf(h, share).entries, EntryOf(h, p, share[p]));
  }

  lemma PathInShare(h: Hasher, share: Share, p: Bytes)
    requires p in PathMap(TreeOf(h, share).entries)
    ensures p in share && Visible(p)
  {
    TreePaths(h, share);
  }

  /** The tree of a share says exactly what the share holds. */
  lemma TreeViewOfShare(h: Hasher, share: Share)
    ensures TreeView(TreeOf(h, share).entries) == View(h, share)
  {
    var es := TreeOf(h, share).entries;
    forall p | p in View(h, share) ensures p in TreeView(es) && TreeView(es)[p] == View(h, share)[p] {
      FileInTree(h, share, p);
    }
    forall p | p in TreeView(es) ensures p in View(h, share) { PathInShare(h, share, p); }
  }

  ghost predicate Distinct(s: seq<Bytes>) { forall i, j | 0 <= i < j < |s| :: s[i] != s[j] }

  /** What a diff reports, in terms of the two trees. */
  lemma {:induction false} ChangedMeans(was: map<Bytes, Entry>, es: seq<Entry>, p: Bytes)
    requires DistinctPaths(es)
    ensures p in Changed(was, es) <==>
              p in PathMap(es)
              && (p !in was || was[p].blobId != PathMap(es)[p].blobId || was[p].mtimeNs != PathMap(es)[p].mtimeNs)
  {
    if es != [] {
      var n := |es| - 1;
      var last := es[n].path;
      assert es == es[..n] + [es[n]];
      ChangedMeans(was, es[..n], p);
      assert forall j | 0 <= j < n :: es[j].path != last;
      assert last !in PathMap(es[..n]);
      if p != last {
        assert p in PathMap(es) <==> p in PathMap(es[..n]);
        assert p in Changed(was, es) <==> p in Changed(was, es[..n]);
      }
    }
  }

  lemma {:induction false} ChangedDistinct(was: map<Bytes, Entry>, es: seq<Entry>)
    requires DistinctPaths(es)
    ensures Distinct(Changed(was, es))
    ensures forall p | p in Changed(was, es) :: exists e | e in es :: e.path == p
  {
    if es != [] {
      var n := |es| - 1;
      ChangedDistinct(was, es[..n]);
      assert es == es[..n] + [es[n]];
      assert forall e | e in es[..n] :: e.path != es[n].path && e in es;
      assert es[n].path !in Changed(was, es[..n]);
      forall p | p in Changed(was, es) ensures exists e | e in es :: e.path == p {
        if p == es[n].path {
          assert es[n] in es;
        } else {
          var e :| e in es[..n] && e.path == p;
          assert e in es;
        }
      }
    }
  }
}
