/** Object stores, one back end shared by several tenants, and put-if-absent against overwriting. */
module ObjectStore {
  import opened ByteStrings
  import SyncModel

  datatype Op<K> = Put(key: K, bytes: Bytes) | Get(key: K) | Exists(key: K) | Delete(key: K)

  datatype Answer = Done | NotFound | Blob(bytes: Bytes) | NoBlob | Flag(present: bool)

  // ---- what one call does ----

  function Look<K>(blobs: map<K, Bytes>, op: Op<K>): Answer {
    match op
    case Get(k) => if k in blobs then Blob(blobs[k]) else NoBlob
    case Exists(k) => Flag(k in blobs)
    case _ => Done
  }

  /** The shared back ends overwrite, and delete without complaint. */
  function Overwriting<K>(blobs: map<K, Bytes>, op: Op<K>): (r: (map<K, Bytes>, Answer)) {
    match op
    case Put(k, b) => (blobs[k := b], Done)
    case Delete(k) => (blobs - {k}, Done)
    case _ => (blobs, Look(blobs, op))
  }

  /** The local back end keeps what it has, and cannot delete what it lacks. */
  function Keeping<K>(blobs: map<K, Bytes>, op: Op<K>): (r: (map<K, Bytes>, Answer)) {
    match op
    case Put(k, b) => (if k in blobs then blobs else blobs[k := b], Done)
    case Delete(k) => if k in blobs then (blobs - {k}, Done) else (blobs, NotFound)
    case _ => (blobs, Look(blobs, op))
  }

  // ---- the stores as objects ----

  /** The pieces of a key between its slashes: the name under which a shared back end files it. */
  function Segments(key: string): (r: seq<string>)
    ensures forall s | s in r :: s != "" && '/' !in s
  {
    SegmentsFrom("", key)
  }

  function SegmentsFrom(piece: string, rest: string): (r: seq<string>)
    requires '/' !in piece
    ensures forall s | s in r :: s != "" && '/' !in s
    decreases |rest|
  {
    if rest == "" then (if piece == "" then [] else [piece])
    else if rest[0] == '/' then (if piece == "" then [] else [piece]) + SegmentsFrom("", rest[1..])
    else SegmentsFrom(piece + [rest[0]], rest[1..])
  }

  type Name = seq<string>

  class SharedBackend {
    var blobs: map<Name, Bytes>

    constructor ()
      ensures blobs == map[]
    {
      blobs := map[];
    }

    method Call(op: Op<string>) returns (a: Answer)
      modifies this
      ensures (blobs, a) == Overwriting(old(blobs), Filed(op))
    {
      match op
      case Put(k, b) => { blobs := blobs[Segments(k) := b]; a := Done; }
      case Get(k) => { a := if Segments(k) in blobs then Blob(blobs[Segments(k)]) else NoBlob; }
      case Exists(k) => { a := Flag(Segments(k) in blobs); }
      case Delete(k) => { blobs := blobs - {Segments(k)}; a := Done; }
    }

    /** A run of calls on a new back end, and their answers. */
    method Replay(ops: seq<Op<string>>) returns (answers: seq<Answer>)
      requires blobs == map[]
      modifies this
      ensures blobs == Own(ops) && answers == OwnAnswers(ops) && ReadsLastPut(ops, answers)
    {
      answers := [];
      var i := 0;
      while i < |ops|
        invariant i <= |ops|
        invariant blobs == Own(ops[..i]) && answers == OwnAnswers(ops[..i])
      {
        assert ops[..i + 1][..i] == ops[..i];
        var a := Call(ops[i]);
        answers := answers + [a];
        i := i + 1;
      }
      assert ops[..|ops|] == ops;
      OwnReads(ops);
    }
  }

  function Filed(op: Op<string>): Op<Name> {
    match op
    case Put(k, b) => Put(Segments(k), b)
    case Get(k) => Get(Segments(k))
    case Exists(k) => Exists(Segments(k))
    case Delete(k) => Delete(Segments(k))
  }

  class LocalStore {
    var blobs: map<Bytes, Bytes>

    constructor ()
      ensures blobs == map[]
    {
      blobs := map[];
    }

    method Call(op: Op<Bytes>) returns (a: Answer)
      modifies this
      ensures (blobs, a) == Keeping(old(blobs), op)
    {
      match op
      case Put(k, b) => { if k !in blobs { blobs := blobs[k := b]; } a := Done; }
      case Get(k) => { a := if k in blobs then Blob(blobs[k]) else NoBlob; }
      case Exists(k) => { a := Flag(k in blobs); }
      case Delete(k) => { if k in blobs { blobs := blobs - {k}; a := Done; } else { a := NotFound; } }
    }

    /** A run of calls on a new store, and their answers. */
    method Replay(ops: seq<Op<Bytes>>) returns (answers: seq<Answer>)
      requires blobs == map[]
      modifies this
      ensures blobs == KeepRun(ops) && answers == KeepAnswers(ops) && ReadsFirstPut(ops, answers)
    {
      answers := [];
      var i := 0;
      while i < |ops|
        invariant i <= |ops|
        invariant blobs == KeepRun(ops[..i]) && answers == KeepAnswers(ops[..i])
      {
        assert ops[..i + 1][..i] == ops[..i];
        var a := Call(ops[i]);
        answers := answers + [a];
        i := i + 1;
      }
      assert ops[..|ops|] == ops;
      KeepReads(ops);
    }
  }

  /** `trim_start_matches('/')` */
  function TrimSlashes(k: string): string { if k != "" && k[0] == '/' then TrimSlashes(k[1..]) else k }

  /** The prefix that a tenant's store gets. */
  function Prefix(domain: string): string { "t/" + domain + "/objects" + "/" }

  function Keyed(domain: string, op: Op<string>): Op<string> {
    match op
    case Put(k, b) => Put(Prefix(domain) + TrimSlashes(k), b)
    case Get(k) => Get(Prefix(domain) + TrimSlashes(k))
    case Exists(k) => Exists(Prefix(domain) + TrimSlashes(k))
    case Delete(k) => Delete(Prefix(domain) + TrimSlashes(k))
  }

  class PrefixedStore {
    const inner: SharedBackend
    const domain: string
    const prefix: string

    ghost predicate Valid() { prefix == Prefix(domain) }

    constructor (inner: SharedBackend, domain: string)
      ensures Valid() && this.inner == inner && this.domain == domain
    {
      this.inner, this.domain := inner, domain;
      var p := "t/" + domain + "/objects";
      this.prefix := if p == "" || p[|p| - 1] == '/' then p else p + "/";
    }

    method Call(op: Op<string>) returns (a: Answer)
      requires Valid()
      modifies inner
      ensures (inner.blobs, a) == Overwriting(old(inner.blobs), Filed(Keyed(domain, op)))
    {
      match op
      case Put(k, b) => { a := inner.Call(Put(prefix + TrimSlashes(k), b)); }
      case Get(k) => { a := inner.Call(Get(prefix + TrimSlashes(k))); }
      case Exists(k) => { a := inner.Call(Exists(prefix + TrimSlashes(k))); }
      case Delete(k) => { a := inner.Call(Delete(prefix + TrimSlashes(k))); }
    }
  }

  // ---- names ----

  lemma {:induction false} SegmentsOfPiece(piece: string, s: string, rest: string)
    requires '/' !in piece && '/' !in s
    ensures SegmentsFrom(piece, s + rest) == SegmentsFrom(piece + s, rest)
    decreases |s|
  {
    if s == "" {
      assert s + rest == rest && piece + s == piece;
    } else {
      assert (s + rest)[0] == s[0] && (s + rest)[1..] == s[1..] + rest;
      assert '/' !in piece + [s[0]] && '/' !in s[1..];
      SegmentsOfPiece(piece + [s[0]], s[1..], rest);
      assert piece + [s[0]] + s[1..] == piece + s;
    }
  }

  /** Text up to a slash contributes its own segments. */
  lemma {:induction false} SegmentsSplit(piece: string, a: string, b: string)
    requires '/' !in piece
    ensures SegmentsFrom(piece, a + ("/" + b)) == SegmentsFrom(piece, a) + Segments(b)
    decreases |a|
  {
    var s := a + ("/" + b);
    if a == "" {
      assert s == "/" + b && s[1..] == b;
    } else {
      assert s[0] == a[0] && s[1..] == a[1..] + ("/" + b);
      if a[0] == '/' {
        SegmentsSplit("", a[1..], b);
      } else {
        SegmentsSplit(piece + [a[0]], a[1..], b);
      }
    }
  }

  lemma {:induction false} SegmentsTrimmed(k: string)
    ensures Segments(TrimSlashes(k)) == Segments(k)
    decreases |k|
  {
    if k != "" && k[0] == '/' { SegmentsTrimmed(k[1..]); }
  }

  lemma SegmentsPlain(s: string)
    requires s != "" && '/' !in s
    ensures Segments(s) == [s]
  {
    SegmentsOfPiece("", s, "");
    assert s + "" == s && "" + s == s;
  }

  /** The names of one tenant's objects all start with this. */
  function Root(domain: string): Name { ["t"] + Segments(domain) + ["objects"] }

  lemma PrefixParts(domain: string, key: string)
    ensures Prefix(domain) + key == "t" + ("/" + (domain + ("/" + ("objects" + ("/" + key)))))
  {
  }

  lemma PrefixedName(domain: string, k: string)
    ensures Segments(Prefix(domain) + TrimSlashes(k)) == Root(domain) + Segments(k)
  {
    var key := TrimSlashes(k);
    PrefixParts(domain, key);
    SegmentsTrimmed(k);
    ThreeParts("t", domain, "objects", key);
  }

  lemma ThreeParts(a: string, b: string, c: string, rest: string)
    requires a != "" && c != "" && '/' !in a && '/' !in c
    ensures Segments(a + ("/" + (b + ("/" + (c + ("/" + rest)))))) == [a] + Segments(b) + [c] + Segments(rest)
  {
    SegmentsSplit("", a, b + ("/" + (c + ("/" + rest))));
    SegmentsSplit("", b, c + ("/" + rest));
    SegmentsSplit("", c, rest);
    SegmentsPlain(a);
    SegmentsPlain(c);
  }

  function JoinPath(segs: seq<string>): string {
    if segs == [] then "" else segs[0] + ("/" + JoinPath(segs[1..]))
  }

  lemma {:induction false} SegmentsOfJoin(segs: seq<string>)
    requires forall s | s in segs :: s != "" && '/' !in s
    ensures Segments(JoinPath(segs)) == segs
    decreases |segs|
  {
    if segs != [] {
      assert segs[0] in segs && forall s | s in segs[1..] :: s in segs;
      SegmentsSplit("", segs[0], JoinPath(segs[1..]));
      SegmentsPlain(segs[0]);
      SegmentsOfJoin(segs[1..]);
    }
  }

  /** Neither tenant's names extend the other's. */
  predicate Apart(d: string, e: string) { !(Root(d) <= Root(e)) && !(Root(e) <= Root(d)) }

  lemma ApartNames(d: string, e: string, m: Name, n: Name)
    requires Apart(d, e)
    ensures Root(d) + m != Root(e) + n
  {
    var x, y := Root(d) + m, Root(e) + n;
    assert x[..|Root(d)|] == Root(d) && y[..|Root(e)|] == Root(e);
    assert |Root(d)| <= |Root(e)| ==> y[..|Root(d)|] == Root(e)[..|Root(d)|];
    assert |Root(e)| <= |Root(d)| ==> x[..|Root(e)|] == Root(d)[..|Root(e)|];
  }

  /** Domains that are non-empty, without slashes and different are apart. */
  lemma PlainDomainsApart(d: string, e: string)
    requires d != "" && e != "" && '/' !in d && '/' !in e && d != e
    ensures Apart(d, e)
  {
    SegmentsPlain(d);
    SegmentsPlain(e);
    assert Root(d)[1] == d && Root(e)[1] == e;
  }

  lemma OverlappingKeys(d: string, e: string) returns (k: string, m: string)
    requires !Apart(d, e)
    ensures Root(d) + Segments(k) == Root(e) + Segments(m)
  {
    if Root(d) <= Root(e) { k, m := Reach(d, e), ""; } else { k, m := "", Reach(e, d); }
  }

  /** The key by which tenant `d` reaches everything under a root that extends its own. */
  ghost function Reach(d: string, e: string): (k: string)
    requires Root(d) <= Root(e)
    ensures Root(d) + Segments(k) == Root(e)
  {
    var suffix := Root(e)[|Root(d)|..];
    RootPieces(e);
    assert forall s | s in suffix :: s in Root(e);
    SegmentsOfJoin(suffix);
    JoinPath(suffix)
  }

  lemma RootPieces(d: string)
    ensures forall s | s in Root(d) :: s != "" && '/' !in s
  {
    assert '/' !in "t" && '/' !in "objects";
  }

  // ---- tenants on one back end ----

  datatype Call = Call(domain: string, op: Op<string>)

  /** The shared back end after a run of calls by several tenants, in the order they arrive. */
  function Shared(calls: seq<Call>): map<Name, Bytes> {
    if calls == [] then map[]
    else
      var last := calls[|calls| - 1];
      Overwriting(Shared(calls[..|calls| - 1]), Filed(Keyed(last.domain, last.op))).0
  }

  /** The answers one tenant gets in that run. */
  function Seen(calls: seq<Call>, d: string): seq<Answer> {
    if calls == [] then []
    else
      var init, last := calls[..|calls| - 1], calls[|calls| - 1];
      Seen(init, d) + if last.domain == d then [Overwriting(Shared(init), Filed(Keyed(d, last.op))).1] else []
  }

  function Only(calls: seq<Call>, d: string): seq<Op<string>> {
    if calls == [] then []
    else
      var init, last := calls[..|calls| - 1], calls[|calls| - 1];
      Only(init, d) + if last.domain == d then [last.op] else []
  }

  /** The same tenant alone on a back end of its own, without a prefix. */
  function Own(ops: seq<Op<string>>): map<Name, Bytes> {
    if ops == [] then map[] else Overwriting(Own(ops[..|ops| - 1]), Filed(ops[|ops| - 1])).0
  }

  function OwnAnswers(ops: seq<Op<string>>): seq<Answer> {
    if ops == [] then []
    else OwnAnswers(ops[..|ops| - 1]) + [Overwriting(Own(ops[..|ops| - 1]), Filed(ops[|ops| - 1])).1]
  }

  ghost predicate Mirrors(shared: map<Name, Bytes>, own: map<Name, Bytes>, root: Name) {
    forall n: Name :: (root + n in shared <==> n in own) && (n in own ==> shared[root + n] == own[n])
  }

  lemma Cancel(root: Name, m: Name, n: Name)
    ensures root + m == root + n <==> m == n
  {
    assert (root + m)[|root|..] == m && (root + n)[|root|..] == n;
  }

  function Rooted(root: Name, op: Op<Name>): Op<Name> {
    match op
    case Put(n, b) => Put(root + n, b)
    case Get(n) => Get(root + n)
    case Exists(n) => Exists(root + n)
    case Delete(n) => Delete(root + n)
  }

  lemma KeyedIsRooted(d: string, op: Op<string>)
    ensures Filed(Keyed(d, op)) == Rooted(Root(d), Filed(op))
  {
    PrefixedName(d, op.key);
  }

  lemma OwnCallMirrors(shared: map<Name, Bytes>, own: map<Name, Bytes>, root: Name, op: Op<Name>)
    requires Mirrors(shared, own, root)
    ensures Overwriting(shared, Rooted(root, op)).1 == Overwriting(own, op).1
    ensures Mirrors(Overwriting(shared, Rooted(root, op)).0, Overwriting(own, op).0, root)
  {
    assert root + op.key in shared <==> op.key in own;
    forall n: Name
      ensures var s, o := Overwriting(shared, Rooted(root, op)).0, Overwriting(own, op).0;
              (root + n in s <==> n in o) && (n in o ==> s[root + n] == o[n])
    {
      Cancel(root, op.key, n);
      assert root + n in shared <==> n in own;
    }
  }

  lemma OtherCallMirrors(shared: map<Name, Bytes>, own: map<Name, Bytes>, d: string, e: string, op: Op<Name>)
    requires Mirrors(shared, own, Root(d)) && Apart(d, e)
    ensures Mirrors(Overwriting(shared, Rooted(Root(e), op)).0, own, Root(d))
  {
    forall n: Name
      ensures var s := Overwriting(shared, Rooted(Root(e), op)).0;
              (Root(d) + n in s <==> n in own) && (n in own ==> s[Root(d) + n] == own[n])
    {
      ApartNames(d, e, n, op.key);
      assert Root(d) + n in shared <==> n in own;
    }
  }

  /** Whatever tenants apart from it do in between, a tenant gets the answers of a store of its own. */
  lemma {:induction false} Isolated(calls: seq<Call>, d: string)
    requires forall c | c in calls :: c.domain == d || Apart(d, c.domain)
    ensures Seen(calls, d) == OwnAnswers(Only(calls, d))
    ensures Mirrors(Shared(calls), Own(Only(calls, d)), Root(d))
    decreases |calls|
  {
    if calls != [] {
      var init, last := calls[..|calls| - 1], calls[|calls| - 1];
      assert last in calls && forall c | c in init :: c in calls;
      Isolated(init, d);
      KeyedIsRooted(last.domain, last.op);
      var own := Only(init, d);
      if last.domain == d {
        OwnCallMirrors(Shared(init), Own(own), Root(d), Filed(last.op));
        assert Only(calls, d)[..|own|] == own;
      } else {
        OtherCallMirrors(Shared(init), Own(own), d, last.domain, Filed(last.op));
        assert Only(calls, d) == own;
      }
    }
  }

  ghost predicate IsolatedAlways(d: string, e: string) {
    forall calls: seq<Call> | (forall c | c in calls :: c.domain == d || c.domain == e) ::
      Seen(calls, d) == OwnAnswers(Only(calls, d))
  }

  /** What a store answers when another tenant puts the name that a tenant looks for. */
  lemma PutThenLook(put: Call, look: Call, d: string)
    requires put.domain != d && look.domain == d && put.op.Put? && look.op.Exists?
    requires Filed(Keyed(put.domain, put.op)).key == Filed(Keyed(d, look.op)).key
    ensures Seen([put, look], d) == [Flag(true)] && OwnAnswers(Only([put, look], d)) == [Flag(false)]
  {
    var calls := [put, look];
    assert calls[..1] == [put] && [put][..0] == [];
    assert Shared([]) == map[] && Seen([], d) == [] && Only([], d) == [];
    assert Seen([put], d) == [] && Only([put], d) == [];
    var ops := Only(calls, d);
    assert ops == [look.op] && ops[..0] == [];
    assert Own([]) == map[];
  }

  lemma ForeignPutShows(d: string, e: string)
    requires d != e && !Apart(d, e)
    ensures !IsolatedAlways(d, e)
  {
    var k, m := OverlappingKeys(d, e);
    var put, look := Call(e, Put(m, [])), Call(d, Exists(k));
    KeyedIsRooted(e, put.op);
    KeyedIsRooted(d, look.op);
    PutThenLook(put, look, d);
  }

  /** Two tenants of one back end are isolated in every run exactly when their names are apart. */
  lemma IsolatedIffApart(d: string, e: string)
    requires d != e
    ensures IsolatedAlways(d, e) <==> Apart(d, e)
  {
    if Apart(d, e) {
      forall calls: seq<Call> | forall c | c in calls :: c.domain == d || c.domain == e
        ensures Seen(calls, d) == OwnAnswers(Only(calls, d))
      {
        Isolated(calls, d);
      }
    } else {
      ForeignPutShows(d, e);
    }
  }

  /** A domain that goes on after another's with a slash and `objects` lands among the other's objects. */
  lemma SlashInDomain(d: string, x: string)
    requires d != "" && '/' !in d
    ensures !IsolatedAlways(d, d + ("/" + ("objects" + ("/" + x))))
  {
    var e := d + ("/" + ("objects" + ("/" + x)));
    NestedRoot(d, x);
    assert |e| > |d|;
    ForeignPutShows(d, e);
  }

  lemma NestedRoot(d: string, x: string)
    requires d != "" && '/' !in d
    ensures Root(d) <= Root(d + ("/" + ("objects" + ("/" + x))))
  {
    SegmentsPlain(d);
    SegmentsPlain("objects");
    SegmentsSplit("", d, "objects" + ("/" + x));
    SegmentsSplit("", "objects", x);
  }

  // ---- what a read finds, told from the calls alone ----

  predicate PutsAt(op: Op<string>, k: string, b: Bytes) { op.Put? && Segments(op.key) == Segments(k) && op.bytes == b }

  predicate Writes(op: Op<string>, k: string) { (op.Put? || op.Delete?) && Segments(op.key) == Segments(k) }

  /** Some call put these bytes under the name of `k`, and none has put or deleted under that name since. */
  ghost predicate LastPut(ops: seq<Op<string>>, k: string, b: Bytes) {
    exists i: nat :: i < |ops| && PutsAt(ops[i], k, b) && forall j | i < j < |ops| :: !Writes(ops[j], k)
  }

  ghost predicate RightAfter(ops: seq<Op<string>>, op: Op<string>, a: Answer) {
    match op
    case Put(_, _) => a == Done
    case Delete(_) => a == Done
    case Get(k) =>
      (forall b :: a == Blob(b) <==> LastPut(ops, k, b)) && (a == NoBlob <==> forall b :: !LastPut(ops, k, b))
    case Exists(k) => a == Flag(exists b :: LastPut(ops, k, b))
  }

  /** Every read is answered with what was last put, or as absent if nothing is left of it. */
  ghost predicate ReadsLastPut(ops: seq<Op<string>>, answers: seq<Answer>) {
    |answers| == |ops| && forall i | 0 <= i < |ops| :: RightAfter(ops[..i], ops[i], answers[i])
  }

  lemma LastPutStays(ops: seq<Op<string>>, op: Op<string>, k: string, b: Bytes)
    requires LastPut(ops, k, b) && !Writes(op, k)
    ensures LastPut(ops + [op], k, b)
  {
    var i: nat :| i < |ops| && PutsAt(ops[i], k, b) && forall j | i < j < |ops| :: !Writes(ops[j], k);
    assert PutsAt((ops + [op])[i], k, b);
  }

  lemma LastPutWas(ops: seq<Op<string>>, op: Op<string>, k: string, b: Bytes)
    requires LastPut(ops + [op], k, b) && !PutsAt(op, k, b)
    ensures LastPut(ops, k, b) && !Writes(op, k)
  {
    var all := ops + [op];
    var i: nat :| i < |all| && PutsAt(all[i], k, b) && forall j | i < j < |all| :: !Writes(all[j], k);
    assert PutsAt(ops[i], k, b) && all[|ops|] == op;
    assert forall j | 0 <= j < |ops| :: ops[j] == all[j];
  }

  lemma LastPutStep(ops: seq<Op<string>>, op: Op<string>, k: string, b: Bytes)
    ensures LastPut(ops + [op], k, b) <==> PutsAt(op, k, b) || (LastPut(ops, k, b) && !Writes(op, k))
  {
    if PutsAt(op, k, b) {
      assert (ops + [op])[|ops|] == op;
    } else if LastPut(ops + [op], k, b) {
      LastPutWas(ops, op, k, b);
    } else if LastPut(ops, k, b) && !Writes(op, k) {
      LastPutStays(ops, op, k, b);
    }
  }

  lemma {:induction false} OwnHoldsLast(ops: seq<Op<string>>, k: string, b: Bytes)
    ensures Segments(k) in Own(ops) && Own(ops)[Segments(k)] == b <==> LastPut(ops, k, b)
    decreases |ops|
  {
    if ops != [] {
      var init, last := ops[..|ops| - 1], ops[|ops| - 1];
      assert ops == init + [last];
      OwnHoldsLast(init, k, b);
      LastPutStep(init, last, k, b);
    }
  }

  lemma OwnAnswer(ops: seq<Op<string>>, op: Op<string>)
    ensures RightAfter(ops, op, Overwriting(Own(ops), Filed(op)).1)
  {
    forall b
      ensures Segments(op.key) in Own(ops) && Own(ops)[Segments(op.key)] == b <==> LastPut(ops, op.key, b)
    {
      OwnHoldsLast(ops, op.key, b);
    }
    assert Segments(op.key) in Own(ops) ==> LastPut(ops, op.key, Own(ops)[Segments(op.key)]);
  }

  /** Reads after writes on a shared back end: in any run every read finds what was last put. */
  lemma {:induction false} OwnReads(ops: seq<Op<string>>)
    ensures ReadsLastPut(ops, OwnAnswers(ops))
    decreases |ops|
  {
    if ops != [] {
      var init := ops[..|ops| - 1];
      OwnReads(init);
      OwnAnswer(init, ops[|ops| - 1]);
      ReadsGrow(ops, OwnAnswers(ops));
    }
  }

  lemma ReadsGrow(ops: seq<Op<string>>, answers: seq<Answer>)
    requires |answers| == |ops| > 0
    requires var n := |ops| - 1; ReadsLastPut(ops[..n], answers[..n]) && RightAfter(ops[..n], ops[n], answers[n])
    ensures ReadsLastPut(ops, answers)
  {
    var n := |ops| - 1;
    forall i | 0 <= i < |ops| ensures RightAfter(ops[..i], ops[i], answers[i]) {
      if i < n { assert ops[..n][..i] == ops[..i] && ops[..n][i] == ops[i] && answers[..n][i] == answers[i]; }
    }
  }

  /** So does a tenant, counting its own calls alone, whatever tenants apart from it do in between. */
  lemma TenantReads(calls: seq<Call>, d: string)
    requires forall c | c in calls :: c.domain == d || Apart(d, c.domain)
    ensures ReadsLastPut(Only(calls, d), Seen(calls, d))
  {
    Isolated(calls, d);
    OwnReads(Only(calls, d));
  }

  /** The calls after the last delete of `k`. */
  function SinceDelete(ops: seq<Op<Bytes>>, k: Bytes): seq<Op<Bytes>> {
    if ops == [] || ops[|ops| - 1] == Delete(k) then []
    else SinceDelete(ops[..|ops| - 1], k) + [ops[|ops| - 1]]
  }

  predicate PutsUnder(op: Op<Bytes>, k: Bytes) { op.Put? && op.key == k }

  /** The first put of `k` since it was last deleted put these bytes. */
  ghost predicate FirstPut(ops: seq<Op<Bytes>>, k: Bytes, b: Bytes) {
    var since := SinceDelete(ops, k);
    exists i: nat :: i < |since| && since[i] == Put(k, b) && forall j | 0 <= j < i :: !PutsUnder(since[j], k)
  }

  ghost predicate KeptAfter(ops: seq<Op<Bytes>>, op: Op<Bytes>, a: Answer) {
    match op
    case Put(_, _) => a == Done
    case Delete(k) => a == if exists b :: FirstPut(ops, k, b) then Done else NotFound
    case Get(k) =>
      (forall b :: a == Blob(b) <==> FirstPut(ops, k, b)) && (a == NoBlob <==> forall b :: !FirstPut(ops, k, b))
    case Exists(k) => a == Flag(exists b :: FirstPut(ops, k, b))
  }

  ghost predicate ReadsFirstPut(ops: seq<Op<Bytes>>, answers: seq<Answer>) {
    |answers| == |ops| && forall i | 0 <= i < |ops| :: KeptAfter(ops[..i], ops[i], answers[i])
  }

  lemma {:induction false} KeepHoldsSome(ops: seq<Op<Bytes>>, k: Bytes)
    ensures k in KeepRun(ops) <==> exists op :: op in SinceDelete(ops, k) && PutsUnder(op, k)
    decreases |ops|
  {
    if ops != [] {
      var init, last := ops[..|ops| - 1], ops[|ops| - 1];
      KeepHoldsSome(init, k);
      if last != Delete(k) {
        var since, before := SinceDelete(ops, k), SinceDelete(init, k);
        assert since == before + [last];
        assert forall op :: op in since <==> op in before || op == last;
        assert last.Put? && last.key == k ==> PutsUnder(last, k);
      }
    }
  }

  lemma {:induction false} KeepHoldsFirst(ops: seq<Op<Bytes>>, k: Bytes)
    ensures k in KeepRun(ops) ==> FirstPut(ops, k, KeepRun(ops)[k])
    decreases |ops|
  {
    if k in KeepRun(ops) {
      var n := |ops| - 1;
      var since, before := SinceDelete(ops, k), SinceDelete(ops[..n], k);
      assert since == before + [ops[n]];
      KeepHoldsSome(ops[..n], k);
      if k in KeepRun(ops[..n]) {
        KeepHoldsFirst(ops[..n], k);
        var b := KeepRun(ops[..n])[k];
        var i: nat :| i < |before| && before[i] == Put(k, b) && forall j | 0 <= j < i :: !PutsUnder(before[j], k);
        assert since[i] == Put(k, b) && forall j | 0 <= j < i :: since[j] == before[j];
      } else {
        assert since[|before|] == Put(k, KeepRun(ops)[k]);
        assert forall j | 0 <= j < |before| :: before[j] in before && since[j] == before[j];
      }
    }
  }

  lemma FirstPutUnique(ops: seq<Op<Bytes>>, k: Bytes, b: Bytes, c: Bytes)
    requires FirstPut(ops, k, b) && FirstPut(ops, k, c)
    ensures b == c
  {
    var since := SinceDelete(ops, k);
    var i: nat :| i < |since| && since[i] == Put(k, b) && forall j | 0 <= j < i :: !PutsUnder(since[j], k);
    var m: nat :| m < |since| && since[m] == Put(k, c) && forall j | 0 <= j < m :: !PutsUnder(since[j], k);
    assert PutsUnder(since[i], k) && PutsUnder(since[m], k);
  }

  lemma KeepAnswer(ops: seq<Op<Bytes>>, op: Op<Bytes>)
    ensures KeptAfter(ops, op, Keeping(KeepRun(ops), op).1)
  {
    var k := op.key;
    KeepHoldsSome(ops, k);
    KeepHoldsFirst(ops, k);
    forall b
      ensures k in KeepRun(ops) && KeepRun(ops)[k] == b <==> FirstPut(ops, k, b)
    {
      if FirstPut(ops, k, b) {
        var since := SinceDelete(ops, k);
        var i: nat :| i < |since| && since[i] == Put(k, b);
        assert since[i] in since && PutsUnder(since[i], k);
        FirstPutUnique(ops, k, b, KeepRun(ops)[k]);
      }
    }
  }

  /** Reads after writes on the local store: in any run every read finds what was first put and not deleted since. */
  lemma {:induction false} KeepReads(ops: seq<Op<Bytes>>)
    ensures ReadsFirstPut(ops, KeepAnswers(ops))
    decreases |ops|
  {
    if ops != [] {
      var init := ops[..|ops| - 1];
      KeepReads(init);
      KeepAnswer(init, ops[|ops| - 1]);
      KeptGrow(ops, KeepAnswers(ops));
    }
  }

  lemma KeptGrow(ops: seq<Op<Bytes>>, answers: seq<Answer>)
    requires |answers| == |ops| > 0
    requires var n := |ops| - 1; ReadsFirstPut(ops[..n], answers[..n]) && KeptAfter(ops[..n], ops[n], answers[n])
    ensures ReadsFirstPut(ops, answers)
  {
    var n := |ops| - 1;
    forall i | 0 <= i < |ops| ensures KeptAfter(ops[..i], ops[i], answers[i]) {
      if i < n { assert ops[..n][..i] == ops[..i] && ops[..n][i] == ops[i] && answers[..n][i] == answers[i]; }
    }
  }

  // ---- keeping and overwriting ----

  ghost function KeepRun(ops: seq<Op<Bytes>>): map<Bytes, Bytes> {
    if ops == [] then map[] else Keeping(KeepRun(ops[..|ops| - 1]), ops[|ops| - 1]).0
  }

  ghost function KeepAnswers(ops: seq<Op<Bytes>>): seq<Answer> {
    if ops == [] then []
    else KeepAnswers(ops[..|ops| - 1]) + [Keeping(KeepRun(ops[..|ops| - 1]), ops[|ops| - 1]).1]
  }

  ghost function OverRun(ops: seq<Op<Bytes>>): map<Bytes, Bytes> {
    if ops == [] then map[] else Overwriting(OverRun(ops[..|ops| - 1]), ops[|ops| - 1]).0
  }

  /** Every object is put under the hash of its bytes. */
  ghost predicate ContentKeys(h: SyncModel.Hasher, ops: seq<Op<Bytes>>) {
    forall op | op in ops && op.Put? :: op.bytes in h.known && op.key == h.sha(op.bytes)
  }

  /** Under content hashes the two kinds of store hold the same objects after every run. */
  lemma {:induction false} KeepingIsOverwriting(h: SyncModel.Hasher, ops: seq<Op<Bytes>>)
    requires h.Valid() && ContentKeys(h, ops)
    ensures KeepRun(ops) == OverRun(ops)
    ensures forall k | k in KeepRun(ops) :: KeepRun(ops)[k] in h.known && h.sha(KeepRun(ops)[k]) == k
    decreases |ops|
  {
    if ops != [] {
      var init, last := ops[..|ops| - 1], ops[|ops| - 1];
      assert last in ops && forall op | op in init :: op in ops;
      KeepingIsOverwriting(h, init);
      var blobs := KeepRun(init);
      assert last.Put? && last.key in blobs ==> blobs[last.key := last.bytes] == blobs;
      assert last.Delete? && last.key !in blobs ==> blobs - {last.key} == blobs;
    }
  }

  /** So the next call gets the same answer, unless it deletes what is not there. */
  lemma SameAnswers(h: SyncModel.Hasher, ops: seq<Op<Bytes>>, op: Op<Bytes>)
    requires h.Valid() && ContentKeys(h, ops)
    ensures Keeping(KeepRun(ops), op).1 == Overwriting(OverRun(ops), op).1 <==> !(op.Delete? && op.key !in KeepRun(ops))
  {
    KeepingIsOverwriting(h, ops);
  }
}
