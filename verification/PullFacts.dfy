/** What a pull leaves in the share, file by file. */
module PullFacts {
  import opened Common
  import opened ByteStrings
  import opened TreeHash
  import opened ConflictNames
  import opened SyncModel

  /** `p` was reported as changed and its blob arrived. */
  ghost predicate Pulled(changed: seq<Bytes>, es: seq<Entry>, got: map<Bytes, Bytes>, p: Bytes) {
    p in changed && FindEntry(es, p).Some? && FindEntry(es, p).value.blobId in got
  }

  /** `p` was pulled over a local file with other content, so a copy of that file was kept. */
  ghost predicate Kept(h: Hasher, share: Share, changed: seq<Bytes>, es: seq<Entry>, got: map<Bytes, Bytes>, p: Bytes) {
    Pulled(changed, es, got, p) && p in share && h.sha(share[p].bytes) != FindEntry(es, p).value.blobId
  }

  /** The clock has moved on since the last conflict copy: new copies get names nobody uses. */
  ghost predicate FreshNames(share: Share, changed: seq<Bytes>, v: Visit)
    requires v.Valid()
  {
    forall p | p in changed :: CopyName(v, p) !in share && CopyName(v, p) !in changed
  }

  ghost predicate Fetched(changed: seq<Bytes>, es: seq<Entry>, got: map<Bytes, Bytes>, after: Share) {
    forall p | Pulled(changed, es, got, p) ::
      p in after && after[p].bytes == got[FindEntry(es, p).value.blobId]
  }

  ghost predicate CopiesKept(h: Hasher, share: Share, changed: seq<Bytes>, es: seq<Entry>,
                             got: map<Bytes, Bytes>, v: Visit, after: Share)
    requires v.Valid()
  {
    forall p | Kept(h, share, changed, es, got, p) ::
      CopyName(v, p) in after && after[CopyName(v, p)].bytes == share[p].bytes
  }

  ghost predicate OthersUntouched(share: Share, changed: seq<Bytes>, es: seq<Entry>,
                                  got: map<Bytes, Bytes>, after: Share) {
    forall q | q in share && !Pulled(changed, es, got, q) :: q in after && after[q] == share[q]
  }

  ghost predicate IsCopy(h: Hasher, share: Share, changed: seq<Bytes>, es: seq<Entry>,
                         got: map<Bytes, Bytes>, v: Visit, q: Bytes)
    requires v.Valid()
  {
    exists p :: Kept(h, share, changed, es, got, p) && q == CopyName(v, p)
  }

  ghost predicate NothingElse(h: Hasher, share: Share, changed: seq<Bytes>, es: seq<Entry>,
                              got: map<Bytes, Bytes>, v: Visit, after: Share)
    requires v.Valid()
  {
    forall q | q in after ::
      q in share || Pulled(changed, es, got, q) || IsCopy(h, share, changed, es, got, v, q)
  }

  /** The share after pulling, described path by path. */
  ghost predicate PullDescribed(h: Hasher, share: Share, changed: seq<Bytes>, es: seq<Entry>,
                                got: map<Bytes, Bytes>, v: Visit, after: Share)
    requires v.Valid()
  {
    && Fetched(changed, es, got, after)
    && CopiesKept(h, share, changed, es, got, v, after)
    && OthersUntouched(share, changed, es, got, after)
    && NothingElse(h, share, changed, es, got, v, after)
  }

  lemma {:induction false} PullDescribes(h: Hasher, c: Client, changed: seq<Bytes>, es: seq<Entry>,
                                         got: map<Bytes, Bytes>, v: Visit)
    requires v.Valid() && Distinct(changed) && FreshNames(c.share, changed, v)
    ensures PullDescribed(h, c.share, changed, es, got, v, PullAll(h, c, changed, es, got, v).share)
    decreases |changed|
  {
    if changed != [] {
      var n := |changed| - 1;
      var init, last := changed[..n], changed[n];
      assert changed == init + [last];
      PullDescribes(h, c, init, es, got, v);
      var mid := PullAll(h, c, init, es, got, v).share;
      if Pulled(changed, es, got, last) {
        NotYetTouched(h, c.share, init, last, es, got, v, mid);
        PullStep(h, c.share, init, last, es, got, v, mid);
      } else {
        PullSkips(h, c.share, init, last, es, got, v, mid);
      }
    }
  }

  lemma NotYetTouched(h: Hasher, share: Share, init: seq<Bytes>, last: Bytes, es: seq<Entry>,
                      got: map<Bytes, Bytes>, v: Visit, mid: Share)
    requires v.Valid() && last !in init && FreshNames(share, init + [last], v)
    requires OthersUntouched(share, init, es, got, mid) && NothingElse(h, share, init, es, got, v, mid)
    ensures last in mid <==> last in share
    ensures last in mid ==> mid[last] == share[last]
  {
    assert forall p | p in init :: p in init + [last];
    assert last in init + [last];
  }

  lemma PullSkips(h: Hasher, share: Share, init: seq<Bytes>, last: Bytes, es: seq<Entry>,
                  got: map<Bytes, Bytes>, v: Visit, mid: Share)
    requires v.Valid() && !Pulled(init + [last], es, got, last) && PullDescribed(h, share, init, es, got, v, mid)
    ensures PullDescribed(h, share, init + [last], es, got, v, mid)
  {
    forall p ensures Pulled(init + [last], es, got, p) <==> Pulled(init, es, got, p) {}
    assert forall p :: Kept(h, share, init + [last], es, got, p) <==> Kept(h, share, init, es, got, p);
  }

  lemma PullStep(h: Hasher, share: Share, init: seq<Bytes>, last: Bytes, es: seq<Entry>,
                 got: map<Bytes, Bytes>, v: Visit, mid: Share)
    requires v.Valid() && last !in init && FreshNames(share, init + [last], v)
    requires Pulled(init + [last], es, got, last)
    requires PullDescribed(h, share, init, es, got, v, mid)
    requires last in mid <==> last in share
    requires last in mid ==> mid[last] == share[last]
    ensures var e := FindEntry(es, last).value;
            PullDescribed(h, share, init + [last], es, got, v, Materialize(h, mid, e, got[e.blobId], v))
  {
    PullStepFetches(h, share, init, last, es, got, v, mid);
    PullStepCopies(h, share, init, last, es, got, v, mid);
    PullStepOrigin(h, share, init, last, es, got, v, mid);
  }

  lemma PullStepFetches(h: Hasher, share: Share, init: seq<Bytes>, last: Bytes, es: seq<Entry>,
                        got: map<Bytes, Bytes>, v: Visit, mid: Share)
    requires v.Valid() && last !in init && FreshNames(share, init + [last], v)
    requires Pulled(init + [last], es, got, last)
    requires Fetched(init, es, got, mid) && OthersUntouched(share, init, es, got, mid)
    ensures var e := FindEntry(es, last).value;
            var after := Materialize(h, mid, e, got[e.blobId], v);
            Fetched(init + [last], es, got, after) && OthersUntouched(share, init + [last], es, got, after)
  {
    NameIsNew(h, share, init, last, es, got, v);
  }

  lemma NameIsNew(h: Hasher, share: Share, init: seq<Bytes>, last: Bytes, es: seq<Entry>,
                  got: map<Bytes, Bytes>, v: Visit)
    requires v.Valid() && last !in init && FreshNames(share, init + [last], v)
    ensures CopyName(v, last) !in share && CopyName(v, last) != last && CopyName(v, last) !in init
    ensures forall p | Kept(h, share, init, es, got, p) :: CopyName(v, p) != CopyName(v, last) && CopyName(v, p) != last
    ensures forall p :: Pulled(init + [last], es, got, p) <==> Pulled(init, es, got, p) || (p == last && Pulled(init + [last], es, got, last))
  {
    assert last in init + [last];
    assert forall p | p in init :: p in init + [last];
    forall p | Kept(h, share, init, es, got, p)
      ensures CopyName(v, p) != CopyName(v, last) && CopyName(v, p) != last
    {
      assert p in init + [last];
      if CopyName(v, p) == CopyName(v, last) {
        ConflictNameInjective(p, last, v.who, v.stamp(p), v.stamp(last));
      }
    }
  }

  lemma PullStepCopies(h: Hasher, share: Share, init: seq<Bytes>, last: Bytes, es: seq<Entry>,
                       got: map<Bytes, Bytes>, v: Visit, mid: Share)
    requires v.Valid() && last !in init && FreshNames(share, init + [last], v)
    requires Pulled(init + [last], es, got, last)
    requires CopiesKept(h, share, init, es, got, v, mid)
    requires last in mid <==> last in share
    requires last in mid ==> mid[last] == share[last]
    ensures var e := FindEntry(es, last).value;
            CopiesKept(h, share, init + [last], es, got, v, Materialize(h, mid, e, got[e.blobId], v))
  {
    NameIsNew(h, share, init, last, es, got, v);
    var e := FindEntry(es, last).value;
    var after := Materialize(h, mid, e, got[e.blobId], v);
    forall p | Kept(h, share, init + [last], es, got, p)
      ensures CopyName(v, p) in after && after[CopyName(v, p)].bytes == share[p].bytes
    {
      if p != last { assert Kept(h, share, init, es, got, p); }
    }
  }

  lemma PullStepOrigin(h: Hasher, share: Share, init: seq<Bytes>, last: Bytes, es: seq<Entry>,
                       got: map<Bytes, Bytes>, v: Visit, mid: Share)
    requires v.Valid() && last !in init && FreshNames(share, init + [last], v)
    requires Pulled(init + [last], es, got, last)
    requires NothingElse(h, share, init, es, got, v, mid)
    requires last in mid <==> last in share
    requires last in mid ==> mid[last] == share[last]
    ensures var e := FindEntry(es, last).value;
            NothingElse(h, share, init + [last], es, got, v, Materialize(h, mid, e, got[e.blobId], v))
  {
    NameIsNew(h, share, init, last, es, got, v);
    var changed := init + [last];
    var e := FindEntry(es, last).value;
    var after := Materialize(h, mid, e, got[e.blobId], v);
    forall q | q in after && q !in share && !Pulled(changed, es, got, q)
      ensures IsCopy(h, share, changed, es, got, v, q)
    {
      if q in mid {
        assert IsCopy(h, share, init, es, got, v, q);
        var p :| Kept(h, share, init, es, got, p) && q == CopyName(v, p);
        assert Kept(h, share, changed, es, got, p);
      } else {
        assert Kept(h, share, changed, es, got, last) && q == CopyName(v, last);
      }
    }
  }

  /** Pulling adds the fetched blobs to the cache, all of them and nothing else, and drops none. */
  lemma {:induction false} PullCache(h: Hasher, c: Client, changed: seq<Bytes>, es: seq<Entry>,
                                     got: map<Bytes, Bytes>, v: Visit)
    requires v.Valid()
    ensures var after := PullAll(h, c, changed, es, got, v).cache;
            && (forall k | k in after :: (k in c.cache && after[k] == c.cache[k]) || (k in got && after[k] == got[k]))
            && (forall k | k in c.cache :: k in after && after[k] == c.cache[k])
            && (forall p | Pulled(changed, es, got, p) :: FindEntry(es, p).value.blobId in after)
    decreases |changed|
  {
    if changed != [] {
      var n := |changed| - 1;
      PullCache(h, c, changed[..n], es, got, v);
      assert forall p | p in changed :: p in changed[..n] || p == changed[n];
      assert forall p | Pulled(changed, es, got, p) :: Pulled(changed[..n], es, got, p) || p == changed[n];
    }
  }
}
