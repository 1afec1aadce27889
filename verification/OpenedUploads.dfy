/** Uploads of a tenant when nothing is assumed of what the sessions send: only opened chunks count. */
module OpenedUploads {
  import opened Common
  import opened ByteStrings
  import opened E2E
  import opened Upload
  import opened SharedUpload

  /** What a session did since it last started an upload. */
  function SincePut(run: seq<Action>, s: nat): seq<Action> {
    if run == [] || (run[|run| - 1].Put? && run[|run| - 1].s == s) then []
    else SincePut(run[..|run| - 1], s) + [run[|run| - 1]]
  }

  predicate OpensChunk(c: Cipher, a: Action, s: nat, i: nat) { a.Chunk? && a.s == s && Opens(c, a.payload, i) }

  ghost predicate OpenedIn(c: Cipher, run: seq<Action>, s: nat, i: nat) {
    exists a :: a in run && OpensChunk(c, a, s, i)
  }

  /** The count is right, and every flag is of a chunk of this upload that a key opened. */
  ghost predicate Earned(c: Cipher, p: Progress, run: seq<Action>, s: nat) {
    && p.count == CountTrue(p.received)
    && forall i | 0 <= i < |p.received| && p.received[i] :: OpenedIn(c, run, s, i)
  }

  ghost predicate AllEarned(c: Cipher, t: Tenant, run: seq<Action>) {
    forall s | s in t.pending :: Earned(c, t.pending[s], SincePut(run, s), s)
  }

  lemma EarnedStays(c: Cipher, p: Progress, run: seq<Action>, s: nat, a: Action)
    requires Earned(c, p, run, s)
    ensures Earned(c, p, run + [a], s)
  {
    assert forall b | b in run :: b in run + [a];
    assert forall i | OpenedIn(c, run, s, i) :: OpenedIn(c, run + [a], s, i);
  }

  lemma EarnedGrows(c: Cipher, p: Progress, run: seq<Action>, s: nat, payload: Bytes)
    requires Earned(c, p, run, s) && GotBy(c, p, payload).Data?
    ensures var i := GotBy(c, p, payload).idx;
            Earned(c, Progress(p.blobId, p.received[i := true], p.count + 1), run + [Chunk(s, payload)], s)
  {
    var i, a := GotBy(c, p, payload).idx, Chunk(s, payload);
    EarnedStays(c, p, run, s, a);
    CountSet(p.received, i);
    assert a in run + [a] && OpensChunk(c, a, s, i);
    assert forall k | 0 <= k < |p.received| && k != i :: p.received[i := true][k] == p.received[k];
  }

  lemma ChunkEarned(c: Cipher, C: nat, t: Tenant, s: nat, payload: Bytes, d: nat, run: seq<Action>)
    requires s in t.pending && d in OnChunk(c, C, t, s, payload).pending
    requires d in t.pending ==> Earned(c, t.pending[d], run, d)
    ensures Earned(c, OnChunk(c, C, t, s, payload).pending[d], run + [Chunk(s, payload)], d)
  {
    ChunkFlags(c, C, t, s, payload, d);
    if d == s && GotBy(c, t.pending[s], payload).Data? {
      EarnedGrows(c, t.pending[s], run, s, payload);
    } else {
      EarnedStays(c, t.pending[d], run, d, Chunk(s, payload));
    }
  }

  lemma StepEarned(c: Cipher, C: nat, t: Tenant, run: seq<Action>, a: Action, d: nat)
    requires AllEarned(c, t, run) && d in Step(c, C, t, a).pending
    ensures Earned(c, Step(c, C, t, a).pending[d], SincePut(run + [a], d), d)
  {
    assert (run + [a])[..|run|] == run;
    var since := SincePut(run, d);
    if a.Put? && a.s == d {
      CountNone(Step(c, C, t, a).pending[d].received);
    } else if a.Chunk? && a.s in t.pending {
      ChunkEarned(c, C, t, a.s, a.payload, d, since);
    } else {
      EarnedStays(c, t.pending[d], since, d, a);
    }
  }

  lemma RunOneMore(c: Cipher, C: nat, t: Tenant, run: seq<Action>, a: Action)
    ensures Run(c, C, t, run + [a]) == Step(c, C, Run(c, C, t, run), a)
  {
    RunConcat(c, C, t, run, [a]);
    assert [a][1..] == [];
    assert Run(c, C, Step(c, C, Run(c, C, t, run), a), []) == Step(c, C, Run(c, C, t, run), a);
  }

  /** In every run, whatever is sent: an upload in progress counts opened chunks only. */
  lemma {:induction false} RunEarned(c: Cipher, C: nat, keeps: bool, objects: map<Bytes, Bytes>, run: seq<Action>)
    ensures AllEarned(c, Run(c, C, Start(keeps, objects), run), run)
    decreases |run|
  {
    if run != [] {
      var init, a := run[..|run| - 1], run[|run| - 1];
      assert run == init + [a];
      RunEarned(c, C, keeps, objects, init);
      RunOneMore(c, C, Start(keeps, objects), init, a);
      var t := Run(c, C, Start(keeps, objects), init);
      forall d | d in Step(c, C, t, a).pending ensures Earned(c, Step(c, C, t, a).pending[d], SincePut(run, d), d) {
        StepEarned(c, C, t, init, a, d);
      }
    }
  }

  /** In every run, whatever is sent: what is stored came from an upload every chunk of which a key opened. */
  lemma StoresOnlyOpened(c: Cipher, C: nat, keeps: bool, objects: map<Bytes, Bytes>, run: seq<Action>, a: Action, x: Bytes)
    requires var t := Run(c, C, Start(keeps, objects), run); a.s !in t.clearing && Stores(c, C, t, a, x)
    ensures var t := Run(c, C, Start(keeps, objects), run);
            && t.pending[a.s].blobId == x
            && forall i | 0 <= i < |t.pending[a.s].received| :: OpenedIn(c, SincePut(run + [a], a.s), a.s, i)
  {
    var t := Run(c, C, Start(keeps, objects), run);
    RunEarned(c, C, keeps, objects, run);
    ChunkStores(c, C, t, a.s, a.payload, x);
    assert (run + [a])[..|run|] == run;
    FullEarned(c, t.pending[a.s], SincePut(run, a.s), a.s, a.payload);
  }

  lemma FullEarned(c: Cipher, p: Progress, run: seq<Action>, s: nat, payload: Bytes)
    requires Earned(c, p, run, s)
    requires var g := GotBy(c, p, payload); (if g.Data? then p.count + 1 else p.count) == |p.received|
    ensures forall i | 0 <= i < |p.received| :: OpenedIn(c, run + [Chunk(s, payload)], s, i)
  {
    var g := GotBy(c, p, payload);
    if g.Data? {
      EarnedGrows(c, p, run, s, payload);
      CountBounds(p.received[g.idx := true]);
    } else {
      EarnedStays(c, p, run, s, Chunk(s, payload));
      CountBounds(p.received);
    }
  }

  /** A payload of a missing chunk that no key opens ends its session's upload and leaves everything else. */
  lemma UnopenedEnds(c: Cipher, C: nat, t: Tenant, s: nat, payload: Bytes, i: nat)
    requires s in t.pending && i < |t.pending[s].received| && !t.pending[s].received[i]
    requires Carries(payload, i) && !Opens(c, payload, i)
    ensures var u := Step(c, C, t, Chunk(s, payload));
            && s !in u.pending
            && (forall d | d != s :: (d in u.pending <==> d in t.pending) && (d in t.pending ==> u.pending[d] == t.pending[d]))
            && u.temps == t.temps && u.clearing == t.clearing && u.objects == t.objects && u.keeps == t.keeps
  {
  }

  ghost predicate SealedBy(writer: Cipher, C: nat, payload: Bytes)
    requires C > 0
  {
    exists bytes: Bytes, i: nat :: i < 0x1_0000_0000 && payload == ChunkPayload(writer, bytes, C, i)
  }

  lemma SealedStaysShut(writer: Cipher, c: Cipher, C: nat, payload: Bytes, i: nat)
    requires C > 0 && writer.aead == c.aead && writer.aead.Valid() && writer.keys.Some? && c.keys.Some?
    requires writer.keys.value.newest !in c.keys.value.all && SealedBy(writer, C, payload)
    ensures !Opens(c, payload, i)
  {
    var bytes: Bytes, j: nat :| j < 0x1_0000_0000 && payload == ChunkPayload(writer, bytes, C, j);
    assert payload[..4] == LE(j, 4) && payload[4..] == Protect(writer, Slice(bytes, C, j), j);
    Widths();
    RoundTripLE(j, 4);
    DecryptIff(writer.aead, writer.keys.value, c.keys.value.all, Slice(bytes, C, j), j);
  }

  /** Nor can a sealed chunk be put in another's place: with another index in front it is as if no key opened it. */
  lemma MovedStaysShut(writer: Cipher, c: Cipher, data: Bytes, i: nat, j: nat, at: nat)
    requires writer.aead == c.aead && BindsNonce(writer.aead) && writer.keys.Some? && c.keys.Some?
    requires i != j && i < 0x1_0000_0000 && j < 0x1_0000_0000
    ensures !Opens(c, LE(j, 4) + Protect(writer, data, i), at)
  {
    var payload := LE(j, 4) + Protect(writer, data, i);
    assert payload[..4] == LE(j, 4) && payload[4..] == Protect(writer, data, i);
    Widths();
    RoundTripLE(j, 4);
    MovedNeverOpens(writer.aead, writer.keys.value, c.keys.value.all, data, i, j);
  }

  lemma NoneOpened(writer: Cipher, c: Cipher, C: nat, run: seq<Action>, s: nat, i: nat)
    requires C > 0 && writer.aead == c.aead && writer.aead.Valid() && writer.keys.Some? && c.keys.Some?
    requires writer.keys.value.newest !in c.keys.value.all
    requires forall b | b in run && b.Chunk? && b.s == s :: SealedBy(writer, C, b.payload)
    ensures !OpenedIn(c, SincePut(run, s), s, i)
  {
    SinceIsPart(run, s);
    forall b | b in SincePut(run, s) ensures !OpensChunk(c, b, s, i) {
      if b.Chunk? && b.s == s { SealedStaysShut(writer, c, C, b.payload, i); }
    }
  }

  lemma {:induction false} SinceIsPart(run: seq<Action>, s: nat)
    ensures forall a | a in SincePut(run, s) :: a in run
    decreases |run|
  {
    if run != [] {
      SinceIsPart(run[..|run| - 1], s);
      assert forall a | a in run[..|run| - 1] :: a in run;
    }
  }

  /** A client whose newest key the server does not list stores nothing, whatever it and others send and when. */
  lemma UnlistedNeverStores(writer: Cipher, c: Cipher, C: nat, keeps: bool, objects: map<Bytes, Bytes>, run: seq<Action>,
                            a: Action, x: Bytes)
    requires C > 0 && writer.aead == c.aead && writer.aead.Valid() && writer.keys.Some? && c.keys.Some?
    requires writer.keys.value.newest !in c.keys.value.all
    requires forall b | b in run + [a] && b.Chunk? && b.s == a.s :: SealedBy(writer, C, b.payload)
    requires var t := Run(c, C, Start(keeps, objects), run);
             a.s !in t.clearing && (a.s in t.pending ==> t.pending[a.s].received != [])
    ensures !Stores(c, C, Run(c, C, Start(keeps, objects), run), a, x)
  {
    NoneOpened(writer, c, C, run + [a], a.s, 0);
    var t := Run(c, C, Start(keeps, objects), run);
    if Stores(c, C, t, a, x) {
      StoresOnlyOpened(c, C, keeps, objects, run, a, x);
    }
  }

  /**
   * An upload of no chunks ends with whatever payload comes first, opened or not: without a temporary file under its
   * id the session ends and the store stays; if another session is writing one, what is there is stored.
   */
  lemma EmptyUploadEnds(c: Cipher, C: nat, t: Tenant, s: nat, payload: Bytes)
    requires s in t.pending && t.pending[s] == Progress(t.pending[s].blobId, [], 0)
    ensures var x, u := t.pending[s].blobId, Step(c, C, t, Chunk(s, payload));
            && u.temps == t.temps && u.pending == t.pending - {s}
            && (x !in t.temps ==> u.clearing == t.clearing && u.objects == t.objects)
            && (x in t.temps ==> u.clearing == t.clearing[s := x] && x in u.objects
                                 && (!(t.keeps && x in t.objects) ==> u.objects == t.objects[x := t.temps[x]]))
  {
  }
}
