/** Uploads by several sessions of one tenant, whose temporary files are shared by blob id. */
module SharedUpload {
  import opened Common
  import opened ByteStrings
  import opened E2E
  import opened Upload
  import opened SharedFile

  // ---- the sessions of a tenant ----

  datatype Progress = Progress(blobId: Bytes, received: seq<bool>, count: nat)

  /**
   * Temporary files by blob id, uploads by session, files still to be removed, and the store, whose back end
   * keeps what it has or overwrites it.
   */
  datatype Tenant = Tenant(temps: map<Bytes, Bytes>, pending: map<nat, Progress>, clearing: map<nat, Bytes>,
                           keeps: bool, objects: map<Bytes, Bytes>)

  /** A server at rest. */
  function Start(keeps: bool, objects: map<Bytes, Bytes>): Tenant { Tenant(map[], map[], map[], keeps, objects) }

  /** What a session does next. After storing an object it removes the temporary file, and others may act before. */
  datatype Action = Put(s: nat, blobId: Bytes, total: nat) | Chunk(s: nat, payload: Bytes) | Clear(s: nat)

  datatype Got = Ignored | Broken | Data(idx: nat, bytes: Bytes)

  function GotBy(c: Cipher, p: Progress, payload: Bytes): Got {
    if |payload| < 4 then Ignored
    else
      var idx := FromLE(payload[..4]);
      if idx >= |p.received| || p.received[idx] then Ignored
      else
        var data := Unprotect(c, payload[4..], idx);
        if data.None? then Broken else Data(idx, data.value)
  }

  function TempAt(t: Tenant, x: Bytes): Option<Bytes> { if x in t.temps then Some(t.temps[x]) else None }

  /** A complete upload is read back from the temporary file; without one the session ends. */
  function Finish(t: Tenant, s: nat): Tenant
    requires s in t.pending
  {
    var p := t.pending[s];
    if p.count != |p.received| then t
    else if p.blobId !in t.temps then t.(pending := t.pending - {s})
    else
      t.(pending := t.pending - {s}, clearing := t.clearing[s := p.blobId],
         objects := if t.keeps && p.blobId in t.objects then t.objects else t.objects[p.blobId := t.temps[p.blobId]])
  }

  function WithChunk(C: nat, t: Tenant, s: nat, idx: nat, data: Bytes): Tenant
    requires s in t.pending && idx < |t.pending[s].received|
  {
    var p := t.pending[s];
    t.(temps := t.temps[p.blobId := WriteAt(Content(TempAt(t, p.blobId)), idx * C, data)],
       pending := t.pending[s := Progress(p.blobId, p.received[idx := true], p.count + 1)])
  }

  function OnChunk(c: Cipher, C: nat, t: Tenant, s: nat, payload: Bytes): Tenant
    requires s in t.pending
  {
    var p := t.pending[s];
    match GotBy(c, p, payload)
    case Broken => t.(pending := t.pending - {s})
    case Ignored => Finish(t, s)
    case Data(idx, data) =>
      Finish(WithChunk(C, t, s, idx, data), s)
  }

  function Step(c: Cipher, C: nat, t: Tenant, a: Action): Tenant {
    match a
    case Put(s, x, total) => t.(temps := t.temps - {x}, pending := t.pending[s := Progress(x, seq(total, _ => false), 0)])
    case Chunk(s, payload) => if s in t.pending then OnChunk(c, C, t, s, payload) else t
    case Clear(s) => if s in t.clearing then t.(temps := t.temps - {t.clearing[s]}, clearing := t.clearing - {s}) else t
  }

  /** What an action does to the temporary file of `x`. */
  function Touch(c: Cipher, t: Tenant, a: Action, x: Bytes): seq<Event> {
    match a
    case Put(_, y, _) => if y == x then [Removed] else []
    case Chunk(s, payload) =>
      if s in t.pending && t.pending[s].blobId == x && GotBy(c, t.pending[s], payload).Data?
      then [Wrote(GotBy(c, t.pending[s], payload).idx)] else []
    case Clear(s) => if s in t.clearing && t.clearing[s] == x then [Removed] else []
  }

  /** A session that has stored an object first removes its file; blob ids stand for one content each. */
  ghost predicate Proper(c: Cipher, C: nat, content: Bytes -> Bytes, t: Tenant, a: Action)
    requires C > 0
  {
    && (a.Clear? <==> a.s in t.clearing)
    && match a
       case Put(_, x, total) => total == NumChunks(|content(x)|, C)
       case Chunk(s, payload) => s in t.pending ==> Honest(c, C, content(t.pending[s].blobId), payload)
       case Clear(_) => true
  }

  ghost predicate RunOk(c: Cipher, C: nat, content: Bytes -> Bytes, t: Tenant, run: seq<Action>)
    requires C > 0
    decreases |run|
  {
    run == [] || (Proper(c, C, content, t, run[0]) && RunOk(c, C, content, Step(c, C, t, run[0]), run[1..]))
  }

  function Run(c: Cipher, C: nat, t: Tenant, run: seq<Action>): Tenant
    decreases |run|
  {
    if run == [] then t else Run(c, C, Step(c, C, t, run[0]), run[1..])
  }

  /** The history of one temporary file over a run. */
  function History(c: Cipher, C: nat, t: Tenant, run: seq<Action>, x: Bytes): seq<Event>
    decreases |run|
  {
    if run == [] then [] else Touch(c, t, run[0], x) + History(c, C, Step(c, C, t, run[0]), run[1..], x)
  }

  // ---- the temporary file follows its history ----

  ghost predicate Counted(C: nat, content: Bytes -> Bytes, p: Progress)
    requires C > 0
  {
    |p.received| == NumChunks(|content(p.blobId)|, C) && p.count == CountTrue(p.received)
  }

  ghost predicate AllCounted(C: nat, content: Bytes -> Bytes, t: Tenant)
    requires C > 0
  {
    && (forall s | s in t.pending :: Counted(C, content, t.pending[s]))
    && forall s | s in t.clearing :: s !in t.pending
  }

  /** `x`'s temporary file is what its history makes it. */
  ghost predicate Follows(C: nat, bytes: Bytes, t: Tenant, evs: seq<Event>, x: Bytes)
    requires C > 0
  {
    && AllInRange(C, |bytes|, evs)
    && FileAfter(C, bytes, evs) == TempAt(t, x)
  }

  lemma CountedData(c: Cipher, C: nat, content: Bytes -> Bytes, p: Progress, payload: Bytes)
    requires C > 0 && Counted(C, content, p) && Honest(c, C, content(p.blobId), payload)
    ensures var g := GotBy(c, p, payload);
            && !g.Broken?
            && (g.Data? ==> g.idx < |p.received| && !p.received[g.idx] && g.bytes == Slice(content(p.blobId), C, g.idx)
                            && Carries(payload, g.idx)
                            && Counted(C, content, Progress(p.blobId, p.received[g.idx := true], p.count + 1)))
  {
    var g := GotBy(c, p, payload);
    if |payload| >= 4 { assert Carries(payload, FromLE(payload[..4])); }
    if g.Data? { CountSet(p.received, g.idx); }
  }

  lemma FinishFrame(t: Tenant, s: nat)
    requires s in t.pending
    ensures var u := Finish(t, s);
            && u.temps == t.temps && (forall d | d in u.pending :: d in t.pending && u.pending[d] == t.pending[d])
            && (forall d | d in t.pending && d != s :: d in u.pending)
            && (forall x | x in t.objects :: x in u.objects)
  {
  }

  lemma PutCounted(c: Cipher, C: nat, content: Bytes -> Bytes, t: Tenant, s: nat, x: Bytes, total: nat)
    requires C > 0 && AllCounted(C, content, t) && Proper(c, C, content, t, Put(s, x, total))
    ensures AllCounted(C, content, Step(c, C, t, Put(s, x, total)))
  {
    CountNone(seq(total, _ => false));
  }

  lemma FinishCounted(C: nat, content: Bytes -> Bytes, t: Tenant, s: nat)
    requires C > 0 && AllCounted(C, content, t) && s in t.pending
    ensures AllCounted(C, content, Finish(t, s))
  {
    FinishFrame(t, s);
  }

  lemma WithChunkCounted(C: nat, content: Bytes -> Bytes, t: Tenant, s: nat, idx: nat, bytes: Bytes)
    requires C > 0 && AllCounted(C, content, t) && s in t.pending && idx < |t.pending[s].received|
    requires var p := t.pending[s]; Counted(C, content, Progress(p.blobId, p.received[idx := true], p.count + 1))
    ensures AllCounted(C, content, WithChunk(C, t, s, idx, bytes))
  {
  }

  lemma ChunkCounted(c: Cipher, C: nat, content: Bytes -> Bytes, t: Tenant, s: nat, payload: Bytes)
    requires C > 0 && AllCounted(C, content, t) && s in t.pending && Honest(c, C, content(t.pending[s].blobId), payload)
    ensures AllCounted(C, content, OnChunk(c, C, t, s, payload))
  {
    CountedData(c, C, content, t.pending[s], payload);
    var g := GotBy(c, t.pending[s], payload);
    if g.Data? {
      WithChunkCounted(C, content, t, s, g.idx, g.bytes);
      FinishCounted(C, content, WithChunk(C, t, s, g.idx, g.bytes), s);
    } else {
      FinishCounted(C, content, t, s);
    }
  }

  lemma StepCounted(c: Cipher, C: nat, content: Bytes -> Bytes, t: Tenant, a: Action)
    requires C > 0 && AllCounted(C, content, t) && Proper(c, C, content, t, a)
    ensures AllCounted(C, content, Step(c, C, t, a))
  {
    match a
    case Put(s, x, total) => PutCounted(c, C, content, t, s, x, total);
    case Clear(_) =>
    case Chunk(s, payload) =>
      if s in t.pending { ChunkCounted(c, C, content, t, s, payload); }
  }

  lemma FileAfterOne(C: nat, bytes: Bytes, evs: seq<Event>, e: Event)
    requires C > 0
    ensures FileAfter(C, bytes, evs + [e]) ==
            match e { case Removed => None case Wrote(i) => Some(WriteAt(Content(FileAfter(C, bytes, evs)), i * C, Slice(bytes, C, i))) }
    ensures Since(evs + [e]) == match e { case Removed => {} case Wrote(i) => Since(evs) + {i} }
  {
    assert (evs + [e])[..|evs|] == evs;
  }

  lemma ChunkTemp(c: Cipher, C: nat, t: Tenant, s: nat, payload: Bytes, x: Bytes)
    requires s in t.pending
    ensures var g := GotBy(c, t.pending[s], payload);
            TempAt(OnChunk(c, C, t, s, payload), x) ==
              if t.pending[s].blobId == x && g.Data? then Some(WriteAt(Content(TempAt(t, x)), g.idx * C, g.bytes)) else TempAt(t, x)
  {
  }

  predicate Writes(c: Cipher, t: Tenant, a: Action, x: Bytes) {
    a.Chunk? && a.s in t.pending && t.pending[a.s].blobId == x && GotBy(c, t.pending[a.s], a.payload).Data?
  }

  function DataOf(c: Cipher, t: Tenant, a: Action): Bytes {
    if a.Chunk? && a.s in t.pending && GotBy(c, t.pending[a.s], a.payload).Data?
    then GotBy(c, t.pending[a.s], a.payload).bytes else []
  }

  function Written(C: nat, was: Option<Bytes>, e: seq<Event>, data: Bytes): Option<Bytes> {
    if e == [] then was
    else match e[0] { case Removed => None case Wrote(i) => Some(WriteAt(Content(was), i * C, data)) }
  }

  /** An action changes the temporary file as its event says. */
  lemma StepTemp(c: Cipher, C: nat, t: Tenant, a: Action, x: Bytes)
    ensures TempAt(Step(c, C, t, a), x) == Written(C, TempAt(t, x), Touch(c, t, a, x), DataOf(c, t, a))
    ensures |Touch(c, t, a, x)| <= 1
    ensures Touch(c, t, a, x) != [] && Touch(c, t, a, x)[0].Wrote? ==> Writes(c, t, a, x)
  {
    if a.Chunk? && a.s in t.pending { ChunkTemp(c, C, t, a.s, a.payload, x); }
  }

  lemma FileFollows(C: nat, bytes: Bytes, evs: seq<Event>, e: Event, now: Option<Bytes>, was: Option<Bytes>)
    requires C > 0 && AllInRange(C, |bytes|, evs) && FileAfter(C, bytes, evs) == was
    requires e.Removed? ==> now == None
    requires e.Wrote? ==> e.i < NumChunks(|bytes|, C) && now == Some(WriteAt(Content(was), e.i * C, Slice(bytes, C, e.i)))
    ensures AllInRange(C, |bytes|, evs + [e]) && FileAfter(C, bytes, evs + [e]) == now
  {
    FileAfterOne(C, bytes, evs, e);
  }

  lemma HonestWrite(c: Cipher, C: nat, content: Bytes -> Bytes, t: Tenant, a: Action, x: Bytes)
    requires C > 0 && AllCounted(C, content, t) && Proper(c, C, content, t, a)
    requires Writes(c, t, a, x)
    ensures var g := GotBy(c, t.pending[a.s], a.payload); g.idx < NumChunks(|content(x)|, C) && g.bytes == Slice(content(x), C, g.idx)
  {
    CountedData(c, C, content, t.pending[a.s], a.payload);
  }

  lemma StepFollows(c: Cipher, C: nat, content: Bytes -> Bytes, t: Tenant, a: Action, evs: seq<Event>, x: Bytes)
    requires C > 0 && AllCounted(C, content, t) && Proper(c, C, content, t, a) && Follows(C, content(x), t, evs, x)
    ensures Follows(C, content(x), Step(c, C, t, a), evs + Touch(c, t, a, x), x)
  {
    var e := Touch(c, t, a, x);
    StepTemp(c, C, t, a, x);
    if e == [] {
      assert evs + e == evs;
    } else {
      if e[0].Wrote? { HonestWrite(c, C, content, t, a, x); }
      FileFollows(C, content(x), evs, e[0], TempAt(Step(c, C, t, a), x), TempAt(t, x));
      assert e == [e[0]];
    }
  }

  lemma Regroup(a: seq<Event>, b: seq<Event>, d: seq<Event>)
    ensures (a + b) + d == a + (b + d)
  {
  }

  /** After every run of all sessions, a temporary file is what the writes and removals in it make it. */
  lemma {:induction false} RunFollows(c: Cipher, C: nat, content: Bytes -> Bytes, t: Tenant, run: seq<Action>,
                                      evs: seq<Event>, x: Bytes)
    requires C > 0 && AllCounted(C, content, t) && RunOk(c, C, content, t, run) && Follows(C, content(x), t, evs, x)
    ensures AllCounted(C, content, Run(c, C, t, run))
    ensures Follows(C, content(x), Run(c, C, t, run), evs + History(c, C, t, run, x), x)
    decreases |run|
  {
    if run == [] {
      assert evs + [] == evs;
    } else {
      var e, u := Touch(c, t, run[0], x), Step(c, C, t, run[0]);
      StepCounted(c, C, content, t, run[0]);
      StepFollows(c, C, content, t, run[0], evs, x);
      RunFollows(c, C, content, u, run[1..], evs + e, x);
      Regroup(evs, e, History(c, C, u, run[1..], x));
    }
  }

  // ---- what is stored ----

  /** The action completes an upload of `x` and writes it, since the store lacks it or overwrites what it has. */
  predicate Stores(c: Cipher, C: nat, t: Tenant, a: Action, x: Bytes) {
    && a.Chunk? && a.s in t.pending && (x in t.objects ==> !t.keeps)
    && var u := Step(c, C, t, a); a.s in u.clearing && u.clearing[a.s] == x
  }

  lemma FinishStores(t: Tenant, s: nat, x: Bytes)
    requires s in t.pending && s !in t.clearing
    ensures var p, u := t.pending[s], Finish(t, s);
            if s in u.clearing && u.clearing[s] == x && (x in t.objects ==> !t.keeps)
            then p.blobId == x && p.count == |p.received| && x in u.objects && TempAt(u, x) == Some(u.objects[x])
            else (x in u.objects <==> x in t.objects) && (x in t.objects ==> u.objects[x] == t.objects[x])
  {
  }

  /** An upload completes when the last flag is set, and stores what the temporary file holds; nothing else does. */
  lemma ChunkStores(c: Cipher, C: nat, t: Tenant, s: nat, payload: Bytes, x: Bytes)
    requires s in t.pending && s !in t.clearing
    ensures var p, g, u := t.pending[s], GotBy(c, t.pending[s], payload), OnChunk(c, C, t, s, payload);
            if s in u.clearing && u.clearing[s] == x && (x in t.objects ==> !t.keeps)
            then && p.blobId == x && !g.Broken? && x in u.objects && TempAt(u, x) == Some(u.objects[x])
                 && (if g.Data? then p.count + 1 else p.count) == |p.received|
            else (x in u.objects <==> x in t.objects) && (x in t.objects ==> u.objects[x] == t.objects[x])
  {
    var p := t.pending[s];
    match GotBy(c, p, payload)
    case Broken =>
    case Ignored => FinishStores(t, s, x);
    case Data(idx, data) =>
      FinishStores(WithChunk(C, t, s, idx, data), s, x);
  }

  /** What is stored under `x` changes only when an upload of `x` is written. */
  lemma OtherwiseStays(c: Cipher, C: nat, content: Bytes -> Bytes, t: Tenant, a: Action, x: Bytes)
    requires C > 0 && AllCounted(C, content, t) && !Stores(c, C, t, a, x)
    ensures var u := Step(c, C, t, a); (x in u.objects <==> x in t.objects) && (x in t.objects ==> u.objects[x] == t.objects[x])
  {
    if a.Chunk? && a.s in t.pending { ChunkStores(c, C, t, a.s, a.payload, x); }
  }

  lemma FullCount(c: Cipher, C: nat, content: Bytes -> Bytes, p: Progress, payload: Bytes)
    requires C > 0 && Counted(C, content, p) && Honest(c, C, content(p.blobId), payload)
    requires var g := GotBy(c, p, payload); (if g.Data? then p.count + 1 else p.count) == |p.received|
    ensures var g := GotBy(c, p, payload);
            forall i | 0 <= i < |p.received| :: p.received[i] || (g.Data? && g.idx == i)
  {
    var g := GotBy(c, p, payload);
    CountedData(c, C, content, p, payload);
    if g.Data? {
      CountBounds(p.received[g.idx := true]);
      assert forall i | 0 <= i < |p.received| && i != g.idx :: p.received[g.idx := true][i] == p.received[i];
    } else {
      CountBounds(p.received);
    }
  }

  lemma StoresMeans(c: Cipher, C: nat, content: Bytes -> Bytes, t: Tenant, a: Action, x: Bytes)
    requires C > 0 && AllCounted(C, content, t) && Proper(c, C, content, t, a) && Stores(c, C, t, a, x)
    ensures t.pending[a.s].blobId == x && x in Step(c, C, t, a).objects
    ensures TempAt(Step(c, C, t, a), x) == Some(Step(c, C, t, a).objects[x])
    ensures |t.pending[a.s].received| == NumChunks(|content(x)|, C)
    ensures forall i | 0 <= i < |t.pending[a.s].received| :: t.pending[a.s].received[i] || Wrote(i) in Touch(c, t, a, x)
  {
    ChunkStores(c, C, t, a.s, a.payload, x);
    FullCount(c, C, content, t.pending[a.s], a.payload);
  }

  /**
   * A completed upload stores the original exactly when every chunk has been written since the temporary file
   * was last removed, by whichever session, all-zero chunks before the last one excused.
   */
  lemma StoredRightIff(c: Cipher, C: nat, content: Bytes -> Bytes, t: Tenant, evs: seq<Event>, a: Action, x: Bytes)
    requires C > 0 && AllCounted(C, content, t) && Follows(C, content(x), t, evs, x)
    requires Proper(c, C, content, t, a) && Stores(c, C, t, a, x)
    ensures var u := Step(c, C, t, a);
            x in u.objects && (u.objects[x] == content(x) <==> Covered(C, content(x), Since(evs + Touch(c, t, a, x))))
  {
    var after := evs + Touch(c, t, a, x);
    StoresMeans(c, C, content, t, a, x);
    StepFollows(c, C, content, t, a, evs, x);
    EmptyHasNoFile(C, if content(x) == [] then after else []);
    if content(x) != [] { FileIsOriginalIff(C, content(x), after); }
  }

  /** The same over runs from a server at rest, whatever its store has and whichever back end it is. */
  lemma StoredRightIffInRun(c: Cipher, C: nat, content: Bytes -> Bytes, keeps: bool, objects: map<Bytes, Bytes>,
                            run: seq<Action>, a: Action, x: Bytes)
    requires C > 0 && RunOk(c, C, content, Start(keeps, objects), run)
    requires var t := Run(c, C, Start(keeps, objects), run); Proper(c, C, content, t, a) && Stores(c, C, t, a, x)
    ensures var rest := Start(keeps, objects); var u := Step(c, C, Run(c, C, rest, run), a);
            && x in u.objects
            && (u.objects[x] == content(x) <==>
                Covered(C, content(x), Since(History(c, C, rest, run, x) + Touch(c, Run(c, C, rest, run), a, x))))
  {
    var rest := Start(keeps, objects);
    RunFollows(c, C, content, rest, run, [], x);
    assert [] + History(c, C, rest, run, x) == History(c, C, rest, run, x);
    StoredRightIff(c, C, content, Run(c, C, rest, run), History(c, C, rest, run, x), a, x);
  }

  // ---- uploads that nobody disturbs ----

  /** The action removes a temporary file that another session is still writing. */
  predicate Disturbs(c: Cipher, t: Tenant, a: Action, x: Bytes) {
    Removed in Touch(c, t, a, x) && exists d :: d in t.pending && d != a.s && t.pending[d].blobId == x
  }

  ghost predicate Undisturbed(c: Cipher, C: nat, t: Tenant, run: seq<Action>, x: Bytes)
    decreases |run|
  {
    run == [] || (!Disturbs(c, t, run[0], x) && Undisturbed(c, C, Step(c, C, t, run[0]), run[1..], x))
  }

  /** Whatever a session counts as received has been written since the last removal. */
  ghost predicate Kept(t: Tenant, evs: seq<Event>, x: Bytes) {
    forall s, i | s in t.pending && t.pending[s].blobId == x && 0 <= i < |t.pending[s].received| && t.pending[s].received[i] ::
      i in Since(evs)
  }

  lemma ChunkFlags(c: Cipher, C: nat, t: Tenant, s: nat, payload: Bytes, d: nat)
    requires s in t.pending && d in OnChunk(c, C, t, s, payload).pending
    ensures d in t.pending
    ensures var p, q, g := t.pending[d], OnChunk(c, C, t, s, payload).pending[d], GotBy(c, t.pending[s], payload);
            q == if d == s && g.Data? then Progress(p.blobId, p.received[g.idx := true], p.count + 1) else p
  {
    var p := t.pending[s];
    match GotBy(c, p, payload)
    case Broken =>
    case Ignored => FinishFrame(t, s);
    case Data(idx, data) => FinishFrame(WithChunk(C, t, s, idx, data), s);
  }

  /** A flag that is set after an action was set before, or the action wrote that chunk. */
  lemma StepFlags(c: Cipher, C: nat, t: Tenant, a: Action, d: nat, i: nat)
    requires d in Step(c, C, t, a).pending
    requires i < |Step(c, C, t, a).pending[d].received| && Step(c, C, t, a).pending[d].received[i]
    ensures d in t.pending && t.pending[d].blobId == Step(c, C, t, a).pending[d].blobId
    ensures i < |t.pending[d].received| && (t.pending[d].received[i] || Wrote(i) in Touch(c, t, a, t.pending[d].blobId))
    ensures !(a.Put? && a.s == d)
  {
    if a.Chunk? && a.s in t.pending { ChunkFlags(c, C, t, a.s, a.payload, d); }
  }

  lemma SinceGrows(evs: seq<Event>, e: seq<Event>)
    requires |e| <= 1
    ensures Removed !in e ==> Since(evs) <= Since(evs + e)
    ensures forall i | Wrote(i) in e :: i in Since(evs + e)
  {
    if e == [] {
      assert evs + e == evs;
    } else {
      assert e == [e[0]] && (evs + e)[..|evs|] == evs;
    }
  }

  lemma KeptStays(c: Cipher, C: nat, content: Bytes -> Bytes, t: Tenant, a: Action, evs: seq<Event>, x: Bytes)
    requires C > 0 && AllCounted(C, content, t) && Proper(c, C, content, t, a) && Kept(t, evs, x) && !Disturbs(c, t, a, x)
    ensures Kept(Step(c, C, t, a), evs + Touch(c, t, a, x), x)
  {
    var u, e := Step(c, C, t, a), Touch(c, t, a, x);
    StepTemp(c, C, t, a, x);
    SinceGrows(evs, e);
    forall d, i | d in u.pending && u.pending[d].blobId == x && 0 <= i < |u.pending[d].received| && u.pending[d].received[i]
      ensures i in Since(evs + e)
    {
      StepFlags(c, C, t, a, d, i);
    }
  }

  /** The store has the right bytes under `x`, or none. */
  predicate Right(content: Bytes -> Bytes, t: Tenant, x: Bytes) { x in t.objects ==> t.objects[x] == content(x) }

  lemma ObjectsStay(c: Cipher, C: nat, t: Tenant, a: Action, x: Bytes)
    requires x in t.objects
    ensures x in Step(c, C, t, a).objects
  {
    match a
    case Put(_, _, _) =>
    case Clear(_) =>
    case Chunk(s, payload) => if s in t.pending { ChunkObjects(c, C, t, s, payload, x); }
  }

  lemma ChunkObjects(c: Cipher, C: nat, t: Tenant, s: nat, payload: Bytes, x: Bytes)
    requires s in t.pending && x in t.objects
    ensures x in OnChunk(c, C, t, s, payload).objects
  {
    var p := t.pending[s];
    match GotBy(c, p, payload)
    case Broken =>
    case Ignored => FinishFrame(t, s);
    case Data(idx, data) =>
      FinishFrame(WithChunk(C, t, s, idx, data), s);
  }

  lemma StoredIsCovered(c: Cipher, C: nat, content: Bytes -> Bytes, t: Tenant, a: Action, evs: seq<Event>, x: Bytes)
    requires C > 0 && AllCounted(C, content, t) && Kept(t, evs, x) && Proper(c, C, content, t, a) && Stores(c, C, t, a, x)
    ensures Covered(C, content(x), Since(evs + Touch(c, t, a, x)))
  {
    StoresMeans(c, C, content, t, a, x);
    StepTemp(c, C, t, a, x);
    SinceGrows(evs, Touch(c, t, a, x));
  }

  lemma StoredUndisturbed(c: Cipher, C: nat, content: Bytes -> Bytes, t: Tenant, a: Action, evs: seq<Event>, x: Bytes)
    requires C > 0 && AllCounted(C, content, t) && Follows(C, content(x), t, evs, x) && Kept(t, evs, x)
    requires Proper(c, C, content, t, a) && Right(content, t, x)
    ensures Right(content, Step(c, C, t, a), x)
  {
    if Stores(c, C, t, a, x) {
      StoredIsCovered(c, C, content, t, a, evs, x);
      StoredRightIff(c, C, content, t, evs, a, x);
    } else {
      OtherwiseStays(c, C, content, t, a, x);
    }
  }

  /**
   * Over every run of all sessions in which no action removes a temporary file that another session is writing,
   * whatever is stored is the original.
   */
  lemma {:induction false} UndisturbedStoresRight(c: Cipher, C: nat, content: Bytes -> Bytes, t: Tenant, run: seq<Action>,
                                                  evs: seq<Event>, x: Bytes)
    requires C > 0 && AllCounted(C, content, t) && Follows(C, content(x), t, evs, x) && Kept(t, evs, x)
    requires RunOk(c, C, content, t, run) && Undisturbed(c, C, t, run, x) && Right(content, t, x)
    ensures Right(content, Run(c, C, t, run), x)
    decreases |run|
  {
    if run != [] {
      var a := run[0];
      StepCounted(c, C, content, t, a);
      StepFollows(c, C, content, t, a, evs, x);
      KeptStays(c, C, content, t, a, evs, x);
      StoredUndisturbed(c, C, content, t, a, evs, x);
      UndisturbedStoresRight(c, C, content, Step(c, C, t, a), run[1..], evs + Touch(c, t, a, x), x);
    }
  }

  // ---- an upload among others completes when its chunks have come ----

  /** The payloads a session sends in a run. */
  function PayloadsOf(run: seq<Action>, s: nat): seq<Bytes> {
    if run == [] then []
    else (if run[0].Chunk? && run[0].s == s then [run[0].payload] else []) + PayloadsOf(run[1..], s)
  }

  predicate NoNewPut(run: seq<Action>, s: nat) { forall a | a in run :: !(a.Put? && a.s == s) }

  lemma {:induction false} ObjectsStayInRun(c: Cipher, C: nat, t: Tenant, run: seq<Action>, x: Bytes)
    requires x in t.objects
    ensures x in Run(c, C, t, run).objects
    decreases |run|
  {
    if run != [] {
      ObjectsStay(c, C, t, run[0], x);
      ObjectsStayInRun(c, C, Step(c, C, t, run[0]), run[1..], x);
    }
  }

  /** A session that is not uploading stays so until it puts. */
  lemma {:induction false} NotPending(c: Cipher, C: nat, t: Tenant, run: seq<Action>, s: nat)
    requires s !in t.pending && NoNewPut(run, s)
    ensures s !in Run(c, C, t, run).pending
    decreases |run|
  {
    if run != [] {
      assert run[0] in run && forall a | a in run[1..] :: a in run;
      NotPending(c, C, Step(c, C, t, run[0]), run[1..], s);
    }
  }

  lemma OthersLeaveProgress(c: Cipher, C: nat, t: Tenant, a: Action, s: nat)
    requires s in t.pending && a.s != s
    ensures s in Step(c, C, t, a).pending && Step(c, C, t, a).pending[s] == t.pending[s]
  {
    match a
    case Put(_, _, _) =>
    case Clear(_) =>
    case Chunk(d, payload) => if d in t.pending { ChunkOthers(c, C, t, d, payload, s); }
  }

  lemma ChunkOthers(c: Cipher, C: nat, t: Tenant, d: nat, payload: Bytes, s: nat)
    requires s in t.pending && d in t.pending && d != s
    ensures s in OnChunk(c, C, t, d, payload).pending && OnChunk(c, C, t, d, payload).pending[s] == t.pending[s]
  {
    var p := t.pending[d];
    match GotBy(c, p, payload)
    case Broken =>
    case Ignored => FinishFrame(t, d);
    case Data(idx, data) =>
      FinishFrame(WithChunk(C, t, d, idx, data), d);
  }

  /** One chunk of the session's own: the flag is set, and with the last flag the object is there. */
  lemma OwnChunk(c: Cipher, C: nat, content: Bytes -> Bytes, t: Tenant, s: nat, payload: Bytes)
    requires C > 0 && s in t.pending && Counted(C, content, t.pending[s]) && t.pending[s].count < |t.pending[s].received|
    requires Honest(c, C, content(t.pending[s].blobId), payload)
    ensures var p, u := t.pending[s], OnChunk(c, C, t, s, payload);
            if forall i | 0 <= i < |p.received| :: p.received[i] || Carries(payload, i)
            then s !in u.pending && p.blobId in u.objects
            else
              && s in u.pending && u.pending[s].blobId == p.blobId && |u.pending[s].received| == |p.received|
              && Counted(C, content, u.pending[s]) && u.pending[s].count < |p.received|
              && forall i | 0 <= i < |p.received| :: u.pending[s].received[i] <==> p.received[i] || Carries(payload, i)
  {
    var p, g := t.pending[s], GotBy(c, t.pending[s], payload);
    CountedData(c, C, content, p, payload);
    CountBounds(p.received);
    if g.Data? {
      CountBounds(p.received[g.idx := true]);
      assert forall i | 0 <= i < |p.received| :: p.received[g.idx := true][i] <==> p.received[i] || Carries(payload, i);
    } else {
      assert forall i | 0 <= i < |p.received| :: Carries(payload, i) ==> p.received[i];
    }
  }

  ghost predicate Complete(p: Progress, payloads: seq<Bytes>) {
    forall i | 0 <= i < |p.received| :: p.received[i] || Arrived(payloads, i)
  }

  /** How far a session's upload has come once these payloads have arrived. */
  ghost predicate Reached(t: Tenant, s: nat, p: Progress, payloads: seq<Bytes>) {
    if Complete(p, payloads) then s !in t.pending && p.blobId in t.objects
    else
      && s in t.pending && t.pending[s].blobId == p.blobId && |t.pending[s].received| == |p.received|
      && forall i | 0 <= i < |p.received| :: t.pending[s].received[i] <==> p.received[i] || Arrived(payloads, i)
  }

  lemma ArrivedCons(p: Bytes, rest: seq<Bytes>, i: nat)
    ensures Arrived([p] + rest, i) <==> Carries(p, i) || Arrived(rest, i)
  {
    assert ([p] + rest)[1..] == rest;
    ArrivedSplits([p] + rest, i);
  }

  lemma CompleteCons(p: Progress, q: Progress, payload: Bytes, rest: seq<Bytes>)
    requires |q.received| == |p.received| && q.blobId == p.blobId
    requires forall i | 0 <= i < |p.received| :: q.received[i] <==> p.received[i] || Carries(payload, i)
    ensures Complete(q, rest) <==> Complete(p, [payload] + rest)
    ensures forall i | 0 <= i < |p.received| :: q.received[i] || Arrived(rest, i) <==> p.received[i] || Arrived([payload] + rest, i)
  {
    forall i | 0 <= i < |p.received| ensures q.received[i] || Arrived(rest, i) <==> p.received[i] || Arrived([payload] + rest, i) {
      ArrivedCons(payload, rest, i);
    }
  }

  lemma CompleteNow(p: Progress, payload: Bytes, rest: seq<Bytes>)
    requires forall i | 0 <= i < |p.received| :: p.received[i] || Carries(payload, i)
    ensures Complete(p, [payload] + rest)
  {
    forall i | 0 <= i < |p.received| ensures p.received[i] || Arrived([payload] + rest, i) { ArrivedCons(payload, rest, i); }
  }

  /** Whatever other sessions do, an upload completes exactly when all its chunks have come. */
  lemma {:induction false} CompletesWithChunks(c: Cipher, C: nat, content: Bytes -> Bytes, t: Tenant, run: seq<Action>, s: nat)
    requires C > 0 && AllCounted(C, content, t) && RunOk(c, C, content, t, run) && NoNewPut(run, s)
    requires s in t.pending && t.pending[s].count < |t.pending[s].received|
    ensures Reached(Run(c, C, t, run), s, t.pending[s], PayloadsOf(run, s))
    decreases |run|
  {
    var p := t.pending[s];
    CountBounds(p.received);
    if run != [] {
      var a, u := run[0], Step(c, C, t, run[0]);
      assert run[0] in run && forall b | b in run[1..] :: b in run;
      StepCounted(c, C, content, t, a);
      if a.s != s {
        OthersLeaveProgress(c, C, t, a, s);
        assert [] + PayloadsOf(run[1..], s) == PayloadsOf(run[1..], s);
        CompletesWithChunks(c, C, content, u, run[1..], s);
      } else {
        OwnChunk(c, C, content, t, s, a.payload);
        if forall i | 0 <= i < |p.received| :: p.received[i] || Carries(a.payload, i) {
          StaysComplete(c, C, u, run[1..], s, p, a.payload);
        } else {
          CompletesWithChunks(c, C, content, u, run[1..], s);
          ReachedCons(Run(c, C, u, run[1..]), s, p, u.pending[s], a.payload, PayloadsOf(run[1..], s));
        }
      }
    }
  }

  lemma StaysComplete(c: Cipher, C: nat, u: Tenant, rest: seq<Action>, s: nat, p: Progress, payload: Bytes)
    requires s !in u.pending && p.blobId in u.objects && NoNewPut(rest, s)
    requires forall i | 0 <= i < |p.received| :: p.received[i] || Carries(payload, i)
    ensures Reached(Run(c, C, u, rest), s, p, [payload] + PayloadsOf(rest, s))
  {
    CompleteNow(p, payload, PayloadsOf(rest, s));
    NotPending(c, C, u, rest, s);
    ObjectsStayInRun(c, C, u, rest, p.blobId);
  }

  lemma ReachedCons(e: Tenant, s: nat, p: Progress, q: Progress, payload: Bytes, rest: seq<Bytes>)
    requires |q.received| == |p.received| && q.blobId == p.blobId && Reached(e, s, q, rest)
    requires forall i | 0 <= i < |p.received| :: q.received[i] <==> p.received[i] || Carries(payload, i)
    ensures Reached(e, s, p, [payload] + rest)
  {
    CompleteCons(p, q, payload, rest);
  }

  // ---- two sessions that upload the same bytes ----

  /** Session `a` sends the first of two chunks, and then session `b` starts to upload the same file. */
  function Overlap(a: nat, b: nat, x: Bytes, first: Bytes): seq<Action> {
    [Put(a, x, 2), Chunk(a, first), Put(b, x, 2)]
  }

  /** After the overlap `a` has the first flag set and the temporary file is gone. */
  lemma OverlapState(c: Cipher, C: nat, content: Bytes -> Bytes, keeps: bool, objects: map<Bytes, Bytes>, a: nat, b: nat,
                     x: Bytes, first: Bytes)
    requires C > 0 && a != b && NumChunks(|content(x)|, C) == 2 && Honest(c, C, content(x), first) && Carries(first, 0)
    ensures RunOk(c, C, content, Start(keeps, objects), Overlap(a, b, x, first))
    ensures var t := Run(c, C, Start(keeps, objects), Overlap(a, b, x, first));
            && a in t.pending && t.pending[a] == Progress(x, [true, false], 1) && t.clearing == map[] && t.keeps == keeps && t.objects == objects
    ensures History(c, C, Start(keeps, objects), Overlap(a, b, x, first), x) == [Removed, Wrote(0), Removed]
  {
    var run := Overlap(a, b, x, first);
    var t0 := Start(keeps, objects);
    var t1 := Step(c, C, t0, run[0]);
    var t2 := Step(c, C, t1, run[1]);
    var t3 := Step(c, C, t2, run[2]);
    assert run[1..] == [Chunk(a, first), Put(b, x, 2)] && run[1..][1..] == [Put(b, x, 2)] && [Put(b, x, 2)][1..] == [];
    assert t1.pending[a] == Progress(x, [false, false], 0);
    assert GotBy(c, t1.pending[a], first) == Data(0, Slice(content(x), C, 0));
    assert t2.pending[a] == Progress(x, [true, false], 1);
    assert Run(c, C, t3, []) == t3 && RunOk(c, C, content, t3, []) && History(c, C, t3, [], x) == [];
    assert RunOk(c, C, content, t2, [Put(b, x, 2)]) && Run(c, C, t2, [Put(b, x, 2)]) == t3;
    assert RunOk(c, C, content, t1, run[1..]) && Run(c, C, t1, run[1..]) == t3;
    assert History(c, C, t2, [Put(b, x, 2)], x) == [Removed] + [];
    assert History(c, C, t1, run[1..], x) == [Wrote(0)] + ([Removed] + []);
  }

  lemma OnlyLastWritten(evs: seq<Event>)
    requires evs == [Removed, Wrote(0), Removed] + [Wrote(1)]
    ensures Since(evs) == {1}
  {
    assert evs[..3] == [Removed, Wrote(0), Removed];
    assert Since(evs[..3]) == {};
  }

  /**
   * Of two sessions that upload the same two chunks the second one's start removes what the first has written.
   * The first one's upload completes all the same, and stores the file exactly when its first chunk is all zeros.
   * A back end that overwrites so loses a right object that it had before.
   */
  lemma SecondUploadSpoils(c: Cipher, C: nat, content: Bytes -> Bytes, keeps: bool, objects: map<Bytes, Bytes>,
                           a: nat, b: nat, x: Bytes, first: Bytes, second: Bytes)
    requires C > 0 && a != b && NumChunks(|content(x)|, C) == 2 && (x in objects ==> !keeps)
    requires Honest(c, C, content(x), first) && Carries(first, 0) && Honest(c, C, content(x), second) && Carries(second, 1)
    ensures var t := Run(c, C, Start(keeps, objects), Overlap(a, b, x, first));
            && RunOk(c, C, content, Start(keeps, objects), Overlap(a, b, x, first)) && Proper(c, C, content, t, Chunk(a, second))
            && var u := Step(c, C, t, Chunk(a, second));
            x in u.objects && (u.objects[x] == content(x) <==> AllZero(Slice(content(x), C, 0)))
  {
    var run := Overlap(a, b, x, first);
    OverlapState(c, C, content, keeps, objects, a, b, x, first);
    var t := Run(c, C, Start(keeps, objects), run);
    SecondChunkStores(c, C, content, t, a, x, second);
    var evs := [Removed, Wrote(0), Removed] + [Wrote(1)];
    OnlyLastWritten(evs);
    StoredRightIffInRun(c, C, content, keeps, objects, run, Chunk(a, second), x);
    assert 0 !in Since(evs) && Covered(C, content(x), Since(evs)) ==> Excused(C, content(x), 0);
  }

  lemma SecondChunkStores(c: Cipher, C: nat, content: Bytes -> Bytes, t: Tenant, a: nat, x: Bytes, second: Bytes)
    requires C > 0 && a in t.pending && t.pending[a] == Progress(x, [true, false], 1) && a !in t.clearing && (x in t.objects ==> !t.keeps)
    requires NumChunks(|content(x)|, C) == 2 && Honest(c, C, content(x), second) && Carries(second, 1)
    ensures Proper(c, C, content, t, Chunk(a, second)) && Stores(c, C, t, Chunk(a, second), x)
    ensures Touch(c, t, Chunk(a, second), x) == [Wrote(1)]
  {
    assert GotBy(c, t.pending[a], second) == Data(1, Slice(content(x), C, 1));
  }

  // ---- the uploads of a tenant as an object ----

  class TenantUploads {
    const c: Cipher
    const C: nat
    const keeps: bool
    var temps: map<Bytes, Bytes>
    var pending: map<nat, Progress>
    var clearing: map<nat, Bytes>
    var objects: map<Bytes, Bytes>

    ghost function State(): Tenant
      reads this
    {
      Tenant(temps, pending, clearing, keeps, objects)
    }

    constructor (c: Cipher, C: nat, keeps: bool, objects: map<Bytes, Bytes>)
      ensures this.c == c && this.C == C && State() == Start(keeps, objects)
    {
      this.c, this.C, this.keeps, this.objects := c, C, keeps, objects;
      temps, pending, clearing := map[], map[], map[];
    }

    /** Start an upload: the temporary file of the blob is removed, whoever has written it. */
    method FilePut(s: nat, x: Bytes, total: nat)
      modifies this
      ensures State() == Step(c, C, old(State()), Put(s, x, total))
    {
      temps := temps - {x};
      pending := pending[s := Progress(x, seq(total, _ => false), 0)];
    }

    /** Write a chunk into the shared temporary file, and read the file back when the session has sent them all. */
    method FileChunk(s: nat, payload: Bytes)
      modifies this
      ensures State() == Step(c, C, old(State()), Chunk(s, payload))
    {
      if s !in pending { return; }
      var p := pending[s];
      if |payload| >= 4 {
        var idx := FromLE(payload[..4]);
        if idx < |p.received| && !p.received[idx] {
          var data := Unprotect(c, payload[4..], idx);
          if data.None? {
            pending := pending - {s};
            return;
          }
          temps := temps[p.blobId := WriteAt(if p.blobId in temps then temps[p.blobId] else [], idx * C, data.value)];
          p := Progress(p.blobId, p.received[idx := true], p.count + 1);
          pending := pending[s := p];
        }
      }
      StoreIfComplete(s);
    }

    method StoreIfComplete(s: nat)
      requires s in pending
      modifies this
      ensures State() == Finish(old(State()), s)
    {
      var p := pending[s];
      if p.count != |p.received| { return; }
      pending := pending - {s};
      if p.blobId in temps {
        if !keeps || p.blobId !in objects { objects := objects[p.blobId := temps[p.blobId]]; }
        clearing := clearing[s := p.blobId];
      }
    }

    /** The removal that follows a completed upload. */
    method RemoveTemp(s: nat)
      modifies this
      ensures State() == Step(c, C, old(State()), Clear(s))
    {
      if s in clearing {
        temps := temps - {clearing[s]};
        clearing := clearing - {s};
      }
    }

    /** Actions of all sessions, in the order they happen. */
    method Replay(run: seq<Action>)
      modifies this
      ensures State() == Run(c, C, old(State()), run)
    {
      var i := 0;
      while i < |run|
        invariant i <= |run| && Run(c, C, old(State()), run) == Run(c, C, State(), run[i..])
      {
        assert run[i..][1..] == run[i + 1..];
        match run[i] {
          case Put(s, x, total) => FilePut(s, x, total);
          case Chunk(s, payload) => FileChunk(s, payload);
          case Clear(s) => RemoveTemp(s);
        }
        i := i + 1;
      }
    }
  }

  // ---- one upload among others, from start to store ----

  lemma {:induction false} RunConcat(c: Cipher, C: nat, t: Tenant, a: seq<Action>, b: seq<Action>)
    ensures Run(c, C, t, a + b) == Run(c, C, Run(c, C, t, a), b)
    decreases |a|
  {
    if a == [] {
      assert a + b == b;
    } else {
      assert (a + b)[0] == a[0] && (a + b)[1..] == a[1..] + b;
      RunConcat(c, C, Step(c, C, t, a[0]), a[1..], b);
    }
  }

  lemma {:induction false} RunOkConcat(c: Cipher, C: nat, content: Bytes -> Bytes, t: Tenant, a: seq<Action>, b: seq<Action>)
    requires C > 0 && RunOk(c, C, content, t, a + b)
    ensures RunOk(c, C, content, t, a) && RunOk(c, C, content, Run(c, C, t, a), b)
    decreases |a|
  {
    if a == [] {
      assert a + b == b;
    } else {
      assert (a + b)[0] == a[0] && (a + b)[1..] == a[1..] + b;
      RunOkConcat(c, C, content, Step(c, C, t, a[0]), a[1..], b);
    }
  }

  lemma AtRest(C: nat, content: Bytes -> Bytes, keeps: bool, objects: map<Bytes, Bytes>, x: Bytes)
    requires C > 0
    ensures AllCounted(C, content, Start(keeps, objects)) && Follows(C, content(x), Start(keeps, objects), [], x) && Kept(Start(keeps, objects), [], x)
  {
  }

  /**
   * A session uploads a file in the midst of any others of its tenant. If all its chunks come, and no action of
   * the run removes a temporary file of this blob that another session is writing, the file ends in the store.
   */
  lemma UploadAmongOthers(c: Cipher, C: nat, content: Bytes -> Bytes, keeps: bool, objects: map<Bytes, Bytes>,
                          before: seq<Action>, s: nat, x: Bytes, after: seq<Action>)
    requires C > 0 && content(x) != []
    requires var run := before + ([Put(s, x, NumChunks(|content(x)|, C))] + after);
             RunOk(c, C, content, Start(keeps, objects), run) && Undisturbed(c, C, Start(keeps, objects), run, x)
    requires NoNewPut(after, s) && forall i | 0 <= i < NumChunks(|content(x)|, C) :: Arrived(PayloadsOf(after, s), i)
    requires x in objects ==> objects[x] == content(x)
    ensures var t := Run(c, C, Start(keeps, objects), before + ([Put(s, x, NumChunks(|content(x)|, C))] + after));
            x in t.objects && t.objects[x] == content(x)
  {
    var put := Put(s, x, NumChunks(|content(x)|, C));
    var rest := Start(keeps, objects);
    AtRest(C, content, keeps, objects, x);
    UndisturbedStoresRight(c, C, content, rest, before + ([put] + after), [], x);
    RunOkConcat(c, C, content, rest, before, [put] + after);
    RunConcat(c, C, rest, before, [put] + after);
    RunFollows(c, C, content, rest, before, [], x);
    var t := Run(c, C, rest, before);
    assert ([put] + after)[1..] == after;
    PutCompletes(c, C, content, t, s, x, after);
  }

  lemma PutCompletes(c: Cipher, C: nat, content: Bytes -> Bytes, t: Tenant, s: nat, x: Bytes, after: seq<Action>)
    requires C > 0 && content(x) != [] && AllCounted(C, content, t)
    requires var put := Put(s, x, NumChunks(|content(x)|, C));
             Proper(c, C, content, t, put) && RunOk(c, C, content, Step(c, C, t, put), after)
    requires NoNewPut(after, s) && forall i | 0 <= i < NumChunks(|content(x)|, C) :: Arrived(PayloadsOf(after, s), i)
    ensures x in Run(c, C, Step(c, C, t, Put(s, x, NumChunks(|content(x)|, C))), after).objects
  {
    var put := Put(s, x, NumChunks(|content(x)|, C));
    StepCounted(c, C, content, t, put);
    CeilBounds(|content(x)|, C);
    assert NumChunks(|content(x)|, C) > 0;
    CountNone(Step(c, C, t, put).pending[s].received);
    CompletesWithChunks(c, C, content, Step(c, C, t, put), after, s);
  }
}
