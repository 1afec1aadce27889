/** Chunked download over a channel that also carries broadcast frames, and whole transfers. */
module Download {
  import opened Common
  import opened ByteStrings
  import opened E2E
  import opened Upload

  datatype Msg = Chunk(payload: Bytes) | NotFound | Broadcast(note: nat)

  ghost predicate Idle(inbox: seq<Msg>) { forall m | m in inbox :: m.Broadcast? }

  function Notes(n: nat): (s: seq<Msg>)
    ensures |s| == n && Idle(s)
  {
    seq(n, i requires 0 <= i < n => Broadcast(i))
  }

  /** What the FILE_GET arm of the server, or of a peer, answers. */
  function Answer(c: Cipher, C: nat, store: map<Bytes, Bytes>, blobId: Bytes, idx: nat): (m: Msg)
    requires C > 0
    ensures !m.Broadcast?
  {
    if blobId in store then Chunk(LE(idx, 4) + Protect(c, Slice(store[blobId], C, idx), idx)) else NotFound
  }

  /**
   * A client's side of one connection. Replies come in order; `before` and `after` say how many
   * broadcasts the server slips in around its `n`th reply.
   */
  class Link {
    const c: Cipher
    const C: nat
    const store: map<Bytes, Bytes>
    const before: nat -> nat
    const after: nat -> nat
    var inbox: seq<Msg>
    var requests: nat

    constructor (c: Cipher, C: nat, store: map<Bytes, Bytes>, before: nat -> nat, after: nat -> nat)
      ensures this.c == c && this.C == C && this.store == store && Idle(inbox) && requests == 0
    {
      this.c, this.C, this.store, this.before, this.after := c, C, store, before, after;
      inbox, requests := [], 0;
    }

    method Request(blobId: Bytes, idx: nat)
      requires C > 0
      modifies this
      ensures requests == old(requests) + 1
      ensures inbox == old(inbox) + Notes(before(old(requests))) + [Answer(c, C, store, blobId, idx)]
                       + Notes(after(old(requests)))
    {
      inbox := inbox + Notes(before(requests)) + [Answer(c, C, store, blobId, idx)] + Notes(after(requests));
      requests := requests + 1;
    }

    method Recv() returns (m: Msg)
      requires inbox != []
      modifies this`inbox
      ensures m == old(inbox)[0] && inbox == old(inbox)[1..]
    {
      m := inbox[0];
      inbox := inbox[1..];
    }

    /** Skip broadcasts until a chunk or an error comes. */
    method AwaitReply(ghost earlier: seq<Msg>, ghost reply: Msg, ghost later: seq<Msg>) returns (m: Msg)
      requires inbox == earlier + [reply] + later
      requires Idle(earlier) && Idle(later) && !reply.Broadcast?
      modifies this`inbox
      ensures m == reply && inbox == later
    {
      ghost var rest := earlier;
      m := Recv();
      while m.Broadcast?
        invariant [m] + inbox == rest + [reply] + later && Idle(rest)
        decreases |inbox|
      {
        assert ([m] + inbox)[0] == if rest == [] then reply else rest[0];
        assert ([m] + inbox)[1..] == inbox;
        assert inbox == rest[1..] + [reply] + later;
        rest := rest[1..];
        m := Recv();
      }
      assert ([m] + inbox)[0] == (rest + [reply] + later)[0];
      assert ([m] + inbox)[1..] == inbox;
    }

    method Ask(blobId: Bytes, idx: nat) returns (m: Msg)
      requires C > 0 && Idle(inbox)
      modifies this
      ensures m == Answer(c, C, store, blobId, idx) && Idle(inbox) && requests == old(requests) + 1
    {
      ghost var earlier, later := inbox + Notes(before(requests)), Notes(after(requests));
      Request(blobId, idx);
      m := AwaitReply(earlier, Answer(c, C, store, blobId, idx), later);
    }
  }

  /** Chunk `idx` extends the first `idx` full chunks; a short one ends the object. */
  lemma NextSlice(bytes: Bytes, C: nat, idx: nat)
    requires C > 0 && idx * C <= |bytes|
    ensures var s := Slice(bytes, C, idx);
            && idx * C + |s| <= |bytes|
            && bytes[..idx * C] + s == bytes[..idx * C + |s|]
            && (|s| < C ==> idx * C + |s| == |bytes| && idx == |bytes| / C)
            && (|s| >= C ==> (idx + 1) * C == idx * C + |s| && idx < |bytes| / C)
  {
    var k := idx * C;
    var s := Slice(bytes, C, idx);
    assert (idx + 1) * C == k + C;
    assert k < |bytes| ==> s == bytes[k..k + |s|];
    assert bytes[..k] + s == bytes[..k + |s|];
    QuotientAt(|bytes|, C, idx);
  }

  lemma QuotientAt(n: nat, C: nat, q: nat)
    requires C > 0 && q * C <= n
    ensures n < q * C + C <==> q == n / C
    ensures n >= q * C + C <==> q < n / C
  {
    var d := n / C;
    assert d * C + n % C == n;
    assert (q + 1) * C == q * C + C && (d + 1) * C == d * C + C;
    if q < d {
      Scale(q + 1, d, C);
    } else if d < q {
      Scale(d + 1, q, C);
    }
  }

  /**
   * `get_object`: from a channel with no chunk in flight, the whole object in one request per full
   * chunk and one more, or nothing when it is not stored, or an error when no key of the reader opens
   * the chunks. No chunk stays in flight.
   */
  method GetObject(link: Link, reader: Cipher, blobId: Bytes) returns (r: Outcome<Option<Bytes>>)
    requires link.C > 0 && Idle(link.inbox)
    requires link.c.aead == reader.aead && reader.aead.Valid() && (link.c.keys.Some? <==> reader.keys.Some?)
    requires blobId in link.store ==> |link.store[blobId]| / link.C < 0x1_0000_0000
    modifies link
    ensures Idle(link.inbox)
    ensures blobId !in link.store ==> r == Ok(None) && link.requests == old(link.requests) + 1
    ensures blobId in link.store && Reads(link.c, reader) ==>
              r == Ok(Some(link.store[blobId])) && link.requests == old(link.requests) + |link.store[blobId]| / link.C + 1
    ensures blobId in link.store && !Reads(link.c, reader) ==> r == Err && link.requests == old(link.requests) + 1
  {
    var out: Bytes := [];
    var idx := 0;
    ghost var bytes := if blobId in link.store then link.store[blobId] else [];
    while true
      invariant Idle(link.inbox) && idx * link.C <= |bytes| && out == bytes[..idx * link.C]
      invariant link.requests == old(link.requests) + idx
      invariant idx > 0 ==> blobId in link.store && Reads(link.c, reader)
      decreases |bytes| - idx * link.C
    {
      var resp := link.Ask(blobId, idx);
      NextSlice(bytes, link.C, idx);
      assert idx <= |bytes| / link.C;
      if resp.NotFound? { return Ok(None); }
      Widths();
      RoundTripLE(idx, 4);
      assert resp.payload[..4] == LE(idx, 4);
      assert resp.payload[4..] == Protect(link.c, Slice(bytes, link.C, idx), idx);
      if |resp.payload| >= 4 && FromLE(resp.payload[..4]) == idx {
        var data := Unprotect(reader, resp.payload[4..], idx);
        UnprotectSlice(link.c, reader, Slice(bytes, link.C, idx), idx);
        if data.None? { return Err; }
        out := out + data.value;
        if |data.value| < link.C {
          assert out == bytes;
          return Ok(Some(out));
        }
        idx := idx + 1;
      }
    }
  }

  lemma UnprotectSlice(writer: Cipher, reader: Cipher, plain: Bytes, idx: nat)
    requires writer.aead == reader.aead && reader.aead.Valid() && (writer.keys.Some? <==> reader.keys.Some?)
    ensures Unprotect(reader, Protect(writer, plain, idx), idx) == if Reads(writer, reader) then Some(plain) else None
  {
    if writer.keys.Some? {
      DecryptIff(writer.aead, writer.keys.value, reader.keys.value.all, plain, idx);
    }
  }

  /** Any sequence of downloads on one connection gets every object right. */
  method GetAll(link: Link, reader: Cipher, blobIds: seq<Bytes>) returns (r: seq<Option<Bytes>>)
    requires link.C > 0 && Idle(link.inbox) && Reads(link.c, reader)
    requires forall b | b in link.store :: |link.store[b]| / link.C < 0x1_0000_0000
    modifies link
    ensures Idle(link.inbox) && |r| == |blobIds|
    ensures forall i | 0 <= i < |r| ::
              r[i] == if blobIds[i] in link.store then Some(link.store[blobIds[i]]) else None
  {
    r := [];
    for i := 0 to |blobIds|
      invariant Idle(link.inbox) && |r| == i
      invariant forall j | 0 <= j < i ::
                  r[j] == if blobIds[j] in link.store then Some(link.store[blobIds[j]]) else None
    {
      var got := GetObject(link, reader, blobIds[i]);
      r := r + [got.value];
    }
  }
}
