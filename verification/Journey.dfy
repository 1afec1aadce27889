/** A file on its way from one machine through the server's store to another. */
module Journey {
  import opened Common
  import opened ByteStrings
  import opened E2E
  import opened Upload
  import opened SharedUpload
  import opened Download
  import SyncModel
  import SyncInvariant
  import FrameCodec

  /** The bytes hashed in a run that have this hash. */
  ghost function ContentOf(h: SyncModel.Hasher): Bytes -> Bytes {
    (d: Bytes) => if exists b :: b in h.known && h.sha(b) == d then var b :| b in h.known && h.sha(b) == d; b else []
  }

  lemma ContentOfHash(h: SyncModel.Hasher, b: Bytes)
    requires h.Valid() && b in h.known
    ensures ContentOf(h)(h.sha(b)) == b
  {
  }

  /** With chunks of 1 MiB and at most 16 bytes of sealing, every chunk with its index goes into one frame. */
  lemma ChunkFitsFrame(c: Cipher, bytes: Bytes, i: nat, flags: byte, streamId: FrameCodec.u32)
    requires forall k, n, m :: |c.aead.seal(k, n, m)| <= |m| + 16
    ensures FrameCodec.Encode(FrameCodec.Frame(FrameCodec.FileChunk, flags, streamId, ChunkPayload(c, bytes, 1048576, i))).Ok?
  {
  }

  /**
   * End to end with key rotation: a session uploads a file in the midst of any other sessions of its tenant, none
   * of which removes the temporary file while it is being written. The file's chunks come in any order and any
   * number of times, mixed with strays. Whatever the store held before, this object included, the object is then
   * downloaded through any interleaving of broadcasts, and the receiver ends with the sender's bytes.
   */
  method Transfer(sender: Cipher, server: Cipher, receiver: Cipher, C: nat, bytes: Bytes,
                  h: SyncModel.Hasher, keeps: bool, objects: map<Bytes, Bytes>, before: seq<Action>, s: nat, after: seq<Action>,
                  ahead: nat -> nat, behind: nat -> nat) returns (r: Outcome<Option<Bytes>>)
    requires h.Valid() && SyncInvariant.Addressed(h, objects) && bytes in h.known
    requires C > 0 && bytes != [] && |bytes| / C < 0xFFFF_FFFF
    requires Reads(sender, server) && Reads(server, receiver)
    requires var run := before + ([Put(s, h.sha(bytes), NumChunks(|bytes|, C))] + after);
             RunOk(server, C, ContentOf(h), Start(keeps, objects), run) && Undisturbed(server, C, Start(keeps, objects), run, h.sha(bytes))
    requires NoNewPut(after, s)
    requires forall i | 0 <= i < NumChunks(|bytes|, C) :: ChunkPayload(sender, bytes, C, i) in PayloadsOf(after, s)
    ensures r == Ok(Some(bytes))
  {
    var blobId := h.sha(bytes);
    ContentOfHash(h, bytes);
    SomeChunk(|bytes|, C);
    forall i | 0 <= i < NumChunks(|bytes|, C) ensures Arrived(PayloadsOf(after, s), i) {
      SentIsHonest(sender, server, C, bytes, i);
      assert Carries(ChunkPayload(sender, bytes, C, i), i);
    }
    UploadAmongOthers(server, C, ContentOf(h), keeps, objects, before, s, blobId, after);
    var uploads := new TenantUploads(server, C, keeps, objects);
    uploads.Replay(before + ([Put(s, blobId, NumChunks(|bytes|, C))] + after));
    var link := new Link(server, C, uploads.objects, ahead, behind);
    r := GetObject(link, receiver, blobId);
  }
}
