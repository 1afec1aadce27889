/** Optional end-to-end encryption of chunks with a rotating list of keys. */
module E2E {
  import opened Common
  import opened ByteStrings

  /**
   * ChaCha20-Poly1305 seen from outside (RFC 8439 section 2.8): opening inverts sealing under the
   * same key and nonce, and fails under any other key.
   */
  datatype Aead = Aead(seal: (Bytes, Bytes, Bytes) -> Bytes, open: (Bytes, Bytes, Bytes) -> Option<Bytes>) {
    ghost predicate Valid() {
      && (forall k, n, m :: open(k, n, seal(k, n, m)) == Some(m))
      && (forall k, j, n, m | j != k :: open(j, n, seal(k, n, m)) == None)
    }
  }

  /** Newest first; `from_env` makes one only from a non-empty list. */
  datatype E2EKeys = E2EKeys(newest: Bytes, all: seq<Bytes>)

  const SALT: Bytes := // "nsmt:e2e:v1:"
    [0x6E, 0x73, 0x6D, 0x74, 0x3A, 0x65, 0x32, 0x65, 0x3A, 0x76, 0x31, 0x3A]

  function DeriveTenantKey(sha: Bytes -> Bytes, master: Bytes, domain: Bytes): Bytes {
    sha(SALT + domain + master)
  }

  /** Every master key derived for the tenant; no masters means no encryption. */
  function FromMasters(sha: Bytes -> Bytes, masters: seq<Bytes>, domain: Bytes): Option<E2EKeys> {
    if masters == [] then None
    else
      var all := seq(|masters|, i requires 0 <= i < |masters| =>
        if domain == [] then masters[i] else DeriveTenantKey(sha, masters[i], domain));
      Some(E2EKeys(all[0], all))
  }

  /** "NSMT" and the chunk index, both big-endian. */
  function NonceFor(idx: nat): (n: Bytes)
    ensures |n| == 12
  {
    [0x4E, 0x53, 0x4D, 0x54] + Reverse(LE(idx, 8))
  }

  function Reverse(b: Bytes): (r: Bytes)
    ensures |r| == |b| && forall i | 0 <= i < |b| :: r[i] == b[|b| - 1 - i]
  {
    seq(|b|, i requires 0 <= i < |b| => b[|b| - 1 - i])
  }

  /** The nonce is the text "NSMT" and the index with its most significant byte first. */
  lemma NonceSpelled(idx: nat, k: nat)
    requires k < 8
    ensures Spells(NonceFor(idx)[..4], "NSMT") && NonceFor(idx)[4 + k] == (idx / Pow256(7 - k)) % 256
  {
    LEDigit(idx, 8, 7 - k);
    assert Reverse(LE(idx, 8))[k] == LE(idx, 8)[7 - k];
  }

  /** No two chunks of a file share a nonce. */
  lemma NonceInjective(i: nat, j: nat)
    requires i < Pow256(8) && j < Pow256(8) && NonceFor(i) == NonceFor(j)
    ensures i == j
  {
    var a, b := LE(i, 8), LE(j, 8);
    assert NonceFor(i)[4..] == Reverse(a) && NonceFor(j)[4..] == Reverse(b);
    forall k | 0 <= k < 8 ensures a[k] == b[k] {
      assert Reverse(a)[7 - k] == a[k] && Reverse(b)[7 - k] == b[k];
    }
    assert a == b;
    RoundTripLE(i, 8);
    RoundTripLE(j, 8);
  }

  function Encrypt(aead: Aead, keys: E2EKeys, plain: Bytes, idx: nat): Bytes {
    aead.seal(keys.newest, NonceFor(idx), plain)
  }

  /** The first key in the list that opens the payload wins. */
  function Decrypt(aead: Aead, all: seq<Bytes>, payload: Bytes, idx: nat): Option<Bytes> {
    if all == [] then None
    else
      var r := aead.open(all[0], NonceFor(idx), payload);
      if r.Some? then r else Decrypt(aead, all[1..], payload, idx)
  }

  /** Rotation: a chunk opens exactly when the receiver still lists the key that was the sender's newest. */
  lemma {:induction false} DecryptIff(aead: Aead, sender: E2EKeys, all: seq<Bytes>, plain: Bytes, idx: nat)
    requires aead.Valid()
    ensures Decrypt(aead, all, Encrypt(aead, sender, plain, idx), idx)
            == if sender.newest in all then Some(plain) else None
  {
    if all != [] && all[0] != sender.newest {
      DecryptIff(aead, sender, all[1..], plain, idx);
    }
  }

  /** What is sealed under one nonce opens under no other (RFC 8439 section 2.8). */
  ghost predicate BindsNonce(aead: Aead) {
    forall j, k, n, o, m | n != o :: aead.open(j, o, aead.seal(k, n, m)) == None
  }

  /** A chunk sealed for one place in a file opens at no other place. */
  lemma {:induction false} MovedNeverOpens(aead: Aead, sender: E2EKeys, all: seq<Bytes>, plain: Bytes, i: nat, j: nat)
    requires BindsNonce(aead) && i != j && i < Pow256(8) && j < Pow256(8)
    ensures Decrypt(aead, all, Encrypt(aead, sender, plain, i), j) == None
    decreases |all|
  {
    if NonceFor(i) == NonceFor(j) { NonceInjective(i, j); }
    if all != [] { MovedNeverOpens(aead, sender, all[1..], plain, i, j); }
  }

  /** Receivers of one tenant open what any sender seals while the sender's newest master key is on their list. */
  lemma RotationByMasters(sha: Bytes -> Bytes, aead: Aead, sender: seq<Bytes>, receiver: seq<Bytes>,
                          domain: Bytes, plain: Bytes, idx: nat)
    requires aead.Valid() && sender != [] && sender[0] in receiver
    ensures var s, r := FromMasters(sha, sender, domain), FromMasters(sha, receiver, domain);
            s.Some? && r.Some? && Decrypt(aead, r.value.all, Encrypt(aead, s.value, plain, idx), idx) == Some(plain)
  {
    var s, r := FromMasters(sha, sender, domain), FromMasters(sha, receiver, domain);
    var i :| 0 <= i < |receiver| && receiver[i] == sender[0];
    assert r.value.all[i] == s.value.newest;
    DecryptIff(aead, s.value, r.value.all, plain, idx);
  }

  // ---- tenants of different domains ----

  /** The hash tells apart the strings it was given. */
  ghost predicate NoCollision(sha: Bytes -> Bytes, hashed: iset<Bytes>) {
    forall x, y | x in hashed && y in hashed && sha(x) == sha(y) :: x == y
  }

  lemma TenantKeyMeans(sha: Bytes -> Bytes, masters: seq<Bytes>, domain: Bytes, mark: Bytes)
    requires masters != [] && domain != [] && Spells(mark, "nsmt:e2e:v1:")
    ensures var k := FromMasters(sha, masters, domain);
            && k.Some? && |k.value.all| == |masters| && k.value.newest == k.value.all[0]
            && forall i | 0 <= i < |masters| :: k.value.all[i] == sha(mark + (domain + masters[i]))
  {
    assert mark == SALT;
    forall i | 0 <= i < |masters|
      ensures FromMasters(sha, masters, domain).value.all[i] == sha(mark + (domain + masters[i]))
    {
      assert SALT + domain + masters[i] == mark + (domain + masters[i]);
    }
  }

  /**
   * What a sender of domain `d` seals opens at a receiver of domain `e` exactly when for some master key of the
   * receiver the domain followed by it is, as one string, the sender's domain followed by its newest master key.
   */
  lemma OpensAcrossIff(sha: Bytes -> Bytes, aead: Aead, sender: seq<Bytes>, receiver: seq<Bytes>, d: Bytes, e: Bytes,
                       mark: Bytes, hashed: iset<Bytes>, plain: Bytes, idx: nat)
    requires aead.Valid() && sender != [] && receiver != [] && d != [] && e != [] && Spells(mark, "nsmt:e2e:v1:")
    requires NoCollision(sha, hashed) && mark + (d + sender[0]) in hashed && forall m | m in receiver :: mark + (e + m) in hashed
    ensures Decrypt(aead, FromMasters(sha, receiver, e).value.all,
                    Encrypt(aead, FromMasters(sha, sender, d).value, plain, idx), idx)
            == if exists m :: m in receiver && e + m == d + sender[0] then Some(plain) else None
  {
    TenantKeyMeans(sha, sender, d, mark);
    TenantKeyMeans(sha, receiver, e, mark);
    var s, all := FromMasters(sha, sender, d).value, FromMasters(sha, receiver, e).value.all;
    DecryptIff(aead, s, all, plain, idx);
    if m :| m in receiver && e + m == d + sender[0] {
      var i :| 0 <= i < |receiver| && receiver[i] == m;
      assert all[i] == s.newest;
    } else if s.newest in all {
      var i :| 0 <= i < |all| && all[i] == s.newest;
      assert receiver[i] in receiver;
      CutMark(mark, e + receiver[i], d + sender[0]);
    }
  }

  lemma CutMark(mark: Bytes, x: Bytes, y: Bytes)
    ensures mark + x == mark + y <==> x == y
  {
    assert (mark + x)[|mark|..] == x && (mark + y)[|mark|..] == y;
  }

  /** Master keys all have one length, so tenants of different domains cannot read each other's chunks. */
  lemma TenantsApart(sha: Bytes -> Bytes, aead: Aead, sender: seq<Bytes>, receiver: seq<Bytes>, d: Bytes, e: Bytes,
                     mark: Bytes, hashed: iset<Bytes>, plain: Bytes, idx: nat)
    requires aead.Valid() && sender != [] && receiver != [] && d != [] && e != [] && d != e && Spells(mark, "nsmt:e2e:v1:")
    requires NoCollision(sha, hashed) && mark + (d + sender[0]) in hashed && forall m | m in receiver :: mark + (e + m) in hashed
    requires forall m | m in receiver :: |m| == |sender[0]|
    ensures Decrypt(aead, FromMasters(sha, receiver, e).value.all,
                    Encrypt(aead, FromMasters(sha, sender, d).value, plain, idx), idx) == None
  {
    OpensAcrossIff(sha, aead, sender, receiver, d, e, mark, hashed, plain, idx);
    forall m | m in receiver ensures e + m != d + sender[0] {
      assert (e + m)[..|e|] == e && (d + sender[0])[..|d|] == d;
      assert |e + m| == |e| + |m| && |d + sender[0]| == |d| + |m|;
    }
  }

  /** Were master keys of different lengths allowed, a tenant could read what another tenant seals. */
  lemma LongerMasterMeets(sha: Bytes -> Bytes, aead: Aead, d: Bytes, x: byte, master: Bytes, plain: Bytes, idx: nat)
    requires aead.Valid() && d != []
    ensures Decrypt(aead, FromMasters(sha, [master], d + [x]).value.all,
                    Encrypt(aead, FromMasters(sha, [[x] + master], d).value, plain, idx), idx) == Some(plain)
  {
    assert SALT + d + ([x] + master) == SALT + (d + [x]) + master;
    var all := FromMasters(sha, [master], d + [x]).value.all;
    assert all[0] == FromMasters(sha, [[x] + master], d).value.newest;
    DecryptIff(aead, FromMasters(sha, [[x] + master], d).value, all, plain, idx);
  }

  // ---- chunks travel in the clear when no key is configured ----

  datatype Cipher = Cipher(aead: Aead, keys: Option<E2EKeys>)

  function Protect(c: Cipher, plain: Bytes, idx: nat): Bytes {
    if c.keys.Some? then Encrypt(c.aead, c.keys.value, plain, idx) else plain
  }

  function Unprotect(c: Cipher, payload: Bytes, idx: nat): Option<Bytes> {
    if c.keys.Some? then Decrypt(c.aead, c.keys.value.all, payload, idx) else Some(payload)
  }

  /** `reader` can open what `writer` seals. */
  ghost predicate Reads(writer: Cipher, reader: Cipher) {
    && writer.aead == reader.aead && writer.aead.Valid()
    && (writer.keys.Some? <==> reader.keys.Some?)
    && (writer.keys.Some? ==> writer.keys.value.newest in reader.keys.value.all)
  }

  lemma ReadsBack(writer: Cipher, reader: Cipher, plain: Bytes, idx: nat)
    requires Reads(writer, reader)
    ensures Unprotect(reader, Protect(writer, plain, idx), idx) == Some(plain)
  {
    if writer.keys.Some? {
      DecryptIff(writer.aead, writer.keys.value, reader.keys.value.all, plain, idx);
    }
  }
}
