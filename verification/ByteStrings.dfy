/** Byte strings, little-endian integers and the order Rust gives to strings. */
module ByteStrings {
  type byte = x: int | 0 <= x < 256
  type Bytes = seq<byte>

  function Pow256(w: nat): (p: nat)
    ensures p > 0
  {
    if w == 0 then 1 else 256 * Pow256(w - 1)
  }

  lemma Widths()
    ensures Pow256(2) == 0x1_0000
    ensures Pow256(4) == 0x1_0000_0000
    ensures Pow256(8) == 0x1_0000_0000_0000_0000
  {
    assert Pow256(1) == 256 * Pow256(0);
    assert Pow256(2) == 256 * Pow256(1);
    assert Pow256(3) == 256 * Pow256(2);
    assert Pow256(4) == 256 * Pow256(3);
    assert Pow256(5) == 256 * Pow256(4);
    assert Pow256(6) == 256 * Pow256(5);
    assert Pow256(7) == 256 * Pow256(6);
    assert Pow256(8) == 256 * Pow256(7);
  }

  /** The `w` low bytes of `n`, least significant first: a truncating cast followed by `to_le_bytes`. */
  function LE(n: nat, w: nat): (b: Bytes)
    ensures |b| == w
  {
    if w == 0 then [] else [n % 256] + LE(n / 256, w - 1)
  }

  /** Byte `k` is the digit of weight 256 to the power `k`. */
  lemma {:induction false} LEDigit(n: nat, w: nat, k: nat)
    requires k < w
    ensures LE(n, w)[k] == (n / Pow256(k)) % 256
    decreases w
  {
    if k > 0 {
      LEDigit(n / 256, w - 1, k - 1);
      DivideTwice(n, Pow256(k - 1));
    }
  }

  lemma DivideTwice(n: nat, p: nat)
    requires p > 0
    ensures (n / 256) / p == n / (256 * p)
  {
    var q := (n / 256) / p;
    assert n == 256 * (n / 256) + n % 256;
    assert n / 256 == q * p + (n / 256) % p;
    assert 256 * (q * p) == q * (256 * p);
    ModUnique(n, 256 * p, q, 256 * ((n / 256) % p) + n % 256);
  }

  function FromLE(b: Bytes): (n: nat)
    ensures n < Pow256(|b|)
  {
    if b == [] then 0 else b[0] + 256 * FromLE(b[1..])
  }

  lemma ModByDigit(n: nat, p: nat)
    requires p > 0
    ensures n % (256 * p) == 256 * ((n / 256) % p) + n % 256
  {
    var q, r := (n / 256) / p, (n / 256) % p;
    assert n == 256 * (n / 256) + n % 256;
    assert n / 256 == q * p + r;
    assert 256 * (q * p) == q * (256 * p);
    assert 256 * r + n % 256 < 256 * p;
    ModUnique(n, 256 * p, q, 256 * r + n % 256);
  }

  lemma {:induction false} DecodeLE(n: nat, w: nat)
    ensures FromLE(LE(n, w)) == n % Pow256(w)
  {
    if w != 0 {
      DecodeLE(n / 256, w - 1);
      assert LE(n, w)[1..] == LE(n / 256, w - 1);
      ModByDigit(n, Pow256(w - 1));
    }
  }

  lemma ModUnique(n: nat, m: nat, q: int, r: nat)
    requires r < m
    requires n == q * m + r
    ensures n % m == r
  {
    var d := n / m - q;
    assert n == (n / m) * m + n % m;
    assert d * m == r - n % m;
    if d != 0 {
      assert false;
    }
  }

  lemma {:induction false} EncodeLE(b: Bytes)
    ensures LE(FromLE(b), |b|) == b
  {
    if b != [] {
      EncodeLE(b[1..]);
      assert FromLE(b) % 256 == b[0] && FromLE(b) / 256 == FromLE(b[1..]);
    }
  }

  /** Small values survive the round trip. */
  lemma RoundTripLE(n: nat, w: nat)
    requires n < Pow256(w)
    ensures FromLE(LE(n, w)) == n
  {
    DecodeLE(n, w);
    ModUnique(n, Pow256(w), 0, n);
  }

  /** The bytes are the ASCII codes of this text. */
  predicate Spells(b: Bytes, text: string) { |b| == |text| && forall i | 0 <= i < |b| :: b[i] == text[i] as int }

  // ---- the lexicographic order that `str::cmp` uses ----

  predicate AtMost(a: Bytes, b: Bytes) {
    a == [] || (b != [] && (a[0] < b[0] || (a[0] == b[0] && AtMost(a[1..], b[1..]))))
  }

  lemma {:induction false} AtMostTotal(a: Bytes, b: Bytes)
    ensures AtMost(a, b) || AtMost(b, a)
  {
    if a != [] && b != [] { AtMostTotal(a[1..], b[1..]); }
  }

  lemma {:induction false} AtMostAntisymmetric(a: Bytes, b: Bytes)
    requires AtMost(a, b) && AtMost(b, a)
    ensures a == b
  {
    if a != [] {
      AtMostAntisymmetric(a[1..], b[1..]);
      assert a == [a[0]] + a[1..] && b == [b[0]] + b[1..];
    }
  }

  lemma {:induction false} AtMostTransitive(a: Bytes, b: Bytes, c: Bytes)
    requires AtMost(a, b) && AtMost(b, c)
    ensures AtMost(a, c)
  {
    if a != [] && a[0] == b[0] && b[0] == c[0] { AtMostTransitive(a[1..], b[1..], c[1..]); }
  }

  predicate FirstDifference(a: Bytes, b: Bytes, i: nat) { i < |a| && i < |b| && a[..i] == b[..i] && a[i] != b[i] }

  /** Where two strings first differ the smaller byte decides; a string comes before those that extend it. */
  lemma {:induction false} AtMostMeans(a: Bytes, b: Bytes, i: nat)
    ensures FirstDifference(a, b, i) ==> (AtMost(a, b) <==> a[i] < b[i])
    ensures a <= b ==> AtMost(a, b)
    decreases |a|
  {
    if 0 < i <= |a| && i <= |b| { assert a[..i][0] == a[0] && b[..i][0] == b[0]; }
    if a != [] && b != [] && a[0] == b[0] {
      AtMostMeans(a[1..], b[1..], if i > 0 then i - 1 else 0);
      if FirstDifference(a, b, i) { assert i > 0 && a[1..][..i - 1] == a[..i][1..] && b[1..][..i - 1] == b[..i][1..]; }
      if a <= b { assert a[1..] <= b[1..]; }
    }
  }
}
