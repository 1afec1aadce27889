/** UTF-8 byte sequences, following the grammar in section 4 of RFC 3629. */
module Utf8 {
  import opened ByteStrings

  predicate IsTail(b: byte) { 0x80 <= b <= 0xBF }

  /** The length of the well-formed character `s` starts with, or 0 when there is none. */
  function CharLen(s: Bytes): (n: nat)
    ensures n <= |s|
  {
    if |s| >= 1 && s[0] <= 0x7F then 1
    else if |s| >= 2 && 0xC2 <= s[0] <= 0xDF && IsTail(s[1]) then 2
    else if |s| >= 3 && IsTail(s[1]) && IsTail(s[2])
            && ((s[0] == 0xE0 && s[1] >= 0xA0) || 0xE1 <= s[0] <= 0xEC
                || (s[0] == 0xED && s[1] <= 0x9F) || 0xEE <= s[0] <= 0xEF) then 3
    else if |s| >= 4 && IsTail(s[1]) && IsTail(s[2]) && IsTail(s[3])
            && ((s[0] == 0xF0 && s[1] >= 0x90) || 0xF1 <= s[0] <= 0xF3
                || (s[0] == 0xF4 && s[1] <= 0x8F)) then 4
    else 0
  }

  predicate Valid(s: Bytes)
    decreases |s|
  {
    s == [] || (CharLen(s) > 0 && Valid(s[CharLen(s)..]))
  }

  /** A continuation byte never comes right after an ASCII byte. */
  lemma {:induction false} TailFollowsNonAscii(s: Bytes, i: nat)
    requires Valid(s) && 0 < i < |s| && IsTail(s[i])
    ensures s[i - 1] >= 0x80
    decreases |s|
  {
    var n := CharLen(s);
    if i > n {
      TailFollowsNonAscii(s[n..], i - n);
    }
  }

  const REPLACEMENT: Bytes := [0xEF, 0xBF, 0xBD]

  /** How many bytes the character U+FFFD stands for, where no well-formed character starts. */
  function BadLen(s: Bytes): (n: nat)
    requires s != []
    ensures 1 <= n <= |s|
  {
    var second := |s| >= 2 && IsTail(s[1]);
    if second && ((s[0] == 0xE0 && s[1] >= 0xA0) || 0xE1 <= s[0] <= 0xEC
                  || (s[0] == 0xED && s[1] <= 0x9F) || 0xEE <= s[0] <= 0xEF) then 2
    else if second && ((s[0] == 0xF0 && s[1] >= 0x90) || 0xF1 <= s[0] <= 0xF3
                       || (s[0] == 0xF4 && s[1] <= 0x8F)) then
      if |s| >= 3 && IsTail(s[2]) then 3 else 2
    else 1
  }

  /** `String::from_utf8_lossy` */
  function Lossy(s: Bytes): Bytes
    decreases |s|
  {
    if s == [] then []
    else
      var n := CharLen(s);
      if n > 0 then s[..n] + Lossy(s[n..]) else REPLACEMENT + Lossy(s[BadLen(s)..])
  }

  lemma {:induction false} LossyKeepsValid(s: Bytes)
    requires Valid(s)
    ensures Lossy(s) == s
    decreases |s|
  {
    if s != [] { LossyKeepsValid(s[CharLen(s)..]); }
  }

  lemma CharLenOfPrefix(s: Bytes, rest: Bytes)
    requires CharLen(s) == |s| > 0
    ensures CharLen(s + rest) == |s|
  {
  }

  /** Whatever bytes come in, a string comes out. */
  lemma {:induction false} LossyIsValid(s: Bytes)
    ensures Valid(Lossy(s))
    decreases |s|
  {
    if s != [] {
      var n := CharLen(s);
      var head := if n > 0 then s[..n] else REPLACEMENT;
      var rest := if n > 0 then Lossy(s[n..]) else Lossy(s[BadLen(s)..]);
      LossyIsValid(if n > 0 then s[n..] else s[BadLen(s)..]);
      CharLenOfPrefix(head, rest);
      assert Lossy(s) == head + rest && (head + rest)[|head|..] == rest;
    }
  }

  // ---- which byte strings are encodings, and how much of a broken one is replaced ----

  /** A Unicode code point other than a surrogate. */
  predicate IsScalar(n: nat) { n < 0xD800 || 0xE000 <= n < 0x11_0000 }

  /** The table in section 3 of RFC 3629: seven, eleven, sixteen or twenty-one bits, six to a continuation byte. */
  function EncodeChar(n: nat): (b: Bytes)
    requires IsScalar(n)
  {
    if n < 0x80 then [n]
    else if n < 0x800 then [0xC0 + n / 64, 0x80 + n % 64]
    else if n < 0x1_0000 then [0xE0 + n / 4096, 0x80 + n / 64 % 64, 0x80 + n % 64]
    else [0xF0 + n / 262144, 0x80 + n / 4096 % 64, 0x80 + n / 64 % 64, 0x80 + n % 64]
  }

  lemma ThreeRead(a: nat, b: nat, c: nat)
    requires a < 16 && b < 64 && c < 64
    requires var n := 4096 * a + 64 * b + c; n >= 0x800 && IsScalar(n)
    ensures CharLen([0xE0 + a, 0x80 + b, 0x80 + c]) == 3
  {
    assert a == 0 ==> b >= 0x20;
    assert a == 0xD ==> b < 0x20;
  }

  lemma FourRead(a: nat, b: nat, c: nat, d: nat)
    requires a < 8 && b < 64 && c < 64 && d < 64
    requires 0x1_0000 <= 262144 * a + 4096 * b + 64 * c + d < 0x11_0000
    ensures CharLen([0xF0 + a, 0x80 + b, 0x80 + c, 0x80 + d]) == 4
  {
    assert a == 0 ==> b >= 0x10;
    assert a == 4 ==> b < 0x10;
    assert a <= 4;
  }

  lemma SextetsOf(n: nat)
    ensures n / 64 == 64 * (n / 4096) + n / 64 % 64 && n == 64 * (n / 64) + n % 64
    ensures n / 4096 == 64 * (n / 262144) + n / 4096 % 64
  {
  }

  lemma EncodedAlone(n: nat)
    requires IsScalar(n)
    ensures CharLen(EncodeChar(n)) == |EncodeChar(n)|
  {
    SextetsOf(n);
    if 0x800 <= n < 0x1_0000 {
      ThreeRead(n / 4096, n / 64 % 64, n % 64);
    } else if n >= 0x1_0000 {
      FourRead(n / 262144, n / 4096 % 64, n / 64 % 64, n % 64);
    }
  }

  lemma EncodedIsRead(n: nat, rest: Bytes)
    requires IsScalar(n)
    ensures CharLen(EncodeChar(n) + rest) == |EncodeChar(n)|
  {
    EncodedAlone(n);
    CharLenOfPrefix(EncodeChar(n), rest);
  }

  /** A digit to the base 64 put behind a number. */
  lemma Sextet(hi: nat, lo: nat)
    requires lo < 64
    ensures (64 * hi + lo) / 64 == hi && (64 * hi + lo) % 64 == lo
  {
  }

  lemma Nested(n: nat)
    ensures n / 4096 == n / 64 / 64 && n / 262144 == n / 64 / 64 / 64
  {
  }

  lemma TwoBytes(s: Bytes) returns (c: nat)
    requires |s| == 2 && CharLen(s) == 2
    ensures IsScalar(c) && EncodeChar(c) == s
  {
    c := 64 * (s[0] - 0xC0) + (s[1] as int - 0x80);
    Sextet(s[0] - 0xC0, s[1] as int - 0x80);
  }

  lemma ThreeBytes(s: Bytes) returns (c: nat)
    requires |s| == 3 && CharLen(s) == 3
    ensures IsScalar(c) && EncodeChar(c) == s
  {
    var hi := 64 * (s[0] - 0xE0) + (s[1] as int - 0x80);
    c := 64 * hi + (s[2] as int - 0x80);
    Sextet(s[0] - 0xE0, s[1] as int - 0x80);
    Sextet(hi, s[2] as int - 0x80);
    Nested(c);
  }

  lemma FourBytes(s: Bytes) returns (c: nat)
    requires |s| == 4 && CharLen(s) == 4
    ensures IsScalar(c) && EncodeChar(c) == s
  {
    var top := 64 * (s[0] - 0xF0) + (s[1] as int - 0x80);
    var hi := 64 * top + (s[2] as int - 0x80);
    c := 64 * hi + (s[3] as int - 0x80);
    Sextet(s[0] - 0xF0, s[1] as int - 0x80);
    Sextet(top, s[2] as int - 0x80);
    Sextet(hi, s[3] as int - 0x80);
    Nested(c);
  }

  lemma OneChar(s: Bytes) returns (c: nat)
    requires s != [] && CharLen(s) == |s|
    ensures IsScalar(c) && EncodeChar(c) == s
  {
    if |s| == 1 { c := s[0]; }
    else if |s| == 2 { c := TwoBytes(s); }
    else if |s| == 3 { c := ThreeBytes(s); }
    else { c := FourBytes(s); }
  }

  type Scalar = n: nat | IsScalar(n)

  function EncodeAll(cs: seq<Scalar>): Bytes { if cs == [] then [] else EncodeChar(cs[0]) + EncodeAll(cs[1..]) }

  lemma {:induction false} EncodedIsValid(cs: seq<Scalar>)
    ensures Valid(EncodeAll(cs))
  {
    if cs != [] {
      var head, rest := EncodeChar(cs[0]), EncodeAll(cs[1..]);
      EncodedIsRead(cs[0], rest);
      assert (head + rest)[|head|..] == rest;
      EncodedIsValid(cs[1..]);
    }
  }

  lemma {:induction false} ValidIsEncoded(s: Bytes) returns (cs: seq<Scalar>)
    requires Valid(s)
    ensures EncodeAll(cs) == s
    decreases |s|
  {
    if s == [] {
      cs := [];
    } else {
      var n := CharLen(s);
      var rest := ValidIsEncoded(s[n..]);
      CharLenAlone(s);
      var c := OneChar(s[..n]);
      cs := [c] + rest;
      Prepend(s, n, c, rest);
    }
  }

  lemma CharLenAlone(s: Bytes)
    requires CharLen(s) > 0
    ensures CharLen(s[..CharLen(s)]) == CharLen(s)
  {
    var t := s[..CharLen(s)];
    assert forall i | 0 <= i < |t| :: t[i] == s[i];
  }

  lemma Prepend(s: Bytes, n: nat, c: Scalar, cs: seq<Scalar>)
    requires n <= |s| && EncodeChar(c) == s[..n] && EncodeAll(cs) == s[n..]
    ensures EncodeAll([c] + cs) == s
  {
    assert ([c] + cs)[1..] == cs;
  }

  /** A byte string is well formed exactly when it encodes some code points. */
  lemma ValidIffEncoded(s: Bytes)
    ensures Valid(s) <==> exists cs :: EncodeAll(cs) == s
  {
    if Valid(s) {
      var cs := ValidIsEncoded(s);
    }
    if cs :| EncodeAll(cs) == s { EncodedIsValid(cs); }
  }

  /** `s` begins with the first `n` bytes of some character that goes on after them. */
  ghost predicate StartsChar(s: Bytes, n: nat) {
    n <= |s| && exists t: Bytes :: t != [] && CharLen(s[..n] + t) == n + |t|
  }

  lemma BadLenStarts(s: Bytes)
    requires s != [] && CharLen(s) == 0 && BadLen(s) > 1
    ensures StartsChar(s, BadLen(s))
  {
    if BadLen(s) == 2 {
      var t: Bytes := if s[0] < 0xF0 then [0x80] else [0x80, 0x80];
      assert CharLen(s[..2] + t) == 2 + |t|;
    } else {
      var t: Bytes := [0x80];
      assert CharLen(s[..3] + t) == 3 + |t|;
    }
  }

  lemma NothingLonger(s: Bytes, n: nat, t: Bytes)
    requires s != [] && CharLen(s) == 0 && BadLen(s) < n <= |s| && t != []
    ensures CharLen(s[..n] + t) != n + |t|
  {
    var u := s[..n] + t;
    assert u[0] == s[0] && u[1] == s[1] && (n > 2 ==> u[2] == s[2]) && (n > 3 ==> u[3] == s[3]);
  }

  lemma ReplacementIs()
    ensures EncodeChar(0xFFFD) == REPLACEMENT
  {
  }

  lemma LossyStep(s: Bytes)
    requires s != [] && CharLen(s) == 0
    ensures Lossy(s) == REPLACEMENT + Lossy(s[BadLen(s)..])
  {
  }

  lemma BadLenIsMaximal(s: Bytes, n: nat)
    requires s != [] && CharLen(s) == 0 && n > BadLen(s)
    ensures !StartsChar(s, n)
  {
    if n <= |s| {
      forall t: Bytes | t != [] ensures CharLen(s[..n] + t) != n + |t| { NothingLonger(s, n, t); }
    }
  }

  /**
   * Where no character starts, the character U+FFFD stands for the longest beginning of a character that is
   * there, or for a single byte if there is none.
   */
  lemma LossyReplaces(s: Bytes, n: nat)
    requires s != [] && CharLen(s) == 0
    ensures Lossy(s) == EncodeChar(0xFFFD) + Lossy(s[BadLen(s)..])
    ensures BadLen(s) > 1 ==> StartsChar(s, BadLen(s))
    ensures n > BadLen(s) ==> !StartsChar(s, n)
  {
    ReplacementIs();
    LossyStep(s);
    if BadLen(s) > 1 { BadLenStarts(s); }
    if n > BadLen(s) { BadLenIsMaximal(s, n); }
  }
}
