/** The string operations that the Markdown commands are written with. */
module Text {
  import opened Common

  predicate MatchesAt(s: string, pat: string, i: nat) { i + |pat| <= |s| && s[i..i + |pat|] == pat }

  /** The first place `pat` occurs at or after `i`. */
  function FindFrom(s: string, pat: string, i: nat): (r: Option<nat>)
    requires i <= |s|
    ensures r.Some? ==> i <= r.value && MatchesAt(s, pat, r.value) && forall j | i <= j < r.value :: !MatchesAt(s, pat, j)
    ensures r.None? ==> forall j | i <= j :: !MatchesAt(s, pat, j)
    decreases |s| - i
  {
    if MatchesAt(s, pat, i) then Some(i)
    else if i == |s| then None
    else FindFrom(s, pat, i + 1)
  }

  function Find(s: string, pat: string): (r: Option<nat>)
    ensures r.Some? ==> MatchesAt(s, pat, r.value) && forall j | 0 <= j < r.value :: !MatchesAt(s, pat, j)
    ensures r.None? ==> forall j: nat :: !MatchesAt(s, pat, j)
  {
    FindFrom(s, pat, 0)
  }

  lemma FindIs(s: string, pat: string, i: nat)
    requires MatchesAt(s, pat, i) && forall j | 0 <= j < i :: !MatchesAt(s, pat, j)
    ensures Find(s, pat) == Some(i)
  {
  }

  lemma FindIsNone(s: string, pat: string)
    requires forall j: nat :: !MatchesAt(s, pat, j)
    ensures Find(s, pat) == None
  {
  }

  /** Looking `|a|` characters into `a + b` is looking at `b`. */
  lemma MatchShift(a: string, b: string, pat: string, i: nat)
    ensures MatchesAt(a + b, pat, |a| + i) <==> MatchesAt(b, pat, i)
  {
    if i + |pat| <= |b| {
      assert (a + b)[|a| + i..|a| + i + |pat|] == b[i..i + |pat|];
    }
  }

  /** What a match inside a prefix says. */
  lemma MatchPrefix(a: string, b: string, pat: string, i: nat)
    requires i + |pat| <= |a|
    ensures MatchesAt(a + b, pat, i) <==> MatchesAt(a, pat, i)
  {
    assert (a + b)[i..i + |pat|] == a[i..i + |pat|];
  }

  /** A search passes over a prefix in which no match begins. */
  lemma FindAfter(a: string, b: string, pat: string)
    requires forall j | 0 <= j < |a| :: !MatchesAt(a + b, pat, j)
    ensures Find(a + b, pat) == match Find(b, pat) { case None => None case Some(k) => Some(|a| + k) }
  {
    match Find(b, pat)
    case None =>
      forall j: nat ensures !MatchesAt(a + b, pat, j) {
        if j >= |a| { MatchShift(a, b, pat, j - |a|); }
      }
      FindIsNone(a + b, pat);
    case Some(k) =>
      MatchShift(a, b, pat, k);
      forall j | 0 <= j < |a| + k ensures !MatchesAt(a + b, pat, j) {
        if j >= |a| { MatchShift(a, b, pat, j - |a|); }
      }
      FindIs(a + b, pat, |a| + k);
  }

  /** The `White_Space` characters. */
  predicate IsWhitespace(c: char) {
    || '\U{9}' <= c <= '\U{D}' || c == ' ' || c == '\U{85}' || c == '\U{A0}' || c == '\U{1680}'
    || '\U{2000}' <= c <= '\U{200A}' || c == '\U{2028}' || c == '\U{2029}' || c == '\U{202F}'
    || c == '\U{205F}' || c == '\U{3000}'
  }

  /** `chars().take_while(is_whitespace)` */
  function Indent(s: string): (r: string)
    ensures |r| <= |s| && s[..|r|] == r
    ensures forall i | 0 <= i < |r| :: IsWhitespace(r[i])
    ensures |r| < |s| ==> !IsWhitespace(s[|r|])
  {
    if s == [] || !IsWhitespace(s[0]) then []
    else
      var r := [s[0]] + Indent(s[1..]);
      assert s == [s[0]] + s[1..];
      r
  }

  function TrimStart(s: string): string { s[|Indent(s)|..] }

  function TrimEnd(s: string): (r: string)
    ensures |r| <= |s| && s[..|r|] == r
    ensures r != [] ==> !IsWhitespace(r[|r| - 1])
  {
    if s == [] || !IsWhitespace(s[|s| - 1]) then s else TrimEnd(s[..|s| - 1])
  }

  lemma IndentIs(w: string, s: string)
    requires forall i | 0 <= i < |w| :: IsWhitespace(w[i])
    requires s != [] && !IsWhitespace(s[0])
    ensures Indent(w + s) == w
  {
    var t := w + s;
    var r := Indent(t);
    assert t[|w|] == s[0];
    assert forall i | 0 <= i < |w| :: t[i] == w[i];
    assert forall i | 0 <= i < |r| :: t[i] == r[i];
    assert |r| == |w|;
    assert t[..|w|] == w;
  }

  lemma TrimEndFixed(s: string)
    requires s == [] || !IsWhitespace(s[|s| - 1])
    ensures TrimEnd(s) == s
  {
  }

  /** `trim_start_matches('\n')` */
  function TrimNewlines(s: string): (r: string)
    ensures r != [] ==> r[0] != '\n'
    ensures |r| <= |s| && s[|s| - |r|..] == r
    ensures forall i | 0 <= i < |s| - |r| :: s[i] == '\n'
  {
    if s != [] && s[0] == '\n' then TrimNewlines(s[1..]) else s
  }

  // ---- lines ----

  function StripCr(s: string): string {
    if s != [] && s[|s| - 1] == '\r' then s[..|s| - 1] else s
  }

  /** The length of the first line, without its end. */
  function LineLen(s: string): (n: nat)
    ensures n <= |s| && Free(s[..n], '\n')
    ensures n < |s| ==> s[n] == '\n'
  {
    if s == [] || s[0] == '\n' then 0 else 1 + LineLen(s[1..])
  }

  /** `lines()`: a newline at the very end starts no further line. */
  function Lines(s: string): seq<string>
    decreases |s|
  {
    if s == [] then []
    else
      var n := LineLen(s);
      if n == |s| then [s] else [StripCr(s[..n])] + Lines(s[n + 1..])
  }

  function Join(ls: seq<string>): string {
    if ls == [] then [] else if |ls| == 1 then ls[0] else ls[0] + "\n" + Join(ls[1..])
  }

  lemma LineLenIs(line: string, rest: string)
    requires Free(line, '\n') && (rest != [] ==> rest[0] == '\n')
    ensures LineLen(line + rest) == |line|
  {
    var s := line + rest;
    var n := LineLen(s);
    assert forall i | 0 <= i < |line| :: s[i] == line[i];
    assert forall i | 0 <= i < n :: s[..n][i] == s[i];
    assert rest != [] ==> s[|line|] == rest[0];
  }

  predicate Plain(l: string) { Free(l, '\n') && Free(l, '\r') }

  /** Without a blank last line. */
  function DropBlank(ls: seq<string>): seq<string> {
    if ls != [] && ls[|ls| - 1] == [] then ls[..|ls| - 1] else ls
  }

  lemma DropBlankCons(ls: seq<string>)
    requires |ls| > 1
    ensures DropBlank(ls) == [ls[0]] + DropBlank(ls[1..])
  {
    assert ls == [ls[0]] + ls[1..];
    assert ls[..|ls| - 1] == [ls[0]] + ls[1..][..|ls| - 2];
  }

  lemma JoinCons(ls: seq<string>)
    requires |ls| > 1
    ensures Join(ls) == ls[0] + ("\n" + Join(ls[1..]))
  {
  }

  /** Splitting joined lines gives them back, except that a blank last line is lost. */
  lemma {:induction false} LinesOfJoin(ls: seq<string>)
    requires ls != [] && forall l | l in ls :: Plain(l)
    ensures Lines(Join(ls)) == DropBlank(ls)
  {
    assert ls[0] in ls && forall l | l in ls[1..] :: l in ls;
    if |ls| == 1 {
      LineLenIs(ls[0], []);
      assert ls[0] + [] == ls[0];
    } else {
      LinesOfJoin(ls[1..]);
      LinesStep(ls[0], Join(ls[1..]));
      JoinCons(ls);
      DropBlankCons(ls);
    }
  }

  lemma LinesStep(line: string, rest: string)
    requires Plain(line)
    ensures Lines(line + ("\n" + rest)) == [line] + Lines(rest)
  {
    var s := line + ("\n" + rest);
    LineLenIs(line, "\n" + rest);
    assert s[..|line|] == line && s[|line| + 1..] == rest;
  }

  datatype Ended = Ended(line: string, end: string) {
    /** The line can be told from its end: a carriage return before a newline belongs to the end. */
    predicate Clear() {
      Free(line, '\n') && (end == "\r\n" || (end == "\n" && (line != "" ==> line[|line| - 1] != '\r')))
    }
  }

  function TextOf(ts: seq<Ended>, last: string): string {
    if ts == [] then last else ts[0].line + ts[0].end + TextOf(ts[1..], last)
  }

  function LinesIn(ts: seq<Ended>, last: string): seq<string> {
    if ts != [] then [ts[0].line] + LinesIn(ts[1..], last) else if last == "" then [] else [last]
  }

  lemma LineWithEnd(line: string, end: string, rest: string)
    requires Ended(line, end).Clear()
    ensures Lines(line + end + rest) == [line] + Lines(rest)
  {
    var head := if end == "\n" then line else line + "\r";
    var s := line + end + rest;
    assert s == head + ("\n" + rest);
    LineLenIs(head, "\n" + rest);
    assert s[..|head|] == head && s[|head| + 1..] == rest;
    assert StripCr(head) == line;
  }

  /** Any text, with either kind of line end in any mixture and with or without one at its end, has its lines. */
  lemma {:induction false} LinesOfText(ts: seq<Ended>, last: string)
    requires Free(last, '\n') && forall t | t in ts :: t.Clear()
    ensures Lines(TextOf(ts, last)) == LinesIn(ts, last)
    decreases |ts|
  {
    if ts == [] {
      LastLine(last);
    } else {
      assert ts[0] in ts && forall t | t in ts[1..] :: t in ts;
      LinesOfText(ts[1..], last);
      LineWithEnd(ts[0].line, ts[0].end, TextOf(ts[1..], last));
    }
  }

  lemma LastLine(last: string)
    requires Free(last, '\n')
    ensures Lines(last) == if last == "" then [] else [last]
  {
    LineLenIs(last, "");
    assert last + "" == last;
  }

  lemma FreePart(s: string, c: char, i: nat, j: nat)
    requires Free(s, c) && i <= j <= |s|
    ensures Free(s[i..j], c)
  {
    assert forall k | i <= k < j :: s[i..j][k - i] == s[k];
  }

  lemma FirstLinePlain(s: string)
    requires Free(s, '\r')
    ensures Plain(s[..LineLen(s)]) && Plain(StripCr(s[..LineLen(s)]))
  {
    var n := LineLen(s);
    FreePart(s, '\r', 0, n);
    assert StripCr(s[..n]) == s[..n];
  }

  /** Lines of a text without carriage returns are plain. */
  lemma {:induction false} LinesPlain(s: string)
    requires Free(s, '\r')
    ensures forall l | l in Lines(s) :: Plain(l)
    decreases |s|
  {
    if s != [] {
      var n := LineLen(s);
      FirstLinePlain(s);
      if n < |s| {
        FreePart(s, '\r', n + 1, |s|);
        LinesPlain(s[n + 1..]);
        assert Lines(s) == [StripCr(s[..n])] + Lines(s[n + 1..]);
      } else {
        assert s[..n] == s;
      }
    }
  }
}
