/** Editing the text of a document refines editing its lines. */
module OkfRoundTrip {
  import opened Common
  import opened Text
  import opened OkfEdit

  // ---- where the closing fence is found ----

  lemma LineHidesNoFence(line: string, rest: string, i: nat)
    requires Free(line, '\n') && !StartsWith(line, FENCE) && rest != [] && rest[0] == '\n' && i <= |line|
    ensures !MatchesAt("\n" + line + rest, CLOSING, i)
  {
    var s := "\n" + line + rest;
    assert forall j | 0 <= j < |line| :: s[j + 1] == line[j];
    assert s[|line| + 1] == '\n';
    if i + 4 <= |s| {
      assert s[i..i + 4] == [s[i], s[i + 1], s[i + 2], s[i + 3]];
      assert CLOSING == ['\n', '-', '-', '-'];
      if i == 0 && |line| >= 3 { assert line[..3] == [line[0], line[1], line[2]]; }
    }
  }

  ghost predicate NoFence(ls: seq<string>) { forall l | l in ls :: Plain(l) && !StartsWith(l, FENCE) }

  /** Lines that fit inside front matter. */
  ghost predicate FrontOk(ls: seq<string>) { NoFence(ls) && (ls != [] ==> ls[0] != []) }

  lemma LastLineHides(line: string, tail: string)
    requires Plain(line) && !StartsWith(line, FENCE)
    ensures Find(("\n" + line) + (CLOSING + tail), CLOSING) == Some(1 + |line|)
  {
    var head, rest := "\n" + line, CLOSING + tail;
    assert rest[0..4] == CLOSING;
    FindIs(rest, CLOSING, 0);
    forall j | 0 <= j < |head| ensures !MatchesAt(head + rest, CLOSING, j) { LineHidesNoFence(line, rest, j); }
    FindAfter(head, rest, CLOSING);
  }

  lemma LineHides(line: string, rest: string)
    requires Plain(line) && !StartsWith(line, FENCE) && rest != [] && rest[0] == '\n' && Find(rest, CLOSING).Some?
    ensures Find(("\n" + line) + rest, CLOSING) == Some(1 + |line| + Find(rest, CLOSING).value)
  {
    var head := "\n" + line;
    forall j | 0 <= j < |head| ensures !MatchesAt(head + rest, CLOSING, j) { LineHidesNoFence(line, rest, j); }
    FindAfter(head, rest, CLOSING);
  }

  lemma Regroup(a: string, b: string, c: string)
    ensures "\n" + (a + ("\n" + b)) + c == ("\n" + a) + ("\n" + b + c)
  {
  }

  /** One more line in front moves the closing fence by that line. */
  lemma FenceMoves(line: string, text: string, tail: string)
    requires Plain(line) && !StartsWith(line, FENCE)
    requires Find("\n" + text + (CLOSING + tail), CLOSING) == Some(1 + |text|)
    ensures var more := line + ("\n" + text); Find("\n" + more + (CLOSING + tail), CLOSING) == Some(1 + |more|)
  {
    LineHides(line, "\n" + text + (CLOSING + tail));
    Regroup(line, text, CLOSING + tail);
  }

  lemma {:induction false} FenceFound(ls: seq<string>, tail: string)
    requires ls != [] && NoFence(ls)
    ensures Find("\n" + Join(ls) + (CLOSING + tail), CLOSING) == Some(1 + |Join(ls)|)
  {
    assert ls[0] in ls;
    if |ls| == 1 {
      LastLineHides(ls[0], tail);
    } else {
      TailHasNoFence(ls);
      FenceFound(ls[1..], tail);
      JoinCons(ls);
      FenceMoves(ls[0], Join(ls[1..]), tail);
    }
  }

  lemma TailHasNoFence(ls: seq<string>)
    requires ls != [] && NoFence(ls)
    ensures NoFence(ls[1..])
  {
  }

  lemma NotFence(r: string)
    requires r != [] && r[0] != '-'
    ensures !StartsWith(r, FENCE)
  {
    if |r| >= 3 { assert r[..3][0] == r[0]; }
  }

  lemma NotBom(r: string)
    requires r != [] && r[0] == '-'
    ensures !StartsWith(r, BOM)
  {
    assert r[..1] == [r[0]];
    assert BOM == ['\U{FEFF}'];
  }

  lemma FenceAtFront(line: string, rest: string)
    ensures StartsWith(line, FENCE) ==> MatchesAt("\n" + line + rest, CLOSING, 0)
  {
    var s := "\n" + line + rest;
    if |line| >= 3 { assert s[0..4] == "\n" + line[..3]; }
  }

  lemma NoMatchAfter(a: string, b: string, pat: string)
    requires Find(a + b, pat).None?
    ensures Find(b, pat).None?
  {
    forall j: nat ensures !MatchesAt(b, pat, j) { MatchShift(a, b, pat, j); }
  }

  lemma NoMatchBefore(s: string, pat: string)
    requires pat != [] && Find(s, pat).Some?
    ensures Find(s[..Find(s, pat).value], pat).None?
  {
    var end := Find(s, pat).value;
    forall j: nat ensures !MatchesAt(s[..end], pat, j) {
      if j + |pat| <= end {
        assert s == s[..end] + s[end..];
        MatchPrefix(s[..end], s[end..], pat, j);
      }
    }
  }

  // ---- the lines of a document opened by a plain fence ----

  lemma {:induction false} LinesWithoutFence(s: string)
    requires Free(s, '\r') && Find("\n" + s, CLOSING).None?
    ensures forall l | l in Lines(s) :: !StartsWith(l, FENCE)
    decreases |s|
  {
    if s != [] {
      var n := LineLen(s);
      var line := s[..n];
      FenceAtFront(line, s[n..]);
      assert "\n" + s == "\n" + line + s[n..];
      if n < |s| {
        var rest := s[n + 1..];
        assert "\n" + s == ("\n" + line) + ("\n" + rest);
        NoMatchAfter("\n" + line, "\n" + rest, CLOSING);
        LinesWithoutFence(rest);
        PlainStrip(line, s);
      }
    }
  }

  lemma PlainStrip(line: string, s: string)
    requires Free(s, '\r') && |line| <= |s| && line == s[..|line|]
    ensures StripCr(line) == line
  {
    if line != [] { assert line[|line| - 1] == s[|line| - 1]; }
  }

  /** Front matter opened by a plain `---` line, closed, and free of carriage returns. */
  predicate Opened(raw: string) {
    StartsWith(raw, "---\n") && Free(raw, '\r') && Find(raw[3..], CLOSING).Some?
  }

  lemma OpenedParses(raw: string)
    requires Opened(raw)
    ensures ParseDoc(raw).Some? && FrontLines(raw).Some?
    ensures ParseDoc(raw).value.body == [] || ParseDoc(raw).value.body[0] != '\n'
  {
    assert raw[..4][..3] == raw[..3] == FENCE;
    assert raw[0] == raw[..4][0] == '-';
    NotBom(raw);
  }

  /** After trimming, the front matter holds no fence, not even at its start. */
  lemma FrontWithoutFence(inner: string)
    requires inner != [] && inner[0] == '\n' && Find(inner, CLOSING).Some?
    ensures var t := TrimNewlines(inner[..Find(inner, CLOSING).value]); Find("\n" + t, CLOSING).None?
  {
    var front := inner[..Find(inner, CLOSING).value];
    var t := TrimNewlines(front);
    NoMatchBefore(inner, CLOSING);
    if front != [] {
      assert front[0] == inner[0];
      var n := |front| - |t|;
      assert front[n - 1] == '\n';
      assert front == front[..n - 1] + ("\n" + t);
      NoMatchAfter(front[..n - 1], "\n" + t, CLOSING);
    }
  }

  lemma FrontTextOk(inner: string)
    requires inner != [] && inner[0] == '\n' && Free(inner, '\r') && Find(inner, CLOSING).Some?
    ensures FrontOk(Lines(TrimNewlines(inner[..Find(inner, CLOSING).value])))
  {
    var end := Find(inner, CLOSING).value;
    var t := TrimNewlines(inner[..end]);
    FrontWithoutFence(inner);
    TrimFree(inner[..end], '\r');
    LinesPlain(t);
    LinesWithoutFence(t);
    FirstLineNotBlank(t);
  }

  lemma TrimFree(s: string, c: char)
    requires Free(s, c)
    ensures Free(TrimNewlines(s), c)
  {
    var t := TrimNewlines(s);
    assert forall i | 0 <= i < |t| :: t[i] == s[|s| - |t|..][i];
  }

  lemma OpenedInner(raw: string)
    requires Opened(raw)
    ensures var inner := raw[3..]; inner != [] && inner[0] == '\n' && Free(inner, '\r') && StartsWith(raw, FENCE)
  {
    assert raw[..4][..3] == raw[..3] == FENCE;
    assert raw[3] == raw[..4][3] == '\n';
    assert forall i | 0 <= i < |raw| - 3 :: raw[3..][i] == raw[i + 3];
  }

  lemma FirstLineNotBlank(t: string)
    requires t != [] ==> t[0] != '\n' && t[0] != '\r'
    ensures Lines(t) != [] ==> Lines(t)[0] != []
  {
    if t != [] && LineLen(t) < |t| {
      assert t[..LineLen(t)][0] == t[0];
    }
  }

  // ---- edits keep front matter well shaped ----

  lemma CommentPlain(line: string)
    requires Plain(line)
    ensures Plain(TrimEnd(Comment(line)))
  {
    var c, t := Comment(line), TrimEnd(Comment(line));
    assert Plain(c);
    assert forall i | 0 <= i < |t| :: t[i] == c[i];
  }

  lemma PlainConcat(a: string, b: string)
    requires Plain(a) && Plain(b)
    ensures Plain(a + b)
  {
  }

  lemma RewritePlain(line: string, c: Change)
    requires Plain(line) && GoodChange(c)
    ensures Plain(Rewrite(line, c.key, c.val))
  {
    CommentPlain(line);
    var w, comment := Indent(line), TrimEnd(Comment(line));
    assert forall i | 0 <= i < |w| :: w[i] == line[i];
    PlainConcat(w, c.key + ":");
    PlainConcat(w + (c.key + ":"), " ");
    PlainConcat(w + (c.key + ":") + " ", c.val);
    PlainConcat(w + (c.key + ":") + " " + c.val, comment);
  }

  lemma RewriteOk(line: string, c: Change)
    requires Plain(line) && GoodChange(c)
    ensures var r := Rewrite(line, c.key, c.val); Plain(r) && !StartsWith(r, FENCE) && r != []
  {
    RewritePlain(line, c);
    RewriteShape(line, c.key, c.val);
    var r, w := Rewrite(line, c.key, c.val), Indent(line);
    assert r[0] == if w == [] then c.key[0] else w[0];
    NotFence(r);
  }

  lemma FreshOk(c: Change)
    requires GoodChange(c)
    ensures var r := Fresh(c.key, c.val); Plain(r) && !StartsWith(r, FENCE) && r != []
  {
    assert Fresh(c.key, c.val)[0] == c.key[0];
    NotFence(Fresh(c.key, c.val));
  }

  lemma UpdateOk(ls: seq<string>, i: nat, line: string)
    requires FrontOk(ls) && i < |ls| && Plain(line) && !StartsWith(line, FENCE) && line != []
    ensures FrontOk(ls[i := line])
  {
    forall l | l in ls[i := line] ensures l == line || l in ls {}
  }

  lemma AppendOk(ls: seq<string>, line: string)
    requires FrontOk(ls) && Plain(line) && !StartsWith(line, FENCE) && line != []
    ensures FrontOk(ls + [line])
  {
    forall l | l in ls + [line] ensures l == line || l in ls {}
  }

  lemma EditOneOk(ls: seq<string>, c: Change)
    requires FrontOk(ls) && GoodChange(c)
    ensures FrontOk(ApplyOne(ls, c)) && ApplyOne(ls, c) != []
  {
    var i := Position(ls, c.key);
    if i.Some? {
      assert ls[i.value] in ls;
      RewriteOk(ls[i.value], c);
      UpdateOk(ls, i.value, Rewrite(ls[i.value], c.key, c.val));
    } else {
      FreshOk(c);
      AppendOk(ls, Fresh(c.key, c.val));
    }
  }

  lemma GoodBeforeLast(cs: seq<Change>)
    requires GoodChanges(cs) && cs != []
    ensures GoodChanges(cs[..|cs| - 1]) && GoodChange(cs[|cs| - 1])
  {
    var init := cs[..|cs| - 1];
    assert forall i | 0 <= i < |init| :: init[i] == cs[i];
    assert forall c | c in init :: c in cs;
  }

  lemma {:induction false} EditsOk(ls: seq<string>, cs: seq<Change>)
    requires FrontOk(ls) && GoodChanges(cs)
    ensures FrontOk(ApplyAll(ls, cs)) && (cs != [] ==> ApplyAll(ls, cs) != [])
    decreases |cs|
  {
    if cs != [] {
      GoodBeforeLast(cs);
      EditsOk(ls, cs[..|cs| - 1]);
      EditOneOk(ApplyAll(ls, cs[..|cs| - 1]), cs[|cs| - 1]);
    }
  }

  // ---- reading back what was written ----

  lemma TrimBlankLines(s: string)
    requires s == [] || s[0] != '\n'
    ensures TrimNewlines("\n" + s) == s && TrimNewlines("\n\n" + s) == s
  {
    assert TrimNewlines(s) == s;
    assert ("\n" + s)[1..] == s;
    assert ("\n\n" + s)[1..] == "\n" + s;
  }

  lemma JoinStarts(ls: seq<string>)
    requires ls != [] && FrontOk(ls)
    ensures Join(ls) != [] && Join(ls)[0] != '\n'
  {
    assert ls[0] in ls;
    assert Join(ls)[0] == ls[0][0];
  }

  lemma OutputOpens(j: string, body: string)
    ensures "---\n" + j + "\n---\n\n" + body == FENCE + ("\n" + j + (CLOSING + ("\n\n" + body)))
  {
    assert "---\n" == FENCE + "\n";
    assert "\n---\n\n" == CLOSING + "\n\n";
  }

  lemma AfterFence(rest: string)
    ensures var out := FENCE + rest; StartsWith(out, FENCE) && !StartsWith(out, BOM) && out[3..] == rest
  {
    NotBom(FENCE + rest);
  }

  lemma CutAtClosing(a: string, b: string)
    ensures var rest := a + (CLOSING + b); rest[..|a|] == a && rest[|a| + 4..] == b
  {
  }

  lemma OutputSplits(ls: seq<string>, body: string)
    requires ls != [] && NoFence(ls)
    ensures var out, rest := Output(ls, body), "\n" + Join(ls) + (CLOSING + ("\n\n" + body));
            && StartsWith(out, FENCE) && !StartsWith(out, BOM) && out[3..] == rest
            && Find(rest, CLOSING) == Some(1 + |Join(ls)|)
            && rest[..1 + |Join(ls)|] == "\n" + Join(ls) && rest[5 + |Join(ls)|..] == "\n\n" + body
  {
    OutputOpens(Join(ls), body);
    AfterFence("\n" + Join(ls) + (CLOSING + ("\n\n" + body)));
    CutAtClosing("\n" + Join(ls), "\n\n" + body);
    FenceFound(ls, "\n\n" + body);
  }

  /** Reading the editor's output gives the same body, and the edited lines less a blank last one. */
  lemma OutputReadsBack(ls: seq<string>, body: string)
    requires ls != [] && FrontOk(ls) && (body == [] || body[0] != '\n')
    ensures ParseDoc(Output(ls, body)) == Some(Doc("\n" + Join(ls), body))
    ensures FrontLines(Output(ls, body)) == Some(DropBlank(ls))
  {
    OutputSplits(ls, body);
    TrimBlankLines(body);
    JoinStarts(ls);
    TrimBlankLines(Join(ls));
    LinesOfJoin(ls);
  }

  lemma EditOfOutput(ls: seq<string>, body: string, cs: seq<Change>)
    requires ls != [] && FrontOk(ls) && (body == [] || body[0] != '\n')
    ensures Edit(Output(ls, body), cs) == Some(Output(ApplyAll(DropBlank(ls), cs), body))
  {
    OutputReadsBack(ls, body);
  }

  /** The front matter ends in a blank line and lacks none of the edited keys. */
  predicate LosesBlank(ls: seq<string>, cs: seq<Change>) {
    ls != [] && ls[|ls| - 1] == [] && Appended(ls, cs) == []
  }

  lemma {:induction false} AppendedNotBlank(ls: seq<string>, cs: seq<Change>)
    requires GoodChanges(cs)
    ensures forall l | l in Appended(ls, cs) :: l != []
    decreases |cs|
  {
    if cs != [] {
      assert cs[|cs| - 1] in cs && forall c | c in cs[..|cs| - 1] :: c in cs;
      AppendedNotBlank(ls, cs[..|cs| - 1]);
    }
  }

  lemma BlankMatchesNothing(key: string)
    ensures !Matches([], key)
  {
  }

  lemma {:induction false} SubstitutedBlank(ls: seq<string>, cs: seq<Change>, i: nat)
    requires i < |ls|
    ensures Substituted(ls, cs, i) == [] <==> ls[i] == []
    decreases |cs|
  {
    if cs != [] {
      BlankMatchesNothing(cs[|cs| - 1].key);
      SubstitutedBlank(ls, cs[..|cs| - 1], i);
    }
  }

  lemma LastBlankIff(ls: seq<string>, cs: seq<Change>)
    requires GoodChanges(cs) && (ls != [] || cs != [])
    ensures var ed := Simultaneous(ls, cs); ed != [] ==> (ed[|ed| - 1] == [] <==> LosesBlank(ls, cs))
  {
    var ed := Simultaneous(ls, cs);
    AppendedNotBlank(ls, cs);
    if Appended(ls, cs) != [] {
      assert ed[|ed| - 1] in Appended(ls, cs);
    } else if ls != [] {
      SubstitutedBlank(ls, cs, |ls| - 1);
    }
  }

  /** An opened document as lines and body, and what an edit makes of it. */
  lemma OpenedDoc(raw: string, cs: seq<Change>) returns (ls: seq<string>, body: string)
    requires Opened(raw)
    ensures FrontLines(raw) == Some(ls) && ParseDoc(raw).Some? && ParseDoc(raw).value.body == body
    ensures FrontOk(ls) && (body == [] || body[0] != '\n')
    ensures Edit(raw, cs) == Some(Output(ApplyAll(ls, cs), body))
  {
    OpenedParses(raw);
    OpenedFront(raw);
    EditIs(raw, cs);
    ls, body := FrontLines(raw).value, ParseDoc(raw).value.body;
  }

  lemma EditIs(raw: string, cs: seq<Change>)
    requires ParseDoc(raw).Some? && FrontLines(raw).Some?
    ensures Edit(raw, cs) == Some(Output(ApplyAll(FrontLines(raw).value, cs), ParseDoc(raw).value.body))
  {
  }

  lemma OpenedFront(raw: string)
    requires Opened(raw)
    ensures FrontLines(raw).Some? && FrontOk(FrontLines(raw).value)
  {
    OpenedInner(raw);
    FrontTextOk(raw[3..]);
  }

  lemma EditedReadsBack(ls: seq<string>, body: string, cs: seq<Change>)
    requires FrontOk(ls) && (body == [] || body[0] != '\n') && GoodChanges(cs) && cs != []
    ensures var out := Output(ApplyAll(ls, cs), body);
            && ParseDoc(out).Some? && ParseDoc(out).value.body == body
            && FrontLines(out) == Some(DropBlank(Simultaneous(ls, cs)))
  {
    EditsOk(ls, cs);
    EditsAreSimultaneous(ls, cs);
    OutputReadsBack(ApplyAll(ls, cs), body);
  }

  lemma KeepsAllIff(ls: seq<string>, cs: seq<Change>)
    requires FrontOk(ls) && GoodChanges(cs) && cs != []
    ensures DropBlank(Simultaneous(ls, cs)) == Simultaneous(ls, cs) <==> !LosesBlank(ls, cs)
  {
    EditsOk(ls, cs);
    EditsAreSimultaneous(ls, cs);
    LastBlankIff(ls, cs);
  }

  /**
   * Round trip. For front matter opened by a plain `---` line without carriage returns, and values free
   * of newlines and '#': re-reading an edited document gives the same body, and the simultaneous
   * substitution of its lines, except that a blank last line is lost when nothing was appended.
   */
  lemma EditRoundTrip(raw: string, cs: seq<Change>)
    requires Opened(raw) && GoodChanges(cs) && cs != []
    ensures ParseDoc(raw).Some? && FrontLines(raw).Some? && Edit(raw, cs).Some?
    ensures var ls, out := FrontLines(raw).value, Edit(raw, cs).value;
            && ParseDoc(out).Some? && ParseDoc(out).value.body == ParseDoc(raw).value.body
            && FrontLines(out) == Some(DropBlank(Simultaneous(ls, cs)))
            && (DropBlank(Simultaneous(ls, cs)) == Simultaneous(ls, cs) <==> !LosesBlank(ls, cs))
  {
    var ls, body := OpenedDoc(raw, cs);
    EditedReadsBack(ls, body, cs);
    KeepsAllIff(ls, cs);
  }

  lemma {:induction false} JoinBlank(ls: seq<string>)
    requires |ls| > 1 && ls[|ls| - 1] == []
    ensures |Join(ls)| == |Join(ls[..|ls| - 1])| + 1
  {
    var init := ls[..|ls| - 1];
    if |ls| == 2 {
      assert init == [ls[0]] && ls[1..] == [ls[1]];
    } else {
      JoinBlank(ls[1..]);
      assert ls[1..][..|ls| - 2] == init[1..];
    }
  }

  lemma DoneWithoutBlank(ls: seq<string>, c: Change)
    requires Done(ls, c) && ls != [] && ls[|ls| - 1] == []
    ensures Done(ls[..|ls| - 1], c)
  {
    BlankMatchesNothing(c.key);
    PositionIs(ls[..|ls| - 1], c.key, Position(ls, c.key));
  }

  lemma EditedAgain(ls: seq<string>, body: string, cs: seq<Change>)
    requires FrontOk(ls) && (body == [] || body[0] != '\n') && GoodChanges(cs) && cs != []
    ensures var out := Output(ApplyAll(ls, cs), body);
            Edit(out, cs) == Some(out) <==> !LosesBlank(ls, cs)
  {
    EditsOk(ls, cs);
    EditsAreSimultaneous(ls, cs);
    LastBlankIff(ls, cs);
    EditOfOutput(ApplyAll(ls, cs), body, cs);
    if LosesBlank(ls, cs) {
      BlankShrinks(ls, cs);
    } else {
      EditTwice(ls, cs);
    }
  }

  /**
   * With a fixed timestamp, repeating an edit changes nothing exactly when the edited front matter does
   * not end in a blank line; otherwise every repetition eats one.
   */
  lemma EditAgain(raw: string, cs: seq<Change>)
    requires Opened(raw) && GoodChanges(cs) && cs != []
    ensures Edit(raw, cs).Some? && FrontLines(raw).Some?
    ensures Edit(Edit(raw, cs).value, cs) == Edit(raw, cs) <==> !LosesBlank(FrontLines(raw).value, cs)
  {
    var ls, body := OpenedDoc(raw, cs);
    EditedAgain(ls, body, cs);
  }

  lemma BlankShrinks(ls: seq<string>, cs: seq<Change>)
    requires GoodChanges(cs) && FrontOk(ls) && cs != []
    requires var ed := ApplyAll(ls, cs); ed != [] && FrontOk(ed) && ed[|ed| - 1] == []
    ensures var ed := ApplyAll(ls, cs); |Join(ApplyAll(DropBlank(ed), cs))| < |Join(ed)|
  {
    var ed := ApplyAll(ls, cs);
    forall c | c in cs ensures Done(DropBlank(ed), c) {
      EditWritesKey(ls, cs, c);
      DoneWithoutBlank(ed, c);
    }
    AllDoneIsFixed(DropBlank(ed), cs);
    JoinBlank(ed);
  }

  // ---- a document that loses a line ----

  lemma FreeConcat(a: string, b: string, c: char)
    requires Free(a, c) && Free(b, c)
    ensures Free(a + b, c)
  {
  }

  lemma OutputFree(ls: seq<string>, body: string)
    requires Free(body, '\r') && Free(Join(ls), '\r')
    ensures Free(Output(ls, body), '\r')
  {
    FreeConcat("---\n", Join(ls), '\r');
    FreeConcat("---\n" + Join(ls), "\n---\n\n", '\r');
    FreeConcat("---\n" + Join(ls) + "\n---\n\n", body, '\r');
  }

  lemma OutputStarts(ls: seq<string>, body: string)
    ensures StartsWith(Output(ls, body), "---\n")
  {
    PrefixStarts("---\n", Join(ls));
    PrefixStarts("---\n" + Join(ls), "\n---\n\n");
    PrefixStarts("---\n" + Join(ls) + "\n---\n\n", body);
  }

  lemma PrefixStarts(a: string, b: string)
    ensures forall p | StartsWith(a, p) :: StartsWith(a + b, p)
  {
    forall p | StartsWith(a, p) ensures StartsWith(a + b, p) { assert (a + b)[..|p|] == a[..|p|]; }
  }

  lemma OutputOpened(ls: seq<string>, body: string)
    requires ls != [] && FrontOk(ls) && Free(body, '\r') && Free(Join(ls), '\r')
    ensures Opened(Output(ls, body))
  {
    OutputSplits(ls, body);
    OutputFree(ls, body);
    OutputStarts(ls, body);
  }

  lemma GeneratedMatches(val: string)
    ensures Matches("generated: " + val, "generated") && GoodKey("generated")
  {
    var line := "generated: " + val;
    assert line[0] == 'g';
    IndentIs([], line);
    assert [] + line == line;
    assert TrimStart(line) == line && line[..10] == "generated:";
  }

  lemma TwoLines(line: string)
    ensures Join([line, "", ""]) == line + "\n\n" && DropBlank([line, "", ""]) == [line, ""]
  {
    assert [line, "", ""][1..] == ["", ""] && ["", ""][1..] == [""];
    assert Join(["", ""]) == "" + "\n" + "";
    assert Join([line, "", ""]) == line + "\n" + Join(["", ""]);
  }

  lemma SpareLinesFit(line: string)
    requires Plain(line) && line != [] && line[0] == 'g'
    ensures FrontOk([line, "", ""]) && Free(Join([line, "", ""]), '\r')
  {
    NotFence(line);
    assert !StartsWith("", FENCE);
    TwoLines(line);
  }

  lemma GeneratedLine(val: string)
    requires Plain(val)
    ensures var line := "generated: " + val; Plain(line) && line != [] && line[0] == 'g'
  {
    PlainConcat("generated: ", val);
  }

  /** A document whose front matter is a `generated` line followed by blank ones loses a blank line at every edit. */
  lemma BlankLineIsLost(was: string, now: string) returns (raw: string)
    requires Plain(was) && Plain(now) && Free(now, '#')
    ensures var cs := [Change("generated", now)];
            && Opened(raw) && GoodChanges(cs) && FrontLines(raw) == Some(["generated: " + was, ""])
            && LosesBlank(FrontLines(raw).value, cs)
            && Edit(raw, cs).Some? && Edit(Edit(raw, cs).value, cs) != Edit(raw, cs)
  {
    var line, cs := "generated: " + was, [Change("generated", now)];
    var ls := [line, "", ""];
    GeneratedLine(was);
    SpareLinesFit(line);
    raw := Output(ls, "");
    OutputOpened(ls, "");
    OutputReadsBack(ls, "");
    TwoLines(line);
    GeneratedMatches(was);
    OneChangeLoses([line, ""], cs[0]);
    EditAgain(raw, cs);
  }

  lemma OneChangeLoses(ls: seq<string>, c: Change)
    requires GoodChange(c) && |ls| == 2 && Matches(ls[0], c.key) && ls[1] == []
    ensures GoodChanges([c]) && LosesBlank(ls, [c])
  {
    assert [c][..0] == [];
    PositionIs(ls, c.key, Some(0));
  }
}
