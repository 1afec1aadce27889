/** The front-matter line editor, and what re-reading its output gives. */
module OkfEdit {
  import opened Common
  import opened Text

  // ---- documents ----

  const FENCE := "---"
  const CLOSING := "\n---"
  const BOM := "\U{FEFF}"

  datatype Doc = Doc(front: string, body: string)

  /** Front matter and body. Whether the front matter is good YAML is not part of this model. */
  function ParseDoc(content: string): Option<Doc> {
    var text := if StartsWith(content, BOM) then content[1..] else content;
    if !StartsWith(text, FENCE) then None
    else
      var rest := text[3..];
      var end := Find(rest, CLOSING);
      if end.None? then None
      else Some(Doc(rest[..end.value], TrimNewlines(rest[end.value + 4..])))
  }

  /** The lines the editor works on. It does not skip a byte order mark. */
  function FrontLines(raw: string): Option<seq<string>> {
    if !StartsWith(raw, FENCE) then None
    else
      var inner := raw[3..];
      var end := Find(inner, CLOSING);
      Some(Lines(TrimNewlines(if end.Some? then inner[..end.value] else inner)))
  }

  datatype Change = Change(key: string, val: string)

  predicate Matches(line: string, key: string) { StartsWith(TrimStart(line), key + ":") }

  /** `position`: the first matching line. */
  function Position(ls: seq<string>, key: string): (r: Option<nat>)
    ensures r.Some? ==> r.value < |ls| && Matches(ls[r.value], key) && forall j | 0 <= j < r.value :: !Matches(ls[j], key)
    ensures r.None? ==> forall j | 0 <= j < |ls| :: !Matches(ls[j], key)
  {
    if ls == [] then None
    else if Matches(ls[0], key) then Some(0)
    else
      var r := Position(ls[1..], key);
      assert forall j | 1 <= j < |ls| :: ls[j] == ls[1..][j - 1];
      if r.Some? then Some(r.value + 1) else None
  }

  /** The text after the first '#', with the '#' back in front. */
  function Comment(line: string): string {
    var i := Find(line, "#");
    if i.Some? then "#" + line[i.value + 1..] else ""
  }

  /** The line as the editor rewrites it: old indentation, new value, old comment glued on. */
  function Rewrite(line: string, key: string, val: string): string {
    Indent(line) + (key + ":") + " " + val + TrimEnd(Comment(line))
  }

  function Fresh(key: string, val: string): string { key + ": " + val }

  function ApplyOne(ls: seq<string>, c: Change): seq<string> {
    var i := Position(ls, c.key);
    if i.Some? then ls[i.value := Rewrite(ls[i.value], c.key, c.val)] else ls + [Fresh(c.key, c.val)]
  }

  function ApplyAll(ls: seq<string>, cs: seq<Change>): seq<string> {
    if cs == [] then ls else ApplyOne(ApplyAll(ls, cs[..|cs| - 1]), cs[|cs| - 1])
  }

  function Output(ls: seq<string>, body: string): string { "---\n" + Join(ls) + "\n---\n\n" + body }

  /** The whole edit on the text. */
  function Edit(raw: string, cs: seq<Change>): Option<string> {
    var doc, ls := ParseDoc(raw), FrontLines(raw);
    if doc.None? || ls.None? then None else Some(Output(ApplyAll(ls.value, cs), doc.value.body))
  }

  lemma BomInFront(text: string)
    ensures StartsWith(BOM + text, BOM) && (BOM + text)[1..] == text && !StartsWith(BOM + text, FENCE)
  {
    var s := BOM + text;
    assert s[..1] == BOM && s[0] == '\U{FEFF}';
    if |s| >= 3 { assert s[..3][0] == s[0] && FENCE[0] == '-'; }
  }

  /** A byte order mark does not keep a document from being read, but it does keep it from being edited. */
  lemma BomReadNotEdited(text: string, cs: seq<Change>)
    requires !StartsWith(text, "\U{FEFF}")
    ensures ParseDoc("\U{FEFF}" + text) == ParseDoc(text) && Edit("\U{FEFF}" + text, cs) == None
  {
    BomInFront(text);
  }

  /** The editing loop. */
  method EditLines(ls: seq<string>, cs: seq<Change>) returns (lines: seq<string>)
    ensures lines == ApplyAll(ls, cs)
  {
    lines := ls;
    for k := 0 to |cs|
      invariant lines == ApplyAll(ls, cs[..k])
    {
      assert cs[..k + 1][..k] == cs[..k];
      var key, val := cs[k].key, cs[k].val;
      var idx := Position(lines, key);
      if idx.Some? {
        var line := lines[idx.value];
        var indent := Indent(line);
        var comment := Comment(line);
        lines := lines[idx.value := indent + (key + ":") + " " + val + TrimEnd(comment)];
      } else {
        lines := lines + [key + ": " + val];
      }
    }
    assert cs[..|cs|] == cs;
  }

  // ---- what keys and values look like ----

  predicate GoodKey(k: string) {
    k != [] && !IsWhitespace(k[0]) && k[0] != '-' && Free(k, ':') && Free(k, '#') && Plain(k)
  }

  predicate GoodChange(c: Change) { GoodKey(c.key) && Plain(c.val) && Free(c.val, '#') }

  ghost predicate GoodChanges(cs: seq<Change>) {
    && (forall c | c in cs :: GoodChange(c))
    && forall i, j | 0 <= i < j < |cs| :: cs[i].key != cs[j].key
  }

  /** A line belongs to at most one key. */
  lemma OneKeyPerLine(line: string, k: string, m: string)
    requires Matches(line, k) && Matches(line, m) && Free(k, ':') && Free(m, ':')
    ensures k == m
  {
    var t := TrimStart(line);
    assert t[..|k| + 1] == k + ":" && t[..|m| + 1] == m + ":";
    assert t[|k|] == (k + ":")[|k|] && t[|m|] == (m + ":")[|m|];
    assert forall i | 0 <= i < |k| :: t[i] == (k + ":")[i] == k[i];
    assert forall i | 0 <= i < |m| :: t[i] == (m + ":")[i] == m[i];
    assert |k| == |m|;
  }

  lemma RewriteShape(line: string, k: string, v: string)
    requires GoodKey(k)
    ensures var tail := (k + ":") + (" " + v + TrimEnd(Comment(line)));
            && Rewrite(line, k, v) == Indent(line) + tail
            && Indent(Rewrite(line, k, v)) == Indent(line)
            && TrimStart(Rewrite(line, k, v)) == tail
  {
    var tail := (k + ":") + (" " + v + TrimEnd(Comment(line)));
    assert Rewrite(line, k, v) == Indent(line) + tail;
    assert tail[0] == k[0];
    IndentIs(Indent(line), tail);
  }

  /** A rewritten line still belongs to its key and to no other. */
  lemma RewriteMatches(line: string, k: string, v: string, m: string)
    requires GoodKey(k) && Free(m, ':')
    ensures Matches(Rewrite(line, k, v), m) <==> m == k
  {
    RewriteShape(line, k, v);
    assert ((k + ":") + (" " + v + TrimEnd(Comment(line))))[..|k| + 1] == k + ":";
    if Matches(Rewrite(line, k, v), m) { OneKeyPerLine(Rewrite(line, k, v), k, m); }
  }

  lemma FreshMatches(k: string, v: string, m: string)
    requires GoodKey(k) && Free(m, ':')
    ensures Matches(Fresh(k, v), m) <==> m == k
    ensures Indent(Fresh(k, v)) == ""
  {
    var line := Fresh(k, v);
    assert line == (k + ":") + (" " + v);
    assert line[0] == k[0];
    IndentIs([], line);
    assert [] + line == line;
    assert TrimStart(line) == line && line[..|k| + 1] == k + ":";
    if Matches(line, m) { OneKeyPerLine(line, k, m); }
  }

  // ---- the edits act all at once ----

  /** Line `i` after all edits, each of which goes by where its key was in the original lines. */
  function Substituted(ls: seq<string>, cs: seq<Change>, i: nat): string
    requires i < |ls|
  {
    if cs == [] then ls[i]
    else
      var c := cs[|cs| - 1];
      if Position(ls, c.key) == Some(i) then Rewrite(ls[i], c.key, c.val) else Substituted(ls, cs[..|cs| - 1], i)
  }

  /** One new line for every key the original lines lack, in the order of the changes. */
  function Appended(ls: seq<string>, cs: seq<Change>): seq<string> {
    if cs == [] then []
    else
      var c, init := cs[|cs| - 1], Appended(ls, cs[..|cs| - 1]);
      if Position(ls, c.key).None? then init + [Fresh(c.key, c.val)] else init
  }

  function SubstituteAll(ls: seq<string>, cs: seq<Change>): (r: seq<string>)
    ensures |r| == |ls| && forall i | 0 <= i < |ls| :: r[i] == Substituted(ls, cs, i)
  {
    seq(|ls|, i requires 0 <= i < |ls| => Substituted(ls, cs, i))
  }

  function Simultaneous(ls: seq<string>, cs: seq<Change>): seq<string> { SubstituteAll(ls, cs) + Appended(ls, cs) }

  /** Editing a line for other keys leaves it alone or rewrites it for one of them. */
  lemma {:induction false} SubstitutedMatches(ls: seq<string>, cs: seq<Change>, i: nat, key: string)
    requires GoodChanges(cs) && i < |ls| && Free(key, ':') && forall c | c in cs :: c.key != key
    ensures Matches(Substituted(ls, cs, i), key) <==> Matches(ls[i], key)
    ensures Matches(ls[i], key) ==> Substituted(ls, cs, i) == ls[i]
    decreases |cs|
  {
    if cs != [] {
      var c := cs[|cs| - 1];
      assert c in cs;
      if Position(ls, c.key) == Some(i) {
        RewriteMatches(ls[i], c.key, c.val, key);
        if Matches(ls[i], key) { OneKeyPerLine(ls[i], c.key, key); }
      } else {
        SubstitutedMatches(ls, cs[..|cs| - 1], i, key);
      }
    }
  }

  lemma {:induction false} AppendedMatches(ls: seq<string>, cs: seq<Change>, key: string)
    requires GoodChanges(cs) && Free(key, ':') && forall c | c in cs :: c.key != key
    ensures forall l | l in Appended(ls, cs) :: !Matches(l, key)
    decreases |cs|
  {
    if cs != [] {
      var c := cs[|cs| - 1];
      assert c in cs;
      AppendedMatches(ls, cs[..|cs| - 1], key);
      FreshMatches(c.key, c.val, key);
    }
  }

  lemma PositionIs(ls: seq<string>, key: string, r: Option<nat>)
    requires r.Some? ==> r.value < |ls| && Matches(ls[r.value], key) && forall j | 0 <= j < r.value :: !Matches(ls[j], key)
    requires r.None? ==> forall j | 0 <= j < |ls| :: !Matches(ls[j], key)
    ensures Position(ls, key) == r
  {
  }

  /** Edits for other keys do not move a key. */
  lemma PositionStays(ls: seq<string>, cs: seq<Change>, key: string)
    requires GoodChanges(cs) && Free(key, ':') && forall c | c in cs :: c.key != key
    ensures Position(Simultaneous(ls, cs), key) == Position(ls, key)
    ensures Position(ls, key).Some? ==> Simultaneous(ls, cs)[Position(ls, key).value] == ls[Position(ls, key).value]
  {
    var ed := Simultaneous(ls, cs);
    AppendedMatches(ls, cs, key);
    forall j | 0 <= j < |ed|
      ensures j < |ls| ==> (Matches(ed[j], key) <==> Matches(ls[j], key)) && (Matches(ls[j], key) ==> ed[j] == ls[j])
      ensures j >= |ls| ==> !Matches(ed[j], key)
    {
      if j < |ls| { SubstitutedMatches(ls, cs, j, key); } else { assert ed[j] in Appended(ls, cs); }
    }
    PositionIs(ed, key, Position(ls, key));
  }

  lemma UpdateHead(a: seq<string>, b: seq<string>, i: nat, x: string)
    requires i < |a|
    ensures (a + b)[i := x] == a[i := x] + b && (a + b)[i] == a[i]
  {
  }

  lemma OneMoreSubstitution(ls: seq<string>, cs: seq<Change>, i: nat)
    requires cs != [] && Position(ls, cs[|cs| - 1].key) == Some(i)
    ensures var c, init := cs[|cs| - 1], cs[..|cs| - 1];
            SubstituteAll(ls, cs) == SubstituteAll(ls, init)[i := Rewrite(ls[i], c.key, c.val)]
  {
  }

  lemma OneMoreRewrite(ls: seq<string>, cs: seq<Change>, i: nat)
    requires cs != [] && Position(ls, cs[|cs| - 1].key) == Some(i)
    requires Simultaneous(ls, cs[..|cs| - 1])[i] == ls[i]
    ensures var c, before := cs[|cs| - 1], Simultaneous(ls, cs[..|cs| - 1]);
            Simultaneous(ls, cs) == before[i := Rewrite(before[i], c.key, c.val)]
  {
    var c, init := cs[|cs| - 1], cs[..|cs| - 1];
    OneMoreSubstitution(ls, cs, i);
    UpdateHead(SubstituteAll(ls, init), Appended(ls, init), i, Rewrite(ls[i], c.key, c.val));
    assert Appended(ls, cs) == Appended(ls, init);
  }

  lemma OneMoreLine(ls: seq<string>, cs: seq<Change>)
    requires cs != [] && Position(ls, cs[|cs| - 1].key).None?
    ensures var c := cs[|cs| - 1];
            Simultaneous(ls, cs) == Simultaneous(ls, cs[..|cs| - 1]) + [Fresh(c.key, c.val)]
  {
    assert SubstituteAll(ls, cs) == SubstituteAll(ls, cs[..|cs| - 1]);
  }

  /**
   * The editing loop is the simultaneous substitution of the first matching line of each key, with the
   * missing keys appended in order; every other line is untouched.
   */
  lemma {:induction false} EditsAreSimultaneous(ls: seq<string>, cs: seq<Change>)
    requires GoodChanges(cs)
    ensures ApplyAll(ls, cs) == Simultaneous(ls, cs)
    decreases |cs|
  {
    if cs != [] {
      var n := |cs| - 1;
      var c, init := cs[n], cs[..n];
      assert c in cs && forall d | d in init :: d in cs && d.key != c.key;
      EditsAreSimultaneous(ls, init);
      PositionStays(ls, init, c.key);
      var i := Position(ls, c.key);
      if i.Some? { OneMoreRewrite(ls, cs, i.value); } else { OneMoreLine(ls, cs); }
    }
  }

  // ---- editing twice ----

  /** A line that an edit has just written for `key` and `val`. */
  predicate Written(line: string, key: string, val: string) { Rewrite(line, key, val) == line }

  lemma NoMarkIn(head: string, tail: string, j: nat)
    requires Free(head, '#') && j < |head|
    ensures !MatchesAt(head + tail, "#", j)
  {
    assert (head + tail)[j..j + 1] == [head[j]];
  }

  lemma MarkAt(head: string, tail: string)
    requires Free(head, '#') && tail != [] && tail[0] == '#'
    ensures Find(head + tail, "#") == Some(|head|) && (head + tail)[|head| + 1..] == tail[1..]
  {
    var s := head + tail;
    forall j | 0 <= j < |head| ensures !MatchesAt(s, "#", j) { NoMarkIn(head, tail, j); }
    assert s[|head|..|head| + 1] == [s[|head|]] == "#";
    FindIs(s, "#", |head|);
  }

  lemma NoMark(s: string)
    requires Free(s, '#')
    ensures Find(s, "#").None?
  {
    forall j: nat ensures !MatchesAt(s, "#", j) {
      if j < |s| { assert s[j..j + 1] == [s[j]]; }
    }
    FindIsNone(s, "#");
  }

  lemma CommentOf(head: string, tail: string)
    requires Free(head, '#') && (tail == [] || tail[0] == '#')
    ensures Comment(head + tail) == tail
  {
    if tail == [] {
      assert head + tail == head;
      NoMark(head);
    } else {
      MarkAt(head, tail);
      assert tail == "#" + tail[1..];
    }
  }

  lemma TrimmedComment(line: string)
    ensures var t := TrimEnd(Comment(line)); (t == [] || t[0] == '#') && TrimEnd(t) == t
  {
    var t := TrimEnd(Comment(line));
    TrimEndFixed(t);
    if t != [] { assert t[0] == Comment(line)[0]; }
  }

  lemma IndentFree(line: string)
    ensures Free(Indent(line), '#')
  {
  }

  lemma CommentRewritten(line: string, k: string, v: string)
    requires GoodChange(Change(k, v))
    ensures TrimEnd(Comment(Rewrite(line, k, v))) == TrimEnd(Comment(line))
  {
    var comment := TrimEnd(Comment(line));
    var head := Indent(line) + (k + ":") + " " + v;
    TrimmedComment(line);
    IndentFree(line);
    assert Free(Indent(line) + (k + ":"), '#');
    CommentOf(head, comment);
  }

  /** Rewriting a rewritten line for the same change leaves it as it is. */
  lemma RewriteTwice(line: string, k: string, v: string)
    requires GoodChange(Change(k, v))
    ensures Written(Rewrite(line, k, v), k, v)
  {
    RewriteShape(line, k, v);
    CommentRewritten(line, k, v);
  }

  lemma FreshTwice(k: string, v: string)
    requires GoodChange(Change(k, v))
    ensures Written(Fresh(k, v), k, v)
  {
    FreshMatches(k, v, k);
    CommentOf(Fresh(k, v), []);
    assert Fresh(k, v) + [] == Fresh(k, v);
    assert Rewrite(Fresh(k, v), k, v) == [] + (k + ":") + " " + v + [];
  }

  /** The first line of the key is one the edit wrote. */
  predicate Done(ls: seq<string>, c: Change) {
    var r := Position(ls, c.key);
    r.Some? && Written(ls[r.value], c.key, c.val)
  }

  /** After an edit, every key is done. */
  lemma {:induction false} EditWritesKey(ls: seq<string>, cs: seq<Change>, c: Change)
    requires GoodChanges(cs) && c in cs
    ensures Done(ApplyAll(ls, cs), c)
    decreases |cs|
  {
    var n := |cs| - 1;
    var before := ApplyAll(ls, cs[..n]);
    GoodInit(cs, c);
    if c == cs[n] {
      LastEditWrites(before, c);
    } else {
      EditWritesKey(ls, cs[..n], c);
      OtherEditKeepsDone(before, cs[n], c);
    }
  }

  lemma GoodInit(cs: seq<Change>, c: Change)
    requires GoodChanges(cs) && c in cs
    ensures var n := |cs| - 1;
            GoodChanges(cs[..n]) && GoodChange(cs[n]) && GoodChange(c) && (c != cs[n] ==> c in cs[..n] && c.key != cs[n].key)
  {
    var n := |cs| - 1;
    assert cs[n] in cs && forall d | d in cs[..n] :: d in cs;
    var i :| 0 <= i < |cs| && cs[i] == c;
    assert i < n ==> cs[..n][i] == c;
  }

  lemma LastEditWrites(ls: seq<string>, c: Change)
    requires GoodChange(c)
    ensures Done(ApplyOne(ls, c), c)
  {
    var ed, i := ApplyOne(ls, c), Position(ls, c.key);
    if i.Some? {
      RewriteTwice(ls[i.value], c.key, c.val);
      RewriteMatches(ls[i.value], c.key, c.val, c.key);
      PositionIs(ed, c.key, i);
    } else {
      FreshTwice(c.key, c.val);
      FreshMatches(c.key, c.val, c.key);
      PositionIs(ed, c.key, Some(|ls|));
    }
  }

  /** An edit for one key keeps the first line of another. */
  lemma OtherEditKeeps(ls: seq<string>, c: Change, key: string)
    requires GoodChange(c) && Free(key, ':') && key != c.key && Position(ls, key).Some?
    ensures var ed := ApplyOne(ls, c); var r := Position(ls, key);
            Position(ed, key) == r && ed[r.value] == ls[r.value]
  {
    var ed, i, r := ApplyOne(ls, c), Position(ls, c.key), Position(ls, key);
    if i.Some? {
      RewriteMatches(ls[i.value], c.key, c.val, key);
      if i == r { OneKeyPerLine(ls[i.value], c.key, key); }
    }
    PositionIs(ed, key, r);
  }

  lemma OtherEditKeepsDone(ls: seq<string>, c: Change, d: Change)
    requires GoodChange(c) && Free(d.key, ':') && d.key != c.key && Done(ls, d)
    ensures Done(ApplyOne(ls, c), d)
  {
    OtherEditKeeps(ls, c, d.key);
  }

  lemma DoneIsFixed(ls: seq<string>, c: Change)
    requires Done(ls, c)
    ensures ApplyOne(ls, c) == ls
  {
  }

  ghost predicate AllDone(ls: seq<string>, cs: seq<Change>) { forall c | c in cs :: Done(ls, c) }

  lemma AllDoneInit(ls: seq<string>, cs: seq<Change>)
    requires AllDone(ls, cs) && cs != []
    ensures AllDone(ls, cs[..|cs| - 1]) && Done(ls, cs[|cs| - 1])
  {
  }

  lemma {:induction false} AllDoneIsFixed(ls: seq<string>, cs: seq<Change>)
    requires AllDone(ls, cs)
    ensures ApplyAll(ls, cs) == ls
    decreases |cs|
  {
    if cs != [] {
      AllDoneInit(ls, cs);
      AllDoneIsFixed(ls, cs[..|cs| - 1]);
      DoneIsFixed(ls, cs[|cs| - 1]);
    }
  }

  /** With the same values, timestamp included, editing the lines again changes nothing. */
  lemma EditTwice(ls: seq<string>, cs: seq<Change>)
    requires GoodChanges(cs)
    ensures ApplyAll(ApplyAll(ls, cs), cs) == ApplyAll(ls, cs)
  {
    forall c | c in cs ensures Done(ApplyAll(ls, cs), c) { EditWritesKey(ls, cs, c); }
    AllDoneIsFixed(ApplyAll(ls, cs), cs);
  }

  // ---- the value that is read back ----

  /** A plain YAML scalar ends where a '#' follows a space. */
  function PlainScalar(s: string): string {
    var i := Find(s, " #");
    if i.Some? then s[..i.value] else s
  }

  /**
   * The value read back from a rewritten line is the value written exactly when the old line had no
   * '#': an old comment is glued on without the space that would keep it a comment.
   */
  lemma ReadBackIffNoComment(line: string, k: string, v: string)
    requires GoodChange(Change(k, v)) && v != [] && v[|v| - 1] != ' '
    ensures PlainScalar(Rewrite(line, k, v)[|Indent(line)| + |k| + 2..]) == v <==> Find(line, "#").None?
  {
    var comment := TrimEnd(Comment(line));
    var head := Indent(line) + (k + ":") + " ";
    assert Rewrite(line, k, v) == head + (v + comment);
    assert (head + (v + comment))[|head|..] == v + comment;
    TrimmedComment(line);
    CommentKept(line);
    ScalarOf(v, comment);
  }

  lemma ScalarOf(v: string, comment: string)
    requires v != [] && v[|v| - 1] != ' ' && Free(v, '#') && (comment == [] || comment[0] == '#')
    ensures PlainScalar(v + comment) == v <==> comment == []
  {
    var read := v + comment;
    forall j | 0 <= j <= |v| && j + 2 <= |read| ensures !MatchesAt(read, " #", j) {
      assert read[j..j + 2] == [read[j], read[j + 1]];
      assert " #" == [' ', '#'];
      assert j < |v| ==> read[j] == v[j];
      assert j + 1 < |v| ==> read[j + 1] == v[j + 1];
    }
    if comment == [] {
      assert read == v;
      FindIsNone(v, " #");
    } else {
      assert |PlainScalar(read)| > |v|;
    }
  }

  lemma CommentKept(line: string)
    ensures TrimEnd(Comment(line)) == [] <==> Find(line, "#").None?
  {
    if Find(line, "#").Some? {
      HashStays(Comment(line));
    }
  }

  lemma {:induction false} HashStays(s: string)
    requires s != [] && s[0] == '#'
    ensures TrimEnd(s) != []
    decreases |s|
  {
    if |s| > 1 { HashStays(s[..|s| - 1]); }
  }
}
