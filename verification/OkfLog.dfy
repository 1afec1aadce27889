/** The update log: text insertion refines an ordered list of dated groups. */
module OkfLog {
  import opened Common
  import opened Text
  import opened Timestamps

  const HEADER := "# Directory Update Log\n\n"
  const GAP := "\n## "

  function Marker(date: string): string { "## " + date + "\n" }

  function Item(entry: string): string { "* " + entry + "\n" }

  // ---- the text operation ----

  /** Where the entry goes: before the next heading after the date's heading, if the text has one. */
  function InsertAt(content: string, date: string): (r: Option<nat>)
    ensures r.Some? ==> r.value <= |content|
  {
    var idx := Find(content, Marker(date));
    if idx.None? then None
    else
      var from := idx.value + |Marker(date)|;
      var gap := Find(content[from..], GAP);
      Some(if gap.Some? then from + gap.value else |content|)
  }

  function Insert(s: string, i: nat, x: string): string
    requires i <= |s|
  {
    s[..i] + x + s[i..]
  }

  function Appended(content: string, date: string, entry: string): string {
    var end := InsertAt(content, date);
    if end.Some? then Insert(content, end.value, Item(entry)) else content + ("\n" + Marker(date) + Item(entry))
  }

  /** The same on a buffer that is changed step by step. */
  method AppendTo(text: string, date: string, entry: string) returns (content: string)
    ensures content == Appended(text, date, entry)
  {
    content := text;
    var marker := Marker(date);
    var idx := Find(content, marker);
    if idx.Some? {
      var seg := content[idx.value + |marker|..];
      var gap := Find(seg, GAP);
      var segEnd := if gap.Some? then idx.value + |marker| + gap.value else |content|;
      assert InsertAt(text, date) == Some(segEnd);
      content := Insert(content, segEnd, Item(entry));
    } else {
      assert InsertAt(text, date) == None;
      content := content + ("\n" + marker + Item(entry));
    }
  }

  lemma HeaderHasNoMarker(date: string, j: nat)
    ensures !MatchesAt(HEADER, Marker(date), j)
  {
    var m := Marker(date);
    if j + |m| <= |HEADER| {
      assert m[0] == '#' && m[1] == '#';
      assert HEADER[j..j + |m|][0] == HEADER[j] && HEADER[j..j + |m|][1] == HEADER[j + 1];
    }
  }

  /** What a new log looks like after its first entry. */
  lemma FirstEntry(date: string, entry: string)
    ensures Appended(HEADER, date, entry) == "# Directory Update Log\n\n" + "\n## " + date + "\n* " + entry + "\n"
  {
    forall j: nat ensures !MatchesAt(HEADER, Marker(date), j) { HeaderHasNoMarker(date, j); }
    FindIsNone(HEADER, Marker(date));
    assert "\n" + Marker(date) + Item(entry) == "\n## " + date + "\n* " + entry + "\n";
  }

  /** `log.md` of one library; `None` while it does not exist. */
  class LogFile {
    var text: Option<string>

    constructor (text: Option<string>)
      ensures this.text == text
    {
      this.text := text;
    }

    method Append(date: string, entry: string)
      modifies this
      ensures text == Some(Appended(if old(text).Some? then old(text).value else HEADER, date, entry))
    {
      var content := if text.Some? then text.value else HEADER;
      content := AppendTo(content, date, entry);
      text := Some(content);
    }
  }

  // ---- the log it stands for ----

  datatype Group = Group(date: string, entries: seq<string>)

  function Items(es: seq<string>): string { if es == [] then "" else Item(es[0]) + Items(es[1..]) }

  function Heading(date: string): string { "\n" + Marker(date) }

  function Groups(gs: seq<Group>): string {
    if gs == [] then "" else Heading(gs[0].date) + (Items(gs[0].entries) + Groups(gs[1..]))
  }

  function Render(gs: seq<Group>): string { HEADER + Groups(gs) }

  /** Adds an entry to its date's group, or starts a new last group. */
  function Add(gs: seq<Group>, date: string, entry: string): seq<Group> {
    if gs == [] then [Group(date, [entry])]
    else if gs[0].date == date then [Group(date, gs[0].entries + [entry])] + gs[1..]
    else [gs[0]] + Add(gs[1..], date, entry)
  }

  function Dates(gs: seq<Group>): seq<string> { if gs == [] then [] else [gs[0].date] + Dates(gs[1..]) }

  function EntriesOf(gs: seq<Group>, date: string): seq<string> {
    if gs == [] then [] else if gs[0].date == date then gs[0].entries else EntriesOf(gs[1..], date)
  }

  /** Adding appends to one date's entries and changes no other's; a new date comes last. */
  lemma {:induction false} AddIsAppend(gs: seq<Group>, date: string, entry: string, other: string)
    ensures EntriesOf(Add(gs, date, entry), other) ==
            if other == date then EntriesOf(gs, date) + [entry] else EntriesOf(gs, other)
    ensures Dates(Add(gs, date, entry)) == if date in Dates(gs) then Dates(gs) else Dates(gs) + [date]
    decreases |gs|
  {
    var r := Add(gs, date, entry);
    if gs == [] {
      assert r[1..] == [];
    } else if gs[0].date == date {
      assert r[1..] == gs[1..];
    } else {
      AddIsAppend(gs[1..], date, entry, other);
      assert r[1..] == Add(gs[1..], date, entry);
    }
  }

  /** What a date looks like as far as the log is concerned. */
  predicate GoodDate(d: string) { Free(d, '\n') && Free(d, '#') }

  predicate GoodDates(gs: seq<Group>) { forall g | g in gs :: GoodDate(g.date) }

  // ---- the text around one date ----

  /** The groups before the date's own, as text. */
  function UpTo(gs: seq<Group>, date: string): string {
    if gs == [] || gs[0].date == date then ""
    else Heading(gs[0].date) + (Items(gs[0].entries) + UpTo(gs[1..], date))
  }

  function Later(gs: seq<Group>, date: string): seq<Group> {
    if gs == [] then [] else if gs[0].date == date then gs[1..] else Later(gs[1..], date)
  }

  lemma {:induction false} SplitAtDate(gs: seq<Group>, date: string)
    ensures Groups(gs) == UpTo(gs, date) + if date in Dates(gs)
                            then Heading(date) + (Items(EntriesOf(gs, date)) + Groups(Later(gs, date))) else ""
    decreases |gs|
  {
    if gs != [] && gs[0].date != date {
      SplitAtDate(gs[1..], date);
      var own := if date in Dates(gs) then Heading(date) + (Items(EntriesOf(gs, date)) + Groups(Later(gs, date))) else "";
      Assoc(Items(gs[0].entries), UpTo(gs[1..], date), own);
      Assoc(Heading(gs[0].date), Items(gs[0].entries) + UpTo(gs[1..], date), own);
    }
  }

  lemma {:induction false} ItemsAppend(es: seq<string>, entry: string)
    ensures Items(es + [entry]) == Items(es) + Item(entry)
    decreases |es|
  {
    if es == [] {
      assert (es + [entry])[1..] == [];
    } else {
      assert (es + [entry])[1..] == es[1..] + [entry];
      ItemsAppend(es[1..], entry);
    }
  }

  lemma Single(entry: string)
    ensures Items([entry]) == Item(entry)
  {
    assert [entry][1..] == [];
  }

  lemma Assoc(a: string, b: string, c: string)
    ensures (a + b) + c == a + (b + c)
  {
  }

  lemma GroupsCons(g: Group, gs: seq<Group>)
    ensures Groups([g] + gs) == Heading(g.date) + (Items(g.entries) + Groups(gs))
  {
    assert ([g] + gs)[1..] == gs;
  }

  lemma {:induction false} RenderAdd(gs: seq<Group>, date: string, entry: string)
    ensures Groups(Add(gs, date, entry)) == UpTo(gs, date) + (
                if date in Dates(gs)
                then Heading(date) + (Items(EntriesOf(gs, date)) + (Item(entry) + Groups(Later(gs, date))))
                else Heading(date) + Item(entry))
    decreases |gs|
  {
    if gs == [] {
      GroupsCons(Group(date, [entry]), []);
      Single(entry);
      assert [Group(date, [entry])] + [] == [Group(date, [entry])];
      assert Item(entry) + "" == Item(entry);
    } else if gs[0].date == date {
      GroupsCons(Group(date, gs[0].entries + [entry]), gs[1..]);
      ItemsAppend(gs[0].entries, entry);
      Assoc(Items(gs[0].entries), Item(entry), Groups(gs[1..]));
    } else {
      RenderAdd(gs[1..], date, entry);
      GroupsCons(gs[0], Add(gs[1..], date, entry));
      var tail := if date in Dates(gs)
        then Heading(date) + (Items(EntriesOf(gs, date)) + (Item(entry) + Groups(Later(gs, date))))
        else Heading(date) + Item(entry);
      Assoc(Items(gs[0].entries), UpTo(gs[1..], date), tail);
      Assoc(Heading(gs[0].date), Items(gs[0].entries) + UpTo(gs[1..], date), tail);
    }
  }

  // ---- where the searches stop ----

  /** A match that begins before a character its pattern holds only at the end stays on this side of it. */
  lemma StaysInLine(a: string, rest: string, pat: string, j: nat)
    requires a != [] && a[|a| - 1] == '\n' && pat != [] && Free(pat[..|pat| - 1], '\n')
    requires j < |a| && MatchesAt(a + rest, pat, j)
    ensures j + |pat| <= |a| && MatchesAt(a, pat, j)
  {
    var s, n := a + rest, |a| - 1;
    forall k | j <= k < j + |pat| - 1 ensures s[k] != '\n' {
      assert s[j..j + |pat|][k - j] == pat[k - j] == pat[..|pat| - 1][k - j];
    }
    assert s[n] == '\n';
    MatchPrefix(a, rest, pat, j);
  }

  lemma MarkerIsLine(date: string)
    requires Free(date, '\n')
    ensures var m := Marker(date); m != [] && m[0] == '#' && m[1] == '#' && m[|m| - 1] == '\n' && Free(m[..|m| - 1], '\n')
  {
    assert Marker(date)[..|Marker(date)| - 1] == "## " + date;
  }

  lemma MatchChar(s: string, pat: string, j: nat, k: nat)
    requires MatchesAt(s, pat, j) && k < |pat|
    ensures s[j + k] == pat[k]
  {
    assert s[j..j + |pat|][k] == s[j + k];
  }

  /** A marker met in an item is part of the entry and the end of its line. */
  lemma MarkerInItem(entry: string, date: string, rest: string, j: nat)
    requires Free(date, '\n') && j < |Item(entry)| && MatchesAt(Item(entry) + rest, Marker(date), j)
    ensures j >= 2 && MatchesAt(entry + "\n", Marker(date), j - 2)
  {
    var item, m := Item(entry), Marker(date);
    MarkerIsLine(date);
    StaysInLine(item, rest, m, j);
    MatchChar(item, m, j, 0);
    assert item == "* " + (entry + "\n");
    MatchShift("* ", entry + "\n", m, j - 2);
  }

  lemma HeadingChars(date: string)
    ensures var h := Heading(date);
            h[0] == '\n' && h[1] == '#' && h[2] == '#' && h[3] == ' ' && h[|h| - 1] == '\n' && h[1..] == Marker(date)
    ensures forall k | 0 <= k < |date| :: Heading(date)[k + 4] == date[k]
  {
  }

  /** Of the places in a heading only the second begins with "##" and reaches a line's end. */
  lemma MarkerPlace(other: string, date: string, rest: string, j: nat)
    requires GoodDate(other) && GoodDate(date) && j < |Heading(other)| && MatchesAt(Heading(other) + rest, Marker(date), j)
    ensures j == 1 && |date| == |other| && MatchesAt(Heading(other), Marker(date), 1)
  {
    var h, m := Heading(other), Marker(date);
    HeadingChars(other);
    MarkerIsLine(date);
    StaysInLine(h, rest, m, j);
    MatchChar(h, m, j, 0);
    MatchChar(h, m, j, 1);
    MatchChar(h, m, j, |m| - 1);
  }

  lemma MarkerNamesDate(other: string, date: string)
    requires |date| == |other| && MatchesAt(Heading(other), Marker(date), 1)
    ensures other == date
  {
    HeadingChars(other);
    assert Marker(other) == Marker(date);
    assert Marker(other)[3..3 + |other|] == other && Marker(date)[3..3 + |date|] == date;
  }

  lemma OwnMarker(date: string, rest: string)
    ensures MatchesAt(Heading(date) + rest, Marker(date), 1)
  {
    HeadingChars(date);
    MatchPrefix(Heading(date), rest, Marker(date), 1);
  }

  /** A heading holds no marker but its own. */
  lemma MarkerInHeading(other: string, date: string, rest: string, j: nat)
    requires GoodDate(other) && GoodDate(date) && j < |Heading(other)|
    ensures MatchesAt(Heading(other) + rest, Marker(date), j) <==> j == 1 && other == date
  {
    if MatchesAt(Heading(other) + rest, Marker(date), j) {
      MarkerPlace(other, date, rest, j);
      MarkerNamesDate(other, date);
    }
    if other == date { OwnMarker(date, rest); }
  }

  /** A gap met in an item is part of the entry. */
  lemma GapInItem(entry: string, rest: string, j: nat)
    requires rest != [] ==> rest[0] != '#'
    requires j < |Item(entry)| && MatchesAt(Item(entry) + rest, GAP, j)
    ensures j >= 2 && MatchesAt(entry, GAP, j - 2)
  {
    ItemIs(entry, rest);
    GapStarts("* " + (entry + ("\n" + rest)), entry, rest, j);
    MatchShift("* ", entry + ("\n" + rest), GAP, j - 2);
    MatchPrefix(entry, "\n" + rest, GAP, j - 2);
  }

  lemma ItemIs(entry: string, rest: string)
    ensures Item(entry) + rest == "* " + (entry + ("\n" + rest)) && |Item(entry)| == |entry| + 3
  {
  }

  lemma GapStarts(s: string, entry: string, rest: string, j: nat)
    requires s == "* " + (entry + ("\n" + rest)) && (rest != [] ==> rest[0] != '#')
    requires j < |entry| + 3 && MatchesAt(s, GAP, j)
    ensures 2 <= j && j + |GAP| <= |entry| + 2
  {
    MatchChar(s, GAP, j, 0);
    MatchChar(s, GAP, j, 1);
    MatchChar(s, GAP, j, 2);
    MatchChar(s, GAP, j, 3);
    assert s[|entry| + 2] == '\n';
    assert rest != [] ==> s[|entry| + 3] == rest[0];
  }

  // ---- what the two searches find ----

  /** The entry's line ends in what looks like the date's heading. */
  predicate Mimics(entry: string, date: string) { Find(entry + "\n", Marker(date)).Some? }

  predicate AnyMimics(es: seq<string>, date: string) {
    es != [] && (Mimics(es[0], date) || AnyMimics(es[1..], date))
  }

  /** The entry holds a line that looks like the start of a heading. */
  predicate Breaks(entry: string) { Find(entry, GAP).Some? }

  predicate AnyBreaks(es: seq<string>) { es != [] && (Breaks(es[0]) || AnyBreaks(es[1..])) }

  /** An entry of an earlier group mimics the date's heading. */
  predicate Misled(gs: seq<Group>, date: string) {
    gs != [] && gs[0].date != date
    && (AnyMimics(gs[0].entries, date) || Misled(gs[1..], date))
  }

  function Shifted(r: Option<nat>, n: nat): Option<nat> { match r { case None => None case Some(k) => Some(n + k) } }

  lemma PassesItem(entry: string, date: string, rest: string)
    requires GoodDate(date) && !Mimics(entry, date)
    ensures Find(Item(entry) + rest, Marker(date)) == Shifted(Find(rest, Marker(date)), |Item(entry)|)
  {
    forall j | 0 <= j < |Item(entry)| ensures !MatchesAt(Item(entry) + rest, Marker(date), j) {
      if MatchesAt(Item(entry) + rest, Marker(date), j) { MarkerInItem(entry, date, rest, j); }
    }
    FindAfter(Item(entry), rest, Marker(date));
  }

  /** A search for `m` characters stops within the first `n`, or goes on as in the rest. */
  predicate Stops(r: Option<nat>, rest: Option<nat>, n: nat, m: nat, within: bool) {
    if within then r.Some? && r.value + m <= n else r == Shifted(rest, n)
  }

  lemma StopsLater(all: Option<nat>, mid: Option<nat>, rest: Option<nat>, h: nat, n: nat, m: nat, within: bool)
    requires all == Shifted(mid, h) && Stops(mid, rest, n, m, within)
    ensures Stops(all, rest, h + n, m, within)
  {
  }

  lemma StopsInItem(entry: string, date: string, rest: string)
    requires Mimics(entry, date)
    ensures var r := Find(Item(entry) + rest, Marker(date)); r.Some? && r.value + |Marker(date)| <= |Item(entry)|
  {
    var j := Find(entry + "\n", Marker(date)).value;
    assert Item(entry) == "* " + (entry + "\n");
    MatchShift("* ", entry + "\n", Marker(date), j);
    MatchPrefix(Item(entry), rest, Marker(date), 2 + j);
  }

  lemma ItemStops(entry: string, its: string, date: string, rest: string)
    requires Mimics(entry, date)
    ensures Stops(Find((Item(entry) + its) + rest, Marker(date)), Find(rest, Marker(date)),
                  |Item(entry) + its|, |Marker(date)|, true)
  {
    Assoc(Item(entry), its, rest);
    StopsInItem(entry, date, its + rest);
  }

  lemma ItemPasses(entry: string, its: string, date: string, rest: string, within: bool)
    requires GoodDate(date) && !Mimics(entry, date)
    requires Stops(Find(its + rest, Marker(date)), Find(rest, Marker(date)), |its|, |Marker(date)|, within)
    ensures Stops(Find((Item(entry) + its) + rest, Marker(date)), Find(rest, Marker(date)),
                  |Item(entry) + its|, |Marker(date)|, within)
  {
    Assoc(Item(entry), its, rest);
    PassesItem(entry, date, its + rest);
    StopsLater(Find(Item(entry) + (its + rest), Marker(date)), Find(its + rest, Marker(date)), Find(rest, Marker(date)),
               |Item(entry)|, |its|, |Marker(date)|, within);
  }

  lemma {:induction false} SearchItems(es: seq<string>, date: string, rest: string)
    requires GoodDate(date)
    ensures Stops(Find(Items(es) + rest, Marker(date)), Find(rest, Marker(date)),
                  |Items(es)|, |Marker(date)|, AnyMimics(es, date))
    decreases |es|
  {
    if es == [] {
      assert Items(es) + rest == rest;
    } else if Mimics(es[0], date) {
      ItemStops(es[0], Items(es[1..]), date, rest);
    } else {
      SearchItems(es[1..], date, rest);
      ItemPasses(es[0], Items(es[1..]), date, rest, AnyMimics(es[1..], date));
    }
  }

  lemma PassesHeading(other: string, date: string, rest: string)
    requires GoodDate(other) && GoodDate(date)
    ensures Find(Heading(other) + rest, Marker(date)) ==
            if other == date then Some(1) else Shifted(Find(rest, Marker(date)), |Heading(other)|)
  {
    forall j | 0 <= j < |Heading(other)|
      ensures MatchesAt(Heading(other) + rest, Marker(date), j) <==> j == 1 && other == date
    {
      MarkerInHeading(other, date, rest, j);
    }
    if other == date {
      FindIs(Heading(other) + rest, Marker(date), 1);
    } else {
      FindAfter(Heading(other), rest, Marker(date));
    }
  }

  lemma PassesOther(other: string, date: string, rest: string)
    requires GoodDate(other) && GoodDate(date) && other != date
    ensures Find(Heading(other) + rest, Marker(date)) == Shifted(Find(rest, Marker(date)), |Heading(other)|)
  {
    PassesHeading(other, date, rest);
  }

  lemma PassesGroup(g: Group, date: string, rest: string)
    requires GoodDate(g.date) && GoodDate(date) && g.date != date
    ensures Stops(Find(Heading(g.date) + (Items(g.entries) + rest), Marker(date)), Find(rest, Marker(date)),
                  |Heading(g.date)| + |Items(g.entries)|, |Marker(date)|, AnyMimics(g.entries, date))
  {
    var h, its, m := Heading(g.date), Items(g.entries), Marker(date);
    PassesOther(g.date, date, its + rest);
    SearchItems(g.entries, date, rest);
    StopsLater(Find(h + (its + rest), m), Find(its + rest, m), Find(rest, m), |h|, |its|, |m|, AnyMimics(g.entries, date));
  }

  /** A search for the marker ends inside the first `up` characters if misled, and otherwise at the heading, if any. */
  predicate Ends(r: Option<nat>, up: nat, m: nat, misled: bool, has: bool) {
    if misled then r.Some? && r.value + m <= up else r == if has then Some(up + 1) else None
  }

  ghost predicate Search(gs: seq<Group>, date: string) {
    Ends(Find(Groups(gs), Marker(date)), |UpTo(gs, date)|, |Marker(date)|, Misled(gs, date), date in Dates(gs))
  }

  /** Past a group that the search goes through it ends where it ends in the rest, that much later. */
  lemma EndsNext(r: Option<nat>, rest: Option<nat>, n: nat, up: nat, m: nat, mimics: bool, misled: bool, has: bool)
    returns (to: nat, wrong: bool)
    requires Stops(r, rest, n, m, mimics) && Ends(rest, up, m, misled, has)
    ensures to == n + up && wrong == (mimics || misled) && Ends(r, to, m, wrong, has)
  {
    to, wrong := n + up, mimics || misled;
  }

  lemma StopsInGroup(gs: seq<Group>, date: string) returns (r: Option<nat>, rest: Option<nat>)
    requires gs != [] && GoodDate(gs[0].date) && GoodDate(date) && gs[0].date != date
    ensures r == Find(Groups(gs), Marker(date)) && rest == Find(Groups(gs[1..]), Marker(date))
    ensures Stops(r, rest, |Heading(gs[0].date)| + |Items(gs[0].entries)|, |Marker(date)|, AnyMimics(gs[0].entries, date))
  {
    PassesGroup(gs[0], date, Groups(gs[1..]));
    r, rest := Find(Groups(gs), Marker(date)), Find(Groups(gs[1..]), Marker(date));
  }

  lemma SearchGroup(gs: seq<Group>, date: string)
    requires gs != [] && GoodDate(gs[0].date) && GoodDate(date) && gs[0].date != date && Search(gs[1..], date)
    ensures Search(gs, date)
  {
    var r, rest := StopsInGroup(gs, date);
    var up, misled, has := SearchIs(gs[1..], date, rest);
    var n, mimics := |Heading(gs[0].date)| + |Items(gs[0].entries)|, AnyMimics(gs[0].entries, date);
    var to, wrong := EndsNext(r, rest, n, up, |Marker(date)|, mimics, misled, has);
    SearchOn(gs, date, n, up, mimics, misled, has);
    SearchFrom(gs, date, r, to, wrong, has);
  }

  lemma SearchIs(gs: seq<Group>, date: string, r: Option<nat>) returns (up: nat, misled: bool, has: bool)
    requires Search(gs, date) && r == Find(Groups(gs), Marker(date))
    ensures up == |UpTo(gs, date)| && misled == Misled(gs, date) && has == (date in Dates(gs))
    ensures Ends(r, up, |Marker(date)|, misled, has)
  {
    up, misled, has := |UpTo(gs, date)|, Misled(gs, date), date in Dates(gs);
  }

  lemma SearchOn(gs: seq<Group>, date: string, n: nat, up: nat, mimics: bool, misled: bool, has: bool)
    requires gs != [] && gs[0].date != date
    requires n == |Heading(gs[0].date)| + |Items(gs[0].entries)| && mimics == AnyMimics(gs[0].entries, date)
    requires up == |UpTo(gs[1..], date)| && misled == Misled(gs[1..], date) && has == (date in Dates(gs[1..]))
    ensures n + up == |UpTo(gs, date)| && (mimics || misled) == Misled(gs, date) && has == (date in Dates(gs))
  {
  }

  lemma SearchFrom(gs: seq<Group>, date: string, r: Option<nat>, up: nat, misled: bool, has: bool)
    requires r == Find(Groups(gs), Marker(date)) && Ends(r, up, |Marker(date)|, misled, has)
    requires up == |UpTo(gs, date)| && misled == Misled(gs, date) && has == (date in Dates(gs))
    ensures Search(gs, date)
  {
  }

  /** The marker is found at the date's heading, or inside an earlier entry that mimics it. */
  lemma {:induction false} SearchGroups(gs: seq<Group>, date: string)
    requires GoodDates(gs) && GoodDate(date)
    ensures Search(gs, date)
    decreases |gs|
  {
    if gs == [] {
      FindIsNone("", Marker(date));
    } else {
      assert gs[0] in gs && forall g | g in gs[1..] :: g in gs;
      if gs[0].date == date {
        PassesHeading(date, date, Items(gs[0].entries) + Groups(gs[1..]));
      } else {
        SearchGroups(gs[1..], date);
        SearchGroup(gs, date);
      }
    }
  }

  lemma PassesHeader(date: string, rest: string)
    requires GoodDate(date)
    ensures Find(HEADER + rest, Marker(date)) == Shifted(Find(rest, Marker(date)), |HEADER|)
  {
    MarkerIsLine(date);
    forall j | 0 <= j < |HEADER| ensures !MatchesAt(HEADER + rest, Marker(date), j) {
      if MatchesAt(HEADER + rest, Marker(date), j) {
        MatchChar(HEADER + rest, Marker(date), j, 0);
        MatchChar(HEADER + rest, Marker(date), j, 1);
      }
    }
    FindAfter(HEADER, rest, Marker(date));
  }

  lemma GroupsStart(gs: seq<Group>)
    requires gs != []
    ensures MatchesAt(Groups(gs), GAP, 0) && Groups(gs)[0] == '\n'
  {
    assert Heading(gs[0].date)[..4] == GAP;
    assert Groups(gs)[..4] == GAP;
  }

  lemma ItemsNoHash(es: seq<string>, rest: string)
    requires rest != [] ==> rest[0] != '#'
    ensures Items(es) + rest != [] ==> (Items(es) + rest)[0] != '#'
  {
    if es == [] { assert Items(es) + rest == rest; } else { assert Item(es[0])[0] == '*'; }
  }

  lemma GapAtItem(entry: string, rest: string)
    requires rest != [] ==> rest[0] != '#'
    ensures var r := Find(Item(entry) + rest, GAP);
            if Breaks(entry) then r.Some? && r.value < |Item(entry)| else r == Shifted(Find(rest, GAP), |Item(entry)|)
  {
    var s := Item(entry) + rest;
    if Breaks(entry) {
      var j := Find(entry, GAP).value;
      MatchPrefix(entry, "\n" + rest, GAP, j);
      assert s == "* " + (entry + ("\n" + rest));
      MatchShift("* ", entry + ("\n" + rest), GAP, j);
      assert MatchesAt(s, GAP, 2 + j);
    } else {
      forall j | 0 <= j < |Item(entry)| ensures !MatchesAt(s, GAP, j) {
        if MatchesAt(s, GAP, j) { GapInItem(entry, rest, j); }
      }
      FindAfter(Item(entry), rest, GAP);
    }
  }

  lemma {:induction false} GapAfterItems(es: seq<string>, later: seq<Group>)
    ensures var r := Find(Items(es) + Groups(later), GAP);
            if AnyBreaks(es) then r.Some? && r.value < |Items(es)|
            else r == if later == [] then None else Some(|Items(es)|)
    decreases |es|
  {
    if later != [] { GroupsStart(later); }
    if es == [] {
      assert Items(es) + Groups(later) == Groups(later);
      if later != [] { FindIs(Groups(later), GAP, 0); } else { FindIsNone("", GAP); }
    } else {
      Assoc(Item(es[0]), Items(es[1..]), Groups(later));
      ItemsNoHash(es[1..], Groups(later));
      GapAtItem(es[0], Items(es[1..]) + Groups(later));
      GapAfterItems(es[1..], later);
    }
  }

  // ---- one append ----

  /** No earlier entry mimics the date's heading, and no entry of its group breaks the group. */
  predicate Refinable(gs: seq<Group>, date: string) { !Misled(gs, date) && !AnyBreaks(EntriesOf(gs, date)) }

  /** The text before the end of the date's group. */
  function Own(gs: seq<Group>, date: string): string {
    HEADER + UpTo(gs, date) + Heading(date) + Items(EntriesOf(gs, date))
  }

  lemma NoDateNoEntries(gs: seq<Group>, date: string)
    ensures date !in Dates(gs) ==> EntriesOf(gs, date) == []
  {
  }

  lemma RenderSplit(gs: seq<Group>, date: string, entry: string)
    requires date in Dates(gs)
    ensures Render(gs) == Own(gs, date) + Groups(Later(gs, date))
    ensures Render(Add(gs, date, entry)) == Own(gs, date) + (Item(entry) + Groups(Later(gs, date)))
  {
    SplitAtDate(gs, date);
    RenderAdd(gs, date, entry);
    Assoc4(HEADER, UpTo(gs, date), Heading(date), Items(EntriesOf(gs, date)), Groups(Later(gs, date)));
    Assoc4(HEADER, UpTo(gs, date), Heading(date), Items(EntriesOf(gs, date)), Item(entry) + Groups(Later(gs, date)));
  }

  lemma Assoc4(a: string, b: string, c: string, d: string, e: string)
    ensures a + (b + (c + (d + e))) == (a + b + c + d) + e
    ensures (a + b + c + d) + e == (a + b + c) + (d + e)
    ensures (a + b + c + d) + e == (a + b) + (c + (d + e))
  {
  }

  lemma RenderNew(gs: seq<Group>, date: string, entry: string)
    requires date !in Dates(gs)
    ensures Render(Add(gs, date, entry)) == Render(gs) + (Heading(date) + Item(entry))
  {
    SplitAtDate(gs, date);
    RenderAdd(gs, date, entry);
    assert UpTo(gs, date) + "" == UpTo(gs, date);
    Assoc(HEADER, Groups(gs), Heading(date) + Item(entry));
  }

  lemma SearchText(gs: seq<Group>, date: string)
    requires GoodDates(gs) && GoodDate(date)
    ensures var r, n := Find(Render(gs), Marker(date)), |HEADER| + |UpTo(gs, date)|;
            if Misled(gs, date) then r.Some? && r.value + |Marker(date)| <= n
            else r == if date in Dates(gs) then Some(n + 1) else None
  {
    SearchGroups(gs, date);
    PassesHeader(date, Groups(gs));
  }

  lemma GapPoint(content: string, date: string)
    requires InsertAt(content, date).Some? && InsertAt(content, date).value < |content|
    ensures content[InsertAt(content, date).value] == '\n'
  {
    var from := Find(content, Marker(date)).value + |Marker(date)|;
    var gap := Find(content[from..], GAP);
    MatchChar(content[from..], GAP, gap.value, 0);
  }

  lemma InsertAtIs(content: string, head: string, tail: string, date: string)
    requires content == head + tail && |head| >= |Marker(date)|
    requires Find(content, Marker(date)) == Some(|head| - |Marker(date)|)
    ensures var gap := Find(tail, GAP);
            InsertAt(content, date) == Some(if gap.Some? then |head| + gap.value else |content|)
  {
    assert content[|head|..] == tail;
  }

  lemma InsertNotAfter(content: string, head: string, tail: string, date: string)
    requires content == head + tail && MatchesAt(tail, GAP, 0)
    requires Find(content, Marker(date)).Some? && Find(content, Marker(date)).value + |Marker(date)| <= |head|
    ensures InsertAt(content, date).Some? && InsertAt(content, date).value <= |head|
  {
    var from := Find(content, Marker(date)).value + |Marker(date)|;
    MatchShift(head, tail, GAP, 0);
    assert content == content[..from] + content[from..];
    MatchShift(content[..from], content[from..], GAP, |head| - from);
  }

  lemma HeadingStarts(date: string, rest: string)
    ensures MatchesAt(Heading(date) + rest, GAP, 0)
  {
    assert Heading(date)[..4] == GAP;
    MatchPrefix(Heading(date), rest, GAP, 0);
  }

  /** With its group present, the entry goes to the group's end exactly when the log is refinable there. */
  lemma InsertPoint(gs: seq<Group>, date: string)
    requires GoodDates(gs) && GoodDate(date) && date in Dates(gs)
    ensures var at := InsertAt(Render(gs), date);
            at.Some? && if Refinable(gs, date) then at.value == |Own(gs, date)| else at.value < |Own(gs, date)|
  {
    var own, later := EntriesOf(gs, date), Groups(Later(gs, date));
    SearchText(gs, date);
    RenderSplit(gs, date, "");
    Assoc4(HEADER, UpTo(gs, date), Heading(date), Items(own), later);
    if Misled(gs, date) {
      HeadingStarts(date, Items(own) + later);
      InsertNotAfter(Render(gs), HEADER + UpTo(gs, date), Heading(date) + (Items(own) + later), date);
    } else {
      InsertAtIs(Render(gs), HEADER + UpTo(gs, date) + Heading(date), Items(own) + later, date);
      GapAfterItems(own, Later(gs, date));
    }
  }

  lemma InsertBetween(a: string, b: string, x: string)
    ensures Insert(a + b, |a|, x) == a + (x + b)
  {
  }

  lemma InsertEarlier(s: string, i: nat, j: nat, x: string)
    requires i < j <= |s| && s[i] == '\n' && x != [] && x[0] == '*'
    ensures Insert(s, i, x) != Insert(s, j, x)
  {
    assert Insert(s, i, x)[i] == x[0];
    assert Insert(s, j, x)[i] == s[i];
  }

  /**
   * Appending to the rendered log is rendering the log with the entry added to its date's group exactly when
   * no earlier group holds an entry that mimics the date's heading and no entry of the group breaks it.
   */
  lemma AppendRefines(gs: seq<Group>, date: string, entry: string)
    requires GoodDates(gs) && GoodDate(date)
    ensures Appended(Render(gs), date, entry) == Render(Add(gs, date, entry)) <==> Refinable(gs, date)
  {
    if date in Dates(gs) {
      AppendToGroup(gs, date, entry);
    } else {
      NoDateNoEntries(gs, date);
      SearchText(gs, date);
      RenderNew(gs, date, entry);
      assert "\n" + Marker(date) + Item(entry) == Heading(date) + Item(entry);
      var at := InsertAt(Render(gs), date);
      assert at.Some? <==> Misled(gs, date);
    }
  }

  lemma AppendToGroup(gs: seq<Group>, date: string, entry: string)
    requires GoodDates(gs) && GoodDate(date) && date in Dates(gs)
    ensures Appended(Render(gs), date, entry) == Render(Add(gs, date, entry)) <==> Refinable(gs, date)
  {
    InsertPoint(gs, date);
    RenderSplit(gs, date, entry);
    InsertBetween(Own(gs, date), Groups(Later(gs, date)), Item(entry));
    var at := InsertAt(Render(gs), date).value;
    if !Refinable(gs, date) {
      GapPoint(Render(gs), date);
      InsertEarlier(Render(gs), at, |Own(gs, date)|, Item(entry));
    }
  }

  /** A title that ends in tomorrow's heading takes tomorrow's entries into today's group. */
  lemma MimicMisplaces(today: string, tomorrow: string, entry: string)
    requires GoodDate(today) && GoodDate(tomorrow) && today != tomorrow
    ensures var gs := [Group(today, ["## " + tomorrow])];
            Appended(Render(gs), tomorrow, entry) != Render(Add(gs, tomorrow, entry))
  {
    var title := "## " + tomorrow;
    var gs := [Group(today, [title])];
    assert title + "\n" == Marker(tomorrow);
    FindIs(title + "\n", Marker(tomorrow), 0);
    assert AnyMimics([title], tomorrow);
    assert gs[0].entries == [title] && gs[0].date == today;
    AppendRefines(gs, tomorrow, entry);
  }

  // ---- whole runs ----

  /** An entry of one line that does not end like a heading. */
  predicate Tame(entry: string) {
    Free(entry, '\n') && !(|entry| >= 13 && entry[|entry| - 13..|entry| - 10] == "## ")
  }

  lemma MarkerEndsLine(entry: string, date: string, j: nat)
    requires Free(entry, '\n') && |date| == 10 && MatchesAt(entry + "\n", Marker(date), j)
    ensures |entry| == j + 13 && entry[j..j + 3] == "## "
  {
    var line, m := entry + "\n", Marker(date);
    MatchChar(line, m, j, 13);
    assert line[j..j + 14][..3] == m[..3] == "## ";
    assert line[j..j + 3] == entry[j..j + 3];
  }

  lemma TameEntry(entry: string, date: string)
    requires Tame(entry) && |date| == 10
    ensures !Mimics(entry, date) && !Breaks(entry)
  {
    var line, m := entry + "\n", Marker(date);
    forall j: nat ensures !MatchesAt(line, m, j) {
      if MatchesAt(line, m, j) { MarkerEndsLine(entry, date, j); }
    }
    FindIsNone(line, m);
    forall j: nat ensures !MatchesAt(entry, GAP, j) {
      if MatchesAt(entry, GAP, j) { MatchChar(entry, GAP, j, 0); }
    }
    FindIsNone(entry, GAP);
  }

  ghost predicate TameGroups(gs: seq<Group>) {
    forall g | g in gs :: GoodDate(g.date) && forall e | e in g.entries :: Tame(e)
  }

  lemma {:induction false} TameItems(es: seq<string>, date: string)
    requires |date| == 10 && forall e | e in es :: Tame(e)
    ensures !AnyMimics(es, date) && !AnyBreaks(es)
    decreases |es|
  {
    if es != [] {
      assert es[0] in es && forall e | e in es[1..] :: e in es;
      TameEntry(es[0], date);
      TameItems(es[1..], date);
    }
  }

  lemma {:induction false} TameIsRefinable(gs: seq<Group>, date: string)
    requires TameGroups(gs) && |date| == 10
    ensures Refinable(gs, date)
    decreases |gs|
  {
    if gs != [] {
      assert gs[0] in gs && forall g | g in gs[1..] :: g in gs;
      TameItems(gs[0].entries, date);
      if gs[0].date != date { TameIsRefinable(gs[1..], date); }
    }
  }

  lemma {:induction false} AddKeepsTame(gs: seq<Group>, date: string, entry: string)
    requires TameGroups(gs) && GoodDate(date) && Tame(entry)
    ensures TameGroups(Add(gs, date, entry))
    decreases |gs|
  {
    if gs != [] {
      assert gs[0] in gs && forall g | g in gs[1..] :: g in gs;
      if gs[0].date != date { AddKeepsTame(gs[1..], date, entry); }
    }
  }

  /** A line of the history: what was appended on which day. */
  datatype Event = Event(day: string, entry: string)

  predicate Logged(es: seq<Event>) { forall e | e in es :: GoodDate(e.day) && |e.day| == 10 && Tame(e.entry) }

  /** The text after a run of appends, starting with no file. */
  function TextAfter(es: seq<Event>): string {
    if es == [] then HEADER
    else Appended(TextAfter(es[..|es| - 1]), es[|es| - 1].day, es[|es| - 1].entry)
  }

  function LogAfter(es: seq<Event>): seq<Group> {
    if es == [] then [] else Add(LogAfter(es[..|es| - 1]), es[|es| - 1].day, es[|es| - 1].entry)
  }

  /** Over every run of tame entries, the file is the rendered log. */
  lemma {:induction false} RunRefines(es: seq<Event>)
    requires Logged(es)
    ensures TextAfter(es) == Render(LogAfter(es)) && TameGroups(LogAfter(es))
    decreases |es|
  {
    if es == [] {
      assert HEADER + "" == HEADER;
    } else {
      var init, last := es[..|es| - 1], es[|es| - 1];
      assert last in es && forall e | e in init :: e in es;
      RunRefines(init);
      TameIsRefinable(LogAfter(init), last.day);
      AppendRefines(LogAfter(init), last.day, last.entry);
      AddKeepsTame(LogAfter(init), last.day, last.entry);
    }
  }

  /** The entries of a run made on one day, in order. */
  function On(es: seq<Event>, day: string): seq<string> {
    if es == [] then []
    else On(es[..|es| - 1], day) + if es[|es| - 1].day == day then [es[|es| - 1].entry] else []
  }

  predicate Distinct(ds: seq<string>) { forall i, j | 0 <= i < j < |ds| :: ds[i] != ds[j] }

  /** Nothing is lost, reordered or put under another day, and no day has two headings. */
  lemma {:induction false} NothingLost(es: seq<Event>, day: string)
    ensures EntriesOf(LogAfter(es), day) == On(es, day) && Distinct(Dates(LogAfter(es)))
    decreases |es|
  {
    if es != [] {
      var init, last := es[..|es| - 1], es[|es| - 1];
      NothingLost(init, day);
      AddIsAppend(LogAfter(init), last.day, last.entry, day);
    }
  }

  // ---- the order of the days ----

  /** `iso_now()[..10]` */
  function Today(secs: nat): string
    requires secs < YEAR_10000
  {
    IsoWellFormed(secs);
    IsoOf(secs)[..10]
  }

  lemma IsoDay(t: string)
    requires |t| == 20 && IsIso8601(t)
    ensures |t[..10]| == 10 && GoodDate(t[..10])
  {
  }

  lemma TodayIsDate(secs: nat)
    requires secs < YEAR_10000
    ensures |Today(secs)| == 10 && GoodDate(Today(secs))
  {
    IsoWellFormed(secs);
    IsoDay(IsoOf(secs));
  }

  lemma {:induction false} PrefixOrder(a: string, b: string, n: nat)
    requires Less(a, b) && n <= |a| && n <= |b|
    ensures a[..n] == b[..n] || Less(a[..n], b[..n])
    decreases n
  {
    if n > 0 && a[0] == b[0] {
      PrefixOrder(a[1..], b[1..], n - 1);
      assert a[..n] == [a[0]] + a[1..][..n - 1] && b[..n] == [b[0]] + b[1..][..n - 1];
      if a[..n] != b[..n] {
        LessTail([a[0]], a[1..][..n - 1], b[1..][..n - 1]);
      }
    }
  }

  predicate NotAfter(a: string, b: string) { a == b || Less(a, b) }

  /** Later readings of the clock never give an earlier day. */
  lemma DaysOrdered(a: nat, b: nat)
    requires a <= b < YEAR_10000
    ensures NotAfter(Today(a), Today(b))
  {
    if a < b {
      IsoOrdered(a, b);
      IsoWellFormed(a);
      IsoWellFormed(b);
      PrefixOrder(IsoOf(a), IsoOf(b), 10);
    }
  }

  predicate InOrder(es: seq<Event>) { forall i, j | 0 <= i < j < |es| :: NotAfter(es[i].day, es[j].day) }

  predicate Ascending(ds: seq<string>) { forall i, j | 0 <= i < j < |ds| :: Less(ds[i], ds[j]) }

  lemma {:induction false} DatesNotAfter(es: seq<Event>, day: string)
    requires forall e | e in es :: NotAfter(e.day, day)
    ensures forall d | d in Dates(LogAfter(es)) :: NotAfter(d, day)
    decreases |es|
  {
    if es != [] {
      var init, last := es[..|es| - 1], es[|es| - 1];
      assert last in es && forall e | e in init :: e in es;
      DatesNotAfter(init, day);
      AddIsAppend(LogAfter(init), last.day, last.entry, "");
    }
  }

  /** While the clock does not run backwards the headings go from the oldest day down to the newest. */
  lemma {:induction false} NewestLast(es: seq<Event>)
    requires InOrder(es)
    ensures Ascending(Dates(LogAfter(es)))
    decreases |es|
  {
    if es != [] {
      var init, last := es[..|es| - 1], es[|es| - 1];
      NewestLast(init);
      forall e | e in init ensures NotAfter(e.day, last.day) {
        var i :| 0 <= i < |init| && init[i] == e;
        assert es[i] == e;
      }
      DatesNotAfter(init, last.day);
      AddIsAppend(LogAfter(init), last.day, last.entry, "");
      AscendingPlus(Dates(LogAfter(init)), last.day);
    }
  }

  lemma AscendingPlus(ds: seq<string>, day: string)
    requires Ascending(ds) && forall d | d in ds :: NotAfter(d, day)
    ensures day !in ds ==> Ascending(ds + [day])
  {
    assert forall k | 0 <= k < |ds| :: ds[k] in ds && (ds + [day])[k] == ds[k];
  }

  // ---- logs kept by a clock ----

  /** The clock at an append, and the entry. */
  datatype Reading = Reading(secs: nat, entry: string)

  predicate Readable(rs: seq<Reading>) { forall i | 0 <= i < |rs| :: rs[i].secs < YEAR_10000 && Tame(rs[i].entry) }

  predicate Forward(rs: seq<Reading>) { forall i, j | 0 <= i < j < |rs| :: rs[i].secs <= rs[j].secs }

  function Events(rs: seq<Reading>): (es: seq<Event>)
    requires Readable(rs)
    ensures |es| == |rs| && forall i | 0 <= i < |rs| :: es[i] == Event(Today(rs[i].secs), rs[i].entry)
  {
    seq(|rs|, i requires 0 <= i < |rs| => Event(Today(rs[i].secs), rs[i].entry))
  }

  lemma EventsFit(rs: seq<Reading>)
    requires Readable(rs)
    ensures Logged(Events(rs)) && (Forward(rs) ==> InOrder(Events(rs)))
  {
    var es := Events(rs);
    forall e | e in es ensures GoodDate(e.day) && |e.day| == 10 && Tame(e.entry) {
      var i :| 0 <= i < |es| && es[i] == e;
      TodayIsDate(rs[i].secs);
    }
    if Forward(rs) {
      forall i, j | 0 <= i < j < |es| ensures NotAfter(es[i].day, es[j].day) { DaysOrdered(rs[i].secs, rs[j].secs); }
    }
  }

  /**
   * Over every run of appends up to the year 9999, of one-line entries that do not end like a heading: the file
   * is the rendered log, each day has one heading with exactly that day's entries in order under it, and while
   * the clock does not run backwards the headings go from the oldest day down to the newest.
   */
  lemma ClockedLog(rs: seq<Reading>, day: string)
    requires Readable(rs)
    ensures var es := Events(rs); var log := LogAfter(es);
            && TextAfter(es) == Render(log) && EntriesOf(log, day) == On(es, day) && Distinct(Dates(log))
            && (Forward(rs) ==> Ascending(Dates(log)))
  {
    EventsFit(rs);
    RunRefines(Events(rs));
    NothingLost(Events(rs), day);
    if Forward(rs) { NewestLast(Events(rs)); }
  }
}
