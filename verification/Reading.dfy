/** A reader of the report's text that knows nothing of how it is written: it follows
    lines, list items, headings and finding markers (what controls and findingMarkers
    get from the Markdown parser, internal/markdown/codec.go). It shows what a written
    report says to the next run, and for which titles it says it. */
module Reading {
  import opened Domain
  import opened Text
  import opened ReportCodec
  import opened ReportText
  import opened Rendering
  import opened Markers
  import opened Lines
  import opened ItemBody

  // ----- The reader -----

  datatype Heads = Heads(category: string, subcategory: string)

  datatype Item = Item(control: Control, title: string, heads: Heads, below: Below)

  /** From the start of a line: whether a blank line comes and then text that is not
      indented to the item's content, which ends a list item (sections 2.1 and 5.2
      of the CommonMark specification, version 0.31). */
  predicate Leaves(t: string, column: nat, blank: bool) {
    |t| > 0 &&
    if t[0] == '\n' then Leaves(t[1..], 0, true)
    else if t[0] == ' ' then Leaves(t[1..], column + 1, blank)
    else if t[0] == '\t' then Leaves(t[1..], column + 4, blank)
    else if t[0] == '\r' then Leaves(t[1..], column, blank)
    else blank && column < 2
  }

  // The id in a finding marker that starts here.
  function MarkerAt(c: Codings, t: string): Option<FindingId> {
    if !(FINDING_PREFIX <= t) then None
    else
      var inner := t[|FINDING_PREFIX|..];
      var end := IndexOf(inner, CLOSE);
      if end.None? then None
      else
        var id := c.unbase64(inner[..end.value]);
        if id == Some("") then None else id
  }

  // What stands behind a finding marker that starts here.
  function AfterMarker(t: string): string {
    if |t| < |FINDING_PREFIX| then ""
    else
      var after := Behind(t[|FINDING_PREFIX|..], CLOSE);
      if after.None? then "" else after.value
  }

  // A task box, if the item starts with one.
  function ControlOf(shown: string, id: FindingId): Control {
    if "[ ] " <= shown then Control(id, true, false)
    else if "[x] " <= shown || "[X] " <= shown then Control(id, true, true)
    else Control(id, false, false)
  }

  // The text between the first two stars and the last two.
  function TitleOf(shown: string): string {
    var stars := IndexOf(shown, "**");
    if stars.None? || |shown| < stars.value + 5 then "" else Unescape(shown[stars.value + 2..|shown| - 3])
  }

  function Grown(item: Option<string>, x: char): Option<string> {
    if item.None? then None else Some(item.value + [x])
  }

  /** The items that carry a finding marker, under the headings they stand below.
      `item` is what has been read of the list item that is open. */
  function ReadItems(c: Codings, t: string, start: bool, item: Option<string>, h: Heads): seq<Item>
    decreases |t|, if item.Some? then 1 else 0
  {
    if |t| == 0 then []
    else if start && item.Some? && Leaves(t, 0, false) then ReadItems(c, t, start, None, h)
    else if start && "- " <= t then ReadItems(c, t[2..], false, Some(""), h)
    else if start && "### " <= t then ReadItems(c, t[4..], false, None, Heads(LineOf(t[4..]), ""))
    else if start && "#### " <= t then ReadItems(c, t[5..], false, None, Heads(h.category, LineOf(t[5..])))
    else
      var id := if item.None? then None else MarkerAt(c, t);
      if id.None? then ReadItems(c, t[1..], t[0] == '\n', Grown(item, t[0]), h)
      else
        [Item(ControlOf(item.value, id.value), TitleOf(item.value), h, ReadBelow(AfterMarker(t)))] +
        ReadItems(c, t[1..], t[0] == '\n', None, h)
  }

  function ReadReport(c: Codings, t: string): seq<Item> {
    ReadItems(c, t, true, None, Heads("", ""))
  }

  function ControlsIn(items: seq<Item>): (cs: seq<Control>)
    ensures |cs| == |items| && forall i :: 0 <= i < |cs| ==> cs[i] == items[i].control
  {
    seq(|items|, i requires 0 <= i < |items| => items[i].control)
  }

  // ----- Text that says nothing to the reader -----

  // One character that starts neither an item nor a heading nor a marker.
  lemma SkipOne(c: Codings, t: string, start: bool, item: Option<string>, h: Heads)
    requires |t| > 0 && (start ==> OpensNothing(t[0]))
    requires item.Some? ==> t[0] != '<' && !(start && Leaves(t, 0, false))
    ensures ReadItems(c, t, start, item, h) == ReadItems(c, t[1..], t[0] == '\n', Grown(item, t[0]), h)
  {
    assert "- "[0] == '-' && "### "[0] == '#' && "#### "[0] == '#';
    if item.Some? { NoMarker(c, t); }
  }

  lemma {:induction false} SkipCalm(c: Codings, s: string, rest: string, start: bool, h: Heads)
    requires CalmFrom(s, start)
    ensures ReadItems(c, s + rest, start, None, h) == ReadItems(c, rest, EndsLine(s, start), None, h)
  {
    if |s| == 0 {
      assert s + rest == rest;
    } else {
      CalmTail(s, start);
      assert (s + rest)[0] == s[0] && (s + rest)[1..] == s[1..] + rest;
      assert LineStart(s, 0, start) == start;
      SkipOne(c, s + rest, start, None, h);
      SkipCalm(c, s[1..], rest, s[0] == '\n', h);
    }
  }

  // A heading of the second level is no group's heading.
  lemma SkipSecondLevel(c: Codings, s: string, rest: string, h: Heads)
    requires CalmFrom(s, false) && EndsLine(s, false)
    ensures ReadItems(c, "## " + s + rest, true, None, h) == ReadItems(c, rest, true, None, h)
  {
    hide CalmFrom, LineOf, Leaves, MarkerAt, ControlOf, TitleOf;
    var t := "## " + s + rest;
    SkipCalm(c, s, rest, false, h);
    assert t[1..] == "# " + (s + rest) && t[1..][1..] == " " + (s + rest) && t[1..][1..][1..] == s + rest;
    assert t[0] == '#' && t[1] == '#' && t[2] == ' ';
    assert ReadItems(c, t, true, None, h) == ReadItems(c, t[1..], false, None, h);
    assert ReadItems(c, t[1..], false, None, h) == ReadItems(c, t[1..][1..], false, None, h);
    assert ReadItems(c, t[1..][1..], false, None, h) == ReadItems(c, s + rest, false, None, h);
  }

  // ----- Text of an open item -----

  // No line that starts within `s` ends the item.
  predicate Stays(s: string, rest: string, start: bool) {
    |s| == 0 || ((start ==> !Leaves(s + rest, 0, false)) && Stays(s[1..], rest, s[0] == '\n'))
  }

  lemma {:induction false} SkipInItem(c: Codings, s: string, rest: string, start: bool, shown: string, h: Heads)
    requires CalmFrom(s, start) && Free(s, '<')
    ensures ReadItems(c, s + rest, start, Some(shown), h) ==
      ReadItems(c, rest, EndsLine(s, start), if Stays(s, rest, start) then Some(shown + s) else None, h)
    decreases |s|
  {
    if |s| == 0 {
      assert s + rest == rest && shown + s == shown;
    } else if start && Leaves(s + rest, 0, false) {
      SkipCalm(c, s, rest, start, h);
    } else {
      CalmTail(s, start);
      var t := s + rest;
      assert t[0] == s[0] && t[1..] == s[1..] + rest;
      assert s[0] in s && s == [s[0]] + s[1..];
      assert LineStart(s, 0, start) == start;
      SkipOne(c, t, start, Some(shown), h);
      SkipInItem(c, s[1..], rest, s[0] == '\n', shown + [s[0]], h);
      assert shown + [s[0]] + s[1..] == shown + s;
    }
  }

  lemma NoMarker(c: Codings, t: string)
    requires |t| > 0 && t[0] != '<'
    ensures MarkerAt(c, t) == None
  {
  }

  // ----- What splits a title -----

  /** A line break of the title is followed by a blank line and then by text that is
      not indented, so the item ends before its marker. */
  predicate Splits(s: string, start: bool) {
    |s| > 0 && ((start && Leaves(s + "** ", 0, false)) || Splits(s[1..], s[0] == '\n'))
  }

  lemma {:induction false} LeavesEarly(s: string, rest: string, column: nat, blank: bool)
    requires |s| > 0 && s[|s| - 1] == '*'
    ensures Leaves(s + rest, column, blank) == Leaves(s, column, blank)
    decreases |s|
  {
    var t := s + rest;
    assert t[0] == s[0] && t[1..] == s[1..] + rest;
    if s[0] == '\n' || s[0] == ' ' || s[0] == '\t' || s[0] == '\r' {
      var tail := s[1..];
      if s[0] == '\n' { LeavesEarly(tail, rest, 0, true); }
      else if s[0] == ' ' { LeavesEarly(tail, rest, column + 1, blank); }
      else if s[0] == '\t' { LeavesEarly(tail, rest, column + 4, blank); }
      else { LeavesEarly(tail, rest, column, blank); }
    }
  }

  function ColumnAfter(x: char, column: nat): nat {
    if x == '\n' then 0 else if x == ' ' then column + 1 else if x == '\t' then column + 4 else column
  }

  lemma LeavesStep(x: char, t: string, column: nat, blank: bool)
    ensures Leaves([x] + t, column, blank) ==
      if x == '\n' || x == ' ' || x == '\t' || x == '\r' then Leaves(t, ColumnAfter(x, column), blank || x == '\n')
      else blank && column < 2
  {
    assert ([x] + t)[1..] == t;
  }

  // Escaping moves no blank line.
  lemma {:induction false} LeavesEscaped(s: string, guard: bool, tail: string, column: nat, blank: bool)
    ensures Leaves(GuardLines(EscapedAll(s), guard) + tail, column, blank) == Leaves(s + tail, column, blank)
    decreases |s|
  {
    hide Escaped, Leaves;
    if |s| == 0 {
      assert GuardLines(EscapedAll(s), guard) == "" == s;
    } else {
      var x, rest, behind := s[0], EscapedAll(s[1..]), s[1..] + tail;
      assert s + tail == [x] + behind;
      LeavesStep(x, behind, column, blank);
      if x == '\n' || x == ' ' || x == '\t' || x == '/' {
        var next := x == '\n' || (guard && (x == ' ' || x == '\t'));
        BlankEscaped(x);
        GuardOne(x, rest, guard);
        LeavesEscaped(s[1..], next, tail, ColumnAfter(x, column), blank || x == '\n');
        var piece := if guard && x == '/' then "\\/" else [x];
        LeavesPiece(piece, GuardLines(rest, next), tail, column, blank);
      } else {
        StartEscaped(x);
        PlainStart(x);
        GuardPiece(Escaped(x), rest, guard);
        LeavesEscaped(s[1..], false, tail, ColumnAfter(x, column), blank);
        LeavesPiece(Escaped(x), GuardLines(rest, false), tail, column, blank);
      }
    }
  }

  // A piece of escaped text: its first character decides, or is all of it.
  lemma LeavesPiece(piece: string, shown: string, tail: string, column: nat, blank: bool)
    requires |piece| > 0
    requires piece[0] == '\n' || piece[0] == ' ' || piece[0] == '\t' || piece[0] == '\r' ==> |piece| == 1
    ensures Leaves(piece + shown + tail, column, blank) ==
      if piece[0] == '\n' || piece[0] == ' ' || piece[0] == '\t' || piece[0] == '\r'
      then Leaves(shown + tail, ColumnAfter(piece[0], column), blank || piece[0] == '\n') else blank && column < 2
  {
    hide Leaves;
    assert piece + shown + tail == [piece[0]] + (piece[1..] + shown + tail);
    LeavesStep(piece[0], piece[1..] + shown + tail, column, blank);
    if |piece| == 1 { assert piece[1..] + shown + tail == shown + tail; }
  }

  lemma StartEscaped(x: char)
    requires x != '\n' && x != ' ' && x != '\t' && x != '/'
    ensures |Escaped(x)| > 0 && (x == '\r' ==> Escaped(x) == [x])
    ensures x != '\r' ==> var y := Escaped(x)[0]; y != '\n' && y != ' ' && y != '\t' && y != '\r'
  {
  }

  lemma {:induction false} StaysPiece(piece: string, x: string, rest: string)
    requires Free(piece, '\n')
    ensures Stays(piece + x, rest, false) == Stays(x, rest, false)
  {
    if |piece| == 0 {
      assert piece + x == x;
    } else {
      assert piece == [piece[0]] + piece[1..] && piece[0] in piece;
      assert (piece + x)[0] == piece[0] && (piece + x)[1..] == piece[1..] + x;
      StaysPiece(piece[1..], x, rest);
    }
  }

  // The rest of a line behind its first character breaks no further line.
  lemma StaysLine(piece: string, x: string, rest: string, start: bool)
    requires |piece| > 0 && Free(piece, '\n') && (start ==> !Leaves(piece + x + rest, 0, false))
    ensures Stays(piece + x, rest, start) == Stays(x, rest, false)
  {
    StaysPiece(piece, x, rest);
  }

  lemma LeavesShown(s: string, guard: bool, rest: string)
    ensures Leaves(GuardLines(EscapedAll(s), guard) + "** " + rest, 0, false) == Leaves(s + "** ", 0, false)
  {
    var t := GuardLines(EscapedAll(s), guard);
    assert t + "** " + rest == (t + "**") + (" " + rest);
    assert (t + "**")[|t| + 1] == '*' && (s + "**")[|s| + 1] == '*';
    LeavesEarly(t + "**", " " + rest, 0, false);
    LeavesEscaped(s, guard, "**", 0, false);
    assert s + "** " == (s + "**") + " ";
    LeavesEarly(s + "**", " ", 0, false);
  }

  /** A title keeps its item open exactly when no blank line splits it. */
  lemma {:induction false} StaysEscaped(s: string, guard: bool, rest: string, start: bool)
    ensures Stays(GuardLines(EscapedAll(s), guard) + "** ", rest, start) == !Splits(s, start)
    decreases |s|
  {
    var t := GuardLines(EscapedAll(s), guard) + "** ";
    LeavesShown(s, guard, rest);
    assert t + rest == GuardLines(EscapedAll(s), guard) + "** " + rest;
    if |s| == 0 {
      assert t == "** ";
      ClosingStays(rest, start);
    } else if !(start && Leaves(s + "** ", 0, false)) {
      var x, tail := s[0], EscapedAll(s[1..]);
      if x == '\n' || x == ' ' || x == '\t' || x == '/' {
        var next := x == '\n' || (guard && (x == ' ' || x == '\t'));
        BlankEscaped(x);
        GuardOne(x, tail, guard);
        StaysEscaped(s[1..], next, rest, x == '\n');
        if guard && x == '/' {
          assert t == ['\\', x] + (GuardLines(tail, next) + "** ");
          StaysLine(['\\', x], GuardLines(tail, next) + "** ", rest, start);
        } else {
          assert t == [x] + (GuardLines(tail, next) + "** ");
          assert t[1..] == GuardLines(tail, next) + "** ";
        }
      } else {
        PlainStart(x);
        GuardPiece(Escaped(x), tail, guard);
        StaysEscaped(s[1..], false, rest, false);
        assert t == Escaped(x) + (GuardLines(tail, false) + "** ");
        StaysLine(Escaped(x), GuardLines(tail, false) + "** ", rest, start);
      }
    }
  }

  lemma ClosingStays(rest: string, start: bool)
    ensures Stays("** ", rest, start)
  {
    assert "** " + "" == "** " && ("** " + rest)[0] == '*';
    StaysLine("** ", "", rest, start);
  }

  // ----- One finding -----

  /** Whether the item of a finding lasts until its marker: its title is withheld, or
      no blank line splits it. */
  predicate Kept(c: Codings, f: Finding) {
    c.inert(f.title) ==> !Splits(f.title, false)
  }

  // What a reader is to learn about a finding: its box, its title, its group, and what is said of it.
  function ItemOf(c: Codings, f: Finding): Item {
    Item(RenderedControl(f), Said(c, f.title), Heads(CategoryLabel(f.category), SubcategoryLabel(f.subcategory)),
         BelowOf(c, f))
  }

  // What the list item shows before the marker.
  function Shown(c: Codings, f: Finding): string {
    BoxText(f, f.state)[2..] + "**" + Prose(c, f.title) + "** "
  }

  lemma MarkerRead(c: Codings, id: FindingId, rest: string)
    requires Lawful(c) && id != ""
    ensures MarkerAt(c, FindingMarker(c, id) + rest) == Some(id)
    ensures AfterMarker(FindingMarker(c, id) + rest) == rest
  {
    assert LawfulBase64(c, id);
    hide Lawful, IndexOf;
    var t, code := FindingMarker(c, id) + rest, c.base64(id);
    Base64Free(code, ' ');
    assert t == FINDING_PREFIX + (code + (CLOSE + rest));
    assert t[|FINDING_PREFIX|..] == code + (CLOSE + rest);
    FirstAt(code, CLOSE + rest, CLOSE);
    BehindFirst(code, CLOSE, rest);
    assert (code + (CLOSE + rest))[..|code|] == code;
  }

  lemma BoxRead(f: Finding, x: string)
    requires ValidFinding(f)
    ensures var mark := BoxText(f, f.state)[2..];
      && BoxText(f, f.state) == "- " + mark
      && Free(mark, '*') && Free(mark, '<') && Free(mark, '\n') && mark != "" && OpensNothing(mark[0])
      && ControlOf(mark + x, f.id) == RenderedControl(f)
  {
    var mark := BoxText(f, f.state)[2..];
    if f.state == Open {
      assert mark == "[ ] ";
    } else if IsAI(f.ack) {
      assert mark == "✅ ";
      assert (mark + x)[0] == '✅';
    } else {
      assert mark == "[x] ";
      assert (mark + x)[1] == 'x';
    }
  }

  lemma TitleRead(c: Codings, f: Finding)
    requires ValidFinding(f)
    ensures TitleOf(Shown(c, f)) == Said(c, f.title)
  {
    var mark, prose := BoxText(f, f.state)[2..], Prose(c, f.title);
    BoxRead(f, "");
    hide BoxText, Prose, IndexOf, Unescape;
    var t := "**" + prose + "** ";
    assert Shown(c, f) == mark + t;
    FirstAt(mark, t, "**");
    assert (mark + t)[|mark| + 2..|mark + t| - 3] == prose;
    ProseRead(c, f.title);
  }

  // The item lasts through its box and its title.
  lemma ShownStays(c: Codings, f: Finding, rest: string)
    requires ValidFinding(f)
    ensures Stays(Shown(c, f), rest, false) == Kept(c, f)
  {
    var mark, prose := BoxText(f, f.state)[2..], Prose(c, f.title);
    BoxRead(f, "");
    hide BoxText, Stays, Splits;
    var opening := mark + "**";
    assert Free(opening, '\n');
    assert Shown(c, f) == opening + (prose + "** ");
    StaysPiece(opening, prose + "** ", rest);
    if c.inert(f.title) {
      StagesArePerCharacter(f.title);
      StaysEscaped(f.title, true, rest, false);
    } else {
      OmittedLine();
      StaysPiece(OMITTED, "** ", rest);
      ClosingStays(rest, false);
    }
  }

  lemma ShownCalm(c: Codings, f: Finding)
    requires ValidFinding(f)
    ensures Calm(Shown(c, f)) && CalmFrom(Shown(c, f), false) && Free(Shown(c, f), '<') && !EndsLine(Shown(c, f), false)
  {
    var mark, prose := BoxText(f, f.state)[2..], Prose(c, f.title);
    BoxRead(f, "");
    ProseCalm(c, f.title);
    ProsePlain(c, f.title);
    hide BoxText, Prose;
    CalmLine(mark + "**");
    CalmBoth(mark + "**", prose);
    CalmLine("** ");
    CalmBoth(mark + "**" + prose, "** ");
  }

  // Behind the marker a finding says nothing more to the reader.
  lemma TailRead(c: Codings, f: Finding, rest: string, h: Heads)
    requires Lawful(c) && f.id != ""
    ensures var m := FindingMarker(c, f.id);
      ReadItems(c, m[1..] + (Details(c, f) + "\n" + rest), false, None, h) == ReadItems(c, rest, true, None, h)
    ensures var m := FindingMarker(c, f.id);
      ReadItems(c, m + (Details(c, f) + "\n" + rest), false, None, h) == ReadItems(c, rest, true, None, h)
  {
    var m, tail := FindingMarker(c, f.id), Details(c, f) + "\n";
    MarkerLine(c, f.id);
    DetailsCalm(c, f);
    hide FindingMarker, Details, Lawful;
    SkipCalm(c, m[1..], tail + rest, false, h);
    SkipCalm(c, m, tail + rest, false, h);
    SkipCalm(c, tail, rest, false, h);
  }

  lemma MarkerLine(c: Codings, id: FindingId)
    requires Lawful(c) && id != ""
    ensures var m := FindingMarker(c, id); |m| > 1 && m[0] == '<' && Free(m, '\n')
    ensures var m := FindingMarker(c, id);
      CalmFrom(m, false) && CalmFrom(m[1..], false) && !EndsLine(m, false) && !EndsLine(m[1..], false)
  {
    assert LawfulBase64(c, id);
    Base64Free(c.base64(id), '\n');
    var m := FindingMarker(c, id);
    assert Free(FINDING_PREFIX, '\n') && Free(CLOSE, '\n');
    hide Lawful, FindingMarker;
    assert forall i :: 0 <= i < |m| ==> m[i] in m;
  }

  /** A finding tells the reader its box, its title and its group, or nothing if a
      blank line splits its title. */
  lemma FindingRead(c: Codings, f: Finding, rest: string, h: Heads)
    requires Lawful(c) && ValidFinding(f) && Silent(rest)
    ensures ReadItems(c, FindingText(c, f, f.state) + rest, true, None, h) ==
      (if Kept(c, f) then [Item(RenderedControl(f), Said(c, f.title), h, BelowOf(c, f))] else []) +
      ReadItems(c, rest, true, None, h)
  {
    hide BoxText, Details, Lawful, FindingMarker, MarkerAt, ControlOf, TitleOf, Kept, FindingText, RenderedControl;
    hide ReadItems, Shown, Stays, Leaves, Said, CalmFrom, ReadBelow, BelowOf, Silent, AfterMarker;
    var m, tail := FindingMarker(c, f.id), Details(c, f) + "\n" + rest;
    var t := FindingText(c, f, f.state) + rest;
    FindingLayout(c, f, rest);
    assert t[2..] == Shown(c, f) + (m + tail);
    ItemOpens(c, t, h);
    ShownCalm(c, f);
    ShownStays(c, f, m + tail);
    SkipInItem(c, Shown(c, f), m + tail, false, "", h);
    assert "" + Shown(c, f) == Shown(c, f);
    TailRead(c, f, rest, h);
    if Kept(c, f) {
      MarkerLine(c, f.id);
      MarkerRead(c, f.id, tail);
      TitleRead(c, f);
      ShownControl(c, f);
      MarkerShows(c, m, tail, Shown(c, f), f.id, h);
      BelowRead(c, f, rest);
    } else {
      assert [] + ReadItems(c, rest, true, None, h) == ReadItems(c, rest, true, None, h);
    }
  }

  lemma FindingLayout(c: Codings, f: Finding, rest: string)
    requires ValidFinding(f)
    ensures FindingText(c, f, f.state) + rest ==
      "- " + (Shown(c, f) + (FindingMarker(c, f.id) + (Details(c, f) + "\n" + rest)))
  {
    BoxOpens(f);
    hide BoxText, Prose, Details, FindingMarker, ValidFinding;
    Layout(BoxText(f, f.state), BoxText(f, f.state)[2..], Prose(c, f.title), FindingMarker(c, f.id), Details(c, f),
           rest);
  }

  lemma BoxOpens(f: Finding)
    ensures |BoxText(f, f.state)| > 2 && BoxText(f, f.state) == "- " + BoxText(f, f.state)[2..]
  {
  }

  lemma ShownControl(c: Codings, f: Finding)
    requires ValidFinding(f)
    ensures ControlOf(Shown(c, f), f.id) == RenderedControl(f)
  {
    var tail := "**" + Prose(c, f.title) + "** ";
    BoxRead(f, tail);
    hide BoxText, Prose, ControlOf, ValidFinding, RenderedControl;
    assert Shown(c, f) == BoxText(f, f.state)[2..] + tail;
  }

  lemma Layout(box: string, mark: string, prose: string, m: string, details: string, rest: string)
    requires box == "- " + mark
    ensures box + "**" + prose + "** " + (m + (details + "\n")) + rest ==
      "- " + (mark + "**" + prose + "** " + (m + (details + "\n" + rest)))
  {
    var line := mark + "**" + prose + "** ";
    assert box + "**" + prose + "** " == "- " + line;
    assert m + (details + "\n") + rest == m + (details + "\n" + rest);
    assert "- " + line + (m + (details + "\n")) + rest == "- " + (line + (m + (details + "\n") + rest));
  }

  lemma ItemOpens(c: Codings, t: string, h: Heads)
    requires "- " <= t
    ensures ReadItems(c, t, true, None, h) == ReadItems(c, t[2..], false, Some(""), h)
  {
  }

  lemma MarkerShows(c: Codings, m: string, tail: string, shown: string, id: FindingId, h: Heads)
    requires |m| > 0 && m[0] == '<' && MarkerAt(c, m + tail) == Some(id)
    ensures ReadItems(c, m + tail, false, Some(shown), h) ==
      [Item(ControlOf(shown, id), TitleOf(shown), h, ReadBelow(AfterMarker(m + tail)))] +
      ReadItems(c, m[1..] + tail, false, None, h)
  {
    assert (m + tail)[0] == '<' && (m + tail)[1..] == m[1..] + tail;
  }

  // ----- Groups -----

  lemma ItemIsSilent(c: Codings, f: Finding, st: FindingState, rest: string)
    ensures Silent(FindingText(c, f, st) + rest)
  {
    assert BoxText(f, st)[0] == '-';
    assert (FindingText(c, f, st) + rest)[0] == '-';
    SilentEnd(FindingText(c, f, st) + rest);
  }

  lemma HeadingIsSilent(mark: string, named: string, list: string, rest: string)
    requires mark != "" && mark[0] == '#'
    ensures Silent(mark + named + list + rest)
  {
    SilentEnd(mark + named + list + rest);
  }

  // What the reader learns from a list of findings.
  function Items(c: Codings, fs: seq<Finding>): seq<Item> {
    if |fs| == 0 then []
    else Items(c, fs[..|fs| - 1]) + if Kept(c, fs[|fs| - 1]) then [ItemOf(c, fs[|fs| - 1])] else []
  }

  lemma {:induction false} ItemsJoin(c: Codings, a: seq<Finding>, b: seq<Finding>)
    ensures Items(c, a + b) == Items(c, a) + Items(c, b)
  {
    if |b| == 0 {
      assert a + b == a;
    } else {
      assert (a + b)[..|a + b| - 1] == a + b[..|b| - 1];
      ItemsJoin(c, a, b[..|b| - 1]);
    }
  }

  predicate AllValid(fs: seq<Finding>) {
    forall i :: 0 <= i < |fs| ==> ValidFinding(fs[i])
  }

  predicate Grouped(fs: seq<Finding>, st: FindingState, cat: Category, sub: Subcategory) {
    forall i :: 0 <= i < |fs| ==> ValidFinding(fs[i]) && InGroup(fs[i], st, cat, sub)
  }

  lemma {:induction false} SelectGrouped(fs: seq<Finding>, st: FindingState, cat: Category, sub: Subcategory)
    requires AllValid(fs)
    ensures Grouped(Select(fs, st, cat, sub), st, cat, sub)
  {
    if |fs| > 0 { SelectGrouped(fs[..|fs| - 1], st, cat, sub); }
  }

  lemma {:induction false} ListRead(c: Codings, fs: seq<Finding>, st: FindingState, cat: Category, sub: Subcategory,
                                    rest: string)
    requires Lawful(c) && Grouped(fs, st, cat, sub) && Silent(rest)
    ensures var h := Heads(CategoryLabel(cat), SubcategoryLabel(sub));
      ReadItems(c, Join(ListPieces(c, fs, st)) + rest, true, None, h) ==
      Items(c, fs) + ReadItems(c, rest, true, None, h)
    decreases |fs|
  {
    hide Lawful, Join, FindingText, ReadItems, CategoryLabel, SubcategoryLabel, Kept, FindingPieces, RenderedControl;
    hide Said, BelowOf, Silent;
    var h := Heads(CategoryLabel(cat), SubcategoryLabel(sub));
    if |fs| == 0 {
      NothingWritten();
      assert "" + rest == rest && [] + ReadItems(c, rest, true, None, h) == ReadItems(c, rest, true, None, h);
    } else {
      var front, f := fs[..|fs| - 1], fs[|fs| - 1];
      assert fs == front + [f];
      ListStep(c, front, f, st);
      ItemIsSilent(c, f, st, rest);
      ListRead(c, front, st, cat, sub, FindingText(c, f, st) + rest);
      FindingRead(c, f, rest, h);
      assert Join(ListPieces(c, fs, st)) + rest == Join(ListPieces(c, front, st)) + (FindingText(c, f, st) + rest);
    }
  }

  lemma CategoryHeading(c: Codings, cat: Category, rest: string, h: Heads)
    ensures ReadItems(c, "### " + CategoryLabel(cat) + "\n\n" + rest, true, None, h) ==
      ReadItems(c, rest, true, None, Heads(CategoryLabel(cat), ""))
  {
    var named := CategoryLabel(cat);
    assert Free(named, '\n');
    hide CategoryLabel;
    var t := "### " + named + "\n\n" + rest;
    assert t[..4] == "### " && t[4..] == named + "\n" + ("\n" + rest) && t[4..] == named + "\n\n" + rest;
    LineRead(named, "\n" + rest);
    HeadingLine(named);
    SkipCalm(c, named + "\n\n", rest, false, Heads(named, ""));
    HeadingOpens(c, t, h);
  }

  lemma SubcategoryHeading(c: Codings, sub: Subcategory, rest: string, h: Heads)
    ensures ReadItems(c, "#### " + SubcategoryLabel(sub) + "\n\n" + rest, true, None, h) ==
      ReadItems(c, rest, true, None, Heads(h.category, SubcategoryLabel(sub)))
  {
    var named := SubcategoryLabel(sub);
    assert Free(named, '\n');
    hide SubcategoryLabel;
    var t := "#### " + named + "\n\n" + rest;
    assert t[..5] == "#### " && t[5..] == named + "\n" + ("\n" + rest) && t[5..] == named + "\n\n" + rest;
    LineRead(named, "\n" + rest);
    HeadingLine(named);
    SkipCalm(c, named + "\n\n", rest, false, Heads(h.category, named));
    HeadingOpens(c, t, h);
  }

  lemma HeadingLine(named: string)
    requires Free(named, '\n')
    ensures CalmFrom(named + "\n\n", false) && EndsLine(named + "\n\n", false)
  {
    forall i | 0 <= i < |named| ensures named[i] != '\n' { assert named[i] in named; }
  }

  lemma HeadingOpens(c: Codings, t: string, h: Heads)
    ensures "### " <= t ==>
      ReadItems(c, t, true, None, h) == ReadItems(c, t[4..], false, None, Heads(LineOf(t[4..]), ""))
    ensures "#### " <= t ==>
      ReadItems(c, t, true, None, h) == ReadItems(c, t[5..], false, None, Heads(h.category, LineOf(t[5..])))
  {
    if "#### " <= t { assert t[3] == '#' && !("### " <= t) by { assert "### "[3] == ' ' && "#### "[3] == '#'; } }
    assert "- "[0] == '-' && "### "[0] == '#' && "#### "[0] == '#';
  }

  lemma Associated(a: seq<Item>, b: seq<Item>, d: seq<Item>)
    ensures a + b + d == a + (b + d)
  {
  }

  lemma {:induction false} SubcategoriesRead(c: Codings, fs: seq<Finding>, st: FindingState, cat: Category,
                                             subs: seq<Subcategory>, rest: string, h: Heads)
    returns (k: Heads)
    requires Lawful(c) && AllValid(fs) && h.category == CategoryLabel(cat) && Silent(rest)
    ensures k.category == h.category
    ensures ReadItems(c, Join(SubcategoryPieces(c, fs, st, cat, subs)) + rest, true, None, h) ==
      Items(c, InSubcategories(fs, st, cat, subs)) + ReadItems(c, rest, true, None, k)
    decreases |subs|
  {
    hide Lawful, Join, ReadItems, CategoryLabel, SubcategoryLabel, ListPieces, Select, AllValid, Grouped, Silent;
    if |subs| == 0 {
      NothingWritten();
      assert "" + rest == rest && [] + ReadItems(c, rest, true, None, h) == ReadItems(c, rest, true, None, h);
      k := h;
    } else {
      var n := |subs| - 1;
      var front, sub := subs[..n], subs[n];
      var group := Select(fs, st, cat, sub);
      SubcategoryStep(c, fs, st, cat, subs, n);
      assert subs[..n + 1] == subs;
      ItemsJoin(c, InSubcategories(fs, st, cat, front), group);
      var before := Join(SubcategoryPieces(c, fs, st, cat, front));
      if group == [] {
        k := SubcategoriesRead(c, fs, st, cat, front, rest, h);
        assert before + "" == before;
        assert InSubcategories(fs, st, cat, front) + [] == InSubcategories(fs, st, cat, front);
      } else {
        var heading, list := "#### " + SubcategoryLabel(sub) + "\n\n", Join(ListPieces(c, group, st));
        assert "#### " + (SubcategoryLabel(sub) + "\n\n") == heading;
        HeadingIsSilent("#### ", SubcategoryLabel(sub) + "\n\n", list, rest);
        var m := SubcategoriesRead(c, fs, st, cat, front, heading + list + rest, h);
        SubcategoryHeading(c, sub, list + rest, m);
        assert heading + list + rest == heading + (list + rest);
        assert before + (heading + list) + rest == before + (heading + list + rest);
        SelectGrouped(fs, st, cat, sub);
        ListRead(c, group, st, cat, sub, rest);
        k := Heads(h.category, SubcategoryLabel(sub));
        Associated(Items(c, InSubcategories(fs, st, cat, front)), Items(c, group), ReadItems(c, rest, true, None, k));
      }
    }
  }

  lemma {:induction false} CategoriesRead(c: Codings, fs: seq<Finding>, st: FindingState, cats: seq<Category>,
                                          subs: seq<Subcategory>, rest: string, h: Heads)
    returns (k: Heads)
    requires Lawful(c) && AllValid(fs) && Silent(rest)
    ensures ReadItems(c, Join(CategoryPieces(c, fs, st, cats, subs)) + rest, true, None, h) ==
      Items(c, InCategories(fs, st, cats, subs)) + ReadItems(c, rest, true, None, k)
    decreases |cats|
  {
    hide Lawful, Join, ReadItems, CategoryLabel, SubcategoryPieces, InSubcategories, AllValid, ContainsGroup, Silent;
    if |cats| == 0 {
      NothingWritten();
      assert "" + rest == rest && [] + ReadItems(c, rest, true, None, h) == ReadItems(c, rest, true, None, h);
      k := h;
    } else {
      var n := |cats| - 1;
      var front, cat := cats[..n], cats[n];
      CategoryStep(c, fs, st, cats, subs, n);
      assert cats[..n + 1] == cats;
      var before, these := InCategories(fs, st, front, subs), InSubcategories(fs, st, cat, subs);
      ItemsJoin(c, before, these);
      if !ContainsGroup(fs, st, cat) {
        k := CategoriesRead(c, fs, st, front, subs, rest, h);
        EmptyCategory(fs, st, cat, subs);
        assert before + [] == before;
        assert Join(CategoryPieces(c, fs, st, front, subs)) + "" == Join(CategoryPieces(c, fs, st, front, subs));
      } else {
        var heading := "### " + CategoryLabel(cat) + "\n\n";
        var groups := Join(SubcategoryPieces(c, fs, st, cat, subs));
        assert "### " + (CategoryLabel(cat) + "\n\n") == heading;
        HeadingIsSilent("### ", CategoryLabel(cat) + "\n\n", groups, rest);
        var m := CategoriesRead(c, fs, st, front, subs, heading + groups + rest, h);
        CategoryHeading(c, cat, groups + rest, m);
        assert heading + groups + rest == heading + (groups + rest);
        assert Join(CategoryPieces(c, fs, st, cats, subs)) + rest ==
          Join(CategoryPieces(c, fs, st, front, subs)) + (heading + groups + rest);
        k := SubcategoriesRead(c, fs, st, cat, subs, rest, Heads(CategoryLabel(cat), ""));
        Associated(Items(c, before), Items(c, these), ReadItems(c, rest, true, None, k));
      }
    }
  }

  // ----- The whole report -----

  lemma NotedLine()
    ensures Free(COVERAGE_NOTE, '\n') && COVERAGE_NOTE != "" && COVERAGE_NOTE[0] == 'C'
  {
    assert Free(NOTE_COUNTS, '\n') && Free(NOTE_WORK, '\n') && Free(NOTE_LIMITS, '\n');
    assert NOTE_COUNTS[0] == 'C';
    hide Free;
    ThreeLines(NOTE_COUNTS, NOTE_WORK, NOTE_LIMITS);
  }

  lemma ThreeLines(a: string, b: string, d: string)
    requires Free(a, '\n') && Free(b, '\n') && Free(d, '\n')
    ensures Free(a + (b + d), '\n') && Free(a + b + d, '\n')
  {
  }

  lemma DisclaimerLine()
    ensures Free(DISCLAIMER, '\n') && DISCLAIMER != "" && DISCLAIMER[0] == 'A'
  {
    var a, b := DISCLAIMER_SOURCE + DISCLAIMER_SUBJECT + DISCLAIMER_LIMITS,
                DISCLAIMER_VERDICT + DISCLAIMER_HUMAN + DISCLAIMER_CLAIM;
    DisclaimerFront();
    DisclaimerBack();
    ThreeLines(DISCLAIMER_SOURCE, DISCLAIMER_SUBJECT, DISCLAIMER_LIMITS);
    ThreeLines(DISCLAIMER_VERDICT, DISCLAIMER_HUMAN, DISCLAIMER_CLAIM);
    assert DISCLAIMER_SOURCE[0] == 'A';
    assert DISCLAIMER == a + b;
  }

  lemma DisclaimerFront()
    ensures Free(DISCLAIMER_SOURCE, '\n') && Free(DISCLAIMER_SUBJECT, '\n') && Free(DISCLAIMER_LIMITS, '\n')
  {
  }

  lemma DisclaimerBack()
    ensures Free(DISCLAIMER_VERDICT, '\n') && Free(DISCLAIMER_HUMAN, '\n') && Free(DISCLAIMER_CLAIM, '\n')
  {
  }

  lemma CoverageLine(runs: seq<Run>)
    ensures Free(CoverageLabel(runs), '\n')
  {
    hide Decimal, OutcomeCount;
    if |runs| > 0 {
      var items := runs[|runs| - 1].coverage;
      DigitsLine(OutcomeCount(items, Covered));
      DigitsLine(OutcomeCount(items, PartlyCovered));
      DigitsLine(OutcomeCount(items, Failed));
      DigitsLine(OutcomeCount(items, ExcludedByPolicy));
    }
  }

  lemma VerdictLine(v: Verdict)
    ensures Free(VerdictLabel(v), '\n')
  {
  }

  lemma FindingsCalm(fs: seq<Finding>)
    ensures Calm(FindingsLine(fs))
  {
    DigitsLine(StateCount(fs, Open));
    DigitsLine(StateCount(fs, Acknowledged));
    hide Decimal, StateCount;
    CalmParagraph("**Findings:** open " + Decimal(StateCount(fs, Open)) +
                  " · acknowledged " + Decimal(StateCount(fs, Acknowledged)));
  }

  lemma UnitsCalm(runs: seq<Run>)
    ensures Calm(UnitsLine(runs))
  {
    CoverageLine(runs);
    hide CoverageLabel;
    CalmParagraph("**Assigned review units:** " + CoverageLabel(runs));
  }

  // A heading of the second level over calm text.
  lemma SectionRead(c: Codings, section: string, rest: string, h: Heads)
    requires |section| > 3 && section[..3] == "## " && Calm(section[3..]) && EndsLine(section, false)
    ensures ReadItems(c, section + rest, true, None, h) == ReadItems(c, rest, true, None, h)
  {
    var s := section[3..];
    assert section == "## " + s && s[|s| - 1] == section[|section| - 1];
    assert CalmFrom(s, false) by { hide OpensNothing; }
    hide Calm, CalmFrom;
    SkipSecondLevel(c, s, rest, h);
  }

  lemma VerdictRead(c: Codings, v: Verdict, rest: string, h: Heads)
    ensures ReadItems(c, "## Verdict: " + VerdictLabel(v) + "\n\n" + rest, true, None, h) ==
      ReadItems(c, rest, true, None, h)
  {
    VerdictLine(v);
    hide VerdictLabel, ReadItems;
    var line := "## Verdict: " + VerdictLabel(v) + "\n\n";
    CalmParagraph("Verdict: " + VerdictLabel(v));
    assert line[3..] == "Verdict: " + VerdictLabel(v) + "\n\n";
    SectionRead(c, line, rest, h);
  }

  lemma StatsRead(c: Codings, s: State, rest: string, h: Heads)
    ensures var stats := "## Stats\n\n" + FindingsLine(s.findings) + UnitsLine(s.runs) + (COVERAGE_NOTE + "\n\n");
      ReadItems(c, stats + rest, true, None, h) == ReadItems(c, rest, true, None, h)
  {
    NotedLine();
    CalmParagraph(COVERAGE_NOTE);
    FindingsCalm(s.findings);
    UnitsCalm(s.runs);
    CalmParagraph("Stats");
    hide FindingsLine, UnitsLine, ReadItems, Calm;
    StatsJoined(c, FindingsLine(s.findings), UnitsLine(s.runs), COVERAGE_NOTE, rest, h);
  }

  lemma StatsJoined(c: Codings, found: string, units: string, noted: string, rest: string, h: Heads)
    requires Calm("Stats" + "\n\n") && Calm(found) && Calm(units) && Calm(noted + "\n\n")
    ensures ReadItems(c, "## Stats\n\n" + found + units + (noted + "\n\n") + rest, true, None, h) ==
      ReadItems(c, rest, true, None, h)
  {
    hide ReadItems, Calm;
    var all := "## Stats\n\n" + found + units + (noted + "\n\n");
    CalmBoth("Stats" + "\n\n", found);
    CalmBoth("Stats" + "\n\n" + found, units);
    CalmBoth("Stats" + "\n\n" + found + units, noted + "\n\n");
    assert "## Stats\n\n"[3..] == "Stats" + "\n\n";
    assert all[3..] == "Stats" + "\n\n" + found + units + (noted + "\n\n");
    SectionRead(c, all, rest, h);
  }

  lemma OpeningRead(c: Codings, s: State, rest: string, h: Heads)
    ensures ReadItems(c, Opening(s) + rest, true, None, h) == ReadItems(c, rest, true, None, h)
  {
    hide VerdictLabel, ShownVerdict, FindingsLine, UnitsLine, ReadItems;
    var verdict := "## Verdict: " + VerdictLabel(ShownVerdict(s)) + "\n\n";
    var stats := "## Stats\n\n" + FindingsLine(s.findings) + UnitsLine(s.runs) + (COVERAGE_NOTE + "\n\n");
    var open := "## Open\n\n";
    CalmParagraph("Open");
    assert open[3..] == "Open" + "\n\n";
    SectionRead(c, open, rest, h);
    StatsRead(c, s, open + rest, h);
    VerdictRead(c, ShownVerdict(s), stats + (open + rest), h);
    assert verdict + (stats + open) + rest == verdict + (stats + (open + rest));
  }

  lemma SectionsRead(c: Codings, fs: seq<Finding>, st: FindingState, rest: string, h: Heads) returns (k: Heads)
    requires Lawful(c) && AllValid(fs) && Silent(rest)
    ensures ReadItems(c, Join(SectionPieces(c, fs, st)) + rest, true, None, h) ==
      Items(c, InState(fs, st)) + ReadItems(c, rest, true, None, k)
  {
    hide Lawful, AllValid, CategoryPieces, InCategories, ReadItems, Items, Join, Silent;
    k := CategoriesRead(c, fs, st, CATEGORY_ORDER, SUBCATEGORY_ORDER, rest, h);
  }

  lemma OpenRead(c: Codings, fs: seq<Finding>, rest: string, h: Heads) returns (k: Heads)
    requires Lawful(c) && AllValid(fs) && Silent(rest)
    ensures ReadItems(c, Join(OpenPieces(c, fs)) + rest, true, None, h) ==
      Items(c, InState(fs, Open)) + ReadItems(c, rest, true, None, k)
  {
    hide Lawful, AllValid, CategoryPieces, InCategories, ReadItems, Join, Silent;
    if StateCount(fs, Open) == 0 {
      NoneInState(fs, Open, CATEGORY_ORDER, SUBCATEGORY_ORDER);
      var none := "No open findings.\n";
      JoinOne(none);
      CalmLine("No open findings.");
      assert "No open findings." + "\n" == none;
      SkipCalm(c, none, rest, true, h);
      k := h;
      assert [] + ReadItems(c, rest, true, None, k) == ReadItems(c, rest, true, None, k);
    } else {
      k := SectionsRead(c, fs, Open, rest, h);
    }
  }

  lemma DetailsOpen(n: nat)
    ensures var t := "\n" + ("<details>\n" + ("<summary>Acknowledged (" + Decimal(n) + ")" + "</summary>\n\n"));
      Calm(t) && EndsLine(t, true)
  {
    DigitsLine(n);
    hide Decimal;
    var summary := "<summary>Acknowledged (" + Decimal(n) + ")" + "</summary>";
    CalmParagraph(summary);
    assert summary + "\n\n" == "<summary>Acknowledged (" + Decimal(n) + ")" + "</summary>\n\n";
    CalmLine("<details>");
    assert "<details>" + "\n" == "<details>\n";
    CalmBoth("<details>\n", summary + "\n\n");
    CalmBoth("\n", "<details>\n" + (summary + "\n\n"));
  }

  lemma TagIsSilent(tag: string, rest: string)
    requires tag != "" && tag[0] == '<'
    ensures Silent(tag + rest)
  {
    SilentEnd(tag + rest);
  }

  lemma AcknowledgedIsSilent(c: Codings, fs: seq<Finding>, rest: string)
    requires Silent(rest)
    ensures Silent(Join(AcknowledgedPieces(c, fs)) + rest)
  {
    var n := StateCount(fs, Acknowledged);
    hide CategoryPieces, Join, Decimal, Silent;
    if n == 0 {
      NothingWritten();
      assert "" + rest == rest;
    } else {
      var summary := "<summary>Acknowledged (" + Decimal(n) + ")";
      var sections := Join(SectionPieces(c, fs, Acknowledged));
      JoinDetails(summary, SectionPieces(c, fs, Acknowledged), "</details>\n");
      DetailsAreSilent("<details>\n", summary + "</summary>\n\n", sections + "</details>\n" + rest);
      assert "\n" + ("<details>\n" + (summary + "</summary>\n\n")) + sections + "</details>\n" + rest ==
        "\n" + ("<details>\n" + (summary + "</summary>\n\n") + (sections + "</details>\n" + rest));
    }
  }

  lemma DetailsAreSilent(tag: string, summary: string, rest: string)
    requires tag != "" && tag[0] == '<'
    ensures Silent("\n" + (tag + summary + rest))
  {
    TagIsSilent(tag + summary, rest);
    assert Passed("\n", true);
    SilentBehind("\n", tag + summary + rest);
  }

  lemma ClosingIsSilent(marker: string)
    requires Enclosed(marker)
    ensures Silent("\n" + DISCLAIMER + "\n\n" + (marker + "\n"))
  {
    var closing := "\n" + DISCLAIMER + "\n\n";
    DisclaimerLine();
    assert marker[0] == '<';
    TagIsSilent(marker, "\n");
    ParagraphPassed(DISCLAIMER);
    SilentBehind(closing, marker + "\n");
  }

  lemma ParagraphPassed(s: string)
    requires Free(s, '\n') && s != "" && s[0] == 'A'
    ensures Passed("\n" + s + "\n\n", true)
  {
    var t := "\n" + s + "\n\n";
    forall i | 0 <= i < |s| ensures t[i + 1] == s[i] && s[i] != '\n' { assert s[i] in s; }
    assert t[0] == '\n' && t[|s| + 1] == '\n' && t[|s| + 2] == '\n' && |t| == |s| + 3;
  }

  lemma AcknowledgedRead(c: Codings, fs: seq<Finding>, rest: string, h: Heads) returns (k: Heads)
    requires Lawful(c) && AllValid(fs) && Silent(rest)
    ensures ReadItems(c, Join(AcknowledgedPieces(c, fs)) + rest, true, None, h) ==
      Items(c, InState(fs, Acknowledged)) + ReadItems(c, rest, true, None, k)
  {
    var n := StateCount(fs, Acknowledged);
    hide Lawful, AllValid, CategoryPieces, InCategories, ReadItems, Join, Decimal, Silent;
    if n == 0 {
      NoneInState(fs, Acknowledged, CATEGORY_ORDER, SUBCATEGORY_ORDER);
      NothingWritten();
      k := h;
      assert "" + rest == rest && [] + ReadItems(c, rest, true, None, k) == ReadItems(c, rest, true, None, k);
    } else {
      var summary, closing := "<summary>Acknowledged (" + Decimal(n) + ")", "</details>\n";
      var before := "\n" + ("<details>\n" + (summary + "</summary>\n\n"));
      var sections := Join(SectionPieces(c, fs, Acknowledged));
      JoinDetails(summary, SectionPieces(c, fs, Acknowledged), closing);
      DetailsOpen(n);
      SkipCalm(c, before, sections + (closing + rest), true, h);
      TagIsSilent(closing, rest);
      k := SectionsRead(c, fs, Acknowledged, closing + rest, h);
      CalmLine("</details>");
      assert "</details>" + "\n" == closing;
      SkipCalm(c, closing, rest, true, k);
      assert before + sections + closing + rest == before + (sections + (closing + rest));
    }
  }

  lemma ClosingRead(c: Codings, marker: string, h: Heads)
    requires Enclosed(marker) && Free(marker, '\n')
    ensures ReadItems(c, "\n" + DISCLAIMER + "\n\n" + (marker + "\n"), true, None, h) == []
  {
    DisclaimerLine();
    CalmParagraph(DISCLAIMER);
    hide ReadItems;
    CalmBoth("\n", DISCLAIMER + "\n\n");
    assert "\n" + (DISCLAIMER + "\n\n") == "\n" + DISCLAIMER + "\n\n";
    assert marker[0] == '<';
    CalmLine(marker);
    var all := "\n" + DISCLAIMER + "\n\n" + (marker + "\n");
    CalmBoth("\n" + DISCLAIMER + "\n\n", marker + "\n");
    SkipCalm(c, all, "", true, h);
    assert all + "" == all;
    NothingRead(c, EndsLine(all, true), h);
  }

  lemma NothingRead(c: Codings, start: bool, h: Heads)
    ensures ReadItems(c, "", start, None, h) == []
  {
  }

  lemma StateMarkerLine(c: Codings, s: State, marker: string)
    requires Lawful(c) && EncodeStateMarker(c, s) == Ok(marker)
    ensures Enclosed(marker) && Free(marker, '\n')
  {
    var payload := c.write(s);
    assert LawfulWrite(c, s) && LawfulDigest(c, payload) && LawfulBase64(c, payload);
    hide Lawful, Enclosed, Decimal, Framed;
    MarkerOf(c, s, marker);
    DigitsLine(STATE_VERSION);
    AllFree(c.digest(payload), IsHex, '\n');
    Base64Free(c.base64(payload), '\n');
    MarkerFrameLine();
    FramedLine(MARKER, Decimal(STATE_VERSION), c.digest(payload), c.base64(payload));
  }

  lemma FramedLine(f: Frame, version: string, digest: string, data: string)
    requires Free(f.version, '\n') && Free(f.digest, '\n') && Free(f.data, '\n') && Free(f.close, '\n')
    requires Free(version, '\n') && Free(digest, '\n') && Free(data, '\n')
    ensures Free(Framed(f, version, digest, data), '\n')
  {
  }

  lemma MarkerFrameLine()
    ensures Free(MARKER.version, '\n') && Free(MARKER.digest, '\n')
    ensures Free(MARKER.data, '\n') && Free(MARKER.close, '\n')
  {
  }

  lemma BodyRead(c: Codings, s: State, marker: string)
    requires Lawful(c) && AllValid(s.findings) && Enclosed(marker) && Free(marker, '\n')
    ensures ReadReport(c, Join(BodyPieces(c, s)) + (marker + "\n")) == Items(c, RenderOrder(s.findings))
  {
    hide Lawful, AllValid, Enclosed, Opening, OpenPieces, AcknowledgedPieces, InState, Items, ReadItems, Join, Free,
      Silent;
    var fs, closing := s.findings, "\n" + DISCLAIMER + "\n\n";
    var last := closing + (marker + "\n");
    var open, acknowledged := Join(OpenPieces(c, fs)), Join(AcknowledgedPieces(c, fs));
    JoinBody(Opening(s), OpenPieces(c, fs), AcknowledgedPieces(c, fs), closing);
    OpeningRead(c, s, open + (acknowledged + last), Heads("", ""));
    ClosingIsSilent(marker);
    AcknowledgedIsSilent(c, fs, last);
    var h := OpenRead(c, fs, acknowledged + last, Heads("", ""));
    var k := AcknowledgedRead(c, fs, last, h);
    ClosingRead(c, marker, k);
    ItemsJoin(c, InState(fs, Open), InState(fs, Acknowledged));
    BodyLayout(Opening(s), open, acknowledged, closing, marker + "\n");
  }

  lemma BodyLayout(a: string, b: string, d: string, e: string, f: string)
    ensures a + b + d + e + f == a + (b + (d + (e + f)))
  {
  }

  // ----- What a report tells the next run -----

  /** For every valid state the reader finds, in the order of the report, exactly one
      item for every finding whose title no blank line splits: its box as the finding
      stands, its own title, below its own headings. */
  lemma ReportShows(c: Codings, s: State)
    requires Lawful(c) && EncodeText(c, s).Ok?
    ensures ReadReport(c, EncodeText(c, s).value) == Items(c, RenderOrder(Canonicalize(s).findings))
  {
    hide Lawful, Canonicalize, EncodeStateMarker, BodyPieces, Join, ReadReport;
    var k := Canonicalize(s);
    var marker := EncodeStateMarker(c, k).value;
    StateMarkerLine(c, k, marker);
    assert AllValid(k.findings);
    BodyRead(c, k, marker);
  }

  predicate AllKept(c: Codings, fs: seq<Finding>) {
    forall f :: f in fs ==> Kept(c, f)
  }

  lemma {:induction false} ItemsKept(c: Codings, fs: seq<Finding>)
    requires AllKept(c, fs)
    ensures |Items(c, fs)| == |fs| && forall i :: 0 <= i < |fs| ==> Items(c, fs)[i] == ItemOf(c, fs[i])
  {
    hide Kept, ItemOf;
    if |fs| > 0 {
      ItemsKept(c, fs[..|fs| - 1]);
      assert fs[|fs| - 1] in fs;
    }
  }

  predicate Shows(c: Codings, fs: seq<Finding>, item: Item) {
    exists f :: f in fs && Kept(c, f) && item == ItemOf(c, f)
  }

  lemma {:induction false} ItemsFrom(c: Codings, fs: seq<Finding>)
    ensures forall i :: 0 <= i < |Items(c, fs)| ==> Shows(c, fs, Items(c, fs)[i])
  {
    hide Kept, ItemOf;
    if |fs| > 0 {
      var front, f := fs[..|fs| - 1], fs[|fs| - 1];
      ItemsFrom(c, front);
      forall i | 0 <= i < |Items(c, fs)| ensures Shows(c, fs, Items(c, fs)[i]) {
        if i < |Items(c, front)| {
          assert Shows(c, front, Items(c, front)[i]);
          var g :| g in front && Kept(c, g) && Items(c, fs)[i] == ItemOf(c, g);
          assert g in fs;
        } else {
          assert Kept(c, f) && f in fs;
        }
      }
    }
  }

  // The controls of a list in which every finding keeps its item, and of any other.
  lemma ControlsShown(c: Codings, fs: seq<Finding>)
    requires AllValid(fs) && UniqueIds(fs)
    ensures AllKept(c, fs) ==> ControlsIn(Items(c, RenderOrder(fs))) == RenderedControls(fs)
    ensures !AllKept(c, fs) ==> !BindingsOk(fs, ControlsIn(Items(c, RenderOrder(fs))))
  {
    hide Kept, RenderOrder;
    assert forall i :: 0 <= i < |fs| ==> ValidFinding(fs[i]);
    RenderedExactlyOnce(fs);
    var order := RenderOrder(fs);
    PermutationUnique(order, fs);
    if AllKept(c, fs) {
      ItemsKept(c, order);
    } else {
      var f :| f in fs && !Kept(c, f);
      ItemsFrom(c, order);
      LostControl(c, fs, order, f);
    }
  }

  lemma LostControl(c: Codings, fs: seq<Finding>, order: seq<Finding>, f: Finding)
    requires UniqueIds(order) && f in order && f in fs && !Kept(c, f)
    requires forall i :: 0 <= i < |Items(c, order)| ==> Shows(c, order, Items(c, order)[i])
    ensures !BindingsOk(fs, ControlsIn(Items(c, order)))
  {
    hide Kept;
    var k :| 0 <= k < |fs| && fs[k] == f;
    assert !HasControl(ControlsIn(Items(c, order)), fs[k].id);
  }

  lemma CanonicalKept(c: Codings, s: State)
    ensures AllKept(c, Canonicalize(s).findings) == AllKept(c, s.findings)
  {
    hide Splits;
    var k := Canonicalize(s);
    forall i | 0 <= i < |s.findings| ensures Kept(c, k.findings[i]) == Kept(c, s.findings[i]) {}
    if AllKept(c, s.findings) {
      forall f | f in k.findings ensures Kept(c, f) {
        var i :| 0 <= i < |k.findings| && k.findings[i] == f;
        assert s.findings[i] in s.findings;
      }
    }
    if AllKept(c, k.findings) {
      forall f | f in s.findings ensures Kept(c, f) {
        var i :| 0 <= i < |s.findings| && s.findings[i] == f;
        assert k.findings[i] in k.findings;
      }
    }
  }

  /** A written report is read back as its canonical state exactly when no blank line
      splits a shown title; its controls are then the rendered ones. Otherwise decoding
      fails, because a finding has no visible marker. */
  lemma ReadsBackExactly(c: Codings, s: State)
    requires Lawful(c) && EncodeText(c, s).Ok?
    requires c.controls(EncodeText(c, s).value) == ControlsIn(ReadReport(c, EncodeText(c, s).value))
    ensures AllKept(c, s.findings) ==>
      && c.controls(EncodeText(c, s).value) == RenderedControls(Canonicalize(s).findings)
      && DecodeText(c, EncodeText(c, s).value) == Ok(Canonicalize(s))
    ensures !AllKept(c, s.findings) ==> DecodeText(c, EncodeText(c, s).value) == Err
  {
    hide Lawful, ReadReport, Items, AllKept, DecodeStateMarker, BindingsOk, Count, FindingMarker, RenderedControls;
    ReportShows(c, s);
    ReportRoundTrip(c, s);
    CanonicalKept(c, s);
    CanonicalKeepsValid(s);
    hide Canonicalize;
    assert AllValid(Canonicalize(s).findings);
    ControlsShown(c, Canonicalize(s).findings);
  }

  // A title with a paragraph break, which the submission schema and the prose filter allow.
  const SPLIT_TITLE := "Lost update.\n\nTwo writers race."

  function SplitFinding(): Finding {
    Finding("f", "", Risk, Corrections, Introduced, SPLIT_TITLE, "", [], ["u"], Present, Open, None, Some(false), [],
            0, 0)
  }

  function SplitReport(): State {
    State(1, MergeRequest("https://gitlab.example", "group/project", 7), "", "", [SplitFinding()], [], [], None)
  }

  /** The report of a valid state whose only title holds a paragraph break cannot be read back. */
  lemma SplitTitleIsLost(c: Codings)
    requires Lawful(c) && c.inert(SPLIT_TITLE) && EncodeText(c, SplitReport()).Ok?
    requires var t := EncodeText(c, SplitReport()).value; c.controls(t) == ControlsIn(ReadReport(c, t))
    ensures ValidState(SplitReport())
    ensures DecodeText(c, EncodeText(c, SplitReport()).value) == Err
  {
    hide Lawful, EncodeText, ReadReport, DecodeText, SplitReport;
    SplitReportIsValid();
    SplitReportLoses(c);
    ReadsBackExactly(c, SplitReport());
  }

  lemma SplitReportIsValid()
    ensures ValidState(SplitReport())
  {
    assert CATEGORY_ORDER[1] == Risk && SUBCATEGORY_ORDER[1] == Corrections;
  }

  lemma SplitReportLoses(c: Codings)
    requires c.inert(SPLIT_TITLE)
    ensures !AllKept(c, SplitReport().findings)
  {
    TitleSplits();
    hide Splits;
    assert SplitReport().findings[0] == SplitFinding() && SplitFinding() in SplitReport().findings;
  }

  lemma TitleSplits()
    ensures Splits(SPLIT_TITLE, false)
  {
    var front, back := "Lost update.", "Two writers race.";
    assert Free(front, '\n') && back[0] == 'T';
    hide Splits;
    BreakSplits(back);
    SplitsBehind(front, "\n\n" + back);
    assert SPLIT_TITLE == front + ("\n\n" + back);
  }

  lemma BreakSplits(t: string)
    requires |t| > 0 && t[0] == 'T'
    ensures Splits("\n\n" + t, false)
  {
    var x, y := "\n\n" + t, "\n" + t;
    assert x[1..] == y && x[0] == '\n' && y[0] == '\n';
    assert (y + "** ")[1..] == t + "** " && (t + "** ")[0] == 'T';
    assert Leaves(t + "** ", 0, true);
    assert Leaves(y + "** ", 0, false);
  }

  lemma {:induction false} SplitsBehind(front: string, t: string)
    requires Free(front, '\n') && Splits(t, false)
    ensures Splits(front + t, false)
  {
    if |front| == 0 {
      assert front + t == t;
    } else {
      assert front == [front[0]] + front[1..] && front[0] in front;
      assert (front + t)[0] == front[0] && (front + t)[1..] == front[1..] + t;
      SplitsBehind(front[1..], t);
    }
  }

  // ----- What the head of a report says -----

  /** The verdict and the two counts at the head of a report. */
  datatype Summary = Summary(verdict: Verdict, open: nat, acknowledged: nat)

  function ValueOf(digits: string): nat
    requires All(digits, IsDigit)
  {
    if |digits| == 0 then 0
    else 10 * ValueOf(digits[..|digits| - 1]) + (digits[|digits| - 1] as int - '0' as int)
  }

  const APPROVED_HEAD := "## Verdict: ✅"
  const REVIEW_HEAD := "## Verdict: ⚠"

  function ReadSummary(t: string): Option<Summary> {
    var verdict := if APPROVED_HEAD <= t then Some(Approved) else if REVIEW_HEAD <= t then Some(NeedsReview) else None;
    var counts := Behind(t, "**Findings:** open ");
    if verdict.None? || counts.None? then None
    else
      var open := TakeWhile(counts.value, IsDigit);
      var next := Behind(counts.value, " · acknowledged ");
      if next.None? then None
      else Some(Summary(verdict.value, ValueOf(open), ValueOf(TakeWhile(next.value, IsDigit))))
  }

  lemma {:induction false} ValueOfDecimal(n: nat)
    ensures All(Decimal(n), IsDigit) && ValueOf(Decimal(n)) == n
  {
    DecimalIsPlain(n);
    assert forall k: nat :: k < 10 ==> Digit(k) as int - '0' as int == k;
    if n < 10 {
      assert Decimal(n)[..0] == "";
    } else {
      ValueOfDecimal(n / 10);
      assert Decimal(n)[..|Decimal(n)| - 1] == Decimal(n / 10);
    }
  }

  lemma {:induction false} CountedInState(fs: seq<Finding>, st: FindingState)
    requires AllValid(fs)
    ensures StateCount(fs, st) == |InState(fs, st)|
  {
    hide ValidFinding;
    if |fs| == 0 {
      NothingToRender(st, CATEGORY_ORDER, SUBCATEGORY_ORDER);
    } else {
      var front, f := fs[..|fs| - 1], fs[|fs| - 1];
      assert fs == front + [f];
      CountedInState(front, st);
      assert ValidFinding(f);
      assert f.category in CATEGORY_ORDER && f.subcategory in SUBCATEGORY_ORDER by { GroupsOf(f); }
      OrdersDistinct();
      OneMoreInCategories(front, f, st, CATEGORY_ORDER, SUBCATEGORY_ORDER);
      assert |multiset(InState(fs, st))| == |multiset(InState(front, st))| + if f.state == st then 1 else 0;
    }
  }

  lemma GroupsOf(f: Finding)
    requires ValidFinding(f)
    ensures f.category in CATEGORY_ORDER && f.subcategory in SUBCATEGORY_ORDER
  {
  }

  lemma OrdersDistinct()
    ensures DistinctSeq(CATEGORY_ORDER) && DistinctSeq(SUBCATEGORY_ORDER)
  {
  }

  // Two numerals, each behind the first occurrence of its literal.
  lemma CountsRead(head: string, found: string, open: nat, next: string, acknowledged: nat, rest: string)
    requires |found| > 0 && Free(head, found[0]) && |next| > 0 && next[0] == ' ' && |rest| > 0 && rest[0] == '\n'
    ensures var counts := Behind(head + (found + (Decimal(open) + (next + (Decimal(acknowledged) + rest)))), found);
      && counts.Some? && ValueOf(TakeWhile(counts.value, IsDigit)) == open
      && Behind(counts.value, next).Some?
      && ValueOf(TakeWhile(Behind(counts.value, next).value, IsDigit)) == acknowledged
  {
    ValueOfDecimal(open);
    ValueOfDecimal(acknowledged);
    BlankInNoNumeral(open);
    hide Decimal, Behind, TakeWhile, ValueOf, IndexOf, Free;
    var last := Decimal(acknowledged) + rest;
    BehindFirst(head, found, Decimal(open) + (next + last));
    BehindFirst(Decimal(open), next, last);
    TakeWhileStops(Decimal(open), next + last, IsDigit);
    TakeWhileStops(Decimal(acknowledged), rest, IsDigit);
  }

  lemma BlankInNoNumeral(n: nat)
    ensures Free(Decimal(n), ' ')
  {
    DecimalIsPlain(n);
    assert !IsDigit(' ');
  }

  lemma HeadRead(v: Verdict, rest: string)
    ensures var t := "## Verdict: " + VerdictLabel(v) + "\n\n" + rest;
      (APPROVED_HEAD <= t <==> v == Approved) && (REVIEW_HEAD <= t <==> v == NeedsReview)
    ensures Free(VerdictLabel(v), '*')
  {
    var t := "## Verdict: " + VerdictLabel(v) + "\n\n" + rest;
    assert APPROVED_HEAD[12] == '✅' && REVIEW_HEAD[12] == '⚠';
    assert t[12] == VerdictLabel(v)[0];
    assert VerdictLabel(Approved)[0] == '✅' && VerdictLabel(NeedsReview)[0] == '⚠';
    assert t[..12] == "## Verdict: " && APPROVED_HEAD[..12] == "## Verdict: " && REVIEW_HEAD[..12] == "## Verdict: ";
    assert v == Approved ==> t[..13] == t[..12] + [t[12]] && APPROVED_HEAD == APPROVED_HEAD[..12] + [APPROVED_HEAD[12]];
    assert v == NeedsReview ==> t[..13] == t[..12] + [t[12]] && REVIEW_HEAD == REVIEW_HEAD[..12] + [REVIEW_HEAD[12]];
  }

  lemma FindingsLayout(a: string, b: string, found: string, n: string, next: string, k: string, d: string, e: string)
    ensures a + ((b + (found + n + next + k + "\n\n") + d) + e) ==
      a + b + (found + (n + (next + (k + ("\n\n" + d + e)))))
  {
    assert found + n + next + k + "\n\n" == found + (n + (next + (k + "\n\n")));
  }

  lemma OpeningSummary(s: State, rest: string)
    ensures ReadSummary(Opening(s) + rest) ==
      Some(Summary(ShownVerdict(s), StateCount(s.findings, Open), StateCount(s.findings, Acknowledged)))
  {
    var v, n, k := ShownVerdict(s), StateCount(s.findings, Open), StateCount(s.findings, Acknowledged);
    hide ShownVerdict, StateCount, Decimal, Behind, TakeWhile, ValueOf, UnitsLine, VerdictLabel;
    var a, b := "## Verdict: " + VerdictLabel(v) + "\n\n", "## Stats\n\n";
    var found, next := "**Findings:** open ", " · acknowledged ";
    var d, e := UnitsLine(s.runs) + (COVERAGE_NOTE + "\n\n"), "## Open\n\n" + rest;
    HeadRead(v, (b + FindingsLine(s.findings) + d) + e);
    assert Opening(s) + rest == a + ((b + (found + Decimal(n) + next + Decimal(k) + "\n\n") + d) + e);
    FindingsLayout(a, b, found, Decimal(n), next, Decimal(k), d, e);
    CountsRead(a + b, found, n, next, k, "\n\n" + d + e);
  }

  lemma CanonicalRuns(s: State)
    ensures Canonicalize(s).runs == s.runs
  {
  }

  /** The head of a written report names the recorded verdict of the latest run and the
      number of findings in either section. */
  lemma SummaryShows(c: Codings, s: State)
    requires EncodeText(c, s).Ok?
    ensures var k := Canonicalize(s);
      ReadSummary(EncodeText(c, s).value) ==
      Some(Summary(ShownVerdict(k), |InState(k.findings, Open)|, |InState(k.findings, Acknowledged)|))
    ensures |s.runs| > 0 && s.runs[|s.runs| - 1].verdict.Some? ==>
      ShownVerdict(Canonicalize(s)) == s.runs[|s.runs| - 1].verdict.value
  {
    hide Canonicalize, EncodeStateMarker, OpenPieces, AcknowledgedPieces, Opening, Join, InState, ReadSummary,
      StateCount;
    var k := Canonicalize(s);
    CanonicalRuns(s);
    assert AllValid(k.findings);
    CountedInState(k.findings, Open);
    CountedInState(k.findings, Acknowledged);
    var marker := EncodeStateMarker(c, k).value + "\n";
    var open, acknowledged := OpenPieces(c, k.findings), AcknowledgedPieces(c, k.findings);
    var closing := "\n" + DISCLAIMER + "\n\n";
    JoinBody(Opening(k), open, acknowledged, closing);
    BodyLayout(Opening(k), Join(open), Join(acknowledged), closing, marker);
    OpeningSummary(k, Join(open) + (Join(acknowledged) + (closing + marker)));
  }
}
