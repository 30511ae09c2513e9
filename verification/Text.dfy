/** Strings: decimal numerals, and the escaping that keeps model text inert inside a
    Markdown report (escape and indentMultiline, internal/markdown/codec.go). */
module Text {

  // ----- Decimal numerals -----

  function Digit(n: nat): char
    requires n < 10
  {
    "0123456789"[n]
  }

  function Decimal(n: nat): string {
    if n < 10 then [Digit(n)] else Decimal(n / 10) + [Digit(n % 10)]
  }

  predicate IsDigit(c: char) {
    '0' <= c <= '9'
  }

  lemma {:induction false} DecimalIsPlain(n: nat)
    ensures Decimal(n) != "" && forall c :: c in Decimal(n) ==> IsDigit(c)
  {
    if n >= 10 { DecimalIsPlain(n / 10); }
  }

  // ----- Escaping -----

  const SPECIAL: string := "\\`*_{}[]()#+-.!|"

  function ReplaceAll(s: string, c: char, other: string): string {
    if |s| == 0 then "" else (if s[0] == c then other else [s[0]]) + ReplaceAll(s[1..], c, other)
  }

  // One pass that puts a backslash before every special character.
  function Substitute(s: string): string {
    if |s| == 0 then "" else (if s[0] in SPECIAL then ['\\', s[0]] else [s[0]]) + Substitute(s[1..])
  }

  // A slash that starts a line, after blanks, would open a command.
  function GuardLines(s: string, atStart: bool): string {
    if |s| == 0 then ""
    else
      var c := s[0];
      (if atStart && c == '/' then ['\\', c] else [c]) +
      GuardLines(s[1..], c == '\n' || (atStart && (c == ' ' || c == '\t')))
  }

  function Replaced(s: string): string {
    ReplaceAll(ReplaceAll(ReplaceAll(s, '&', "&amp;"), '<', "&lt;"), '>', "&gt;")
  }

  function Escape(s: string): string {
    GuardLines(Substitute(Replaced(s)), true)
  }

  function IndentMultiline(s: string, indent: string): string {
    ReplaceAll(s, '\n', "\n" + indent)
  }

  predicate Free(s: string, c: char) {
    c !in s
  }

  lemma {:induction false} ReplaceKeepsFree(s: string, c: char, other: string, x: char)
    requires Free(other, x) && (Free(s, x) || x == c)
    ensures Free(ReplaceAll(s, c, other), x)
  {
    if |s| > 0 {
      assert s == [s[0]] + s[1..];
      ReplaceKeepsFree(s[1..], c, other, x);
    }
  }

  lemma {:induction false} SubstituteKeepsFree(s: string, x: char)
    requires Free(s, x) && x != '\\'
    ensures Free(Substitute(s), x)
  {
    if |s| > 0 {
      assert s == [s[0]] + s[1..];
      SubstituteKeepsFree(s[1..], x);
    }
  }

  lemma {:induction false} GuardKeepsFree(s: string, atStart: bool, x: char)
    requires Free(s, x) && x != '\\'
    ensures Free(GuardLines(s, atStart), x)
    decreases |s|
  {
    if |s| > 0 {
      assert s == [s[0]] + s[1..];
      GuardKeepsFree(s[1..], s[0] == '\n' || (atStart && (s[0] == ' ' || s[0] == '\t')), x);
    }
  }

  /** Whatever the text, its escaped form can open no tag and no comment. */
  lemma EscapeHasNoAngles(s: string)
    ensures Free(Escape(s), '<') && Free(Escape(s), '>')
  {
    var a := ReplaceAll(s, '&', "&amp;");
    var b := ReplaceAll(a, '<', "&lt;");
    var c := ReplaceAll(b, '>', "&gt;");
    ReplaceKeepsFree(a, '<', "&lt;", '<');
    ReplaceKeepsFree(b, '>', "&gt;", '<');
    ReplaceKeepsFree(b, '>', "&gt;", '>');
    SubstituteKeepsFree(c, '<');
    SubstituteKeepsFree(c, '>');
    GuardKeepsFree(Substitute(c), true, '<');
    GuardKeepsFree(Substitute(c), true, '>');
  }

  // ----- Reading escaped text back -----

  // What each character becomes before lines are guarded.
  function Escaped(c: char): string {
    if c == '&' then "&amp;" else if c == '<' then "&lt;" else if c == '>' then "&gt;"
    else if c in SPECIAL then ['\\', c] else [c]
  }

  function EscapedAll(s: string): string {
    if |s| == 0 then "" else Escaped(s[0]) + EscapedAll(s[1..])
  }

  lemma {:induction false} ReplaceJoin(a: string, b: string, c: char, other: string)
    ensures ReplaceAll(a + b, c, other) == ReplaceAll(a, c, other) + ReplaceAll(b, c, other)
  {
    if |a| == 0 {
      assert a + b == b;
    } else {
      assert (a + b)[1..] == a[1..] + b;
      ReplaceJoin(a[1..], b, c, other);
    }
  }

  lemma {:induction false} SubstituteJoin(a: string, b: string)
    ensures Substitute(a + b) == Substitute(a) + Substitute(b)
  {
    if |a| == 0 {
      assert a + b == b;
    } else {
      assert (a + b)[1..] == a[1..] + b;
      SubstituteJoin(a[1..], b);
    }
  }

  lemma {:induction false} ReplaceAbsent(s: string, c: char, other: string)
    requires Free(s, c)
    ensures ReplaceAll(s, c, other) == s
  {
    if |s| > 0 {
      assert s == [s[0]] + s[1..];
      ReplaceAbsent(s[1..], c, other);
    }
  }

  lemma {:induction false} SubstituteAbsent(s: string)
    requires forall c :: c in s ==> c !in SPECIAL
    ensures Substitute(s) == s
  {
    if |s| > 0 {
      assert s == [s[0]] + s[1..];
      SubstituteAbsent(s[1..]);
    }
  }

  lemma ReplaceOne(c: char, x: char, other: string)
    ensures ReplaceAll([c], x, other) == if c == x then other else [c]
  {
    assert [c][1..] == [];
  }

  lemma SubstituteOne(c: char)
    ensures Substitute([c]) == if c in SPECIAL then ['\\', c] else [c]
  {
    assert [c][1..] == [];
  }

  lemma ReplacedOne(c: char)
    ensures Substitute(Replaced([c])) == Escaped(c)
  {
    hide ReplaceAll, Substitute;
    ReplaceOne(c, '&', "&amp;");
    ReplaceOne(c, '<', "&lt;");
    ReplaceOne(c, '>', "&gt;");
    if c == '&' {
      ReplaceAbsent("&amp;", '<', "&lt;");
      ReplaceAbsent("&amp;", '>', "&gt;");
      SubstituteAbsent("&amp;");
    } else if c == '<' {
      ReplaceAbsent("&lt;", '>', "&gt;");
      SubstituteAbsent("&lt;");
    } else if c == '>' {
      SubstituteAbsent("&gt;");
    } else {
      SubstituteOne(c);
    }
  }

  // The four replacements in sequence are one substitution per character.
  lemma {:induction false} StagesArePerCharacter(s: string)
    ensures Substitute(Replaced(s)) == EscapedAll(s)
  {
    if |s| > 0 {
      var head, tail := [s[0]], s[1..];
      assert s == head + tail;
      StagesArePerCharacter(tail);
      ReplacedOne(s[0]);
      ReplaceJoin(head, tail, '&', "&amp;");
      var h, t := ReplaceAll(head, '&', "&amp;"), ReplaceAll(tail, '&', "&amp;");
      ReplaceJoin(h, t, '<', "&lt;");
      ReplaceJoin(ReplaceAll(h, '<', "&lt;"), ReplaceAll(t, '<', "&lt;"), '>', "&gt;");
      SubstituteJoin(Replaced(head), Replaced(tail));
    }
  }

  /** Backslash escapes and the three entities, as a Markdown renderer resolves them. */
  function Unescape(t: string): string {
    if |t| == 0 then ""
    else if |t| > 1 && t[0] == '\\' && (t[1] in SPECIAL || t[1] == '/') then [t[1]] + Unescape(t[2..])
    else if "&amp;" <= t then "&" + Unescape(t[5..])
    else if "&lt;" <= t then "<" + Unescape(t[4..])
    else if "&gt;" <= t then ">" + Unescape(t[4..])
    else [t[0]] + Unescape(t[1..])
  }

  // Guarding a piece that neither breaks a line nor starts with a blank or a slash.
  lemma {:induction false} GuardPiece(piece: string, rest: string, atStart: bool)
    requires |piece| > 0 && Free(piece, '\n')
    requires atStart ==> piece[0] != '/' && piece[0] != ' ' && piece[0] != '\t'
    ensures GuardLines(piece + rest, atStart) == piece + GuardLines(rest, false)
    decreases |piece|
  {
    var all := piece + rest;
    assert piece == [piece[0]] + piece[1..];
    assert all[1..] == piece[1..] + rest;
    if |piece| == 1 {
      assert all[1..] == rest;
    } else {
      GuardPiece(piece[1..], rest, false);
    }
  }

  lemma GuardOne(c: char, rest: string, atStart: bool)
    ensures GuardLines([c] + rest, atStart) ==
      (if atStart && c == '/' then ['\\', c] else [c]) +
      GuardLines(rest, c == '\n' || (atStart && (c == ' ' || c == '\t')))
  {
    assert ([c] + rest)[1..] == rest;
  }

  lemma {:induction false} UnescapeGuarded(s: string, atStart: bool)
    ensures Unescape(GuardLines(EscapedAll(s), atStart)) == s
    decreases |s|
  {
    hide GuardLines, Unescape;
    if |s| == 0 {
      assert EscapedAll(s) == "";
      NothingEscaped(atStart);
    } else {
      var c, tail := s[0], s[1..];
      var rest := EscapedAll(tail);
      assert s == [c] + tail;
      if c == '\n' || c == ' ' || c == '\t' || c == '/' {
        var next := c == '\n' || (atStart && (c == ' ' || c == '\t'));
        UnescapeGuarded(tail, next);
        GuardOne(c, rest, atStart);
        UnescapeBlank(c, GuardLines(rest, next));
      } else {
        UnescapeGuarded(tail, false);
        PlainStart(c);
        GuardPiece(Escaped(c), rest, atStart);
        UnescapePiece(c, GuardLines(rest, false));
      }
    }
  }

  lemma NothingEscaped(atStart: bool)
    ensures Unescape(GuardLines("", atStart)) == ""
  {
  }

  lemma PlainStart(c: char)
    requires c != '\n' && c != ' ' && c != '\t' && c != '/'
    ensures var piece := Escaped(c);
      |piece| > 0 && Free(piece, '\n') && piece[0] != '/' && piece[0] != ' ' && piece[0] != '\t'
  {
  }

  lemma UnescapeBlank(c: char, x: string)
    requires c == '\n' || c == ' ' || c == '\t' || c == '/'
    ensures Unescape([c] + x) == [c] + Unescape(x)
    ensures Unescape(['\\', '/'] + x) == "/" + Unescape(x)
  {
    assert ([c] + x)[1..] == x;
    assert (['\\', '/'] + x)[2..] == x;
  }

  lemma UnescapePiece(c: char, x: string)
    requires c != '/'
    ensures Unescape(Escaped(c) + x) == [c] + Unescape(x)
  {
    var t := Escaped(c) + x;
    if c == '&' {
      assert t[5..] == x;
    } else if c == '<' || c == '>' {
      assert t[0] == '&' && t[1] != 'a';
      assert t[4..] == x;
    } else if c in SPECIAL {
      assert t[2..] == x;
    } else {
      assert t[0] == c && t[1..] == x;
    }
  }

  /** A reader of the report sees exactly the text that was escaped, so escaping
      loses nothing and confuses no two texts. */
  lemma UnescapeEscape(s: string)
    ensures Unescape(Escape(s)) == s
  {
    StagesArePerCharacter(s);
    UnescapeGuarded(s, true);
  }
}
