/** The report as a string (Encode and decodeStateMarker, internal/markdown/codec.go).
    A report is assembled from pieces: text without an opening angle bracket, and
    tags that open with their only one. That makes it decidable where a marker can
    start, whatever the findings say. */
module ReportText {
  import opened Domain
  import opened Text
  import opened ReportCodec
  import opened Validation
  import opened Verdicts

  /** JSON, SHA-256, base64, the prose filter and the Markdown parser, as far as the
      codec relies on them. */
  datatype Codings = Codings(
    write: State -> string,
    parse: string -> Option<State>,
    digest: string -> string,
    base64: string -> string,
    unbase64: string -> Option<string>,
    inert: string -> bool,
    controls: string -> seq<Control>)

  predicate IsHex(c: char) {
    '0' <= c <= '9' || 'a' <= c <= 'f'
  }

  predicate IsBase64(c: char) {
    'A' <= c <= 'Z' || 'a' <= c <= 'z' || '0' <= c <= '9' || c == '+' || c == '/'
  }

  predicate IsPadding(c: char) {
    c == '='
  }

  predicate All(s: string, p: char -> bool) {
    forall i :: 0 <= i < |s| ==> p(s[i])
  }

  // Base64 text: a body in the alphabet and at most two padding characters.
  predicate Base64Text(s: string) {
    exists n :: 0 < n <= |s| && |s| - n <= 2 && All(s[..n], IsBase64) && All(s[n..], IsPadding)
  }

  ghost predicate LawfulWrite(c: Codings, s: State) {
    c.write(s) != "" && c.parse(c.write(s)) == Some(s)
  }

  ghost predicate LawfulDigest(c: Codings, p: string) {
    |c.digest(p)| == 64 && All(c.digest(p), IsHex)
  }

  ghost predicate LawfulBase64(c: Codings, p: string) {
    c.unbase64(c.base64(p)) == Some(p) && (p != "" ==> Base64Text(c.base64(p)))
  }

  /** What is written can be read back, digests are 64 hexadecimal digits, and base64 is a
      faithful encoding in its own alphabet. */
  ghost predicate Lawful(c: Codings) {
    && (forall s :: LawfulWrite(c, s))
    && (forall p :: LawfulDigest(c, p))
    && (forall p :: LawfulBase64(c, p))
  }

  // ----- Markers -----

  const STATE_PREFIX := "<!-- ci-signal-state"

  const FINDING_PREFIX := "<!-- ci-signal-finding:"

  const CLOSE := " -->"

  const MAX_STATE_LENGTH: nat := 0x80_0000

  /** The literals around the three fields of a state marker. */
  datatype Frame = Frame(version: string, digest: string, data: string, close: string)

  const MARKER := Frame(STATE_PREFIX + " v=", " sha256=", " data=", CLOSE)

  function Framed(f: Frame, version: string, digest: string, data: string): string {
    f.version + (version + (f.digest + (digest + (f.data + (data + f.close)))))
  }

  function MarkerText(version: string, digest: string, data: string): string {
    Framed(MARKER, version, digest, data)
  }

  function EncodeStateMarker(c: Codings, s: State): Result<string> {
    var payload := c.write(s);
    if |payload| > MAX_STATE_LENGTH then Err
    else Ok(MarkerText(Decimal(STATE_VERSION), c.digest(payload), c.base64(payload)))
  }

  function FindingMarker(c: Codings, id: FindingId): string {
    FINDING_PREFIX + c.base64(id) + CLOSE
  }

  // ----- Searching -----

  /** Non-overlapping occurrences of `m`, from left to right. */
  function Count(s: string, m: string): nat
    requires m != ""
  {
    if |s| < |m| then 0
    else if m <= s then 1 + Count(s[|m|..], m)
    else Count(s[1..], m)
  }

  /** Where `m` first occurs. */
  function IndexOf(s: string, m: string): (r: Option<nat>)
    ensures r.Some? ==> r.value + |m| <= |s| && s[r.value..r.value + |m|] == m
  {
    if |s| < |m| then None
    else if m <= s then Some(0)
    else
      var r := IndexOf(s[1..], m);
      if r.None? then None else Some(r.value + 1)
  }

  predicate Diverges(s: string, m: string) {
    exists k :: 0 <= k < |m| && k < |s| && s[k] != m[k]
  }

  // Whether `m` starts here does not depend on what follows `s`.
  predicate DecidedAt(s: string, m: string) {
    m <= s || Diverges(s, m)
  }

  predicate Decided(s: string, m: string) {
    forall i :: 0 <= i < |s| ==> DecidedAt(s[i..], m)
  }

  lemma DivergesStays(s: string, t: string, m: string)
    requires Diverges(s, m)
    ensures !(m <= s + t) && Diverges(s + t, m)
  {
    var k :| 0 <= k < |m| && k < |s| && s[k] != m[k];
    assert (s + t)[k] == s[k];
  }

  lemma DecidedTail(s: string, m: string, n: nat)
    requires Decided(s, m) && n <= |s|
    ensures Decided(s[n..], m)
  {
    forall i | 0 <= i < |s| - n ensures DecidedAt(s[n..][i..], m) {
      assert s[n..][i..] == s[n + i..];
    }
  }

  lemma {:induction false} ShortCount(s: string, m: string)
    requires m != "" && Decided(s, m) && |s| < |m|
    ensures forall t :: Count(s + t, m) == Count(t, m)
    decreases |s|
  {
    forall t ensures Count(s + t, m) == Count(t, m) {
      if |s| == 0 {
        assert s + t == t;
      } else {
        assert DecidedAt(s[0..], m) && s[0..] == s;
        DivergesStays(s, t, m);
        DecidedTail(s, m, 1);
        ShortCount(s[1..], m);
        assert (s + t)[1..] == s[1..] + t;
        if |s + t| < |m| { FewerThan(t, m); }
      }
    }
  }

  lemma FewerThan(t: string, m: string)
    requires m != "" && |t| < |m|
    ensures Count(t, m) == 0
  {
  }

  /** Occurrences add up over decided pieces. */
  lemma {:induction false} CountJoin(s: string, t: string, m: string)
    requires m != "" && Decided(s, m)
    ensures Count(s + t, m) == Count(s, m) + Count(t, m)
    decreases |s|
  {
    if |s| < |m| {
      ShortCount(s, m);
    } else {
      assert DecidedAt(s[0..], m) && s[0..] == s;
      if m <= s {
        assert (s + t)[|m|..] == s[|m|..] + t;
        DecidedTail(s, m, |m|);
        CountJoin(s[|m|..], t, m);
      } else {
        DivergesStays(s, t, m);
        assert (s + t)[1..] == s[1..] + t;
        DecidedTail(s, m, 1);
        CountJoin(s[1..], t, m);
      }
    }
  }

  /** The first occurrence lies right behind a decided text without one. */
  lemma {:induction false} IndexBehind(s: string, t: string, m: string)
    requires m != "" && Decided(s, m) && Count(s, m) == 0 && m <= t
    ensures IndexOf(s + t, m) == Some(|s|)
    decreases |s|
  {
    if |s| == 0 {
      assert s + t == t;
    } else {
      assert DecidedAt(s[0..], m) && s[0..] == s;
      if !(m <= s) { DivergesStays(s, t, m); }
      assert (s + t)[1..] == s[1..] + t;
      DecidedTail(s, m, 1);
      if |s| - 1 < |m| { FewerThan(s[1..], m); }
      IndexBehind(s[1..], t, m);
    }
  }

  // ----- Pieces -----

  // `m` opens with its only angle bracket.
  predicate TagPattern(m: string) {
    m != "" && m[0] == '<' && Free(m[1..], '<')
  }

  lemma {:induction false} PlainPiece(s: string, m: string)
    requires Free(s, '<') && TagPattern(m)
    ensures Decided(s, m) && Count(s, m) == 0
    decreases |s|
  {
    forall i | 0 <= i < |s| ensures DecidedAt(s[i..], m) {
      assert s[i] in s && s[i..][0] != m[0];
    }
    if |s| >= |m| {
      assert s[0] in s;
      PlainPiece(s[1..], m);
    }
  }

  /** A tag holds `m` at most once, at its front. */
  lemma TagPiece(s: string, m: string)
    requires TagPattern(s) && TagPattern(m) && DecidedAt(s, m)
    ensures Decided(s, m)
    ensures Count(s, m) == if m <= s then 1 else 0
  {
    forall i | 0 < i < |s| ensures DecidedAt(s[i..], m) {
      assert s[1..][i - 1] == s[i] && s[i] in s[1..];
      assert s[i..][0] != m[0];
    }
    assert s[0..] == s;
    if |s| >= |m| {
      if m <= s {
        assert forall c :: c in s[|m|..] ==> c in s[1..];
        PlainPiece(s[|m|..], m);
      } else {
        PlainPiece(s[1..], m);
      }
    }
  }

  function Join(pieces: seq<string>): string {
    if |pieces| == 0 then "" else pieces[0] + Join(pieces[1..])
  }

  function CountIn(pieces: seq<string>, m: string): nat
    requires m != ""
  {
    if |pieces| == 0 then 0 else Count(pieces[0], m) + CountIn(pieces[1..], m)
  }

  // Every piece decides where `m` starts.
  predicate AllDecided(pieces: seq<string>, m: string) {
    forall i :: 0 <= i < |pieces| ==> Decided(pieces[i], m)
  }

  lemma {:induction false} CountPieces(pieces: seq<string>, m: string)
    requires m != "" && AllDecided(pieces, m)
    ensures Count(Join(pieces), m) == CountIn(pieces, m)
    ensures Decided(Join(pieces), m)
  {
    if |pieces| > 0 {
      CountPieces(pieces[1..], m);
      CountJoin(pieces[0], Join(pieces[1..]), m);
      DecidedJoin(pieces[0], Join(pieces[1..]), m);
    }
  }

  lemma DecidedJoin(s: string, t: string, m: string)
    requires Decided(s, m) && Decided(t, m)
    ensures Decided(s + t, m)
  {
    forall i | 0 <= i < |s + t| ensures DecidedAt((s + t)[i..], m) {
      if i < |s| {
        assert (s + t)[i..] == s[i..] + t;
        assert DecidedAt(s[i..], m);
        if !(m <= s[i..]) { DivergesStays(s[i..], t, m); }
      } else {
        assert (s + t)[i..] == t[i - |s|..];
      }
    }
  }

  lemma {:induction false} CountInJoin(a: seq<string>, b: seq<string>, m: string)
    requires m != ""
    ensures CountIn(a + b, m) == CountIn(a, m) + CountIn(b, m)
    ensures Join(a + b) == Join(a) + Join(b)
  {
    if |a| == 0 {
      assert a + b == b;
    } else {
      assert (a + b)[1..] == a[1..] + b;
      CountInJoin(a[1..], b, m);
    }
  }

  // ----- Reading the state marker back -----

  function TakeWhile(s: string, p: char -> bool): (t: string)
    ensures t <= s && All(t, p)
  {
    if |s| == 0 || !p(s[0]) then ""
    else
      var t := TakeWhile(s[1..], p);
      assert [s[0]] + t <= s;
      [s[0]] + t
  }

  lemma {:induction false} TakeWhileStops(s: string, t: string, p: char -> bool)
    requires All(s, p) && (|t| > 0 ==> !p(t[0]))
    ensures TakeWhile(s + t, p) == s && (s + t)[|s|..] == t
  {
    if |s| == 0 {
      assert s + t == t;
    } else {
      assert (s + t)[1..] == s[1..] + t;
      TakeWhileStops(s[1..], t, p);
    }
  }

  datatype Fields = Fields(version: string, digest: string, data: string)

  // A literal and then everything in one alphabet: the value and what follows it.
  function ParseField(s: string, literal: string, p: char -> bool): Option<(string, string)> {
    if !(literal <= s) then None
    else
      var value := TakeWhile(s[|literal|..], p);
      Some((value, s[|literal|..][|value|..]))
  }

  lemma FieldText(literal: string, value: string, rest: string, p: char -> bool)
    requires All(value, p) && (|rest| > 0 ==> !p(rest[0]))
    ensures ParseField(literal + (value + rest), literal, p) == Some((value, rest))
  {
    assert (literal + (value + rest))[|literal|..] == value + rest;
    TakeWhileStops(value, rest, p);
  }

  /** The marker pattern: every field ends where its alphabet does. */
  function ParseFramed(marker: string, f: Frame): Option<Fields> {
    var version := ParseField(marker, f.version, IsDigit);
    if version.None? || version.value.0 == "" then None else
    var digest := ParseField(version.value.1, f.digest, IsHex);
    if digest.None? || |digest.value.0| != 64 then None else
    var body := ParseField(digest.value.1, f.data, IsBase64);
    if body.None? || body.value.0 == "" then None else
    var padding := ParseField(body.value.1, "", IsPadding);
    if padding.None? || |padding.value.0| > 2 || padding.value.1 != f.close then None
    else Some(Fields(version.value.0, digest.value.0, body.value.0 + padding.value.0))
  }

  function ParseMarker(marker: string): Option<Fields> {
    ParseFramed(marker, MARKER)
  }

  // The literals start with a blank, which is in no alphabet.
  predicate Blanks(f: Frame) {
    && |f.digest| > 0 && f.digest[0] == ' '
    && |f.data| > 0 && f.data[0] == ' '
    && |f.close| > 0 && f.close[0] == ' '
  }

  lemma ParseFramedParts(f: Frame, version: string, digest: string, body: string, padding: string)
    requires Blanks(f)
    requires version != "" && All(version, IsDigit)
    requires |digest| == 64 && All(digest, IsHex)
    requires body != "" && All(body, IsBase64) && |padding| <= 2 && All(padding, IsPadding)
    ensures var a := f.version + (version + (f.digest + (digest + (f.data + (body + (padding + f.close))))));
      ParseFramed(a, f) == Some(Fields(version, digest, body + padding))
  {
    hide TakeWhile, All, ParseField;
    var d := padding + f.close;
    var c := f.data + (body + d);
    var b := f.digest + (digest + c);
    var a := f.version + (version + b);
    assert d[0] == ' ' || d[0] == '=' by { if |padding| > 0 { PaddingStarts(padding); } }
    assert b[0] == ' ' && c[0] == ' ';
    FieldText(f.version, version, b, IsDigit);
    FieldText(f.digest, digest, c, IsHex);
    FieldText(f.data, body, d, IsBase64);
    FieldText("", padding, f.close, IsPadding);
    assert "" + (padding + f.close) == d;
    assert !IsDigit(' ') && !IsHex(' ') && !IsBase64(' ') && !IsBase64('=') && !IsPadding(' ');
  }

  lemma ParseFramedText(f: Frame, version: string, digest: string, data: string)
    requires Blanks(f)
    requires version != "" && All(version, IsDigit)
    requires |digest| == 64 && All(digest, IsHex)
    requires Base64Text(data)
    ensures ParseFramed(Framed(f, version, digest, data), f) == Some(Fields(version, digest, data))
  {
    var n :| 0 < n <= |data| && |data| - n <= 2 && All(data[..n], IsBase64) && All(data[n..], IsPadding);
    hide ParseFramed, Base64Text;
    var body, padding := data[..n], data[n..];
    assert data == body + padding;
    assert data + f.close == body + (padding + f.close);
    ParseFramedParts(f, version, digest, body, padding);
  }

  /** A marker is read back as what was written into it. */
  lemma ParseMarkerText(version: string, digest: string, data: string)
    requires version != "" && All(version, IsDigit)
    requires |digest| == 64 && All(digest, IsHex)
    requires Base64Text(data)
    ensures ParseMarker(MarkerText(version, digest, data)) == Some(Fields(version, digest, data))
  {
    hide ParseFramed, Framed, All, Base64Text;
    ParseFramedText(MARKER, version, digest, data);
  }

  lemma PaddingStarts(s: string)
    requires |s| > 0 && All(s, IsPadding)
    ensures s[0] == '='
  {
  }

  function DecodeStateMarker(c: Codings, source: string): Result<State> {
    var start := IndexOf(source, STATE_PREFIX);
    if Count(source, STATE_PREFIX) != 1 || start.None? then Err else
    var end := IndexOf(source[start.value..], "-->");
    if end.None? then Err else
    var fields := ParseMarker(source[start.value..][..end.value + 3]);
    if fields.None? || fields.value.version != Decimal(STATE_VERSION) then Err else
    var payload := c.unbase64(fields.value.data);
    if payload.None? || |payload.value| > MAX_STATE_LENGTH || c.digest(payload.value) != fields.value.digest
    then Err else
    var state := c.parse(payload.value);
    if state.None? then Err else Ok(state.value)
  }

  /** The whole decoder, with the Markdown parser's list of controls. */
  function DecodeText(c: Codings, source: string): Result<State> {
    var state := DecodeStateMarker(c, source);
    if state.Err? || !ValidState(state.value) || !BindingsOk(state.value.findings, c.controls(source)) then Err
    else state
  }

  // ----- Alphabets -----

  lemma AllFree(s: string, p: char -> bool, x: char)
    requires All(s, p) && !p(x)
    ensures Free(s, x)
  {
  }

  lemma Base64Free(s: string, x: char)
    requires Base64Text(s) && !IsBase64(x) && !IsPadding(x)
    ensures Free(s, x)
  {
    var n :| 0 < n <= |s| && |s| - n <= 2 && All(s[..n], IsBase64) && All(s[n..], IsPadding);
    AllFree(s[..n], IsBase64, x);
    AllFree(s[n..], IsPadding, x);
    assert s == s[..n] + s[n..];
  }

  // Text that opens with its only opening bracket and ends with its only closing one.
  predicate Enclosed(s: string) {
    TagPattern(s) && |s| > 3 && s[|s| - 3..] == "-->" && Free(s[..|s| - 1], '>')
  }

  lemma Enclose(open: string, inner: string, close: string)
    requires TagPattern(open) && Free(open, '>')
    requires Free(inner, '<') && Free(inner, '>')
    requires |close| >= 3 && close[|close| - 3..] == "-->" && Free(close, '<') && Free(close[..|close| - 1], '>')
    ensures Enclosed(open + inner + close) && open <= open + inner + close
  {
    var s := open + inner + close;
    assert s[1..] == open[1..] + inner + close;
    assert s[..|s| - 1] == open + inner + close[..|close| - 1];
    assert s[|s| - 3..] == close[|close| - 3..];
  }

  // The literals of a frame, enclosing fields free of angle brackets.
  predicate EnclosingFrame(f: Frame) {
    && TagPattern(f.version) && Free(f.version, '>')
    && Free(f.digest, '<') && Free(f.digest, '>') && Free(f.data, '<') && Free(f.data, '>')
    && |f.close| >= 3 && f.close[|f.close| - 3..] == "-->"
    && Free(f.close, '<') && Free(f.close[..|f.close| - 1], '>')
  }

  lemma FramedShape(f: Frame, version: string, digest: string, data: string)
    requires EnclosingFrame(f)
    requires All(version, IsDigit) && All(digest, IsHex) && Base64Text(data)
    ensures Enclosed(Framed(f, version, digest, data)) && f.version <= Framed(f, version, digest, data)
  {
    FieldsFree(version, digest, data, '<');
    FieldsFree(version, digest, data, '>');
    hide All, Base64Text, Enclosed, Free, TagPattern;
    var fields := version + (f.digest + (digest + (f.data + data)));
    FreeJoin(version, f.digest, digest, f.data, data, '<');
    FreeJoin(version, f.digest, digest, f.data, data, '>');
    Enclose(f.version, fields, f.close);
    assert Framed(f, version, digest, data) == f.version + fields + f.close;
  }

  lemma MarkerFrame()
    ensures EnclosingFrame(MARKER) && STATE_PREFIX <= MARKER.version
  {
  }

  lemma MarkerShape(version: string, digest: string, data: string)
    requires All(version, IsDigit) && All(digest, IsHex) && Base64Text(data)
    ensures Enclosed(MarkerText(version, digest, data))
    ensures STATE_PREFIX <= MarkerText(version, digest, data)
  {
    hide All, Base64Text, Enclosed, EnclosingFrame, Framed;
    MarkerFrame();
    FramedShape(MARKER, version, digest, data);
  }

  lemma FieldsFree(version: string, digest: string, data: string, x: char)
    requires All(version, IsDigit) && All(digest, IsHex) && Base64Text(data)
    requires x == '<' || x == '>'
    ensures Free(version, x) && Free(digest, x) && Free(data, x)
  {
    AllFree(version, IsDigit, x);
    AllFree(digest, IsHex, x);
    Base64Free(data, x);
  }

  lemma FreeJoin(a: string, b: string, c: string, d: string, e: string, x: char)
    requires Free(a, x) && Free(b, x) && Free(c, x) && Free(d, x) && Free(e, x)
    ensures Free(a + (b + (c + (d + e))), x)
  {
  }

  lemma {:induction false} CloseAtEnd(s: string, rest: string)
    requires |s| >= 3 && s[|s| - 3..] == "-->" && Free(s[..|s| - 1], '>')
    ensures IndexOf(s + rest, "-->") == Some(|s| - 3)
    decreases |s|
  {
    var t := s + rest;
    if |s| == 3 {
      assert t[..3] == "-->";
    } else {
      assert s[..|s| - 1][2] == s[2] && s[2] in s[..|s| - 1];
      assert t[2] == s[2] && !("-->" <= t);
      var tail := s[1..];
      assert tail[|tail| - 3..] == "-->";
      assert s[..|s| - 1][1..] == tail[..|tail| - 1];
      assert t[1..] == tail + rest;
      CloseAtEnd(tail, rest);
    }
  }

  // What the encoder writes is a marker the decoder understands.
  lemma MarkerOf(c: Codings, s: State, marker: string)
    requires Lawful(c) && EncodeStateMarker(c, s) == Ok(marker)
    ensures Enclosed(marker) && STATE_PREFIX <= marker
    ensures |c.write(s)| <= MAX_STATE_LENGTH
    ensures ParseMarker(marker) == Some(Fields(Decimal(STATE_VERSION), c.digest(c.write(s)), c.base64(c.write(s))))
  {
    hide ParseMarker, Decimal, Enclosed, MarkerText;
    var payload := c.write(s);
    assert LawfulWrite(c, s) && LawfulDigest(c, payload) && LawfulBase64(c, payload);
    DecimalIsPlain(STATE_VERSION);
    MarkerShape(Decimal(STATE_VERSION), c.digest(payload), c.base64(payload));
    ParseMarkerText(Decimal(STATE_VERSION), c.digest(payload), c.base64(payload));
  }

  // A text whose only state marker stands between two decided parts.
  lemma DecodeMarked(c: Codings, s: State, before: string, marker: string, after: string)
    requires Lawful(c) && EncodeStateMarker(c, s) == Ok(marker)
    requires Decided(before, STATE_PREFIX) && Count(before, STATE_PREFIX) == 0
    requires Free(after, '<')
    ensures Count(before + (marker + after), STATE_PREFIX) == 1
    ensures DecodeStateMarker(c, before + (marker + after)) == Ok(s)
  {
    hide Count, IndexOf, Decided, ParseMarker, Decimal, EncodeStateMarker, TagPattern;
    MarkerOf(c, s, marker);
    PrefixIsTag();
    TagPiece(marker, STATE_PREFIX);
    PlainPiece(after, STATE_PREFIX);
    var source := before + (marker + after);
    CountJoin(before, marker + after, STATE_PREFIX);
    CountJoin(marker, after, STATE_PREFIX);
    assert STATE_PREFIX <= marker + after;
    IndexBehind(before, marker + after, STATE_PREFIX);
    assert source[|before|..] == marker + after;
    CloseAtEnd(marker, after);
    assert (marker + after)[..|marker|] == marker;
    assert LawfulWrite(c, s) && LawfulDigest(c, c.write(s)) && LawfulBase64(c, c.write(s));
  }

  lemma PrefixIsTag()
    ensures TagPattern(STATE_PREFIX)
  {
  }
}
