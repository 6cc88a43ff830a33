/** The heat table of a match page, `speedwayrs-scraper/src/game/run.rs`:
    fifteen runs, each with a lap time and four competitors wearing a
    coloured helmet.

    The page is given already selected: the inner HTML of every
    `.coventry__time` element and, for every `.competitor` element, what
    its name, score and helmet selectors found. */
module ScraperRun {
  import opened Wrappers
  import opened Text
  import SP = ScraperPlayer

  /** Number of runs of a match. */
  const RUN_COUNT: nat := 15
  /** Number of competitors of a run. */
  const COMPETITORS_PER_RUN: nat := 4

  // ---------------------------------------------------------------------
  // Helmets
  // ---------------------------------------------------------------------

  datatype Helmet = Red | Yellow | Blue | White

  /** `Helmet::try_parsing`: the first colour word the markup contains,
      tried in the order red, blue, yellow, white. */
  function HelmetOf(html: string): Option<Helmet> {
    if Contains(html, "red") then Some(Red)
    else if Contains(html, "blue") then Some(Blue)
    else if Contains(html, "yellow") then Some(Yellow)
    else if Contains(html, "white") then Some(White)
    else Option.None
  }

  function ColourName(h: Helmet): (name: string)
    ensures |name| >= 3
  {
    match h
    case Red => "red"
    case Yellow => "yellow"
    case Blue => "blue"
    case White => "white"
  }

  /** The helmet icon as the page writes it. */
  function HelmetFigure(h: Helmet): string {
    FIGURE_OPEN + ColourName(h) + FIGURE_CLOSE
  }

  const FIGURE_OPEN: string := "<figure class=\"icon-helmet "
  const FIGURE_CLOSE: string := "\"></figure>"

  predicate Lacks(s: string, c: char) {
    forall i :: 0 <= i < |s| ==> s[i] != c
  }

  /** Every helmet icon is read back as its own colour. */
  lemma HelmetOfFigure(h: Helmet)
    ensures HelmetOf(HelmetFigure(h)) == Some(h)
  {
    var html := HelmetFigure(h);
    assert OccursAt(html, ColourName(h), |FIGURE_OPEN|) by {
      assert html[|FIGURE_OPEN|..|FIGURE_OPEN| + |ColourName(h)|] == ColourName(h);
    }
    // The icon markup itself holds no `d`, `b` or `y`, so no colour word
    // other than the icon's own can occur in it.
    if h != Red {
      FigureLacks(h, 'd');
      Missing(html, "red", 2, 'd');
    }
    if h != Red && h != Blue {
      FigureLacks(h, 'b');
      Missing(html, "blue", 0, 'b');
    }
    if h == White {
      FigureLacks(h, 'y');
      Missing(html, "yellow", 0, 'y');
    }
  }

  lemma FigureLacks(h: Helmet, c: char)
    requires c == 'd' || c == 'b' || c == 'y'
    requires Lacks(ColourName(h), c)
    ensures Lacks(HelmetFigure(h), c)
  {
    assert Lacks(FIGURE_OPEN, c) && Lacks(FIGURE_CLOSE, c);
    LacksConcat(FIGURE_OPEN, ColourName(h), c);
    LacksConcat(FIGURE_OPEN + ColourName(h), FIGURE_CLOSE, c);
  }

  lemma LacksConcat(a: string, b: string, c: char)
    requires Lacks(a, c) && Lacks(b, c)
    ensures Lacks(a + b, c)
  {
    forall i | 0 <= i < |a + b|
      ensures (a + b)[i] != c
    {
      if i >= |a| {
        assert (a + b)[i] == b[i - |a|];
      }
    }
  }

  /** A pattern one of whose characters the text lacks does not occur in it. */
  lemma Missing(s: string, pattern: string, k: nat, c: char)
    requires k < |pattern| && pattern[k] == c
    requires Lacks(s, c)
    ensures !Contains(s, pattern)
  {
    forall i | 0 <= i <= |s| - |pattern|
      ensures !OccursAt(s, pattern, i)
    {
      if i + |pattern| <= |s| {
        assert s[i..i + |pattern|][k] == s[i + k];
      }
    }
  }

  // ---------------------------------------------------------------------
  // Lap times
  // ---------------------------------------------------------------------

  /** Whole seconds and hundredths. */
  type Time = (u16, u8)

  /** What the time pattern `(\d+)(.(\d+))? sek.` captures: the seconds and,
      when the optional group matched, the fraction. */
  datatype TimeMatch = TimeMatch(secs: string, fraction: Option<string>)

  /** ` sek` followed by any character but a newline, at position `i`. */
  predicate SekAt(s: string, i: nat) {
    i + 5 <= |s| && s[i] == ' ' && s[i + 1] == 's' && s[i + 2] == 'e' && s[i + 3] == 'k' && s[i + 4] != '\n'
  }

  /** The match of the time pattern whose seconds are the digit run
      `s[start..end]`. The greedy optional group is tried first: any
      character but a newline, then a digit run that must be followed by
      ` sek.`; without it, ` sek.` must follow the seconds. A shorter
      seconds run never helps, because the character after it is a digit. */
  function MatchAfterRun(s: string, start: nat, end: nat): (r: Option<TimeMatch>)
    requires start < end <= |s| && AllDigits(s[start..end])
    ensures r.Some? ==> r.value.secs == s[start..end]
    ensures r.Some? && r.value.fraction.Some? ==> r.value.fraction.value != [] && AllDigits(r.value.fraction.value)
  {
    var fracStart := end + 1;
    if fracStart < |s| && s[end] != '\n' && IsDigit(s[fracStart]) then
      var fracEnd := fracStart + DigitRun(s[fracStart..]);
      assert s[fracStart..fracEnd] == s[fracStart..][..DigitRun(s[fracStart..])];
      if SekAt(s, fracEnd) then Some(TimeMatch(s[start..end], Some(s[fracStart..fracEnd])))
      else if SekAt(s, end) then Some(TimeMatch(s[start..end], Option.None))
      else Option.None
    else if SekAt(s, end) then Some(TimeMatch(s[start..end], Option.None))
    else Option.None
  }

  /** Leftmost-first search for the time pattern from position `i`: every
      start inside one digit run leads to the same run end, so the search
      moves from run to run. */
  function FindTime(s: string, i: nat): (r: Option<TimeMatch>)
    requires i <= |s|
    ensures r.Some? ==> r.value.secs != [] && AllDigits(r.value.secs)
    ensures r.Some? && r.value.fraction.Some? ==> r.value.fraction.value != [] && AllDigits(r.value.fraction.value)
    decreases |s| - i
  {
    if i == |s| then Option.None
    else if !IsDigit(s[i]) then FindTime(s, i + 1)
    else
      var end := i + DigitRun(s[i..]);
      assert s[i..end] == s[i..][..DigitRun(s[i..])];
      var m := MatchAfterRun(s, i, end);
      if m.Some? then m else FindTime(s, end)
  }

  /** `parse_time`: an empty text has no time; otherwise the pattern must
      match and both numbers must fit their types, or the scraper panics.
      A missing fraction counts as zero. */
  function ParseTime(text: string): (r: Result<Option<Time>>)
    ensures !r.IsError()
    ensures r == Ok(Option.None) <==> text == []
  {
    if ByteLen(text) == 0 then Ok(Option.None)
    else
      var m := FindTime(text, 0);
      if m.None? then Panics("Unable to parse " + text)
      else TimeOf(m.value)
  }

  /** The two captures read as numbers of their types; a fraction that did
      not match reads as `"0"`. */
  function TimeOf(m: TimeMatch): (r: Result<Option<Time>>)
    ensures r.Ok? ==> r.value.Some?
    ensures !r.IsError()
  {
    var secs := ParseUnsigned(m.secs, U16_LIMIT);
    var fraction := ParseUnsigned(if m.fraction.Some? then m.fraction.value else "0", U8_LIMIT);
    if secs.None? || fraction.None? then Panics(UNWRAP_ERR)
    else Ok(Some((secs.value as u16, fraction.value as u8)))
  }

  /** ` sek.`, the unit after every time on the page. */
  const SEK: string := " sek."

  lemma SekAtUnit(prefix: string)
    ensures SekAt(prefix + SEK, |prefix|)
  {
    var s := prefix + SEK;
    assert s[|prefix|..] == SEK;
    assert s[|prefix| + 4] == SEK[4];
  }

  /** After the seconds of `d1.d2 sek.`, the optional group takes the
      hundredths. */
  lemma MatchWithFraction(s: string, d1: string, d2: string)
    requires d1 != [] && AllDigits(d1) && d2 != [] && AllDigits(d2)
    requires s == d1 + "." + d2 + SEK
    ensures AllDigits(s[0..|d1|])
    ensures MatchAfterRun(s, 0, |d1|) == Some(TimeMatch(d1, Some(d2)))
  {
    var fracStart := |d1| + 1;
    assert s[0..|d1|] == d1;
    assert s[|d1|] == '.';
    assert s[fracStart..] == d2 + SEK;
    DigitRunOf(d2, SEK);
    assert s[fracStart] == d2[0];
    assert s[fracStart..fracStart + |d2|] == d2;
    SekAtUnit(d1 + "." + d2);
  }

  /** The time pattern finds the seconds and the hundredths of `d1.d2 sek.`. */
  lemma FindTimeWithFraction(d1: string, d2: string)
    requires d1 != [] && AllDigits(d1) && d2 != [] && AllDigits(d2)
    ensures FindTime(d1 + "." + d2 + SEK, 0) == Some(TimeMatch(d1, Some(d2)))
  {
    var s := d1 + "." + d2 + SEK;
    assert s[|d1|] == '.';
    DigitRunOf(d1, s[|d1|..]);
    assert d1 + s[|d1|..] == s && s[0..] == s;
    MatchWithFraction(s, d1, d2);
  }

  /** The time pattern finds the seconds of `d sek.` and no fraction. */
  lemma FindTimeWithoutFraction(d: string)
    requires d != [] && AllDigits(d)
    ensures FindTime(d + SEK, 0) == Some(TimeMatch(d, Option.None))
  {
    var s := d + SEK;
    DigitRunOf(d, SEK);
    assert s[0..] == s;
    assert s[0..|d|] == d;
    assert s[|d| + 1] == 's';
    SekAtUnit(d);
  }

  /** The page's spelling of a time with hundredths is read back. */
  lemma TimeOfSpelling(secs: u16, fraction: u8)
    ensures ParseTime(NatToString(secs) + "." + NatToString(fraction) + SEK) == Ok(Some((secs, fraction)))
  {
    FindTimeWithFraction(NatToString(secs), NatToString(fraction));
    ParseUnsignedOfString(secs, U16_LIMIT);
    ParseUnsignedOfString(fraction, U8_LIMIT);
  }

  /** A time without hundredths reads as a fraction of zero. */
  lemma TimeWithoutFraction(secs: u16)
    ensures ParseTime(NatToString(secs) + SEK) == Ok(Some((secs, 0)))
  {
    FindTimeWithoutFraction(NatToString(secs));
    ParseUnsignedOfString(secs, U16_LIMIT);
    ParseUnsignedOfString(0, U8_LIMIT);
  }

  /** The page's example time. */
  lemma ExampleTime()
    ensures ParseTime("56.12 sek.") == Ok(Some((56, 12)))
  {
    assert NatToString(56) == "56";
    assert NatToString(12) == "12";
    assert "56.12 sek." == "56" + "." + "12" + SEK;
    TimeOfSpelling(56, 12);
  }

  /** Seconds beyond the range of `u16` make the scraper panic. */
  lemma TimeOverflowPanics(secs: nat)
    requires secs >= U16_LIMIT
    ensures ParseTime(NatToString(secs) + SEK).IsPanic()
  {
    FindTimeWithoutFraction(NatToString(secs));
    ParseUnsignedOfString(secs, U16_LIMIT);
  }

  // ---------------------------------------------------------------------
  // Names
  // ---------------------------------------------------------------------

  /** Leftmost-first search for `(\s)*(\S+) (\S+)`: the first token that is
      followed by exactly one space and then a non-whitespace character; the
      surname is the token after that space. */
  function FindName(s: string): Option<(string, string)>
    decreases |s|
  {
    var t := TrimStart(s);
    if t == [] then Option.None
    else
      var n := TokenLength(t);
      if n + 1 < |t| && t[n] == ' ' && !IsWhitespace(t[n + 1]) then
        var rest := t[n + 1..];
        Some((t[..n], rest[..TokenLength(rest)]))
      else FindName(t[n..])
  }

  /** `parse_name`: the name and surname joined by one space, or a panic
      when the pattern does not match. */
  function ParseName(text: string): (r: Result<string>)
    ensures !r.IsError()
  {
    var m := FindName(text);
    if m.None? then Panics("Unable to parse names from " + text + ".")
    else Ok(m.value.0 + " " + m.value.1)
  }

  /** A name and a surname separated by one space, after any indentation
      and before any trailing whitespace-led text, are read back joined by
      one space. */
  lemma ParseNameOf(w: string, name: string, surname: string, rest: string)
    requires AllWhitespace(w)
    requires name != [] && NoWhitespace(name) && surname != [] && NoWhitespace(surname)
    requires rest != [] ==> IsWhitespace(rest[0])
    ensures ParseName(w + name + " " + surname + rest) == Ok(name + " " + surname)
  {
    var body := name + " " + surname + rest;
    assert w + name + " " + surname + rest == w + body;
    TrimStartPadded(w, body);
    FindNameAt(name, surname, rest);
  }

  lemma FindNameAt(name: string, surname: string, rest: string)
    requires name != [] && NoWhitespace(name) && surname != [] && NoWhitespace(surname)
    requires rest != [] ==> IsWhitespace(rest[0])
    ensures TrimStart(name + " " + surname + rest) == name + " " + surname + rest
    ensures FindName(name + " " + surname + rest) == Some((name, surname))
  {
    var body := name + " " + surname + rest;
    NameLayout(name, surname, rest);
    FindNameFirst(body, |name|);
  }

  /** Where the name, the space and the surname sit in the text. */
  lemma NameLayout(name: string, surname: string, rest: string)
    requires name != [] && NoWhitespace(name) && surname != [] && NoWhitespace(surname)
    requires rest != [] ==> IsWhitespace(rest[0])
    ensures var body := name + " " + surname + rest;
      && TrimStart(body) == body && body != []
      && TokenLength(body) == |name| && |name| + 1 < |body|
      && body[|name|] == ' ' && !IsWhitespace(body[|name| + 1])
      && body[..|name|] == name
      && TokenLength(body[|name| + 1..]) == |surname|
      && body[|name| + 1..][..|surname|] == surname
  {
    var body := name + " " + surname + rest;
    var after := surname + rest;
    assert body == name + (" " + after);
    assert body == name + " " + after;
    TrimStartPadded([], body);
    assert [] + body == body;
    TokenLengthOf(name, " " + after);
    NameSplit(name, after);
    TokenLengthOf(surname, rest);
    assert after[..|surname|] == surname;
  }

  /** When the first token of a text without indentation is followed by one
      space and a non-whitespace character, the search stops there. */
  lemma FindNameFirst(t: string, n: nat)
    requires t != [] && TrimStart(t) == t && n == TokenLength(t)
    requires n + 1 < |t| && t[n] == ' ' && !IsWhitespace(t[n + 1])
    ensures FindName(t) == Some((t[..n], t[n + 1..][..TokenLength(t[n + 1..])]))
  {
  }

  lemma NameSplit(name: string, after: string)
    requires after != []
    ensures (name + " " + after)[|name|] == ' ' && (name + " " + after)[|name| + 1] == after[0]
    ensures (name + " " + after)[|name| + 1..] == after
    ensures (name + " " + after)[..|name|] == name
  {
  }

  /** Two spaces between name and surname defeat the pattern. */
  lemma DoubleSpacePanics(name: string, surname: string)
    requires name != [] && NoWhitespace(name) && surname != [] && NoWhitespace(surname)
    ensures ParseName(name + "  " + surname).IsPanic()
  {
    var gap := "  ";
    var s := name + gap + surname;
    assert s == name + (gap + surname);
    TrimStartPadded([], s);
    assert [] + s == s;
    TokenLengthOf(name, gap + surname);
    assert s[|name|..] == gap + surname;
    assert s[|name| + 1] == ' ';
    assert AllWhitespace(gap);
    LoneTokenHasNoName(gap, surname);
  }

  /** Whitespace followed by a single token holds no name and surname. */
  lemma LoneTokenHasNoName(w: string, token: string)
    requires AllWhitespace(w) && token != [] && NoWhitespace(token)
    ensures FindName(w + token) == Option.None
  {
    TrimStartPadded(w, token);
    TokenLengthOf(token, []);
    assert token + [] == token;
    assert FindName(token[|token|..]) == Option.None;
  }

  // ---------------------------------------------------------------------
  // Competitors
  // ---------------------------------------------------------------------

  /** What the selectors found inside one `.competitor` element: the inner
      HTML of the name and score elements and the markup of the helmet. */
  datatype CompetitorElement = CompetitorElement(name: Option<string>, score: Option<string>, helmet: Option<string>)

  datatype PlayerRunScore = PlayerRunScore(name: string, score: SP.PlayerScore, helmet: Option<Helmet>)

  /** `&s[0..2]` on a text of more than two bytes: the characters of its
      first two bytes, or a panic when byte 2 falls inside a character. */
  function FirstTwoBytes(s: string): (r: Result<string>)
    requires ByteLen(s) > 2
    ensures r.Ok? ==> ByteLen(r.value) == 2 && |r.value| <= |s| && r.value == s[..|r.value|]
    ensures !r.IsError()
  {
    if Utf8Len(s[0]) == 2 then Ok(s[..1])
    else if Utf8Len(s[0]) == 1 && Utf8Len(s[1]) == 1 then Ok(s[..2])
    else Panics("byte index 2 is not a char boundary")
  }

  /** The panic happens exactly when no prefix of the text is two bytes long. */
  lemma FirstTwoBytesPanics(s: string, k: nat)
    requires ByteLen(s) > 2 && k <= |s|
    requires FirstTwoBytes(s).IsPanic()
    ensures ByteLen(s[..k]) != 2
  {
    if k >= 2 {
      var p := s[..k];
      assert p[0] == s[0] && p[1..][0] == s[1];
      assert ByteLen(p) == Utf8Len(s[0]) + ByteLen(p[1..]);
      assert ByteLen(p[1..]) == Utf8Len(s[1]) + ByteLen(p[1..][1..]);
    } else if k == 1 {
      assert s[..1][1..] == [];
    }
  }

  /** The result text of a competitor: trimmed, and cut to two bytes when
      longer. */
  function ScoreText(raw: string): (r: Result<string>)
    ensures !r.IsError()
    ensures r.Ok? ==> ByteLen(r.value) <= 2 && |r.value| <= |Trim(raw)| && r.value == Trim(raw)[..|r.value|]
  {
    var trimmed := Trim(raw);
    if ByteLen(trimmed) <= 2 then Ok(trimmed) else FirstTwoBytes(trimmed)
  }

  /** `parse_competitor`: a missing name, score or helmet element is an
      error; a name the pattern rejects or a cut inside a character panics;
      a result code that does not decode is an error. */
  function ParseCompetitor(e: CompetitorElement): (r: Result<PlayerRunScore>)
    ensures e.name.None? ==> r.IsError()
    ensures r.Ok? ==> e.name.Some? && e.score.Some? && e.helmet.Some?
    ensures r.Ok? ==> r.value.helmet == HelmetOf(e.helmet.value)
  {
    if e.name.None? then Err("Unable to load player name.")
    else
      var name := ParseName(e.name.value);
      if name.Fail? then Fail(name.failure)
      else if e.score.None? then Err("Unable to load player's score.")
      else
        var text := ScoreText(e.score.value);
        if text.Fail? then Fail(text.failure)
        else
          var score := SP.ParseScore(text.value);
          if score.Fail? then Fail(score.failure)
          else if e.helmet.None? then Err("Unable to find helmet color.")
          else Ok(PlayerRunScore(name.value, score.value, HelmetOf(e.helmet.value)))
  }

  /** A result code of at most two characters survives the cut and is read
      back, whatever whitespace surrounds it. */
  lemma ShortCodeReadBack(s: SP.PlayerScore, w1: string, w2: string)
    requires AllWhitespace(w1) && AllWhitespace(w2)
    requires ByteLen(SP.Render(s)) <= 2
    ensures ScoreText(w1 + SP.Render(s) + w2) == Ok(SP.Render(s))
    ensures SP.ParseScore(SP.Render(s)) == Ok(s)
  {
    TrimPadded(w1, SP.Render(s), w2);
    SP.ParseRender(s, [], []);
    assert [] + SP.Render(s) + [] == SP.Render(s);
  }

  /** The cut keeps two characters of a longer code: a two-digit score with
      a bonus star loses its star. */
  lemma StarCutOff(d1: char, d2: char)
    requires IsDigit(d1) && IsDigit(d2)
    ensures ScoreText([d1, d2, '*']) == Ok([d1, d2])
  {
    var code := [d1, d2, '*'];
    TrimUnpadded(code);
    assert code[2..][1..] == [];
    assert ByteLen(code[2..]) == 1;
    assert code[1..][1..] == code[2..];
    assert ByteLen(code[1..]) == 2;
    assert ByteLen(code) == 3;
    assert code[..2] == [d1, d2];
  }

  /** A complete competitor entry is read back. */
  lemma CompetitorOf(name: string, surname: string, s: SP.PlayerScore, h: Helmet)
    requires name != [] && NoWhitespace(name) && surname != [] && NoWhitespace(surname)
    requires ByteLen(SP.Render(s)) <= 2
    ensures ParseCompetitor(CompetitorElement(Some(name + " " + surname), Some(SP.Render(s)), Some(HelmetFigure(h))))
      == Ok(PlayerRunScore(name + " " + surname, s, Some(h)))
  {
    JoinedNameReadBack(name, surname);
    CodeReadBack(s);
    HelmetOfFigure(h);
    CompetitorOfParts(name + " " + surname, SP.Render(s), HelmetFigure(h));
  }

  lemma JoinedNameReadBack(name: string, surname: string)
    requires name != [] && NoWhitespace(name) && surname != [] && NoWhitespace(surname)
    ensures ParseName(name + " " + surname) == Ok(name + " " + surname)
  {
    ParseNameOf([], name, surname, []);
    assert [] + name + " " + surname + [] == name + " " + surname;
  }

  lemma CodeReadBack(s: SP.PlayerScore)
    requires ByteLen(SP.Render(s)) <= 2
    ensures ScoreText(SP.Render(s)) == Ok(SP.Render(s))
    ensures SP.ParseScore(SP.Render(s)) == Ok(s)
  {
    var code := SP.Render(s);
    assert [] + code + [] == code;
    ShortCodeReadBack(s, [], []);
  }

  /** A competitor whose name parses, whose code survives the cut unchanged
      and decodes, and whose helmet element is present is read. */
  lemma CompetitorOfParts(name: string, code: string, helmet: string)
    requires ParseName(name) == Ok(name)
    requires ScoreText(code) == Ok(code) && SP.ParseScore(code).Ok?
    ensures ParseCompetitor(CompetitorElement(Some(name), Some(code), Some(helmet)))
      == Ok(PlayerRunScore(name, SP.ParseScore(code).value, HelmetOf(helmet)))
  {
  }

  // ---------------------------------------------------------------------
  // Runs
  // ---------------------------------------------------------------------

  datatype Run = Run(number: u8, time: Option<Time>, scores: seq<PlayerRunScore>)

  /** The first `count` elements, each read and unwrapped: a missing element
      or one that does not read makes the scraper panic. */
  function TakeEach<E, T>(elements: seq<E>, count: nat, read: E -> Result<T>): (r: Result<seq<T>>)
    ensures !r.IsError()
    ensures r.Ok? ==> |elements| >= count && |r.value| == count
    decreases count
  {
    if count == 0 then Ok([])
    else if elements == [] then Panics(UNWRAP_NONE)
    else
      var c := read(elements[0]);
      if c.Fail? then Panics(c.failure.reason)
      else Prepend([c.value], TakeEach(elements[1..], count - 1, read))
  }

  /** The values read are those of the first `count` elements, in order. */
  lemma {:induction false} TakeEachValues<E, T>(elements: seq<E>, count: nat, read: E -> Result<T>)
    requires TakeEach(elements, count, read).Ok?
    ensures forall i :: 0 <= i < count ==> read(elements[i]) == Ok(TakeEach(elements, count, read).value[i])
    decreases count
  {
    if count > 0 {
      var r := TakeEach(elements, count, read).value;
      var rest := TakeEach(elements[1..], count - 1, read);
      TakeEachValues(elements[1..], count - 1, read);
      assert r == [read(elements[0]).value] + rest.value;
      forall i | 0 <= i < count
        ensures read(elements[i]) == Ok(r[i])
      {
        if i > 0 {
          assert elements[1..][i - 1] == elements[i];
        }
      }
    }
  }

  /** `prefix` in front of a successful result; a failure is kept. */
  function Prepend<T>(prefix: seq<T>, r: Result<seq<T>>): (p: Result<seq<T>>)
    ensures p.Ok? <==> r.Ok?
    ensures p.Ok? ==> p.value == prefix + r.value
    ensures p.Fail? ==> p == r
  {
    if r.Fail? then r else Ok(prefix + r.value)
  }

  lemma PrependNothing<T>(r: Result<seq<T>>)
    ensures Prepend([], r) == r
  {
    if r.Ok? {
      assert [] + r.value == r.value;
    }
  }

  lemma PrependTwice<T>(p: seq<T>, q: seq<T>, r: Result<seq<T>>)
    ensures Prepend(p, Prepend(q, r)) == Prepend(p + q, r)
  {
    if r.Ok? {
      assert p + (q + r.value) == (p + q) + r.value;
    }
  }

  /** The run numbered `number` read from the remaining time and competitor
      elements with `readTime` (`parse_time`) and `readCompetitor`
      (`parse_competitor`): the next time, then the next four competitors. */
  function NextRun(number: u8, times: seq<string>, elements: seq<CompetitorElement>,
                   readTime: string -> Result<Option<Time>>,
                   readCompetitor: CompetitorElement -> Result<PlayerRunScore>): (r: Result<Run>)
    ensures !r.IsError()
    ensures r.Ok? ==> |times| >= 1 && |elements| >= COMPETITORS_PER_RUN && |r.value.scores| == COMPETITORS_PER_RUN
    ensures r.Ok? ==> r.value.number == number && readTime(times[0]) == Ok(r.value.time)
  {
    if times == [] then Panics(UNWRAP_NONE)
    else
      var time := readTime(times[0]);
      if time.Fail? then Panics(time.failure.reason)
      else
        var scores := TakeEach(elements, COMPETITORS_PER_RUN, readCompetitor);
        if scores.Fail? then Fail(scores.failure)
        else Ok(Run(number, time.value, scores.value))
  }

  /** What draining an iterator with `remaining` runs left yields: the runs
      numbered `remaining` down to 1, or the first panic; it never yields a
      recoverable error, and it succeeds only with a time element per run
      and four competitor elements per run. */
  function Runs(remaining: u8, times: seq<string>, elements: seq<CompetitorElement>,
                readTime: string -> Result<Option<Time>>,
                readCompetitor: CompetitorElement -> Result<PlayerRunScore>): (r: Result<seq<Run>>)
    ensures !r.IsError()
    ensures r.Ok? ==> |times| >= remaining as nat && |elements| >= COMPETITORS_PER_RUN * remaining as nat
    decreases remaining
  {
    if remaining == 0 then Ok([])
    else
      var run := NextRun(remaining, times, elements, readTime, readCompetitor);
      if run.Fail? then Fail(run.failure)
      else Prepend([run.value], Runs(remaining - 1, times[1..], elements[COMPETITORS_PER_RUN..], readTime, readCompetitor))
  }

  /** The loop of `next` that unwraps the next `count` elements, returning
      what it read and the elements left. */
  method ReadEach<E, T>(elements: seq<E>, count: nat, read: E -> Result<T>) returns (r: Result<seq<T>>, left: seq<E>)
    ensures r == TakeEach(elements, count, read)
    ensures r.Ok? ==> left == elements[count..]
  {
    var values: seq<T> := [];
    left := elements;
    PrependNothing(TakeEach(elements, count, read));
    for k := 0 to count
      invariant TakeEach(elements, count, read) == Prepend(values, TakeEach(left, count - k, read))
      invariant k <= |elements| && left == elements[k..]
    {
      if left == [] {
        return Panics(UNWRAP_NONE), left;
      }
      var value := read(left[0]);
      if value.Fail? {
        return Panics(value.failure.reason), left;
      }
      PrependTwice(values, [value.value], TakeEach(left[1..], count - k - 1, read));
      values := values + [value.value];
      left := left[1..];
    }
    assert values + [] == values;
    r := Ok(values);
  }

  /** `RunIterator`: a countdown of the runs still to read and the
      unconsumed time and competitor elements of the run list. The two
      element readers are fixed when the iterator is made: `parse_time` and
      `parse_competitor`. */
  class RunIterator {
    var remaining: u8
    var times: seq<string>
    var elements: seq<CompetitorElement>
    const readTime: string -> Result<Option<Time>>
    const readCompetitor: CompetitorElement -> Result<PlayerRunScore>

    /** `RunIterator::new` on the run list found on the page. */
    constructor (times: seq<string>, elements: seq<CompetitorElement>)
      ensures remaining as nat == RUN_COUNT
      ensures this.times == times && this.elements == elements
      ensures readTime == ParseTime && readCompetitor == ParseCompetitor
    {
      remaining := RUN_COUNT as u8;
      this.times := times;
      this.elements := elements;
      readTime := ParseTime;
      readCompetitor := ParseCompetitor;
    }

    /** `Iterator::next`: nothing once the countdown is over; otherwise the
        run numbered by the countdown, which then moves down by one. Every
        failure on the way is an `unwrap` and so a panic. */
    method Next() returns (r: Result<Option<Run>>)
      modifies this
      ensures old(remaining) == 0 ==> r == Ok(Option.None) && unchanged(this)
      ensures old(remaining) > 0 && r.Fail? ==>
        NextRun(old(remaining), old(times), old(elements), readTime, readCompetitor) == Fail(r.failure)
      ensures old(remaining) > 0 && r.Ok? ==>
        NextRun(old(remaining), old(times), old(elements), readTime, readCompetitor).Ok?
        && r.value == Some(NextRun(old(remaining), old(times), old(elements), readTime, readCompetitor).value)
      ensures old(remaining) > 0 && r.Ok? ==>
        remaining == old(remaining) - 1
        && times == old(times)[1..]
        && elements == old(elements)[COMPETITORS_PER_RUN..]
    {
      if remaining == 0 {
        return Ok(Option.None);
      }
      var number := remaining;
      remaining := remaining - 1;
      if times == [] {
        return Panics(UNWRAP_NONE);
      }
      var time := readTime(times[0]);
      times := times[1..];
      if time.Fail? {
        return Panics(time.failure.reason);
      }
      var scores, left := ReadEach(elements, COMPETITORS_PER_RUN, readCompetitor);
      elements := left;
      if scores.Fail? {
        return Fail(scores.failure);
      }
      r := Ok(Some(Run(number, time.value, scores.value)));
    }
  }

  /** `run_iterator(..).collect()`: every run until the countdown is over. */
  method CollectRuns(it: RunIterator) returns (r: Result<seq<Run>>)
    modifies it
    ensures r == Runs(old(it.remaining), old(it.times), old(it.elements), it.readTime, it.readCompetitor)
  {
    var runs: seq<Run> := [];
    PrependNothing(Runs(it.remaining, it.times, it.elements, it.readTime, it.readCompetitor));
    while true
      invariant Runs(old(it.remaining), old(it.times), old(it.elements), it.readTime, it.readCompetitor)
        == Prepend(runs, Runs(it.remaining, it.times, it.elements, it.readTime, it.readCompetitor))
      decreases it.remaining
    {
      ghost var remaining, times, elements := it.remaining, it.times, it.elements;
      var next := it.Next();
      if next.Fail? {
        return Fail(next.failure);
      }
      if next.value.None? {
        assert runs + [] == runs;
        return Ok(runs);
      }
      RunsAdvance(runs, remaining, times, elements, it.readTime, it.readCompetitor);
      runs := runs + [next.value.value];
    }
  }

  /** Taking one run off the iterator moves it from the rest onto the runs collected so far. */
  lemma RunsAdvance(runs: seq<Run>, remaining: u8, times: seq<string>, elements: seq<CompetitorElement>,
                    readTime: string -> Result<Option<Time>>,
                    readCompetitor: CompetitorElement -> Result<PlayerRunScore>)
    requires remaining > 0 && NextRun(remaining, times, elements, readTime, readCompetitor).Ok?
    ensures Prepend(runs, Runs(remaining, times, elements, readTime, readCompetitor))
      == Prepend(runs + [NextRun(remaining, times, elements, readTime, readCompetitor).value],
                 Runs(remaining - 1, times[1..], elements[COMPETITORS_PER_RUN..], readTime, readCompetitor))
  {
    RunsStep(remaining, times, elements, readTime, readCompetitor);
    PrependTwice(runs, [NextRun(remaining, times, elements, readTime, readCompetitor).value],
                 Runs(remaining - 1, times[1..], elements[COMPETITORS_PER_RUN..], readTime, readCompetitor));
  }

  /** One step of draining: the next run, then the rest. */
  lemma RunsStep(remaining: u8, times: seq<string>, elements: seq<CompetitorElement>,
                 readTime: string -> Result<Option<Time>>,
                 readCompetitor: CompetitorElement -> Result<PlayerRunScore>)
    requires remaining > 0 && NextRun(remaining, times, elements, readTime, readCompetitor).Ok?
    ensures Runs(remaining, times, elements, readTime, readCompetitor)
      == Prepend([NextRun(remaining, times, elements, readTime, readCompetitor).value],
                 Runs(remaining - 1, times[1..], elements[COMPETITORS_PER_RUN..], readTime, readCompetitor))
  {
  }

  /** The runs come numbered from the countdown down to 1, each with four
      competitors; run `k` holds the time of time element `k` and the
      competitors of elements `4k` to `4k + 3`, in document order. */
  lemma {:induction false} RunsNumbered(remaining: u8, times: seq<string>, elements: seq<CompetitorElement>,
                                        readTime: string -> Result<Option<Time>>,
                                        readCompetitor: CompetitorElement -> Result<PlayerRunScore>)
    requires Runs(remaining, times, elements, readTime, readCompetitor).Ok?
    ensures |Runs(remaining, times, elements, readTime, readCompetitor).value| == remaining as nat
    ensures forall k :: 0 <= k < remaining as nat ==>
      RunAt(Runs(remaining, times, elements, readTime, readCompetitor).value[k], remaining as nat - k,
            times, elements, k, readTime, readCompetitor)
    decreases remaining
  {
    if remaining > 0 {
      var first := NextRun(remaining, times, elements, readTime, readCompetitor).value;
      var rest := Runs(remaining - 1, times[1..], elements[COMPETITORS_PER_RUN..], readTime, readCompetitor);
      RunsNumbered(remaining - 1, times[1..], elements[COMPETITORS_PER_RUN..], readTime, readCompetitor);
      var runs := Runs(remaining, times, elements, readTime, readCompetitor).value;
      assert runs == [first] + rest.value;
      FirstRunAt(remaining, times, elements, readTime, readCompetitor);
      forall k | 0 <= k < remaining as nat
        ensures RunAt(runs[k], remaining as nat - k, times, elements, k, readTime, readCompetitor)
      {
        if k > 0 {
          assert runs[k] == rest.value[k - 1];
          RunAtShift(runs[k], remaining as nat - k, times, elements, k, readTime, readCompetitor);
        }
      }
    }
  }

  /** Run `k` of the drained sequence: its number, its time and its four
      competitors. */
  predicate RunAt(run: Run, number: nat, times: seq<string>, elements: seq<CompetitorElement>, k: nat,
                  readTime: string -> Result<Option<Time>>,
                  readCompetitor: CompetitorElement -> Result<PlayerRunScore>)
  {
    run.number as nat == number
    && k < |times| && readTime(times[k]) == Ok(run.time)
    && |run.scores| == COMPETITORS_PER_RUN
    && COMPETITORS_PER_RUN * (k + 1) <= |elements|
    && forall j :: 0 <= j < COMPETITORS_PER_RUN ==>
         readCompetitor(elements[COMPETITORS_PER_RUN * k + j]) == Ok(run.scores[j])
  }

  lemma FirstRunAt(remaining: u8, times: seq<string>, elements: seq<CompetitorElement>,
                   readTime: string -> Result<Option<Time>>,
                   readCompetitor: CompetitorElement -> Result<PlayerRunScore>)
    requires remaining > 0 && NextRun(remaining, times, elements, readTime, readCompetitor).Ok?
    ensures RunAt(NextRun(remaining, times, elements, readTime, readCompetitor).value, remaining as nat,
                  times, elements, 0, readTime, readCompetitor)
  {
    TakeEachValues(elements, COMPETITORS_PER_RUN, readCompetitor);
  }

  /** A run found at position `k - 1` after the first run's elements is at
      position `k` of the whole input. */
  lemma RunAtShift(run: Run, number: nat, times: seq<string>, elements: seq<CompetitorElement>, k: nat,
                   readTime: string -> Result<Option<Time>>,
                   readCompetitor: CompetitorElement -> Result<PlayerRunScore>)
    requires k > 0 && |times| >= 1 && |elements| >= COMPETITORS_PER_RUN
    requires RunAt(run, number, times[1..], elements[COMPETITORS_PER_RUN..], k - 1, readTime, readCompetitor)
    ensures RunAt(run, number, times, elements, k, readTime, readCompetitor)
  {
    assert times[1..][k - 1] == times[k];
    forall j | 0 <= j < COMPETITORS_PER_RUN
      ensures readCompetitor(elements[COMPETITORS_PER_RUN * k + j]) == Ok(run.scores[j])
    {
      assert elements[COMPETITORS_PER_RUN..][COMPETITORS_PER_RUN * (k - 1) + j] == elements[COMPETITORS_PER_RUN * k + j];
    }
  }

  /** A fresh iterator yields exactly fifteen runs, numbered 15 down to 1. */
  lemma FifteenRuns(times: seq<string>, elements: seq<CompetitorElement>)
    requires Runs(RUN_COUNT as u8, times, elements, ParseTime, ParseCompetitor).Ok?
    ensures |Runs(RUN_COUNT as u8, times, elements, ParseTime, ParseCompetitor).value| == 15
    ensures Runs(RUN_COUNT as u8, times, elements, ParseTime, ParseCompetitor).value[0].number == 15
    ensures Runs(RUN_COUNT as u8, times, elements, ParseTime, ParseCompetitor).value[14].number == 1
  {
    RunsNumbered(RUN_COUNT as u8, times, elements, ParseTime, ParseCompetitor);
  }
}
