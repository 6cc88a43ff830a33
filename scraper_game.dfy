/** Match pages (`game/mod.rs`): the links of the match schedule, and the
    team names and final score of a match. */
module ScraperGame {
  import opened Wrappers
  import opened Text
  import opened ScraperSite

  // ---------------------------------------------------------------------
  // Schedule
  // ---------------------------------------------------------------------

  datatype GameSite = GameSite(url: string)

  /** `GameSite::new`: the site of a match, addressed by its relative path. */
  function NewGameSite(relative: string): GameSite {
    GameSite(SiteUrl(relative))
  }

  const NO_HREF: string := "Unable to find <href> attribute of game site."

  /** `GameSite::parse_match_schedule`, given the `href` attribute of every
      match link in document order (`None` where the link has none): one
      site per link, in the same order; a single link without `href` makes
      the whole schedule an error. */
  method ParseMatchSchedule(hrefs: seq<Option<string>>) returns (r: Result<seq<GameSite>>)
    ensures r.Ok? <==> forall i :: 0 <= i < |hrefs| ==> hrefs[i].Some?
    ensures r.Fail? ==> r == Err(NO_HREF)
    ensures r.Ok? ==>
      |r.value| == |hrefs| && forall i :: 0 <= i < |hrefs| ==> r.value[i] == NewGameSite(hrefs[i].value)
  {
    var sites: seq<GameSite> := [];
    for i := 0 to |hrefs|
      invariant |sites| == i
      invariant forall j :: 0 <= j < i ==> hrefs[j].Some? && sites[j] == NewGameSite(hrefs[j].value)
    {
      if hrefs[i].None? {
        return Err(NO_HREF);
      }
      sites := sites + [NewGameSite(hrefs[i].value)];
    }
    return Ok(sites);
  }

  // ---------------------------------------------------------------------
  // Score
  // ---------------------------------------------------------------------

  /** The two numbers the score regex `(\d+)(\D*)(\d+)` captures. */
  datatype ScoreMatch = ScoreMatch(first: string, second: string)

  /** The first match of `(\d+)(\D*)(\d+)`, found the way the leftmost-first
      regex engine finds it. The match starts at the first digit `p`, the
      only start that can succeed. The first group greedily takes the whole
      digit run `[p, e)` and the middle group every non-digit after it; if a
      digit `f` follows, the second group is the digit run from `f`.
      Otherwise the engine backtracks: the first group gives up its last
      digit, which becomes the whole second group, provided the run has at
      least two digits. With a one-digit run and no later digit there is no
      match at all. */
  function FindScore(s: string): (m: Option<ScoreMatch>)
    ensures m.Some? ==> m.value.first != [] && AllDigits(m.value.first)
    ensures m.Some? ==> m.value.second != [] && AllDigits(m.value.second)
  {
    var p := SkipNonDigits(s);
    if p == |s| then Option.None else ScoreFrom(s[p..])
  }

  /** The match starting at the digit `t[0]`. */
  function ScoreFrom(t: string): (m: Option<ScoreMatch>)
    requires t != [] && IsDigit(t[0])
    ensures m.Some? ==> m.value.first != [] && AllDigits(m.value.first)
    ensures m.Some? ==> m.value.second != [] && AllDigits(m.value.second)
  {
    var e := DigitRun(t);
    var second := NextNumber(t[e..]);
    if second.Some? then Some(ScoreMatch(t[..e], second.value))
    else if e >= 2 then
      assert t[e - 1..e] == [t[e - 1]];
      Some(ScoreMatch(t[..e - 1], t[e - 1..e]))
    else Option.None
  }

  /** The first digit run of `s`, if there is a digit in it. */
  function NextNumber(s: string): (r: Option<string>)
    ensures r.Some? ==> r.value != [] && AllDigits(r.value)
  {
    var g := SkipNonDigits(s);
    if g == |s| then Option.None else Some(s[g..][..DigitRun(s[g..])])
  }

  lemma NextNumberOf(sep: string, b: string, tail: string)
    requires NoDigits(sep)
    requires b != [] && AllDigits(b)
    requires tail == [] || !IsDigit(tail[0])
    ensures NextNumber(sep + (b + tail)) == Some(b)
  {
    SkipNonDigitsOf(sep, b + tail);
    assert (sep + (b + tail))[|sep|..] == b + tail;
    DigitRunOf(b, tail);
  }

  lemma NextNumberNone(s: string)
    requires NoDigits(s)
    ensures NextNumber(s) == Option.None
  {
    assert s == s + [];
    SkipNonDigitsOf(s, []);
  }

  const BAD_FIRST_SCORE: string := "Unable to parse score of first team ["
  const BAD_SECOND_SCORE: string := "Unable to parse score of second team ["

  /** `parse_score`: the two captured numbers as `u32`s. A text with no
      match makes `unwrap` panic; a number beyond `u32` is an error. */
  function ParseScore(text: string): (r: Result<(u32, u32)>)
    ensures r.IsPanic() <==> FindScore(text).None?
    ensures r.Ok? ==>
      && FindScore(text).Some?
      && DecimalValue(FindScore(text).value.first) == r.value.0
      && DecimalValue(FindScore(text).value.second) == r.value.1
  {
    var m := FindScore(text);
    if m.None? then Panics(UNWRAP_NONE)
    else
      var first := ParseUnsigned(m.value.first, U32_LIMIT);
      var second := ParseUnsigned(m.value.second, U32_LIMIT);
      if first.None? then Err(BAD_FIRST_SCORE + m.value.first + "].")
      else if second.None? then Err(BAD_SECOND_SCORE + m.value.second + "].")
      else Ok((first.value, second.value))
  }

  /** The usual layout: text without digits, the first number, a separator
      without digits, the second number, then anything not starting with a
      digit. */
  lemma FindScoreOf(w: string, a: string, sep: string, b: string, tail: string)
    requires NoDigits(w) && NoDigits(sep) && sep != []
    requires a != [] && AllDigits(a) && b != [] && AllDigits(b)
    requires tail == [] || !IsDigit(tail[0])
    ensures FindScore(w + a + sep + b + tail) == Some(ScoreMatch(a, b))
  {
    var t := a + (sep + (b + tail));
    assert w + a + sep + b + tail == w + t;
    SkipNonDigitsOf(w, t);
    assert (w + t)[|w|..] == t;
    ScoreFromOf(a, sep, b, tail);
  }

  lemma ScoreFromOf(a: string, sep: string, b: string, tail: string)
    requires NoDigits(sep) && sep != []
    requires a != [] && AllDigits(a) && b != [] && AllDigits(b)
    requires tail == [] || !IsDigit(tail[0])
    ensures ScoreFrom(a + (sep + (b + tail))) == Some(ScoreMatch(a, b))
  {
    var t := a + (sep + (b + tail));
    DigitRunOf(a, sep + (b + tail));
    assert t[|a|..] == sep + (b + tail);
    assert t[..|a|] == a;
    NextNumberOf(sep, b, tail);
  }

  /** Two digit strings of values in range separated by a separator
      without digits are read as their values. */
  lemma ParseScoreOfDigits(w: string, a: string, sep: string, b: string, tail: string)
    requires NoDigits(w) && NoDigits(sep) && sep != []
    requires a != [] && AllDigits(a) && b != [] && AllDigits(b)
    requires DecimalValue(a) < U32_LIMIT && DecimalValue(b) < U32_LIMIT
    requires tail == [] || !IsDigit(tail[0])
    ensures ParseScore(w + a + sep + b + tail) == Ok((DecimalValue(a), DecimalValue(b)))
  {
    FindScoreOf(w, a, sep, b, tail);
    DigitsParse(a);
    DigitsParse(b);
    BothInRangeParse(w + a + sep + b + tail, a, b);
  }

  /** Digits below the `u32` limit parse as their value. */
  lemma DigitsParse(d: string)
    requires d != [] && AllDigits(d) && DecimalValue(d) < U32_LIMIT
    ensures ParseUnsigned(d, U32_LIMIT) == Some(DecimalValue(d))
  {
    assert IsDigit(d[0]);
  }

  lemma BothInRangeParse(text: string, first: string, second: string)
    requires FindScore(text) == Some(ScoreMatch(first, second))
    requires ParseUnsigned(first, U32_LIMIT).Some? && ParseUnsigned(second, U32_LIMIT).Some?
    ensures ParseScore(text) == Ok((ParseUnsigned(first, U32_LIMIT).value, ParseUnsigned(second, U32_LIMIT).value))
  {
  }

  /** Two numbers in range separated by a separator without digits are read
      back as they were written. */
  lemma ParseScoreOf(w: string, a: u32, sep: string, b: u32, tail: string)
    requires NoDigits(w) && NoDigits(sep) && sep != []
    requires tail == [] || !IsDigit(tail[0])
    ensures ParseScore(w + NatToString(a) + sep + NatToString(b) + tail) == Ok((a, b))
  {
    NatToStringValue(a);
    NatToStringValue(b);
    ParseScoreOfDigits(w, NatToString(a), sep, NatToString(b), tail);
  }

  /** A first number beyond `u32` is an error, not a panic. */
  lemma ScoreOverflowIsError(a: nat, sep: string, b: u32)
    requires a >= U32_LIMIT
    requires NoDigits(sep) && sep != []
    ensures ParseScore(NatToString(a) + sep + NatToString(b)).IsError()
  {
    var first, second := NatToString(a), NatToString(b);
    var text := first + sep + second;
    assert text == [] + first + sep + second + [];
    FindScoreOf([], first, sep, second, []);
    ParseUnsignedOfString(a, U32_LIMIT);
    FirstOutOfRangeIsError(text, first, second);
  }

  lemma FirstOutOfRangeIsError(text: string, first: string, second: string)
    requires FindScore(text) == Some(ScoreMatch(first, second))
    requires ParseUnsigned(first, U32_LIMIT).None?
    ensures ParseScore(text).IsError()
  {
  }

  /** A text without any digit has no match, and `unwrap` panics. */
  lemma NoDigitsPanics(s: string)
    requires NoDigits(s)
    ensures ParseScore(s).IsPanic()
  {
    assert s == s + [];
    SkipNonDigitsOf(s, []);
  }

  /** A single run of digits is split before its last digit: the regex
      backtracks so that the second group gets one digit. */
  lemma SingleRunSplits(w: string, d: string, tail: string)
    requires NoDigits(w) && NoDigits(tail)
    requires |d| >= 2 && AllDigits(d)
    ensures FindScore(w + d + tail) == Some(ScoreMatch(d[..|d| - 1], d[|d| - 1..]))
  {
    var t := d + tail;
    assert w + d + tail == w + t;
    SkipNonDigitsOf(w, t);
    assert (w + t)[|w|..] == t;
    DigitRunOf(d, tail);
    assert t[|d|..] == tail;
    NextNumberNone(tail);
    assert t[..|d| - 1] == d[..|d| - 1] && t[|d| - 1..|d|] == d[|d| - 1..];
  }

  /** The score of a finished match as the page shows it. */
  lemma ExampleScore()
    ensures ParseScore("46:44") == Ok((46, 44))
  {
    assert NoDigits(":");
    assert "46:44" == [] + "46" + ":" + "44" + [];
    assert DecimalValue("46") == 46 by { assert "46"[..1] == "4"; }
    assert DecimalValue("44") == 44 by { assert "44"[..1] == "4"; }
    ParseScoreOfDigits([], "46", ":", "44", []);
  }

  // ---------------------------------------------------------------------
  // Match page
  // ---------------------------------------------------------------------

  datatype GameInfo = GameInfo(team1: string, score1: u32, team2: string, score2: u32)

  /** What the selectors of `ScraperGameInfo::parse_site` find: the inner
      HTML of every team-name element in document order, and that of the
      first result element, if any. */
  datatype GamePage = GamePage(teams: seq<string>, score: Option<string>)

  function NoFirstTeam(url: string): string { "Unable to get info about first team on site [" + url + "]." }
  function NoSecondTeam(url: string): string { "Unable to get info about second team on site [" + url + "]." }
  function NoScore(url: string): string { "Unable to get score at site [" + url + "]." }

  /** `ScraperGameInfo::parse_site`: the first two team names, trimmed, and
      the score of the result element; the lookups fail in order. */
  function ParseSite(page: GamePage, url: string): (r: Result<GameInfo>)
    ensures |page.teams| == 0 ==> r == Err(NoFirstTeam(url))
    ensures |page.teams| == 1 ==> r == Err(NoSecondTeam(url))
    ensures |page.teams| >= 2 && page.score.None? ==> r == Err(NoScore(url))
    ensures |page.teams| >= 2 && page.score.Some? ==>
      (r.Ok? <==> ParseScore(page.score.value).Ok?)
    ensures r.Ok? ==>
      && |page.teams| >= 2 && page.score.Some?
      && r.value.team1 == Trim(page.teams[0]) && r.value.team2 == Trim(page.teams[1])
      && ParseScore(page.score.value) == Ok((r.value.score1, r.value.score2))
  {
    if |page.teams| == 0 then Err(NoFirstTeam(url))
    else if |page.teams| == 1 then Err(NoSecondTeam(url))
    else if page.score.None? then Err(NoScore(url))
    else
      var score := ParseScore(page.score.value);
      if score.Fail? then Fail(score.failure)
      else Ok(GameInfo(Trim(page.teams[0]), score.value.0, Trim(page.teams[1]), score.value.1))
  }

  /** Team names padded with whitespace in the markup come out bare, and
      the score is that of the result element. */
  lemma ParseSiteOf(url: string, teams: seq<string>, pad: string, one: string, two: string, score: string)
    requires |teams| >= 2 && teams[0] == pad + one + pad && teams[1] == pad + two + pad
    requires AllWhitespace(pad)
    requires one != [] && !IsWhitespace(one[0]) && !IsWhitespace(one[|one| - 1])
    requires two != [] && !IsWhitespace(two[0]) && !IsWhitespace(two[|two| - 1])
    requires ParseScore(score).Ok?
    ensures ParseSite(GamePage(teams, Some(score)), url)
      == Ok(GameInfo(one, ParseScore(score).value.0, two, ParseScore(score).value.1))
  {
    TrimPadded(pad, one, pad);
    TrimPadded(pad, two, pad);
  }
}
