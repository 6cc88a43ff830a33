/** Seasons (`season.rs`): the year of each season the site lists and the
    address of its schedule. */
module ScraperSeason {
  import opened Wrappers
  import opened Text
  import opened ScraperSite

  datatype Season = Season(year: u32, site: string)

  // ---------------------------------------------------------------------
  // Year
  // ---------------------------------------------------------------------

  /** The literal part of the regex `Sezon (\d+)` occurs at `i`. */
  predicate SezonAt(s: string, i: nat) {
    && i + 6 <= |s|
    && s[i] == 'S' && s[i + 1] == 'e' && s[i + 2] == 'z'
    && s[i + 3] == 'o' && s[i + 4] == 'n' && s[i + 5] == ' '
  }

  /** The capture of the first match of `Sezon (\d+)` at or after `i`: the
      first `"Sezon "` (case-sensitive) followed by a digit, and the whole
      digit run after it, since `\d+` is greedy. */
  function FindSeasonFrom(s: string, i: nat): (r: Option<string>)
    requires i <= |s|
    ensures r.Some? ==> r.value != [] && AllDigits(r.value)
    decreases |s| - i
  {
    if i + 6 >= |s| then Option.None
    else if SezonAt(s, i) && IsDigit(s[i + 6]) then Some(s[i + 6..][..DigitRun(s[i + 6..])])
    else FindSeasonFrom(s, i + 1)
  }

  function FindSeason(s: string): Option<string> {
    FindSeasonFrom(s, 0)
  }

  function InvalidSeasonText(s: string): string {
    "Season string is invalid. Expected 'SEZON {}'. GOT [" + s + "]."
  }

  function InvalidSeasonNumber(season: string): string {
    "Season number is invalid. Got [" + season + "]"
  }

  /** `Season::new`: the year captured from the text, trimmed and read as a
      `u32`, and the site of the relative path. No match, or a year beyond
      `u32`, is an error. */
  function NewSeason(text: string, relative: string): (r: Result<Season>)
    ensures FindSeason(text).None? ==> r == Err(InvalidSeasonText(text))
    ensures FindSeason(text).Some? && DecimalValue(FindSeason(text).value) >= U32_LIMIT ==>
      r == Err(InvalidSeasonNumber(FindSeason(text).value))
    ensures r.Ok? ==>
      && FindSeason(text).Some?
      && r.value.year == DecimalValue(FindSeason(text).value)
      && r.value.site == SiteUrl(relative)
  {
    var season := FindSeason(text);
    if season.None? then Err(InvalidSeasonText(text))
    else
      DigitsAreTrimmed(season.value);
      var year := ParseUnsigned(Trim(season.value), U32_LIMIT);
      if year.None? then Err(InvalidSeasonNumber(season.value))
      else Ok(Season(year.value, SiteUrl(relative)))
  }

  /** Digits carry no surrounding whitespace, so `trim` leaves a captured
      year alone, and a non-empty run parses exactly when its value fits. */
  lemma DigitsAreTrimmed(d: string)
    requires d != [] && AllDigits(d)
    ensures Trim(d) == d
    ensures ParseUnsigned(d, U32_LIMIT).Some? <==> DecimalValue(d) < U32_LIMIT
    ensures ParseUnsigned(d, U32_LIMIT).Some? ==> ParseUnsigned(d, U32_LIMIT).value == DecimalValue(d)
  {
    assert IsDigit(d[0]) && IsDigit(d[|d| - 1]);
    TrimUnpadded(d);
  }

  /** Positions without an `S` cannot start a match and are skipped. */
  lemma {:induction false} SkipWithoutS(s: string, i: nat, k: nat)
    requires i <= k <= |s|
    requires forall j :: i <= j < k ==> s[j] != 'S'
    ensures FindSeasonFrom(s, i) == FindSeasonFrom(s, k)
    decreases k - i
  {
    if i < k && i + 6 < |s| {
      SkipWithoutS(s, i + 1, k);
    } else if i < k {
      SkipWithoutS(s, i + 1, k);
    }
  }

  /** The first match after text with no `S` is the digit run after
      `"Sezon "`. */
  lemma FindSeasonOf(w: string, d: string, tail: string)
    requires forall j :: 0 <= j < |w| ==> w[j] != 'S'
    requires d != [] && AllDigits(d)
    requires tail == [] || !IsDigit(tail[0])
    ensures FindSeason(w + "Sezon " + d + tail) == Some(d)
  {
    var s := w + "Sezon " + d + tail;
    SkipWithoutS(s, 0, |w|);
    assert SezonAt(s, |w|);
    assert s[|w| + 6..] == d + tail;
    DigitRunOf(d, tail);
  }

  /** A year written after `"Sezon "`, in text with no earlier `S`, is read
      back, and the season is addressed by its relative path. */
  lemma NewSeasonOf(w: string, year: u32, tail: string, relative: string)
    requires forall j :: 0 <= j < |w| ==> w[j] != 'S'
    requires tail == [] || !IsDigit(tail[0])
    ensures NewSeason(w + "Sezon " + NatToString(year) + tail, relative) == Ok(Season(year, SiteUrl(relative)))
  {
    FindSeasonOf(w, NatToString(year), tail);
    NatToStringValue(year);
    DigitsAreTrimmed(NatToString(year));
  }

  /** The regex is case-sensitive: an upper-case `SEZON` matches nothing. */
  lemma UpperCaseIsError(year: u32, relative: string)
    ensures NewSeason("SEZON " + NatToString(year), relative).IsError()
  {
    var s := "SEZON " + NatToString(year);
    assert !SezonAt(s, 0);
    forall j | 1 <= j < |s|
      ensures s[j] != 'S'
    {
      if j >= 6 {
        assert s[j] == NatToString(year)[j - 6];
        assert IsDigit(s[j]);
      }
    }
    SkipWithoutS(s, 1, |s|);
  }

  /** A year beyond `u32` is an error naming the captured digits. */
  lemma YearOverflowIsError(year: nat, relative: string)
    requires year >= U32_LIMIT
    ensures NewSeason("Sezon " + NatToString(year), relative) == Err(InvalidSeasonNumber(NatToString(year)))
  {
    var d := NatToString(year);
    var s := "Sezon " + d;
    assert SezonAt(s, 0);
    assert s[6..] == d + [];
    DigitRunOf(d, []);
    NatToStringValue(year);
  }

  // ---------------------------------------------------------------------
  // Season list
  // ---------------------------------------------------------------------

  const NO_CURRENT_SEASON: string := "Unable to find current season info."
  const NO_DROPDOWN: string := "Unable to find dropdown menu with season dates."
  const NO_ANCHOR: string := "Unable to find <a> element."
  const NO_HREF: string := "Unable to find <href> element."

  /** `Season::parse_current_season`, given the inner HTML of the current
      season's label if the page has one: that season lives on the main
      schedule page. */
  function ParseCurrentSeason(info: Option<string>): (r: Result<Season>)
    ensures info.None? ==> r == Err(NO_CURRENT_SEASON)
    ensures r.Ok? ==> r.value.site == SiteUrl(RELATIVE_MAIN)
  {
    if info.None? then Err(NO_CURRENT_SEASON) else NewSeason(info.value, RELATIVE_MAIN)
  }

  /** The link of a dropdown item: its text and its `href`, if any. */
  datatype Anchor = Anchor(text: string, href: Option<string>)

  /** What the selectors of `Season::parse_site` find on the main page: the
      current season's label, and the first link of every item of the
      season dropdown (`None` for an item without a link), or `None` when
      the dropdown is missing. */
  datatype SeasonsPage = SeasonsPage(current: Option<string>, dropdown: Option<seq<Option<Anchor>>>)

  /** One dropdown item: its link, then the link's `href`, then the season
      its text names. */
  function ReadItem(item: Option<Anchor>): (r: Result<Season>)
    ensures item.None? ==> r == Err(NO_ANCHOR)
    ensures item.Some? && item.value.href.None? ==> r == Err(NO_HREF)
    ensures r.Ok? ==> r.value.site == SiteUrl(item.value.href.value)
  {
    if item.None? then Err(NO_ANCHOR)
    else if item.value.href.None? then Err(NO_HREF)
    else NewSeason(item.value.text, item.value.href.value)
  }

  /** `Season::parse_site` after the page has been fetched: the current
      season first, then one season per dropdown item in document order;
      the first lookup that fails makes the whole list an error. */
  method ParseSite(page: SeasonsPage) returns (r: Result<seq<Season>>)
    ensures ParseCurrentSeason(page.current).Fail? ==> r == Fail(ParseCurrentSeason(page.current).failure)
    ensures ParseCurrentSeason(page.current).Ok? && page.dropdown.None? ==> r == Err(NO_DROPDOWN)
    ensures r.Ok? <==>
      && ParseCurrentSeason(page.current).Ok? && page.dropdown.Some?
      && forall i :: 0 <= i < |page.dropdown.value| ==> ReadItem(page.dropdown.value[i]).Ok?
    ensures r.Ok? ==>
      && |r.value| == 1 + |page.dropdown.value|
      && r.value[0] == ParseCurrentSeason(page.current).value
      && forall i :: 0 <= i < |page.dropdown.value| ==> r.value[i + 1] == ReadItem(page.dropdown.value[i]).value
    ensures r.Fail? && ParseCurrentSeason(page.current).Ok? && page.dropdown.Some? ==>
      exists i :: 0 <= i < |page.dropdown.value|
        && ReadItem(page.dropdown.value[i]).Fail?
        && r == Fail(ReadItem(page.dropdown.value[i]).failure)
        && forall j :: 0 <= j < i ==> ReadItem(page.dropdown.value[j]).Ok?
  {
    var current := ParseCurrentSeason(page.current);
    if current.Fail? {
      return Fail(current.failure);
    }
    if page.dropdown.None? {
      return Err(NO_DROPDOWN);
    }
    r := SeasonsAfter(current.value, page.dropdown.value, ReadItem);
  }

  /** `first`, then the item seasons in order, each read by `read`; the first
      item that does not read makes the list an error. */
  method SeasonsAfter<E>(first: Season, items: seq<E>, read: E -> Result<Season>) returns (r: Result<seq<Season>>)
    ensures r.Ok? <==> forall i :: 0 <= i < |items| ==> read(items[i]).Ok?
    ensures r.Ok? ==>
      && |r.value| == 1 + |items| && r.value[0] == first
      && forall i :: 0 <= i < |items| ==> r.value[i + 1] == read(items[i]).value
    ensures r.Fail? ==>
      exists i :: 0 <= i < |items| && read(items[i]).Fail? && r == Fail(read(items[i]).failure)
        && forall j :: 0 <= j < i ==> read(items[j]).Ok?
  {
    var listed := CollectAll(items, read);
    if listed.Fail? {
      return Fail(listed.failure);
    }
    var seasons := [first] + listed.value;
    assert forall i :: 0 <= i < |items| ==> seasons[i + 1] == listed.value[i];
    return Ok(seasons);
  }
}
