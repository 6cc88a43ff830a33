/** The match report as the loader reads it back from the scraper's JSON
    (`speedwayrs-loader/src/scraper_types.rs`): the same shapes as the
    scraper's records, with each result read as the shared `PlayerResult`. */
module LoaderTypes {
  import opened Wrappers
  import opened Text
  import T = Types
  import SP = ScraperPlayer

  datatype Helmet = Red | Yellow | Blue | White

  /** A rider of a team. `number` and `scores` take no part in equality or
      hashing. */
  datatype Player = Player(name: string, surname: string, number: u32, scores: seq<T.PlayerResult>)

  /** A team; `score` is its `points`. */
  datatype Team = Team(name: string, points: u16, players: seq<Player>)

  /** One rider's entry in a run: the name as the scraper joined it, the
      result and the helmet colour. */
  datatype PlayerRunScore = PlayerRunScore(name: string, score: T.PlayerResult, helmet: Option<Helmet>)

  /** A run; `position` is its `number`. */
  datatype Run = Run(number: u8, time: Option<(u16, u8)>, playerScores: seq<PlayerRunScore>)

  /** A match; `place` is its `stadium`. */
  datatype GameInfo = GameInfo(team1: Team, team2: Team, stadium: string, date: T.Timestamp, runs: seq<Run>)

  const I32_MAX: int := 0x7FFF_FFFF

  // ---------------------------------------------------------------------
  // Player identity
  // ---------------------------------------------------------------------

  /** `Player::eq`: the same name and the same surname. Equal riders hash
      alike, as a hash map's keys must. */
  predicate SamePlayer(a: Player, b: Player): (same: bool)
    ensures same ==> HashInput(a) == HashInput(b)
  {
    a.name == b.name && a.surname == b.surname
  }

  /** What `Player::hash` feeds the hasher: the bytes of the name, then
      those of the surname, with nothing between them. */
  function HashInput(p: Player): (bytes: string)
    ensures |bytes| == |p.name| + |p.surname|
  {
    p.name + p.surname
  }

  /** Equality ignores the number and the results, and is an equivalence. */
  lemma SamePlayerIsEquivalence(a: Player, b: Player, c: Player)
    ensures SamePlayer(a, a)
    ensures SamePlayer(a, b) ==> SamePlayer(b, a)
    ensures SamePlayer(a, b) && SamePlayer(b, c) ==> SamePlayer(a, c)
    ensures SamePlayer(a, b) <==> SamePlayer(a.(number := b.number, scores := b.scores), b)
  {
  }

  /** The converse does not hold: without a separator, riders whose name
      and surname split the same letters differently hash alike. */
  lemma HashIgnoresTheSplit(number: u32)
    ensures var a := Player("Ab", "c", number, []);
      var b := Player("A", "bc", number, []);
      HashInput(a) == HashInput(b) && !SamePlayer(a, b)
  {
    assert "Ab" + "c" == "A" + "bc";
    assert "Ab" != "A";
  }

  // ---------------------------------------------------------------------
  // Run entries
  // ---------------------------------------------------------------------

  /** `str::split_once`: the text before the first `c` and the text after
      it, or nothing when `c` does not occur. */
  function SplitOnce(s: string, c: char): Option<(string, string)> {
    if s == [] then Option.None
    else if s[0] == c then Some(([], s[1..]))
    else
      var rest := SplitOnce(s[1..], c);
      if rest.None? then Option.None else Some(([s[0]] + rest.value.0, rest.value.1))
  }

  /** `split_once` finds a split exactly when `c` occurs, and then splits
      at its first occurrence, leaving `c` out. */
  lemma {:induction false} SplitOnceSplits(s: string, c: char)
    ensures SplitOnce(s, c).None? <==> c !in s
    ensures SplitOnce(s, c).Some? ==>
      var (a, b) := SplitOnce(s, c).value;
      s == a + [c] + b && c !in a
  {
    if s != [] && s[0] != c {
      SplitOnceSplits(s[1..], c);
      assert s == [s[0]] + s[1..];
      if SplitOnce(s[1..], c).Some? {
        var (a, b) := SplitOnce(s[1..], c).value;
        assert s == ([s[0]] + a) + [c] + b;
      }
    }
  }

  /** `PlayerRunScore::name`: the trimmed name split at its first space.
      It splits exactly when the trimmed name has a space; a name without
      one makes `unwrap` panic. */
  function RunScoreName(p: PlayerRunScore): (r: Result<(string, string)>)
    ensures r.Ok? <==> ' ' in Trim(p.name)
    ensures r.Ok? ==>
      var (name, surname) := r.value;
      Trim(p.name) == name + " " + surname && ' ' !in name
    ensures r.Fail? ==> r == Panics(UNWRAP_NONE)
  {
    var parts := SplitOnce(Trim(p.name), ' ');
    SplitOnceSplits(Trim(p.name), ' ');
    if parts.None? then Panics(UNWRAP_NONE) else Ok(parts.value)
  }

  /** The scraper writes a rider's name as name, one space, surname; the
      loader splits such a name back into the two, whatever whitespace
      surrounds it. */
  lemma JoinedNameSplits(w1: string, name: string, surname: string, w2: string, score: T.PlayerResult, helmet: Option<Helmet>)
    requires AllWhitespace(w1) && AllWhitespace(w2)
    requires name != [] && surname != [] && NoWhitespace(name) && NoWhitespace(surname)
    ensures RunScoreName(PlayerRunScore(w1 + name + " " + surname + w2, score, helmet)) == Ok((name, surname))
  {
    var joined := name + " " + surname;
    assert joined[0] == name[0] && joined[|joined| - 1] == surname[|surname| - 1];
    assert w1 + name + " " + surname + w2 == w1 + joined + w2;
    TrimPadded(w1, joined, w2);
    NoSpaceIn(name);
    var p := PlayerRunScore(w1 + name + " " + surname + w2, score, helmet);
    var r := RunScoreName(p);
    assert joined[|name|] == ' ';
    SplitIsUnique(joined, name, surname, r.value.0, r.value.1);
  }

  /** Splitting at the first space is determined by the text. */
  lemma SplitIsUnique(s: string, a: string, b: string, a': string, b': string)
    requires s == a + " " + b && ' ' !in a
    requires s == a' + " " + b' && ' ' !in a'
    ensures a == a' && b == b'
  {
    assert s[|a|] == ' ' && s[|a'|] == ' ';
    assert forall j :: 0 <= j < |a| ==> s[j] == a[j];
    assert forall j :: 0 <= j < |a'| ==> s[j] == a'[j];
    assert |a| == |a'|;
    assert a == s[..|a|] && a' == s[..|a'|];
    assert b == s[|a| + 1..] && b' == s[|a'| + 1..];
  }

  /** A word without whitespace has no space in it. */
  lemma NoSpaceIn(s: string)
    requires NoWhitespace(s)
    ensures ' ' !in s
  {
    forall j | 0 <= j < |s|
      ensures s[j] != ' '
    {
      assert !IsWhitespace(s[j]);
    }
  }

  /** A name that is one word has no surname to split off: `unwrap`
      panics. */
  lemma OneWordNamePanics(w1: string, name: string, w2: string, score: T.PlayerResult, helmet: Option<Helmet>)
    requires AllWhitespace(w1) && AllWhitespace(w2) && NoWhitespace(name)
    ensures RunScoreName(PlayerRunScore(w1 + name + w2, score, helmet)).IsPanic()
  {
    TrimPadded(w1, name, w2);
    NoSpaceIn(name);
  }

  /** `Run::time`: whole seconds and hundredths, both present or both
      absent, widened to `i32` without change. */
  function RunTime(run: Run): (r: (Option<int>, Option<int>))
    ensures r.0.Some? <==> run.time.Some?
    ensures r.1.Some? <==> run.time.Some?
    ensures run.time.Some? ==> r.0.value == run.time.value.0 as int && r.1.value == run.time.value.1 as int
    ensures r.0.Some? ==> 0 <= r.0.value <= I32_MAX && 0 <= r.1.value <= I32_MAX
  {
    match run.time
    case None => (Option.None, Option.None)
    case Some((whole, hundredths)) => (Some(whole as int), Some(hundredths as int))
  }

  // ---------------------------------------------------------------------
  // Results crossing from the scraper to the loader
  // ---------------------------------------------------------------------

  /** What serde writes for a result the scraper decoded: the same
      externally tagged form as `PlayerResult::to_string`, with the
      scraper's own variant names. */
  function ScrapedText(s: SP.PlayerScore): string {
    match s
    case Score(n) => T.ObjectText("Score", NatToString(n))
    case ScoreWithStar(n) => T.ObjectText("ScoreWithStar", NatToString(n))
    case Fall => T.QuotedText("Fall")
    case Reserve => T.QuotedText("Reserve")
    case Resign => T.QuotedText("Resign")
    case None => T.QuotedText("None")
  }

  /** The shared variant of the same name, which every scraped result but
      `Resign` has. */
  function SharedResult(s: SP.PlayerScore): (r: Option<T.PlayerResult>)
    ensures r.None? <==> s.Resign?
  {
    match s
    case Score(n) => Some(T.Score(n))
    case ScoreWithStar(n) => Some(T.ScoreWithStar(n))
    case Fall => Some(T.Fall)
    case Reserve => Some(T.Reserve)
    case Resign => Option.None
    case None => Some(T.PlayerResult.None)
  }

  /** A scraped result reads back as the shared variant of the same name;
      a scraped `Resign` does not read at all, since the shared enum has
      `Defect` in its place. */
  lemma ScrapedResultLoads(w1: string, s: SP.PlayerScore, w2: string)
    requires T.AllJsonSpace(w1) && T.AllJsonSpace(w2)
    ensures T.Decode(w1 + ScrapedText(s) + w2) == SharedResult(s)
  {
    if s.Resign? {
      assert T.AllPlain("Resign");
      assert T.UnitVariant("Resign").None?;
      T.DecodeQuoted(w1, "Resign", w2);
    } else {
      var r := SharedResult(s).value;
      assert ScrapedText(s) == T.Encode(r);
      T.DecodeEncode(w1, r, w2);
    }
  }
}
