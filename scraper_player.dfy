/** A rider's row in a match report: the per-heat result codes, their sum,
    and the row parser (`speedwayrs-scraper/src/game/team/player.rs`).

    The HTML of a row is given as its `<td>` cells: the inner HTML of each
    cell and the `title` attribute of the first link inside it, if any. */
module ScraperPlayer {
  import opened Wrappers
  import opened Text

  /** The result a rider scored in one heat, as printed in the report. */
  datatype PlayerScore =
    | Score(points: u8)
    | ScoreWithStar(points: u8)   // points earned with a partner's bonus
    | Fall
    | Reserve
    | Resign
    | None

  /** One `<td>` of a table row. */
  datatype Cell = Cell(html: string, title: Option<string>)

  datatype Player = Player(name: string, surname: string, number: u32, scores: seq<PlayerScore>)

  datatype PlayerSumScore = PlayerSumScore(base: nat, bonus: Option<nat>)

  /** The number of score cells `parse_player` reads: all cells after the
      first two, but no more than seven. */
  const MAX_SCORE_CELLS: nat := 7

  // ---------------------------------------------------------------------
  // Result codes
  // ---------------------------------------------------------------------

  /** `PlayerScore::parse`: decodes one result code after trimming it. It
      reports a malformed number as an error and never panics. */
  function ParseScore(text: string): (r: Result<PlayerScore>)
    ensures !r.IsPanic()
  {
    DecodeCode(Trim(text))
  }

  /** The match on the trimmed code inside `PlayerScore::parse`. */
  function DecodeCode(code: string): (r: Result<PlayerScore>)
    ensures !r.IsPanic()
  {
    if code == [] then Ok(PlayerScore.None)
    else if |code| == 1 && code[0] == '-' then Ok(Reserve)
    else if |code| == 1 && (code[0] == 'u' || code[0] == 'U' || code[0] == 'w') then Ok(Fall)
    else if |code| == 1 && code[0] == 'd' then Ok(Resign)
    else if EndsWith(code, '*') then
      var number := TrimEndMatches(code, '*');
      if ParseUnsigned(number, U8_LIMIT).Some? then Ok(ScoreWithStar(ParseUnsigned(number, U8_LIMIT).value))
      else Err("INVALID T " + number)
    else if ParseUnsigned(code, U8_LIMIT).Some? then Ok(Score(ParseUnsigned(code, U8_LIMIT).value))
    else Err("INVALID " + code)
  }

  /** How the report prints a result: the shortest decimal spelling of the
      points, followed by `*` for a bonus. */
  function Render(s: PlayerScore): (text: string)
    ensures text != [] ==> !IsWhitespace(text[0]) && !IsWhitespace(text[|text| - 1])
  {
    match s
    case Score(n) => NatToString(n)
    case ScoreWithStar(n) => NatToString(n) + "*"
    case Fall => "u"
    case Reserve => "-"
    case Resign => "d"
    case _ => ""
  }

  /** Decoding the printed form of any result, with any surrounding
      whitespace, gives the result back. */
  lemma ParseRender(s: PlayerScore, w1: string, w2: string)
    requires AllWhitespace(w1) && AllWhitespace(w2)
    ensures ParseScore(w1 + Render(s) + w2) == Ok(s)
  {
    TrimPadded(w1, Render(s), w2);
    DecodeRender(s);
  }

  lemma DecodeRender(s: PlayerScore)
    ensures DecodeCode(Render(s)) == Ok(s)
  {
    match s
    case Score(n) =>
      DecodeNumber(n);
    case ScoreWithStar(n) =>
      DecodeStarred(n);
    case _ =>
  }

  lemma DecodeNumber(n: u8)
    ensures DecodeCode(NatToString(n)) == Ok(Score(n))
  {
    var digits := NatToString(n);
    ParseUnsignedOfString(n, U8_LIMIT);
    assert IsDigit(digits[0]) && IsDigit(digits[|digits| - 1]);
  }

  lemma DecodeStarred(n: u8)
    ensures DecodeCode(NatToString(n) + "*") == Ok(ScoreWithStar(n))
  {
    var digits := NatToString(n);
    ParseUnsignedOfString(n, U8_LIMIT);
    StripStars(digits, 1);
    assert digits + seq(1, _ => '*') == digits + "*";
  }

  /** Every trailing star is stripped before the number is read. */
  lemma ParseManyStars(digits: string, stars: nat)
    requires digits != [] && AllDigits(digits) && DecimalValue(digits) < U8_LIMIT
    requires stars > 0
    ensures ParseScore(digits + seq(stars, _ => '*')) == Ok(ScoreWithStar(DecimalValue(digits)))
  {
    var code := digits + seq(stars, _ => '*');
    assert !IsWhitespace(code[0]) && !IsWhitespace(code[|code| - 1]) by {
      assert IsDigit(code[0]);
    }
    TrimUnpadded(code);
    assert |code| >= 2 && EndsWith(code, '*');
    StripStars(digits, stars);
  }

  lemma {:induction false} StripStars(digits: string, stars: nat)
    requires digits != [] && AllDigits(digits)
    ensures TrimEndMatches(digits + seq(stars, _ => '*'), '*') == digits
  {
    var code := digits + seq(stars, _ => '*');
    if stars == 0 {
      assert code == digits;
      assert IsDigit(digits[|digits| - 1]);
    } else {
      assert code[..|code| - 1] == digits + seq(stars - 1, _ => '*');
      StripStars(digits, stars - 1);
    }
  }

  // ---------------------------------------------------------------------
  // Sums
  // ---------------------------------------------------------------------

  /** The points one result contributes to the base sum. */
  function Points(s: PlayerScore): (n: nat)
    ensures n < U8_LIMIT
    ensures n > 0 ==> s.Score? || s.ScoreWithStar?
  {
    match s
    case Score(n) => n
    case ScoreWithStar(n) => n
    case _ => 0
  }

  /** The sum of the points of the results, first to last. */
  function BaseSum(scores: seq<PlayerScore>): nat {
    if scores == [] then 0 else BaseSum(scores[..|scores| - 1]) + Points(scores[|scores| - 1])
  }

  /** The number of results earned with a bonus. */
  function StarCount(scores: seq<PlayerScore>): (n: nat)
    ensures n <= |scores|
  {
    if scores == [] then 0
    else StarCount(scores[..|scores| - 1]) + (if scores[|scores| - 1].ScoreWithStar? then 1 else 0)
  }

  /** `Player::sum_score`: the base is the sum of all points and the bonus
      the number of starred results, or `None` when there is none. */
  method SumScore(scores: seq<PlayerScore>) returns (s: PlayerSumScore)
    ensures s.base == BaseSum(scores)
    ensures s.bonus.None? <==> StarCount(scores) == 0
    ensures s.bonus.Some? ==> s.bonus.value == StarCount(scores)
    ensures s.base <= (U8_LIMIT - 1) * |scores|
    ensures |scores| <= MAX_SCORE_CELLS ==> s.base < U16_LIMIT
  {
    var sum := 0;
    var bonusSum := 0;
    for i := 0 to |scores|
      invariant sum == BaseSum(scores[..i])
      invariant bonusSum == StarCount(scores[..i])
    {
      assert scores[..i + 1][..i] == scores[..i];
      match scores[i]
      case Score(n) =>
        sum := sum + n;
      case ScoreWithStar(n) =>
        sum := sum + n;
        bonusSum := bonusSum + 1;
      case _ =>
    }
    assert scores[..|scores|] == scores;
    BaseSumBound(scores);
    if bonusSum == 0 {
      s := PlayerSumScore(sum, Option.None);
    } else {
      s := PlayerSumScore(sum, Some(bonusSum));
    }
  }

  /** The base sum of two result lists laid end to end is the sum of their
      base sums. */
  lemma {:induction false} BaseSumAppend(a: seq<PlayerScore>, b: seq<PlayerScore>)
    ensures BaseSum(a + b) == BaseSum(a) + BaseSum(b)
    decreases |b|
  {
    if b == [] {
      assert a + b == a;
    } else {
      assert (a + b)[..|a + b| - 1] == a + b[..|b| - 1];
      BaseSumAppend(a, b[..|b| - 1]);
    }
  }

  /** A star changes the bonus but not the base sum. */
  lemma {:induction false} BaseSumIgnoresStars(a: seq<PlayerScore>, b: seq<PlayerScore>)
    requires |a| == |b|
    requires forall i :: 0 <= i < |a| ==> Points(a[i]) == Points(b[i])
    ensures BaseSum(a) == BaseSum(b)
  {
    if a != [] {
      BaseSumIgnoresStars(a[..|a| - 1], b[..|b| - 1]);
    }
  }

  /** Each result adds at most 255, so the base sum of at most seven results
      is far below the range of the `u16` the source accumulates in. */
  lemma {:induction false} BaseSumBound(scores: seq<PlayerScore>)
    ensures BaseSum(scores) <= (U8_LIMIT - 1) * |scores|
    ensures |scores| <= MAX_SCORE_CELLS ==> BaseSum(scores) < U16_LIMIT
  {
    if scores != [] {
      BaseSumBound(scores[..|scores| - 1]);
    }
  }

  // ---------------------------------------------------------------------
  // Row parser
  // ---------------------------------------------------------------------

  datatype Header = Header(number: u32, name: string, surname: string)

  /** The shirt number and the two name tokens of a row: the first cell
      holds the number, the title of the second cell's link holds the name.
      Each missing piece is an `unwrap` that panics. */
  function ParseHeader(row: seq<Cell>): (r: Result<Header>)
    ensures !r.IsError()
    ensures r.Ok? ==> |row| >= 2
    ensures r.Fail? ==> r == Panics(UNWRAP_NONE) || r == Panics(UNWRAP_ERR)
    ensures r == Panics(UNWRAP_ERR) <==> |row| >= 1 && ParseUnsigned(Trim(row[0].html), U32_LIMIT).None?
  {
    if |row| < 1 then Panics(UNWRAP_NONE)
    else
      var number := ParseUnsigned(Trim(row[0].html), U32_LIMIT);
      if number.None? then Panics(UNWRAP_ERR)
      else if |row| < 2 || row[1].title.None? then Panics(UNWRAP_NONE)
      else
        var names := NameTokens(row[1].title.value);
        if names.None? then Panics(UNWRAP_NONE)
        else Ok(Header(number.value, names.value.0, names.value.1))
  }

  /** The first two whitespace-separated words of a link title, if it has
      two. */
  function NameTokens(title: string): Option<(string, string)> {
    var tokens := SplitWhitespace(Trim(title));
    if |tokens| < 2 then Option.None else Some((tokens[0], tokens[1]))
  }

  /** A title made of a name, one space and a surname gives that name and
      surname back. */
  lemma NameTokensOf(name: string, surname: string)
    requires name != [] && NoWhitespace(name) && surname != [] && NoWhitespace(surname)
    ensures NameTokens(name + " " + surname) == Some((name, surname))
  {
    SplitTrimmedNameSurname(name, surname);
  }

  /** A row whose second cell links a rider titled with a name and a surname
      yields that name and surname. */
  lemma HeaderFromTitle(row: seq<Cell>, name: string, surname: string)
    requires |row| >= 2 && ParseUnsigned(Trim(row[0].html), U32_LIMIT).Some?
    requires name != [] && NoWhitespace(name) && surname != [] && NoWhitespace(surname)
    requires row[1].title == Some(name + " " + surname)
    ensures ParseHeader(row).Ok?
    ensures ParseHeader(row).value.name == name && ParseHeader(row).value.surname == surname
  {
    NameTokensOf(name, surname);
  }

  /** The number of score cells of a row that are read. */
  function ScoreCellCount(row: seq<Cell>): (n: nat)
    ensures n <= MAX_SCORE_CELLS
    ensures |row| >= 2 ==> n <= |row| - 2
  {
    if |row| < 2 then 0
    else if |row| - 2 < MAX_SCORE_CELLS then |row| - 2
    else MAX_SCORE_CELLS
  }

  /** The score loop of `Player::parse_player`, for any decoder of a cell:
      decodes the cells in document order, stops after seven, and returns
      the error of the first cell that does not decode. */
  method CollectScores<T>(cells: seq<Cell>, decode: string -> Result<T>) returns (r: Result<seq<T>>)
    ensures r.Ok? ==>
      |r.value| == (if |cells| < MAX_SCORE_CELLS then |cells| else MAX_SCORE_CELLS)
      && forall i :: 0 <= i < |r.value| ==> decode(cells[i].html) == Ok(r.value[i])
    ensures r.Fail? ==>
      exists i :: 0 <= i < |cells| && i < MAX_SCORE_CELLS && decode(cells[i].html) == Fail(r.failure)
        && forall j :: 0 <= j < i ==> decode(cells[j].html).Ok?
  {
    var scores: seq<T> := [];
    var index := 0;
    while index < |cells|
      invariant 0 <= index <= |cells| && index <= MAX_SCORE_CELLS
      invariant |scores| == index
      invariant forall i :: 0 <= i < index ==> decode(cells[i].html) == Ok(scores[i])
    {
      if index == MAX_SCORE_CELLS {
        break;
      }
      var score := decode(cells[index].html);
      if score.Fail? {
        return Fail(score.failure);
      }
      scores := scores + [score.value];
      index := index + 1;
    }
    return Ok(scores);
  }

  /** A row whose header and read score cells all parse. */
  predicate RowParses(row: seq<Cell>) {
    && ParseHeader(row).Ok?
    && forall i :: 2 <= i < |row| && i < 2 + MAX_SCORE_CELLS ==> ParseScore(row[i].html).Ok?
  }

  /** `p` is the rider a row describes: the header's number and name, and
      one result per read score cell, in column order. */
  predicate PlayerOfRow(row: seq<Cell>, p: Player) {
    && ParseHeader(row).Ok?
    && p.number == ParseHeader(row).value.number
    && p.name == ParseHeader(row).value.name
    && p.surname == ParseHeader(row).value.surname
    && |p.scores| == ScoreCellCount(row)
    && forall i :: 0 <= i < |p.scores| ==> ParseScore(row[i + 2].html) == Ok(p.scores[i])
  }

  /** `Player::parse_player`: the header, then the score cells after the
      first two. */
  method ParsePlayer(row: seq<Cell>) returns (r: Result<Player>)
    ensures r.IsPanic() <==> ParseHeader(row).Fail?
    ensures r.IsError() <==>
      ParseHeader(row).Ok?
      && exists i :: 2 <= i < |row| && i < 2 + MAX_SCORE_CELLS && ParseScore(row[i].html).Fail?
    ensures r.Ok? <==> RowParses(row)
    ensures r.Ok? ==> PlayerOfRow(row, r.value)
  {
    var header := ParseHeader(row);
    if header.Fail? {
      return Fail(header.failure);
    }
    var scores := CollectScores(row[2..], ParseScore);
    if scores.Fail? {
      return Fail(scores.failure);
    }
    r := Ok(Player(header.value.name, header.value.surname, header.value.number, scores.value));
  }
}
