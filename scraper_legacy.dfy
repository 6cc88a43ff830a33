/** The older row parser of `speedwayrs-scraper/src/game/player.rs`, whose
    result codes have only four variants: it knows neither falls nor
    resignations. */
module ScraperLegacy {
  import opened Wrappers
  import opened Text
  import SP = ScraperPlayer

  datatype LegacyScore =
    | Score(points: u8)
    | ScoreWithStar(points: u8)
    | Reserve
    | None

  datatype LegacyPlayer = LegacyPlayer(name: string, surname: string, number: u32, scores: seq<LegacyScore>)

  /** The decoding inlined in the score loop, applied to the trimmed cell. */
  function DecodeLegacy(text: string): (r: Result<LegacyScore>)
    ensures !r.IsPanic()
  {
    DecodeLegacyCode(Trim(text))
  }

  /** A trimmed empty cell, `-`, a starred number or a plain number. */
  function DecodeLegacyCode(code: string): (r: Result<LegacyScore>)
    ensures !r.IsPanic()
  {
    if code == [] then Ok(LegacyScore.None)
    else if |code| == 1 && code[0] == '-' then Ok(Reserve)
    else if EndsWith(code, '*') then
      var number := TrimEndMatches(code, '*');
      if ParseUnsigned(number, U8_LIMIT).Some? then Ok(ScoreWithStar(ParseUnsigned(number, U8_LIMIT).value))
      else Err("INAVLID T " + number)
    else if ParseUnsigned(code, U8_LIMIT).Some? then Ok(Score(ParseUnsigned(code, U8_LIMIT).value))
    else Err("INVALID " + code)
  }

  /** The newer result code with the same meaning. */
  function Upgrade(s: LegacyScore): SP.PlayerScore {
    match s
    case Score(n) => SP.Score(n)
    case ScoreWithStar(n) => SP.ScoreWithStar(n)
    case Reserve => SP.Reserve
    case _ => SP.PlayerScore.None
  }

  /** The two decoders agree wherever the old one succeeds, and the old one
      fails exactly where the new one fails or reads a fall or a
      resignation. */
  lemma LegacyAgrees(text: string)
    ensures DecodeLegacy(text).Ok? ==> SP.ParseScore(text) == Ok(Upgrade(DecodeLegacy(text).value))
    ensures DecodeLegacy(text).Fail? <==>
      SP.ParseScore(text).Fail? || SP.ParseScore(text) == Ok(SP.Fall) || SP.ParseScore(text) == Ok(SP.Resign)
  {
    LegacyCodeAgrees(Trim(text));
  }

  lemma LegacyCodeAgrees(code: string)
    ensures DecodeLegacyCode(code).Ok? ==> SP.DecodeCode(code) == Ok(Upgrade(DecodeLegacyCode(code).value))
    ensures DecodeLegacyCode(code).Fail? <==>
      SP.DecodeCode(code).Fail? || SP.DecodeCode(code) == Ok(SP.Fall) || SP.DecodeCode(code) == Ok(SP.Resign)
  {
    if |code| == 1 && (code[0] == 'u' || code[0] == 'U' || code[0] == 'w' || code[0] == 'd') {
      SingleLetterIsError(code);
    }
  }

  lemma SingleLetterIsError(code: string)
    requires |code| == 1 && (code[0] == 'u' || code[0] == 'U' || code[0] == 'w' || code[0] == 'd')
    ensures DecodeLegacyCode(code).IsError()
  {
    assert !EndsWith(code, '*');
    assert !IsDigit(code[0]);
  }

  /** In particular the fall and resignation codes are errors here. */
  lemma FallIsError(c: char)
    requires c == 'u' || c == 'U' || c == 'w' || c == 'd'
    ensures DecodeLegacy([c]).IsError()
  {
    TrimUnpadded([c]);
    SingleLetterIsError([c]);
  }

  /** `Player::parse_player` of the old parser: the same header as the new
      one, then the same score loop with the legacy decoder. */
  method ParseLegacyPlayer(row: seq<SP.Cell>) returns (r: Result<LegacyPlayer>)
    ensures r.IsPanic() <==> SP.ParseHeader(row).Fail?
    ensures r.IsError() <==>
      SP.ParseHeader(row).Ok?
      && exists i :: 2 <= i < |row| && i < 2 + SP.MAX_SCORE_CELLS && DecodeLegacy(row[i].html).Fail?
    ensures r.Ok? ==>
      var h := SP.ParseHeader(row).value;
      r.value.number == h.number && r.value.name == h.name && r.value.surname == h.surname
      && |r.value.scores| == SP.ScoreCellCount(row)
      && forall i :: 0 <= i < |r.value.scores| ==> DecodeLegacy(row[i + 2].html) == Ok(r.value.scores[i])
  {
    var header := SP.ParseHeader(row);
    if header.Fail? {
      return Fail(header.failure);
    }
    var scores := SP.CollectScores(row[2..], DecodeLegacy);
    if scores.Fail? {
      return Fail(scores.failure);
    }
    r := Ok(LegacyPlayer(header.value.name, header.value.surname, header.value.number, scores.value));
  }
}
