# Speedwayrs, modelled in Dafny

Speedwayrs collects the results of Polish speedway league matches and serves them on the web:

- The **scraper** reads the seasons, match schedules and match reports of the league's site. It paces its requests through one shared rate limiter.
- The **loader** writes each scraped match into PostgreSQL. It finds or creates the teams, riders and stadium, then writes the game, its per-round results, its runs and their entries in one transaction.
- The **backend** answers the web pages: match reports, player and team statistics, likes, sessions, registration and login.
- The **frontend** sign-up page checks its form and turns the backend's answer into a message for the user.

This project models the logic of those parts and proves what they promise. There is one Dafny module per source file:

| file | module | source |
|---|---|---|
| `scraper_player.dfy` | `ScraperPlayer` | `speedwayrs-scraper/src/game/team/player.rs` |
| `scraper_legacy.dfy` | `ScraperLegacy` | `speedwayrs-scraper/src/game/player.rs` |
| `scraper_run.dfy` | `ScraperRun` | `speedwayrs-scraper/src/game/run.rs` |
| `scraper_team.dfy` | `ScraperTeam` | `speedwayrs-scraper/src/game/team/mod.rs` |
| `scraper_game.dfy` | `ScraperGame` | `speedwayrs-scraper/src/game/mod.rs` |
| `scraper_season.dfy`, `scraper_site.dfy` | `ScraperSeason`, `ScraperSite` | `speedwayrs-scraper/src/season.rs` |
| `scraper_http.dfy` | `ScraperHttp` | `speedwayrs-scraper/src/http.rs` |
| `types.dfy` | `Types` | `speedwayrs-types/src/lib.rs` |
| `loader_types.dfy` | `LoaderTypes` | `speedwayrs-loader/src/scraper_types.rs` |
| `loader_insertion.dfy` | `LoaderInsertion` | `speedwayrs-loader/src/insertion.rs` |
| `backend_match_info.dfy` | `BackendMatchInfo` | `speedwayrs-backend/src/data/match_info.rs` |
| `backend_player_data.dfy` | `BackendPlayerData` | `speedwayrs-backend/src/data/player_data.rs` |
| `backend_team_stats.dfy` | `BackendTeamStats` | `speedwayrs-backend/src/data/team_stats.rs` |
| `backend_likes.dfy` | `BackendLikes` | `speedwayrs-backend/src/utils/mod.rs` |
| `backend_session.dfy` | `BackendSession` | `speedwayrs-backend/src/session.rs` |
| `backend_account.dfy` | `BackendAccount` | `speedwayrs-backend/src/account.rs` |
| `frontend_signup.dfy` | `FrontendSignup` | `speedwayrs-frontend/src/signup.rs` |

Shared modules:

- `wrappers.dfy`: `Option` and `Result`. A `Result` keeps apart the two ways the Rust code fails: an error returned with `?`, and a panic (an `unwrap`, an index out of bounds, or an arithmetic overflow).
- `text.dfy`: the `str` primitives the parsers use, including trimming, `split_whitespace`, unsigned `parse` and the UTF-8 byte length.
- `json_value.dfy`: JSON values for the account messages.
- `http_status.dfy`: the status codes.

Modelling choices:

- Integers of a fixed width are subset types (`u8`, `u16`, `u32`, ...). Every cast and addition that can overflow is written out. `ScraperPlayer.SumScore` keeps its two sums unbounded, and its contract proves that they fit the source's `u16`.
- Code that mutates state is a class with `modifies` clauses. This covers the rate limiter, the run iterator, the loader's database, the session and like tables, the users table and the sign-up page's signals.
- Each loop is a method proved against a function that specifies it.
- The database, the network, the clock, HTML selection and foreign libraries are inputs: their answers are parameters of the operations.

## Model

| member | source | states |
|---|---|---|
| ScraperPlayer.ParseScore | speedwayrs-scraper/src/game/team/player.rs:18-37 | parsing a result code never panics: a code that is not a result is an error |
| ScraperPlayer.DecodeCode | speedwayrs-scraper/src/game/team/player.rs:19-35 | the match on the trimmed code only returns a result or an error, never a panic |
| ScraperPlayer.ParseRender | speedwayrs-scraper/src/game/team/player.rs:18-37 | every result, printed and padded with any whitespace, parses back to itself |
| ScraperPlayer.DecodeRender | speedwayrs-scraper/src/game/team/player.rs:19-35 | the printed form of every result decodes back to that result |
| ScraperPlayer.DecodeNumber | speedwayrs-scraper/src/game/team/player.rs:33 | the decimal spelling of any u8 decodes to `Score` of that number |
| ScraperPlayer.DecodeStarred | speedwayrs-scraper/src/game/team/player.rs:25-31 | a u8 followed by one star decodes to `ScoreWithStar` of that number |
| ScraperPlayer.ParseManyStars | speedwayrs-scraper/src/game/team/player.rs:25-31 | any number of trailing stars is stripped: digits with stars give `ScoreWithStar` of the digits' value |
| ScraperPlayer.StripStars | speedwayrs-scraper/src/game/team/player.rs:26 | `trim_end_matches('*')` on digits followed by stars gives back the digits |
| ScraperPlayer.Points | speedwayrs-scraper/src/game/team/player.rs:73-79 | a result adds at most 255 points, and only a score (with or without star) adds any |
| ScraperPlayer.StarCount | speedwayrs-scraper/src/game/team/player.rs:75-78 | the bonus count is at most the number of results |
| ScraperPlayer.SumScore | speedwayrs-scraper/src/game/team/player.rs:69-88 | the loop's base is the sum of the points of all results; the bonus is None exactly when no result carries a star, else the number of starred results; the base is at most 255 per result, so with the seven results `parse_player` reads it fits the u16 sum |
| ScraperPlayer.BaseSumAppend | speedwayrs-scraper/src/game/team/player.rs:72-81 | the base sum is additive over concatenated result lists |
| ScraperPlayer.BaseSumIgnoresStars | speedwayrs-scraper/src/game/team/player.rs:74-77 | a star changes the bonus but never the base sum |
| ScraperPlayer.BaseSumBound | speedwayrs-scraper/src/game/team/player.rs:69-81 | the base sum is at most 255 per result, so seven results never overflow the u16 sum |
| ScraperPlayer.ParseHeader | speedwayrs-scraper/src/game/team/player.rs:99-121 | reading the shirt number and the two name words only panics (every step is an `unwrap`), and needs at least two cells; the panic is `Result::unwrap`'s exactly when the number cell does not parse as a u32, `Option::unwrap`'s otherwise |
| ScraperPlayer.NameTokensOf | speedwayrs-scraper/src/game/team/player.rs:118-121 | a title `name surname` splits into exactly that name and surname |
| ScraperPlayer.HeaderFromTitle | speedwayrs-scraper/src/game/team/player.rs:99-121 | a row with a numeric first cell and a second cell titled `name surname` reads that name and surname |
| ScraperPlayer.ScoreCellCount | speedwayrs-scraper/src/game/team/player.rs:125-131 | at most seven score cells are read, all after the number and name cells |
| ScraperPlayer.CollectScores | speedwayrs-scraper/src/game/team/player.rs:123-131 | the loop decodes the first seven cells (or all, if fewer) in order, or returns the error of the first cell that does not decode |
| ScraperPlayer.ParsePlayer | speedwayrs-scraper/src/game/team/player.rs:90-139 | a broken header panics; a bad score among the first seven is an error; otherwise the player has the header's number and name and the decoded scores |
| ScraperLegacy.DecodeLegacy | speedwayrs-scraper/src/game/player.rs:64-75 | decoding a cell of the older parser never panics |
| ScraperLegacy.DecodeLegacyCode | speedwayrs-scraper/src/game/player.rs:64-75 | the match on the trimmed cell only returns a result or an error |
| ScraperLegacy.LegacyAgrees | speedwayrs-scraper/src/game/player.rs:64-75 | the older decoder agrees with `PlayerScore::parse` of team/player.rs wherever it succeeds, and fails exactly where the newer one fails or reads a fall or a resignation |
| ScraperLegacy.LegacyCodeAgrees | speedwayrs-scraper/src/game/player.rs:64-75 | the same agreement, on trimmed codes |
| ScraperLegacy.SingleLetterIsError | speedwayrs-scraper/src/game/player.rs:67-73 | the letters u, U, w and d, which the newer parser accepts, are errors here |
| ScraperLegacy.FallIsError | speedwayrs-scraper/src/game/player.rs:64-75 | a cell holding only u, U, w or d is an error |
| ScraperLegacy.ParseLegacyPlayer | speedwayrs-scraper/src/game/player.rs:24-84 | a broken header panics; a bad cell among the first seven is an error; otherwise the header's number and name and the decoded cells in order |
| ScraperRun.HelmetOfFigure | speedwayrs-scraper/src/game/run.rs:20-32 | the helmet figure of every colour is read back as that colour, whatever the order of the `contains` tests |
| ScraperRun.MatchAfterRun | speedwayrs-scraper/src/game/run.rs:89-94 | after a run of digits the regex match keeps those digits as the seconds, and any fraction it takes is a non-empty run of digits |
| ScraperRun.FindTime | speedwayrs-scraper/src/game/run.rs:89-94 | the leftmost match of `(\d+)(.(\d+))? sek.` has non-empty digit seconds and, if any, a non-empty digit fraction |
| ScraperRun.ParseTime | speedwayrs-scraper/src/game/run.rs:81-105 | `parse_time` never returns an error (every failure is an `unwrap` panic), and gives None exactly for empty text |
| ScraperRun.TimeOf | speedwayrs-scraper/src/game/run.rs:96-104 | a regex match becomes a time or panics on a number too wide for u16 or u8 |
| ScraperRun.FindTimeWithFraction | speedwayrs-scraper/src/game/run.rs:89-94 | `secs.frac sek.` matches with both digit groups |
| ScraperRun.FindTimeWithoutFraction | speedwayrs-scraper/src/game/run.rs:89-94 | `secs sek.` matches with no fraction |
| ScraperRun.TimeOfSpelling | speedwayrs-scraper/src/game/run.rs:81-105 | every u16 seconds and u8 fraction printed as `s.f sek.` parse back to that pair |
| ScraperRun.TimeWithoutFraction | speedwayrs-scraper/src/game/run.rs:98-103 | without a fraction the tenths default to 0 |
| ScraperRun.ExampleTime | speedwayrs-scraper/src/game/run.rs:241-247 | `56.12 sek.` parses to (56, 12), as the `parsing_time` test expects |
| ScraperRun.TimeOverflowPanics | speedwayrs-scraper/src/game/run.rs:97 | seconds of 65536 or more panic in `parse().unwrap()` |
| ScraperRun.ParseName | speedwayrs-scraper/src/game/run.rs:107-122 | `parse_name` never returns an error: no match panics |
| ScraperRun.ParseNameOf | speedwayrs-scraper/src/game/run.rs:107-122 | leading whitespace, a name, one space and a surname read back as `name surname`, whatever follows after whitespace |
| ScraperRun.FindNameAt | speedwayrs-scraper/src/game/run.rs:110-115 | the regex captures the name and the surname of `name surname rest` |
| ScraperRun.DoubleSpacePanics | speedwayrs-scraper/src/game/run.rs:110-115 | two spaces between name and surname leave the regex without a match, so `parse_name` panics |
| ScraperRun.LoneTokenHasNoName | speedwayrs-scraper/src/game/run.rs:110-115 | a single word has no match |
| ScraperRun.FirstTwoBytes | speedwayrs-scraper/src/game/run.rs:145 | the slice `[0..2]` is the prefix of exactly two bytes, or panics when byte 2 is not a character boundary |
| ScraperRun.FirstTwoBytesPanics | speedwayrs-scraper/src/game/run.rs:145 | the slice panics only when no prefix is two bytes long |
| ScraperRun.ScoreText | speedwayrs-scraper/src/game/run.rs:141-146 | the score text is a prefix of the trimmed cell of at most two bytes, or a panic, never an error |
| ScraperRun.ParseCompetitor | speedwayrs-scraper/src/game/run.rs:124-164 | a missing name is an error; a competitor needs all three elements and takes its helmet from the figure |
| ScraperRun.ShortCodeReadBack | speedwayrs-scraper/src/game/run.rs:141-148 | a result whose printed form fits two bytes, padded with whitespace, is cut and parsed back to itself |
| ScraperRun.StarCutOff | speedwayrs-scraper/src/game/run.rs:141-146 | a two-digit score with a star loses its star to the two-byte cut |
| ScraperRun.CompetitorOf | speedwayrs-scraper/src/game/run.rs:124-164 | a competitor element built from a name, a short result and a helmet reads back as exactly that competitor |
| ScraperRun.JoinedNameReadBack | speedwayrs-scraper/src/game/run.rs:107-122 | `name surname` reads back unchanged |
| ScraperRun.CodeReadBack | speedwayrs-scraper/src/game/run.rs:141-148 | a result whose printed form fits two bytes is kept and parsed back to itself |
| ScraperRun.CompetitorOfParts | speedwayrs-scraper/src/game/run.rs:124-164 | a competitor is its parsed name, its parsed score and the helmet read from the figure |
| ScraperRun.TakeEach | speedwayrs-scraper/src/game/run.rs:182-185 | reading the next `count` elements with `unwrap` never errors; a value holds exactly `count` items |
| ScraperRun.TakeEachValues | speedwayrs-scraper/src/game/run.rs:182-185 | item i of the values is what the reader gives on element i |
| ScraperRun.NextRun | speedwayrs-scraper/src/game/run.rs:169-188 | a run never errors; it carries the given number, the time read from the first time element and four competitors |
| ScraperRun.Runs | speedwayrs-scraper/src/game/run.rs:166-189 | draining the iterator never yields a recoverable error, only a panic, and it succeeds only with a time element and four competitor elements for every run left |
| ScraperRun.ReadEach | speedwayrs-scraper/src/game/run.rs:182-185 | the loop agrees with `TakeEach` and leaves the elements after the ones it read |
| ScraperRun.RunIterator.constructor | speedwayrs-scraper/src/game/run.rs:67-78 | a new iterator has 15 runs to go and reads with `parse_time` and `parse_competitor` |
| ScraperRun.RunIterator.Next | speedwayrs-scraper/src/game/run.rs:169-188 | with no runs left, None and nothing changes; otherwise the next run numbered by the count remaining, the count decreased by one and one time and four competitors consumed |
| ScraperRun.CollectRuns | speedwayrs-scraper/src/game/run.rs:166-193 | draining the iterator gives exactly the specification `Runs` of its initial state |
| ScraperRun.RunsNumbered | speedwayrs-scraper/src/game/run.rs:170-187 | a drained iterator yields `remaining` runs, run k numbered `remaining - k` and read from time element k and competitors 4k to 4k+3 |
| ScraperRun.FifteenRuns | speedwayrs-scraper/src/game/run.rs:9 | a full report yields 15 runs numbered from 15 down to 1 |
| ScraperTeam.SumScore | speedwayrs-scraper/src/game/team/mod.rs:35-42 | the loop returns the sum of the players' base sums when it fits in u16, and panics with the add-overflow message otherwise |
| ScraperTeam.TeamPointsPrefix | speedwayrs-scraper/src/game/team/mod.rs:35-42 | the running sum never exceeds the final sum, so the loop overflows only if the total does |
| ScraperTeam.TeamPointsAppend | speedwayrs-scraper/src/game/team/mod.rs:35-42 | team points are additive over concatenated player lists |
| ScraperTeam.TeamPointsBound | speedwayrs-scraper/src/game/team/mod.rs:35-42 | each player adds at most 7 × 255, so a team of up to 36 players never overflows u16 |
| ScraperTeam.ParsePlayers | speedwayrs-scraper/src/game/team/mod.rs:44-54 | every row parses exactly when the result is a value, which holds the player of each row in order; otherwise the first row that fails decides, and the failure is a panic exactly when that row's header is the part that fails |
| ScraperTeam.PlayersOfRowsUnique | speedwayrs-scraper/src/game/team/mod.rs:44-54 | the rows determine the player list |
| ScraperTeam.ParseTeams | speedwayrs-scraper/src/game/team/mod.rs:56-97 | each missing name or table is its own error, checked in source order; on success both teams carry their name, the players of their table and their points; with both tables present it succeeds exactly when every row parses and neither team's points overflow; a row failure of table one, else of table two, is that first bad row's error or panic, and otherwise a failure is the overflow panic |
| ScraperGame.ParseMatchSchedule | speedwayrs-scraper/src/game/mod.rs:24-39 | every link needs an `href`, else the whole schedule is the missing-href error; the sites are the links' addresses joined to the base site, in order |
| ScraperGame.FindScore | speedwayrs-scraper/src/game/mod.rs:53-57 | a match of `(\d+)(\D*)(\d+)` captures two non-empty digit runs |
| ScraperGame.ScoreFrom | speedwayrs-scraper/src/game/mod.rs:53-57 | a match starting at a digit captures two non-empty digit runs |
| ScraperGame.NextNumber | speedwayrs-scraper/src/game/mod.rs:53-57 | the second group, after `\D*`, is a non-empty digit run |
| ScraperGame.NextNumberOf | speedwayrs-scraper/src/game/mod.rs:53-57 | after non-digits the second group is the whole next digit run |
| ScraperGame.NextNumberNone | speedwayrs-scraper/src/game/mod.rs:53-57 | text without digits has no second group |
| ScraperGame.ParseScore | speedwayrs-scraper/src/game/mod.rs:50-70 | `parse_score` panics exactly when the regex finds no match; a value is the decimal value of the two captured runs |
| ScraperGame.FindScoreOf | speedwayrs-scraper/src/game/mod.rs:53-60 | non-digits, a number, a non-empty separator and a number capture the two numbers |
| ScraperGame.ParseScoreOfDigits | speedwayrs-scraper/src/game/mod.rs:50-70 | two digit runs in u32 range, with non-digits around and between them, parse to their values |
| ScraperGame.BothInRangeParse | speedwayrs-scraper/src/game/mod.rs:62-69 | two captures that both fit u32 give the pair of their values |
| ScraperGame.ParseScoreOf | speedwayrs-scraper/src/game/mod.rs:50-70 | any two u32 scores printed with a non-digit separator parse back to themselves |
| ScraperGame.ScoreOverflowIsError | speedwayrs-scraper/src/game/mod.rs:63-65 | a first score of 2^32 or more is an error (with context), not a panic |
| ScraperGame.FirstOutOfRangeIsError | speedwayrs-scraper/src/game/mod.rs:63-65 | a first capture outside u32 is an error |
| ScraperGame.NoDigitsPanics | speedwayrs-scraper/src/game/mod.rs:56-57 | text without digits panics in `captures.next().unwrap()` |
| ScraperGame.SingleRunSplits | speedwayrs-scraper/src/game/mod.rs:54 | a single run of at least two digits is split before its last digit, since `\D*` may match nothing |
| ScraperGame.ExampleScore | speedwayrs-scraper/src/game/mod.rs:50-70 | `46:44` parses to (46, 44) |
| ScraperGame.ParseSite | speedwayrs-scraper/src/game/mod.rs:73-108 | a missing first team, second team or score is its own error, in that order; otherwise it succeeds exactly when the score parses, with both names trimmed |
| ScraperGame.ParseSiteOf | speedwayrs-scraper/src/game/mod.rs:73-108 | padded team names and a score that parses give the game with the unpadded names and that score |
| ScraperSite.SiteUrl | speedwayrs-scraper/src/season.rs:35 | an address is the base site followed by the relative path, which can be read back off its end |
| ScraperSite.SiteUrlInjective | speedwayrs-scraper/src/game/mod.rs:14-18 | different relative paths give different addresses |
| ScraperSeason.FindSeasonFrom | speedwayrs-scraper/src/season.rs:22-29 | the group of `Sezon (\d+)` is a non-empty digit run |
| ScraperSeason.NewSeason | speedwayrs-scraper/src/season.rs:19-38 | text without `Sezon <digits>` is the invalid-season error; a year of 2^32 or more is the invalid-number error; a season has the captured year and the base site joined to its path |
| ScraperSeason.DigitsAreTrimmed | speedwayrs-scraper/src/season.rs:31-34 | trimming a digit run changes nothing, and it parses as u32 exactly when its value is below 2^32 |
| ScraperSeason.SkipWithoutS | speedwayrs-scraper/src/season.rs:22-29 | the search skips text holding no `S` |
| ScraperSeason.FindSeasonOf | speedwayrs-scraper/src/season.rs:22-29 | `Sezon ` followed by digits, after text without `S`, captures those digits |
| ScraperSeason.NewSeasonOf | speedwayrs-scraper/src/season.rs:19-38 | a season label printed from any u32 year reads back as that year, at the base site joined to its path |
| ScraperSeason.UpperCaseIsError | speedwayrs-scraper/src/season.rs:22-29 | `SEZON`, as the error message spells it, does not match: the regex is case-sensitive |
| ScraperSeason.YearOverflowIsError | speedwayrs-scraper/src/season.rs:31-34 | a year of 2^32 or more is the invalid-number error |
| ScraperSeason.ParseCurrentSeason | speedwayrs-scraper/src/season.rs:40-50 | a missing current-season element is its own error; the current season lives at the main page |
| ScraperSeason.ReadItem | speedwayrs-scraper/src/season.rs:69-81 | a list item without a link or a link without `href` is its own error; a season lives at the link's address |
| ScraperSeason.ParseSite | speedwayrs-scraper/src/season.rs:52-85 | the current season comes first, then one season per dropdown item in order; the first failure (current season, missing dropdown, then the first bad item) is returned |
| ScraperSeason.SeasonsAfter | speedwayrs-scraper/src/season.rs:62-84 | the loop returns the first season followed by each item read in order, or the failure of the first item that does not read |
| ScraperHttp.Wait | speedwayrs-scraper/src/http.rs:54-60 | the first request never waits; any other waits at most one tick and is dispatched no sooner than one tick after the last; a request that waits is dispatched exactly one tick after the last |
| ScraperHttp.HttpRequester.constructor | speedwayrs-scraper/src/http.rs:22-27 | a new requester has dispatched nothing and keeps the given tick |
| ScraperHttp.HttpRequester.Throttle | speedwayrs-scraper/src/http.rs:50-63 | a clock earlier than the last dispatch is the `elapsed` error and changes nothing; otherwise the request is dispatched after `Wait` and that time is recorded |
| ScraperHttp.ConnectErrors | speedwayrs-scraper/src/http.rs:75-77 | at most one sleep per attempt |
| ScraperHttp.Retry | speedwayrs-scraper/src/http.rs:65-84 | the loop keeps retrying exactly when every attempt is a connect error, and it fails only with the no-body or the no-connection message for the URL |
| ScraperHttp.RetryLoop | speedwayrs-scraper/src/http.rs:65-84 | the loop's outcome is the specification `Retry` of the attempts, and it sleeps 3 s per connect error it retried |
| ScraperHttp.RetryPastConnectErrors | speedwayrs-scraper/src/http.rs:75-77 | leading connect errors are only retried: the outcome is that of the attempts after them, after one sleep each |
| ScraperHttp.FetchedIsAResponse | speedwayrs-scraper/src/http.rs:66-72 | a fetched body is the body of one of the attempts' responses |
| ScraperHttp.RequesterCell.constructor | speedwayrs-scraper/src/http.rs:9 | the process-wide requester starts unset |
| ScraperHttp.RequesterCell.SetTickInterval | speedwayrs-scraper/src/http.rs:33-41 | a second initialisation is the already-initialised error and keeps the first requester; the first creates a requester with the given tick and nothing dispatched |
| ScraperHttp.RequesterCell.Requester | speedwayrs-scraper/src/http.rs:43-47 | the requester is created once, with the 1 ms default tick, and the same one is returned afterwards |
| ScraperHttp.RequesterCell.MakeRequest | speedwayrs-scraper/src/http.rs:49-85 | throttles against the shared requester (created with the default tick if unset), records the dispatch time, then answers with the retry loop's outcome; a clock running backwards fails before any attempt |
| Types.UnitVariant | speedwayrs-types/src/lib.rs:57-67 | a variant name read back is a variant without a value, and its name is the one read |
| Types.SkipSpace | speedwayrs-types/src/lib.rs:70-72 | the JSON reader skips whitespace forwards and stops at the first character that is not JSON whitespace |
| Types.ReadString | speedwayrs-types/src/lib.rs:70-72 | a string token read from position i ends after its closing quote |
| Types.ReadU8 | speedwayrs-types/src/lib.rs:58-60 | a u8 read from position i consumes at least one character |
| Types.ReadEntry | speedwayrs-types/src/lib.rs:57-67 | the value of a `Score` or `ScoreWithStar` entry consumes at least one character |
| Types.ReadU8Over | speedwayrs-types/src/lib.rs:58-60 | the decimal spelling of any u8, not followed by more digits or by a fraction or exponent, reads back as that number |
| Types.UnitNamePlain | speedwayrs-types/src/lib.rs:57-67 | every unit variant's name is plain text and reads back as that variant |
| Types.DecodeQuoted | speedwayrs-types/src/lib.rs:70-72 | a quoted name, with any JSON whitespace around it, reads as the variant of that name, if there is one |
| Types.DecodeScoreObject | speedwayrs-types/src/lib.rs:58-60 | `{"Score":n}` and `{"ScoreWithStar":n}`, with any JSON whitespace around them, read back as the result they encode |
| Types.DecodeEncode | speedwayrs-types/src/lib.rs:69-77 | `from_str` inverts `to_string` for every result, with any JSON whitespace around it |
| Types.EncodeInjective | speedwayrs-types/src/lib.rs:74-76 | different results have different encodings |
| Types.UnknownNameIsNone | speedwayrs-types/src/lib.rs:70-72 | a string that names no variant reads as None (the error is dropped by `.ok()`) |
| Types.Encode | speedwayrs-types/src/lib.rs:74-76 | `to_string` writes compact JSON, without whitespace: an object exactly for a score, a string otherwise |
| Types.Decode | speedwayrs-types/src/lib.rs:70-72 | whatever `from_str` reads as a result is that result's encoding once the JSON whitespace is taken out, or for a variant without a value the object form with `null`; the converse of `DecodeEncode` |
| Types.CompactObject | speedwayrs-types/src/lib.rs:70-72 | an object that decodes compacts to the encoding of its result, or the `null` object form of a variant without a value |
| Types.CompactQuoted | speedwayrs-types/src/lib.rs:70-72 | a string that decodes compacts to the encoding of its variant |
| Types.InsertByRound | speedwayrs-types/src/lib.rs:89 | inserting a score into a list sorted by round keeps it sorted and adds exactly that score |
| Types.SortByRound | speedwayrs-types/src/lib.rs:89 | the sort by round gives a list sorted by round that is a permutation of its input |
| Types.NewPlayer | speedwayrs-types/src/lib.rs:88-96 | `Player::new` keeps the name and surname and stores the scores sorted by round, as a permutation of those given |
| Types.SortSorted | speedwayrs-types/src/lib.rs:89 | a list already sorted by round is left as it is |
| LoaderTypes.HashInput | speedwayrs-loader/src/scraper_types.rs:24-29 | a player hashes the bytes of the name followed by those of the surname |
| LoaderTypes.SamePlayerIsEquivalence | speedwayrs-loader/src/scraper_types.rs:31-37 | player equality is reflexive, symmetric and transitive, and ignores the number and the scores |
| LoaderTypes.SamePlayer | speedwayrs-loader/src/scraper_types.rs:24-35 | equal players (same name and surname) hash the same bytes, as `Hash` and `Eq` must agree |
| LoaderTypes.HashIgnoresTheSplit | speedwayrs-loader/src/scraper_types.rs:24-29 | `Ab c` and `A bc` hash the same bytes yet differ: a collision, not a disagreement |
| LoaderTypes.SplitOnceSplits | speedwayrs-loader/src/scraper_types.rs:120 | `split_once` fails exactly when the separator is absent, and splits at its first occurrence |
| LoaderTypes.RunScoreName | speedwayrs-loader/src/scraper_types.rs:119-121 | the trimmed name splits exactly when it has a space, into the text before its first space and the text after; without a space the `unwrap` panics |
| LoaderTypes.JoinedNameSplits | speedwayrs-loader/src/scraper_types.rs:119-121 | a padded `name surname` gives back the name and the surname |
| LoaderTypes.SplitIsUnique | speedwayrs-loader/src/scraper_types.rs:120 | the split at the first space is unique |
| LoaderTypes.OneWordNamePanics | speedwayrs-loader/src/scraper_types.rs:119-121 | a one-word name panics |
| LoaderTypes.RunTime | speedwayrs-loader/src/scraper_types.rs:136-141 | both halves of the time are present exactly when the run has a time, are its seconds and tenths widened to i32, and lie within i32 |
| LoaderTypes.SharedResult | speedwayrs-loader/src/scraper_types.rs:107-112 | every scraped result has a shared counterpart except a resignation |
| LoaderTypes.ScrapedResultLoads | speedwayrs-loader/src/scraper_types.rs:107-112 | the JSON the scraper writes for a result is read by the loader as its shared counterpart; a resignation (`"Resign"`) does not load |
| LoaderInsertion.Resolve | speedwayrs-loader/src/insertion.rs:7-39 | a resolved id is the key's row in the new table; the table only gains the key, and rows already there keep their ids |
| LoaderInsertion.ResolvePresent | speedwayrs-loader/src/insertion.rs:12-13 | a key already stored is answered with its id and nothing is inserted |
| LoaderInsertion.ResolveMissing | speedwayrs-loader/src/insertion.rs:14-36 | a missing key is inserted under a fresh id; it resolves exactly when the insert succeeds, or when it races and the second select succeeds |
| LoaderInsertion.ResolveKeepsValid | speedwayrs-loader/src/insertion.rs:7-39 | the serial ids of a table stay distinct and below its next id |
| LoaderInsertion.ResolveIdempotent | speedwayrs-loader/src/insertion.rs:7-39 | resolving a key a second time gives the same id and leaves the table as it is |
| LoaderInsertion.OtherInsertErrorIsReturned | speedwayrs-loader/src/insertion.rs:21-34 | an insert error other than 23505 is returned and nothing is inserted |
| LoaderInsertion.Keys | speedwayrs-loader/src/insertion.rs:129-133 | every rider's (name, surname) is a key of the map |
| LoaderInsertion.ResolveAll | speedwayrs-loader/src/insertion.rs:123-136 | resolving riders keeps every row of the table and adds rows only for the riders' keys |
| LoaderInsertion.ResolveAllGrows | speedwayrs-loader/src/insertion.rs:123-136 | mapping riders keeps every stored id and the table's validity |
| LoaderInsertion.ResolveAllAgrees | speedwayrs-loader/src/insertion.rs:123-136 | a map built for riders has exactly their keys, each with the id now stored for it |
| LoaderInsertion.ResolveAllStops | speedwayrs-loader/src/insertion.rs:129-133 | the first rider that fails ends the loop with its error |
| LoaderInsertion.ResolveReferences | speedwayrs-loader/src/insertion.rs:240-249 | the references of a match add rows only: to the teams for the two trimmed team names, to the places for the stadium, to the riders for the two teams' riders; on success both team ids are the stored ids of the trimmed names and the stadium id that of the stadium text |
| LoaderInsertion.ReferencesCoverRiders | speedwayrs-loader/src/insertion.rs:247-249 | the merged map covers the riders of both teams with their stored ids |
| LoaderInsertion.GameRowOf | speedwayrs-loader/src/insertion.rs:155-177 | the game row holds both teams' points widened to i32, the resolved team and place ids and the date |
| LoaderInsertion.IsPlaceholder | speedwayrs-loader/src/insertion.rs:260-263 | a rider is the placeholder exactly when the ASCII lower case of its name is `brak` and of its surname `zawodnika` |
| LoaderInsertion.RiderRows | speedwayrs-loader/src/insertion.rs:268-270 | a rider writes one score row per result, indexed by position |
| LoaderInsertion.ScoreRowsBelong | speedwayrs-loader/src/insertion.rs:255-271 | every per-round row belongs to the game and to one of the ids the riders were resolved to |
| LoaderInsertion.ScoreRowsAppend | speedwayrs-loader/src/insertion.rs:255-271 | the score rows of two rider lists laid end to end are the rows of each in turn |
| LoaderInsertion.ScoreRowsOfOne | speedwayrs-loader/src/insertion.rs:260-263 | the `Brak zawodnika` placeholder writes nothing; any other rider writes its results under its id |
| LoaderInsertion.ScoreRowsPrefix | speedwayrs-loader/src/insertion.rs:255-271 | the score rows of the first riders are no more than those of all |
| LoaderInsertion.RunRowOf | speedwayrs-loader/src/insertion.rs:274-282 | a run row holds the run's position, its time as two optional i32 and the game |
| LoaderInsertion.RunRows | speedwayrs-loader/src/insertion.rs:273-282 | one run row per run |
| LoaderInsertion.RunRowsAt | speedwayrs-loader/src/insertion.rs:273-282 | run row i is that of run i |
| LoaderInsertion.SplitEntries | speedwayrs-loader/src/insertion.rs:284-285 | each entry's name is split as `PlayerRunScore::name` splits it |
| LoaderInsertion.SplitEntriesAll | speedwayrs-loader/src/insertion.rs:284-285 | split entry i is the split name and the score of entry i |
| LoaderInsertion.EntryRow | speedwayrs-loader/src/insertion.rs:284-296 | an entry panics exactly when its name does not split; otherwise it writes one row, with the run, the rider's id and the result, exactly when the rider is one of the match |
| LoaderInsertion.SplitRuns | speedwayrs-loader/src/insertion.rs:273-285 | there is one list of split entries per run |
| LoaderInsertion.SplitRunsAt | speedwayrs-loader/src/insertion.rs:273-285 | split list i is the split entries of run i, so splitting before the loop splits what the loop would |
| LoaderInsertion.EntryRowsKnown | speedwayrs-loader/src/insertion.rs:284-296 | a run's entries write rows unless a name does not split; every row belongs to that run and to a mapped rider |
| LoaderInsertion.KnownEntriesWriteAll | speedwayrs-loader/src/insertion.rs:284-296 | when every entry names a mapped rider, one row per entry is written, in order, under that rider's id |
| LoaderInsertion.StrangersWriteNothing | speedwayrs-loader/src/insertion.rs:285-295 | entries naming riders outside the map are skipped |
| LoaderInsertion.EntryRowsOkUpTo | speedwayrs-loader/src/insertion.rs:284-296 | the first entries write rows exactly when all their names split |
| LoaderInsertion.EntryRowsPrefix | speedwayrs-loader/src/insertion.rs:284-296 | a failure among the first entries is a failure of the whole run |
| LoaderInsertion.RunScoreRowsPrefix | speedwayrs-loader/src/insertion.rs:273-297 | a failure in the first runs is a failure of all the runs |
| LoaderInsertion.FailsWithinSplit | speedwayrs-loader/src/insertion.rs:251-301 | a statement of the transaction fails exactly when it is `BEGIN`, the game insert, a statement of the body or `COMMIT` |
| LoaderInsertion.FailsWithinWider | speedwayrs-loader/src/insertion.rs:251-299 | a statement failing inside a stretch of the transaction fails inside any wider stretch |
| LoaderInsertion.Store.constructor | speedwayrs-loader/src/insertion.rs:239 | an empty database: three empty tables, nothing written |
| LoaderInsertion.Store.CheckTeam | speedwayrs-loader/src/insertion.rs:41-81 | `check_team` resolves the trimmed name in the teams table as `Resolve` says |
| LoaderInsertion.Store.CheckPlayer | speedwayrs-loader/src/insertion.rs:7-39 | `check_player` resolves (name, surname) in the players table as `Resolve` says |
| LoaderInsertion.Store.CheckPlace | speedwayrs-loader/src/insertion.rs:83-121 | `check_place` resolves the description in the places table as `Resolve` says |
| LoaderInsertion.Store.MapPlayers | speedwayrs-loader/src/insertion.rs:123-136 | the loop gives the map and the players table of `ResolveAll` |
| LoaderInsertion.Store.WriteRider | speedwayrs-loader/src/insertion.rs:268-270 | a rider's score rows are appended, one statement each, unless a statement in that stretch fails; nothing else is written |
| LoaderInsertion.Store.WriteRowsOf | speedwayrs-loader/src/insertion.rs:260-270 | the placeholder writes nothing, any other rider its rows under its id |
| LoaderInsertion.Store.WriteScores | speedwayrs-loader/src/insertion.rs:255-271 | all riders' score rows are appended in order unless a statement among them fails |
| LoaderInsertion.Store.WriteEntry | speedwayrs-loader/src/insertion.rs:284-296 | an entry whose name does not split panics; a mapped rider's entry appends one row unless its statement fails; a stranger's entry writes nothing |
| LoaderInsertion.Store.WriteEntries | speedwayrs-loader/src/insertion.rs:284-296 | a run's entries are written in order; it fails with the first panic or failing statement |
| LoaderInsertion.Store.WriteRun | speedwayrs-loader/src/insertion.rs:273-296 | a run row, then its entries; it succeeds exactly when the entries split and no statement among them fails |
| LoaderInsertion.Store.WriteRuns | speedwayrs-loader/src/insertion.rs:273-297 | every run row and its entry rows are appended in order unless a name does not split or a statement fails |
| LoaderInsertion.Store.WriteBody | speedwayrs-loader/src/insertion.rs:255-297 | the score rows, then the runs with their entries, are appended exactly when every name splits and no statement of that stretch fails; a panic comes only from a name; the game table is untouched |
| LoaderInsertion.Store.ResolveGame | speedwayrs-loader/src/insertion.rs:240-249 | teams, place and both teams' riders are resolved, in that order, as `ResolveReferences` says |
| LoaderInsertion.Store.Transaction | speedwayrs-loader/src/insertion.rs:251-301 | the game, the score rows, the runs and the entry rows are committed together exactly when no name fails to split and no statement fails; on any failure nothing written is kept (rollback) |
| LoaderInsertion.Store.InsertIntoDatabase | speedwayrs-loader/src/insertion.rs:239-302 | references are resolved outside the transaction and stay resolved; a failure there returns it with nothing written; otherwise the transaction commits all of the game's rows or none |
| BackendMatchInfo.TeamNames | speedwayrs-backend/src/data/match_info.rs:29-48 | fewer than two name rows panic in `unwrap`; otherwise the names are paired by id |
| BackendMatchInfo.TeamNamesInOrder | speedwayrs-backend/src/data/match_info.rs:38-47 | whichever order the two rows come in, the first name is team 1's |
| BackendMatchInfo.SelectMainData | speedwayrs-backend/src/data/match_info.rs:50-72 | no game row is None; a query error is returned; a game row gives a value exactly when the name query returns at least two rows |
| BackendMatchInfo.MainDataKeepsRow | speedwayrs-backend/src/data/match_info.rs:58-68 | the main info is the game row with its two team ids replaced by their names |
| BackendMatchInfo.SelectPlayerScores | speedwayrs-backend/src/data/match_info.rs:211-238 | the loop gives None as soon as a stored score does not parse; otherwise one info per row, in order, with the parsed result |
| BackendMatchInfo.EncodedScoresDecode | speedwayrs-backend/src/data/match_info.rs:221-235 | scores the loader stored with `to_string` all parse back |
| BackendMatchInfo.EncodedScoreDecodes | speedwayrs-backend/src/data/match_info.rs:222 | every stored result parses back to itself |
| BackendMatchInfo.GroupIsFiltered | speedwayrs-backend/src/data/match_info.rs:131-145 | a key has a group exactly when some row has it, and its group is the values of those rows in row order |
| BackendMatchInfo.GroupRows | speedwayrs-backend/src/data/match_info.rs:131-145 | the grouping loop builds the specification `Group` of the rows |
| BackendMatchInfo.Group | speedwayrs-backend/src/data/match_info.rs:131-145 | every group holds at least one and at most all of the rows |
| BackendMatchInfo.MaxPositionIsMax | speedwayrs-backend/src/data/match_info.rs:118-125 | `max_by_key` gives a position some row has |
| BackendMatchInfo.MaxPosition | speedwayrs-backend/src/data/match_info.rs:118-125 | no row's position exceeds the maximum |
| BackendMatchInfo.Timed | speedwayrs-backend/src/data/match_info.rs:149-150 | only time rows with tenths make runs |
| BackendMatchInfo.TimedRuns | speedwayrs-backend/src/data/match_info.rs:147-166 | the time loop makes at most one run per time row, only takes groups it was given, and fails only with the time-nullity or the missing-entry error |
| BackendMatchInfo.TimedRunsOk | speedwayrs-backend/src/data/match_info.rs:149-166 | the time loop succeeds exactly when each timed row has whole seconds and an entry group not already taken, and it removes exactly the groups it used |
| BackendMatchInfo.TimedRunsAreTimedRows | speedwayrs-backend/src/data/match_info.rs:149-166 | run i is built from timed row i and its position's group |
| BackendMatchInfo.TimedRunsFailureStays | speedwayrs-backend/src/data/match_info.rs:149-166 | the first failing time row ends the loop with its error |
| BackendMatchInfo.CombineRunsOk | speedwayrs-backend/src/data/match_info.rs:112-166 | the runs combine exactly when both row lists are non-empty, their highest positions agree, and every timed row has whole seconds and a group of entries used by no earlier timed row |
| BackendMatchInfo.CombineRunsAreTimed | speedwayrs-backend/src/data/match_info.rs:131-166 | combined run i is timed row i with the entries of its position, in row order |
| BackendMatchInfo.CombineRuns | speedwayrs-backend/src/data/match_info.rs:112-166 | runs come out only from non-empty row lists, at most one per time row; a failure is one of the five errors of the run step, never a panic |
| BackendMatchInfo.CollectedAll | speedwayrs-backend/src/data/match_info.rs:186-190 | draining the map yields one player per group, built by `Player::new` |
| BackendMatchInfo.CollectedKeys | speedwayrs-backend/src/data/match_info.rs:188-190 | player i carries the key drained i-th |
| BackendMatchInfo.KeySetOf | speedwayrs-backend/src/data/match_info.rs:188-190 | the players' keys are exactly the group keys |
| BackendMatchInfo.CollectedStep | speedwayrs-backend/src/data/match_info.rs:188-190 | draining one more group keeps the loop invariant |
| BackendMatchInfo.CollectPlayers | speedwayrs-backend/src/data/match_info.rs:186-190 | the loop makes one player per group, in some order, each built from its key and its results |
| BackendMatchInfo.CombineInfo | speedwayrs-backend/src/data/match_info.rs:112-202 | it succeeds exactly when the runs combine, with the error of the run step otherwise; the report holds the main info (scores cast to u32), the combined runs and one player per (name, surname) group of scores |
| BackendMatchInfo.MatchRuns | speedwayrs-backend/src/data/match_info.rs:118-166 | the run half of `combine_info` computes `CombineRuns` |
| BackendMatchInfo.TimeRuns | speedwayrs-backend/src/data/match_info.rs:147-166 | the time loop computes the runs of `TimedRuns` or its error |
| BackendMatchInfo.MatchInfoHandler | speedwayrs-backend/src/data/match_info.rs:240-302 | a panic reading the team names propagates; no game is 404; 200 with a body exactly when every query succeeds, every stored score parses and the runs combine; every other case is 500; the 200 body is the whole report: the main info with the scores cast to u32, the combined runs, and one player per (name, surname) group of the parsed scores |
| BackendPlayerData.DecodeAll | speedwayrs-backend/src/data/player_data.rs:54-55 | every stored result is parsed, one per row |
| BackendPlayerData.Count | speedwayrs-backend/src/data/player_data.rs:54-74 | a counter counts at most the rows read |
| BackendPlayerData.Decodable | speedwayrs-backend/src/data/player_data.rs:54-74 | at most every row read parses |
| BackendPlayerData.CountGrows | speedwayrs-backend/src/data/player_data.rs:54-74 | counts only grow as rows are read |
| BackendPlayerData.TalliedStep | speedwayrs-backend/src/data/player_data.rs:58-62 | a row keeps the points in range exactly when its score indexes the four-slot array |
| BackendPlayerData.TalliedNext | speedwayrs-backend/src/data/player_data.rs:54-74 | one row's update keeps the tally invariant |
| BackendPlayerData.OverflowUnfit | speedwayrs-backend/src/data/player_data.rs:59-66 | a counter that would pass its width on this row means the counts do not fit |
| BackendPlayerData.TallyOne | speedwayrs-backend/src/data/player_data.rs:55-73 | one row: a score of 4 or more panics out of bounds; an increment past u32 (points, stars) or u16 (accidents) panics; otherwise exactly the counters of the parsed result grow by one, and nothing for a row that does not parse |
| BackendPlayerData.PlayerStatsOf | speedwayrs-backend/src/data/player_data.rs:45-86 | `get_player_stats` succeeds exactly when every parsed score is at most 3 and no counter overflows, and then gives the counts of each score, of stars and of the other results; any failure is a panic |
| BackendPlayerData.TallyRows | speedwayrs-backend/src/data/player_data.rs:50-85 | the loop over any parser gives the same counts or the same panic |
| BackendPlayerData.PanicUnfit | speedwayrs-backend/src/data/player_data.rs:59-66 | a panic in the loop means the whole list does not tally |
| BackendPlayerData.TalliedAll | speedwayrs-backend/src/data/player_data.rs:76-85 | after the last row the counters are the stats of all the rows |
| BackendPlayerData.StatsOf | speedwayrs-backend/src/data/player_data.rs:76-85 | with every score in range, the four points counters and the other results add up to the decodable results, and the stars never outnumber the runs with points |
| BackendPlayerData.TallyCoversDecodable | speedwayrs-backend/src/data/player_data.rs:54-74 | every row that parses lands in exactly one of the four score counts or the accident count, and stars never exceed scores |
| BackendPlayerData.FormerTeams | speedwayrs-backend/src/data/player_data.rs:88-94 | every row needs its game count, else `unwrap` panics; the teams are the rows in order, the count cast to u16 |
| BackendPlayerData.PlayerDataHandler | speedwayrs-backend/src/data/player_data.rs:104-164 | each step's outcome decides the answer: a failed like query (logged-in user only), name, results or teams query is 500; no player name is 404; a panic happens exactly when the name is found and the stats tally panics, or the teams query succeeds and a count is missing; when every step succeeds the answer is 200, whose body carries the like flag only for a logged-in user, the name, the tallied stats and the former teams |
| BackendSession.AuthStatusFrom | speedwayrs-backend/src/session.rs:26-33 | a user name gives `Authenticated` with that name; none gives `NonAuthenticated` |
| BackendSession.AuthStatusRoundTrip | speedwayrs-backend/src/session.rs:26-33 | the conversion from an optional user name is a bijection |
| BackendSession.LoggedIn | speedwayrs-backend/src/session.rs:50-69 | logging in sets the session's user and pushes its expiration an hour past the stored one |
| BackendSession.Revalidated | speedwayrs-backend/src/session.rs:102-118 | a renewed session expires an hour after the check; it keeps its user exactly when it had not expired, and never gains one |
| BackendSession.LoginLastsAnHour | speedwayrs-backend/src/session.rs:50-111 | a user logged in stays logged in at a check no later than an hour past the old expiration, and not after |
| BackendSession.RenewalsKeepUser | speedwayrs-backend/src/session.rs:107-118 | a live session checked again within the hour it was renewed for keeps its user |
| BackendSession.ValidateReturnsStoredUser | speedwayrs-backend/src/session.rs:74-132 | validation returns a user only if the row held it; the table changes only at that id, renewed to an hour past one of the passes' clock readings; when the passes run out at most that id was added |
| BackendSession.ValidateKeepsLiveUser | speedwayrs-backend/src/session.rs:102-127 | a session that has not expired by any of the checks comes back with its own user |
| BackendSession.Validate | speedwayrs-backend/src/session.rs:91-127 | the validation loop changes the sessions table at most at the id it validates |
| BackendSession.CreateIsFresh | speedwayrs-backend/src/session.rs:134-159 | a created session is that of an attempt that could insert, and expires an hour after it; creation fails only if no attempt could insert |
| BackendSession.Create | speedwayrs-backend/src/session.rs:134-158 | a created session id was not in the table |
| BackendSession.SessionStore.constructor | speedwayrs-backend/src/session.rs:35-39 | the sessions table as given |
| BackendSession.SessionStore.LoginSession | speedwayrs-backend/src/session.rs:35-72 | a failing select or a missing row, or a failing update, is returned and changes nothing; otherwise the row gets the user and the later expiration, which is returned |
| BackendSession.SessionStore.ValidateSession | speedwayrs-backend/src/session.rs:74-132 | the retry loop gives the outcome and the table of `Validate` |
| BackendSession.SessionStore.CreateNewSession | speedwayrs-backend/src/session.rs:134-159 | the retry loop gives `Create`'s id and expiration and inserts exactly that row with no user |
| BackendSession.ExtractStatus | speedwayrs-backend/src/data/player_data.rs:104 | an `Extension<Arc<AuthStatus>>` extractor reaches the handler exactly when the request carries a shared status, and otherwise answers 500 |
| BackendSession.InsertedStatus | speedwayrs-backend/src/session.rs:214-216 | as written, the middleware leaves a request with a plain `AuthStatus` on the new-session path and none otherwise, and either way the handlers' extractor answers 500 |
| BackendSession.IntendedStatus | speedwayrs-backend/src/session.rs:214-216 | a shared status of the session's user reaches the handler, carrying exactly that user |
| BackendSession.SessionStore.SessionManagement | speedwayrs-backend/src/session.rs:161-221 | a cookie with a valid id is validated and the cookie renewed, with no auth status attached; no cookie or an unparseable one gets a new session, a plain `NonAuthenticated` status, its old cookie header removed and the new id written into the request's cookie header; on both paths the status the handlers extract is refused with 500 |
| BackendTeamStats.Totals | speedwayrs-backend/src/data/team_stats.rs:43-55 | a missing count panics and so does a subtraction below zero; otherwise wins and ties are the counts cast to u32 and wins + losses + ties is the total |
| BackendTeamStats.TotalsOfCounts | speedwayrs-backend/src/data/team_stats.rs:48-54 | for counts within u32 the totals succeed exactly when wins and ties do not exceed the total, and then the losses are what is left |
| BackendTeamStats.GameDataOf | speedwayrs-backend/src/data/team_stats.rs:64-70 | a row with a missing column panics; otherwise its opponent id and name and its count cast to u32 |
| BackendTeamStats.GamesOf | speedwayrs-backend/src/data/team_stats.rs:62-71 | the rows are mapped in order and the first incomplete row panics |
| BackendTeamStats.TeamStats | speedwayrs-backend/src/data/team_stats.rs:91-137 | a failing query is 500, checked in order (totals, losses, wins); a panic reading the rows unwinds; 200 exactly when all three queries and their rows read, with the totals and both lists |
| BackendLikes.Toggle | speedwayrs-backend/src/utils/mod.rs:53-88 | the like is present afterwards exactly when it was absent before, and every other like keeps its presence |
| BackendLikes.ToggleTwice | speedwayrs-backend/src/utils/mod.rs:53-88 | liking then unliking (or the reverse) gives back the table as it was |
| BackendLikes.ToggleCommutes | speedwayrs-backend/src/utils/mod.rs:47-137 | toggling two likes gives the same table in either order |
| BackendLikes.LikeTables.constructor | speedwayrs-backend/src/utils/mod.rs:25-29 | the tables start as given |
| BackendLikes.LikeTables.ToggleLikes | speedwayrs-backend/src/utils/mod.rs:25-140 | 401 and no change for a caller not logged in; otherwise the given team is toggled, then the given player, a failing call is 500 and stops before later writes; 200 exactly when no call fails, reporting for each given id whether it is now liked |
| BackendAccount.RegisterStatus | speedwayrs-backend/src/account.rs:52-61 | 409 exactly for a taken field, 500 exactly for a server error, 422 exactly for an invalid field |
| BackendAccount.RegisterBody | speedwayrs-backend/src/account.rs:39-61 | the two kinds with fields carry a JSON body tagged with the variant's name; the server error has none |
| BackendAccount.RegisterResponse | speedwayrs-backend/src/account.rs:106-126 | 201 exactly when registered; a rejection carries its error's status and body |
| BackendAccount.LoginStatus | speedwayrs-backend/src/account.rs:140-147 | 403 exactly for an invalid field, 500 exactly for a server error |
| BackendAccount.TakenFlags | speedwayrs-backend/src/account.rs:82-88 | each flag is set exactly when some row has the form's username, respectively e-mail address |
| BackendAccount.RegisterCheck | speedwayrs-backend/src/account.rs:64-104 | a username over 50 bytes and an invalid address are reported together as invalid; then a failing query is a server error; then a username or address already in the table is reported taken with both flags; otherwise nothing |
| BackendAccount.FindUser | speedwayrs-backend/src/account.rs:157-160 | the first row with the username, or none when no row has it |
| BackendAccount.Login | speedwayrs-backend/src/account.rs:149-187 | an over-long or unknown username is 403, a failing query 500, an unparsable stored hash panics; logging in needs a row with the username whose hash verifies the password |
| BackendAccount.RegisteredUserLogsIn | speedwayrs-backend/src/account.rs:149-187 | in a table registration keeps, a user logs in exactly when their own stored hash verifies the password |
| BackendAccount.Accounts.constructor | speedwayrs-backend/src/account.rs:189-193 | the users table starts empty, which satisfies the registration invariant |
| BackendAccount.Accounts.Register | speedwayrs-backend/src/account.rs:106-126 | registered exactly when the checks pass and the insertion succeeds, and then the table gains the account with the hash; a failing uniqueness check is a server error and a taken field is reported with both flags; a rejection leaves the table; no username or address ever appears twice |
| BackendAccount.Route | speedwayrs-backend/src/account.rs:189-193 | only the users path is routed; POST there registers and GET logs in |
| FrontendSignup.Kind | speedwayrs-frontend/src/signup.rs:17-28 | the six kinds of sign-up error are numbered below six |
| FrontendSignup.ErrorTitle | speedwayrs-frontend/src/signup.rs:31-48 | each kind's title is its own text; a weak password's title is the primary message followed by zxcvbn's warning when there is one |
| FrontendSignup.TitleTellsKind | speedwayrs-frontend/src/signup.rs:31-48 | errors of distinct kinds never share a title |
| FrontendSignup.TitleInitial | speedwayrs-frontend/src/signup.rs:31-48 | each kind's title starts with a letter of its own |
| FrontendSignup.LinesAppend | speedwayrs-frontend/src/signup.rs:69-77 | the suggestion text of a concatenation is the concatenation of the texts |
| FrontendSignup.LinesOne | speedwayrs-frontend/src/signup.rs:72-74 | one suggestion is written followed by a newline |
| FrontendSignup.ErrorDescription | speedwayrs-frontend/src/signup.rs:50-79 | each kind has its fixed description; a taken field names both, the username, or else the e-mail address; a weak password lists each suggestion on its own line, in order |
| FrontendSignup.FormError | speedwayrs-frontend/src/signup.rs:190-215 | an empty field is reported first, then a password under 8 bytes, then a zxcvbn score below 3 with its warning and suggestions; the form is sent exactly when all fields are filled, the password has 8 bytes and the score is at least 3; a missing zxcvbn answer or feedback panics |
| FrontendSignup.SentFormsAreFilled | speedwayrs-frontend/src/signup.rs:194-198 | a form that is sent has three non-empty fields |
| FrontendSignup.Flags | speedwayrs-frontend/src/signup.rs:84-92 | two flags are read only from an object holding both as booleans |
| FrontendSignup.DecodeTaggedMessage | speedwayrs-frontend/src/signup.rs:82-93 | the internally tagged form decodes only objects with a "type" member |
| FrontendSignup.DecodeMessage | speedwayrs-backend/src/account.rs:39-50 | the externally tagged form decodes only objects with a single member |
| FrontendSignup.DecodeRegisterBody | speedwayrs-backend/src/account.rs:39-61 | decoding in the backend's own form gives back every error body the backend sends, flags included |
| FrontendSignup.TaggedDecodingRejectsRegisterBody | speedwayrs-frontend/src/signup.rs:82-93 | the frontend's decoding rejects every error body the backend sends, so every 409 and 422 is shown as unprocessable data |
| FrontendSignup.FromMessage | speedwayrs-frontend/src/signup.rs:95-112 | a taken-field message keeps both flags; an invalid-field message panics |
| FrontendSignup.Extract | speedwayrs-frontend/src/signup.rs:114-134 | a missing or undecodable body is unprocessable data; otherwise the decoded message's error |
| FrontendSignup.SignupRequest | speedwayrs-frontend/src/signup.rs:136-171 | no reply is a server problem; success exactly on 201; 500 is a server problem; 409 and 422 are read from the body with the given decoder (the page as written uses `DecodeTaggedMessage`); any other status panics |
| FrontendSignup.RefusalsBecomeUnprocessable | speedwayrs-frontend/src/signup.rs:124-130 | as written, every 409 and 422 answer of `register` makes the request report UnprocessableData |
| FrontendSignup.SignupFollowsRegister | speedwayrs-backend/src/account.rs:106-126 | with bodies decoded in the form the backend writes (`DecodeMessage`), the frontend reports success, the taken flags, a server problem, or panics on invalid fields, for each answer `register` gives |
| FrontendSignup.LongUsernamePassesPage | speedwayrs-frontend/src/signup.rs:190-215 | a 51-byte username passes the page's checks although the backend refuses it |
| FrontendSignup.SignupPathAsWrittenIsNotRouted | speedwayrs-frontend/src/signup.rs:15 | the backend routes nothing at "/users/signup", and the 404 it answers makes the request panic |
| FrontendSignup.SignupPathReachesRegister | speedwayrs-backend/src/account.rs:189-193 | a POST to "/users" reaches register |
| FrontendSignup.SignupPage.constructor | speedwayrs-frontend/src/signup.rs:175-184 | the fields start empty, with no error, nothing in progress and no account created |
| FrontendSignup.SignupPage.Submit | speedwayrs-frontend/src/signup.rs:190-216 | the form's fields are unchanged, the success flag is cleared, the shown error is the form's error, and a request starts exactly when there is none; panics exactly when the form check does, leaving the shown error and the request flag as they were |
| FrontendSignup.SignupPage.Complete | speedwayrs-frontend/src/signup.rs:216-233 | the outcome of `SignupRequest` with the same decoder sets the success flag or the registration error and ends the request; a panic leaves those signals as they were |

## Left out

- ScraperRun.RunIterator.constructor: takes the run list's time and competitor elements as found; the `unwrap` at speedwayrs-scraper/src/game/run.rs:68, which panics when a report has no run-list element, is not modelled, because HTML selection is an input.
- HTML selection and the regex engine. The inputs are the strings the selectors would return. Each regex is replaced by the leftmost match it describes, with `\d` read as the ASCII digits only, whereas the regex crate's `\d` is Unicode.
- Network I/O (`reqwest`, `gloo_net`). A request's outcome is a value: a response, a connect error or another error.
- Sleeping and the wall clock. Time is a natural number of nanoseconds passed in, and a sleep of `d` advances it by `d`.
- Retry loops that run forever in the source (connect errors in `http.rs`, session creation and validation in `session.rs`). The model takes a finite sequence of attempt outcomes and ends "still retrying" when they run out.
- `game/mod.rs` declares only `mod player`, so `game/team/` and `game/run.rs` are not compiled in this revision. They are modelled as written anyway.
- The scraper worker pool and sink, the CLI and configuration, and the loader driver (`speedwayrs-loader/src/main.rs`). The loader driver never awaits its insert, so nothing here claims it runs one.
- Names in run entries are split with `PlayerRunScore::name` before the transaction (`LoaderInsertion.SplitRuns`), not inside the write loop. A name that does not split panics. The source's panic drops the open transaction, which rolls it back, and the model restores the snapshot in the same way.
- PostgreSQL beyond what the loader relies on. Tables are maps and sequences, and a transaction is a snapshot restored on failure. Serial ids are taken from a counter, so the gaps a failed insert leaves in a real sequence are not modelled. SQL text, filtering, ordering and `STATS_LIMIT` are inside the queries, whose answers are inputs.
- `register_check.sql`'s filter: the model scans the whole users table. This does not change the flags, because a row that matches neither field sets neither flag.
- Foreign libraries are inputs or oracles:
  - argon2 hashing and verification (`hash_password` is a parameter);
  - `email_address::EmailAddress::is_valid`;
  - zxcvbn's score and feedback;
  - UUID parsing and generation.
- BackendMatchInfo.CollectPlayers: the players come out in `HashMap` iteration order, which is unspecified. The contract states which players there are, not their order.
- Types.NewPlayer: `Player::new` sorts with `sort_unstable_by_key`, which leaves the order of two results of the same round unspecified. The model sorts by insertion, and its contract states only that the scores are in ascending round order and a permutation of the input.
- Overflow is modelled as the panic of a debug build; a release build wraps instead. ScraperTeam.SumScore's `u16` total cannot overflow for up to 36 riders, and a lemma proves this.
- Types: JSON string escapes in a stored result are not decoded, and such a text is read as undecodable. The loader never writes one.
- JsonValue.Member: a key that appears twice is answered from its first occurrence, whereas serde rejects a duplicate field.
- `RunInfo` in `speedwayrs-types` holds (rider, result) pairs. The backend builds (id, rider, result) triples. The model keeps the two shapes apart (`Types.RunInfo`, `BackendMatchInfo.RunReport`).
- `session_info` in `session.rs` returns the answer of one select as it is, so it is not modelled. `SessionStore.SessionManagement` models the middleware as written: on the path with a valid cookie it attaches no `AuthStatus`, and on the new-session path it attaches a plain one, which the handlers' `Extension<Arc<AuthStatus>>` extractors do not find (see Findings).
- BackendPlayerData.PlayerDataHandler: takes the status the corrected extension (`BackendSession.IntendedStatus`) would give it. As written, every request to it is answered 500 by its extractor before it runs; `team_data` (speedwayrs-backend/src/data/team_data.rs:84) extracts the status the same way and is affected alike.
- BackendLikes.LikeTables.ToggleLikes: takes the status the corrected extension would give it, as `PlayerDataHandler` does. Besides, `utils_router`, which holds its `/like` route, is not nested into the router of speedwayrs-backend/src/main.rs:55-58, so as written no request reaches it.
- The `next` handler the middleware calls is not modelled.
- axum's routing is reduced to exact path equality in `BackendAccount.Route`.
- The `/chat` routes nested in `utils_router`, and every frontend file other than `signup.rs`, are view markup or thin query wrappers.
- FrontendSignup.SignupPage: the view markup and the reactive selectors are not modelled. The page is its signals. `Submit` and `Complete` are the button handler before and after its asynchronous request.
- A `FieldInvalid` answer reaching the frontend panics with "Repair implementation.", as written. The page cannot prevent it: `LongUsernamePassesPage` shows a 51-byte username that passes the page but is refused by the backend.

## Findings

| source | as written | input that shows it | evidently intended | confidence | as-written member | corrected member |
|---|---|---|---|---|---|---|
| speedwayrs-frontend/src/signup.rs:82-93 | `SignupMessage` is decoded internally tagged (`tag = "type"`), but the backend serialises `RegisterError` externally tagged (speedwayrs-backend/src/account.rs:39-50) | the 409 body `{"FieldTaken":{"username_taken":true,"email_taken":false}}` has no `type` member, so it decodes to `UnprocessableData` | decode the externally tagged form, so that a taken username or address is reported as such | not executed | FrontendSignup.RefusalsBecomeUnprocessable | FrontendSignup.SignupFollowsRegister |
| speedwayrs-backend/src/session.rs:214-216 | the middleware inserts `Extension<AuthStatus>`, and only on the new-session path, while the handlers extract `Extension<Arc<AuthStatus>>` (speedwayrs-backend/src/data/player_data.rs:104, speedwayrs-backend/src/utils/mod.rs:27) | any POST to `/data/player_info`, with or without a session cookie: the extractor finds no `Arc<AuthStatus>` and answers 500 before the handler runs | insert `Arc<AuthStatus>` of the session's user on both paths | not executed | BackendSession.InsertedStatus | BackendSession.IntendedStatus |
| speedwayrs-frontend/src/signup.rs:15 | the form is posted to `/users/signup`, but the backend serves `register` at POST `/users` (speedwayrs-backend/src/account.rs:189-193, nested under `/users`) | any submitted form: the POST to `/users/signup` is answered 404, and `signup_request` panics "Critical error." | post to `/users` | not executed | FrontendSignup.SignupPathAsWrittenIsNotRouted | FrontendSignup.SignupPathReachesRegister |
