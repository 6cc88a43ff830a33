/** The player page of the backend (`data/player_data.rs`): the rider's
    name, a tally of the stored results of all their runs, the teams they
    rode for, and whether the caller likes them.

    The outcomes of the four queries are inputs. */
module BackendPlayerData {
  import opened Wrappers
  import opened Text
  import T = Types
  import HttpStatus
  import BackendSession

  /** The panic of `points[score as usize]` for a score past the array. */
  function IndexOutOfBounds(index: nat): string {
    "index out of bounds: the len is 4 but the index is " + NatToString(index)
  }

  const ADD_OVERFLOW: string := "attempt to add with overflow"

  /** `PlayerStats`: how many runs ended with 3, 2, 1 and 0 points, how many
      of them with a star, and how many ended otherwise. */
  datatype PlayerStats = PlayerStats(
    threePoints: u32, twoPoints: u32, onePoints: u32, zeroPoints: u32, stars: u32, accidents: u16)

  /** The counters of the tally. */
  datatype Counter = Points(n: nat) | Stars | Accidents

  /** Whether a result counts towards a counter. */
  predicate Counts(r: T.PlayerResult, c: Counter) {
    match c
    case Points(n) => (r.Score? || r.ScoreWithStar?) && r.points == n
    case Stars => r.ScoreWithStar?
    case Accidents => !r.Score? && !r.ScoreWithStar?
  }

  /** Each row read by `decode`. */
  function DecodeWith(rows: seq<string>, decode: string -> Option<T.PlayerResult>): (results: seq<Option<T.PlayerResult>>)
    ensures |results| == |rows|
  {
    seq(|rows|, i requires 0 <= i < |rows| => decode(rows[i]))
  }

  /** Each stored result decoded, `None` where it does not decode. */
  function DecodeAll(rows: seq<string>): (results: seq<Option<T.PlayerResult>>)
    ensures |results| == |rows|
  {
    DecodeWith(rows, T.Decode)
  }

  /** The number of the first `k` decoded results that count towards
      `c`. */
  function Count(results: seq<Option<T.PlayerResult>>, k: nat, c: Counter): (n: nat)
    requires k <= |results|
    ensures n <= k
  {
    if k == 0 then 0
    else Count(results, k - 1, c) + (if results[k - 1].Some? && Counts(results[k - 1].value, c) then 1 else 0)
  }

  /** The number of the first `k` results that decoded. */
  function Decodable(results: seq<Option<T.PlayerResult>>, k: nat): (n: nat)
    requires k <= |results|
    ensures n <= k
  {
    if k == 0 then 0 else Decodable(results, k - 1) + (if results[k - 1].Some? then 1 else 0)
  }

  /** No result among the first `k` scores more than 3 points. */
  predicate PointsInRange(results: seq<Option<T.PlayerResult>>, k: nat)
    requires k <= |results|
  {
    forall i :: 0 <= i < k && results[i].Some? ==>
      (results[i].value.Score? || results[i].value.ScoreWithStar?) ==> results[i].value.points < 4
  }

  /** A tally that fits its counters: each points counter and the stars
      below 2^32, the accidents below 2^16. */
  predicate CountsFit(results: seq<Option<T.PlayerResult>>) {
    && Count(results, |results|, Points(0)) < U32_LIMIT && Count(results, |results|, Points(1)) < U32_LIMIT
    && Count(results, |results|, Points(2)) < U32_LIMIT && Count(results, |results|, Points(3)) < U32_LIMIT
    && Count(results, |results|, Stars) < U32_LIMIT && Count(results, |results|, Accidents) < U16_LIMIT
  }

  /** Counts only grow along the results. */
  lemma {:induction false} CountGrows(results: seq<Option<T.PlayerResult>>, j: nat, k: nat, c: Counter)
    requires j <= k <= |results|
    ensures Count(results, j, c) <= Count(results, k, c)
    decreases k - j
  {
    if j < k {
      CountGrows(results, j, k - 1, c);
    }
  }

  /** What the counting loop has established after `i` results. */
  ghost predicate Tallied(results: seq<Option<T.PlayerResult>>, i: nat, points: seq<nat>, stars: nat, accidents: nat)
    requires i <= |results|
  {
    && |points| == 4
    && (forall n :: 0 <= n < 4 ==> points[n] == Count(results, i, Points(n)))
    && stars == Count(results, i, Stars)
    && accidents == Count(results, i, Accidents)
    && PointsInRange(results, i)
  }

  /** Whether a result, if any, has a score the array can index. */
  predicate Fits(r: Option<T.PlayerResult>) {
    r.Some? && (r.value.Score? || r.value.ScoreWithStar?) ==> r.value.points < 4
  }

  /** The counter of `r` bumped, for each counter it counts towards. */
  function Bumped(r: Option<T.PlayerResult>, c: Counter, n: nat): nat {
    if r.Some? && Counts(r.value, c) then n + 1 else n
  }

  /** One more result tallied. */
  lemma TalliedStep(results: seq<Option<T.PlayerResult>>, i: nat, points: seq<nat>, stars: nat, accidents: nat)
    requires i < |results| && Tallied(results, i, points, stars, accidents)
    ensures PointsInRange(results, i + 1) <==> Fits(results[i])
    ensures PointsInRange(results, |results|) ==> Fits(results[i])
  {
    if !Fits(results[i]) {
      assert !PointsInRange(results, i + 1) by {
        assert results[i].Some?;
      }
    }
  }

  /** One more result that fits tallied: its counters bumped. */
  lemma TalliedNext(results: seq<Option<T.PlayerResult>>, i: nat, points: seq<nat>, stars: nat, accidents: nat,
                    next: seq<nat>, nextStars: nat, nextAccidents: nat)
    requires i < |results| && Tallied(results, i, points, stars, accidents) && Fits(results[i])
    requires |next| == 4 && forall n :: 0 <= n < 4 ==> next[n] == Bumped(results[i], Points(n), points[n])
    requires nextStars == Bumped(results[i], Stars, stars)
    requires nextAccidents == Bumped(results[i], Accidents, accidents)
    ensures Tallied(results, i + 1, next, nextStars, nextAccidents)
  {
    TalliedStep(results, i, points, stars, accidents);
  }

  /** The first value a counter cannot hold. */
  function Limit(c: Counter): nat {
    if c.Accidents? then U16_LIMIT else U32_LIMIT
  }

  /** A counter that overflows on the next result means the whole tally
      does not fit. */
  lemma OverflowUnfit(results: seq<Option<T.PlayerResult>>, i: nat, points: seq<nat>, stars: nat, accidents: nat,
                      c: Counter)
    requires i < |results| && Tallied(results, i, points, stars, accidents)
    requires c.Points? ==> c.n < 4
    requires results[i].Some? && Counts(results[i].value, c)
    requires Count(results, i, c) + 1 >= Limit(c)
    ensures !CountsFit(results)
  {
    CountGrows(results, i + 1, |results|, c);
  }

  /** The value of counter `c` among the four points, the stars and the
      accidents. */
  function CounterValue(points: seq<nat>, stars: nat, accidents: nat, c: Counter): nat
    requires |points| == 4 && (c.Points? ==> c.n < 4)
  {
    match c
    case Points(n) => points[n]
    case Stars => stars
    case Accidents => accidents
  }

  /** The body of the counting loop for one decoded result: the counters it
      counts towards go up by one; a score past the array, or a counter
      about to pass its type, panics instead, with `c` the counter. */
  method TallyOne(points: array<nat>, stars: nat, accidents: nat, decoded: Option<T.PlayerResult>)
    returns (panic: Option<string>, stars': nat, accidents': nat, ghost c: Counter)
    requires points.Length == 4
    modifies points
    ensures panic.None? ==> forall n :: 0 <= n < 4 && old(points[n]) < U32_LIMIT ==> points[n] < U32_LIMIT
    ensures panic.None? ==> (stars < U32_LIMIT ==> stars' < U32_LIMIT) && (accidents < U16_LIMIT ==> accidents' < U16_LIMIT)
    ensures panic.None? ==>
      && Fits(decoded)
      && (forall n :: 0 <= n < 4 ==> points[n] == Bumped(decoded, Points(n), old(points[n])))
      && stars' == Bumped(decoded, Stars, stars) && accidents' == Bumped(decoded, Accidents, accidents)
    ensures panic.Some? && Fits(decoded) ==>
      && decoded.Some? && Counts(decoded.value, c) && (c.Points? ==> c.n < 4)
      && CounterValue(old(points[..]), stars, accidents, c) + 1 >= Limit(c)
  {
    stars', accidents', c := stars, accidents, Stars;
    if decoded.Some? {
      var result := decoded.value;
      if result.Score? || result.ScoreWithStar? {
        var score := result.points;
        if score >= 4 {
          return Some(IndexOutOfBounds(score)), stars', accidents', c;
        }
        if points[score] + 1 >= U32_LIMIT {
          return Some(ADD_OVERFLOW), stars', accidents', Points(score);
        }
        points[score] := points[score] + 1;
        if result.ScoreWithStar? {
          if stars + 1 >= U32_LIMIT {
            return Some(ADD_OVERFLOW), stars', accidents', Stars;
          }
          stars' := stars + 1;
        }
      } else {
        if accidents + 1 >= U16_LIMIT {
          return Some(ADD_OVERFLOW), stars', accidents', Accidents;
        }
        accidents' := accidents + 1;
      }
    }
    return None, stars', accidents', c;
  }

  /** `get_player_stats` after its query: every stored result that decodes
      adds one to the counter of its points (and to the stars if it has
      one) or to the accidents; one that does not decode is skipped. A
      score past 3 indexes past the array and a counter past its type
      overflows: both panic. */
  method PlayerStatsOf(rows: seq<string>) returns (r: Result<PlayerStats>)
    ensures r.Ok? <==> PointsInRange(DecodeAll(rows), |rows|) && CountsFit(DecodeAll(rows))
    ensures r.Fail? ==> r.IsPanic()
    ensures r.Ok? ==> r.value == StatsOf(DecodeAll(rows))
  {
    r := TallyRows(rows, T.Decode);
  }

  /** The counting loop of `get_player_stats`, each row read by `decode`. */
  method TallyRows(rows: seq<string>, decode: string -> Option<T.PlayerResult>) returns (r: Result<PlayerStats>)
    ensures r.Ok? <==> PointsInRange(DecodeWith(rows, decode), |rows|) && CountsFit(DecodeWith(rows, decode))
    ensures r.Fail? ==> r.IsPanic()
    ensures r.Ok? ==> r.value == StatsOf(DecodeWith(rows, decode))
  {
    ghost var results := DecodeWith(rows, decode);
    var points := new nat[4](_ => 0);
    var stars: nat := 0;
    var accidents: nat := 0;
    for i := 0 to |rows|
      invariant Tallied(results, i, points[..], stars, accidents)
      invariant points[0] < U32_LIMIT && points[1] < U32_LIMIT && points[2] < U32_LIMIT && points[3] < U32_LIMIT
      invariant stars < U32_LIMIT && accidents < U16_LIMIT
    {
      TalliedStep(results, i, points[..], stars, accidents);
      ghost var before := points[..];
      var decoded := decode(rows[i]);
      assert decoded == results[i];
      var panic, stars', accidents', c := TallyOne(points, stars, accidents, decoded);
      if panic.Some? {
        PanicUnfit(results, i, before, stars, accidents, c);
        return Panics(panic.value);
      }
      TalliedNext(results, i, before, stars, accidents, points[..], stars', accidents');
      stars, accidents := stars', accidents';
    }
    TalliedAll(results, points[..], stars, accidents);
    return Ok(PlayerStats(points[3], points[2], points[1], points[0], stars, accidents));
  }

  /** A result the array cannot index, or a counter about to pass its type,
      means the results are out of range or do not fit. */
  lemma PanicUnfit(results: seq<Option<T.PlayerResult>>, i: nat, points: seq<nat>, stars: nat, accidents: nat,
                   c: Counter)
    requires i < |results| && Tallied(results, i, points, stars, accidents)
    requires Fits(results[i]) ==>
      && results[i].Some? && Counts(results[i].value, c) && (c.Points? ==> c.n < 4)
      && CounterValue(points, stars, accidents, c) + 1 >= Limit(c)
    ensures !(PointsInRange(results, |results|) && CountsFit(results))
  {
    TalliedStep(results, i, points, stars, accidents);
    if Fits(results[i]) {
      OverflowUnfit(results, i, points, stars, accidents, c);
    }
  }

  /** All results tallied within the counters' types: they are in range,
      fit, and the counters are their stats. */
  lemma TalliedAll(results: seq<Option<T.PlayerResult>>, points: seq<nat>, stars: nat, accidents: nat)
    requires Tallied(results, |results|, points, stars, accidents)
    requires points[0] < U32_LIMIT && points[1] < U32_LIMIT && points[2] < U32_LIMIT && points[3] < U32_LIMIT
    requires stars < U32_LIMIT && accidents < U16_LIMIT
    ensures PointsInRange(results, |results|) && CountsFit(results)
    ensures StatsOf(results) == PlayerStats(points[3], points[2], points[1], points[0], stars, accidents)
  {
  }

  /** The stats of results that fit their counters. */
  function StatsOf(results: seq<Option<T.PlayerResult>>): (s: PlayerStats)
    requires CountsFit(results)
    ensures PointsInRange(results, |results|) ==>
      && s.threePoints as nat + s.twoPoints as nat + s.onePoints as nat + s.zeroPoints as nat + s.accidents as nat
         == Decodable(results, |results|)
      && s.stars as nat <= s.threePoints as nat + s.twoPoints as nat + s.onePoints as nat + s.zeroPoints as nat
  {
    var s := PlayerStats(
      Count(results, |results|, Points(3)), Count(results, |results|, Points(2)),
      Count(results, |results|, Points(1)), Count(results, |results|, Points(0)),
      Count(results, |results|, Stars), Count(results, |results|, Accidents));
    if PointsInRange(results, |results|) then
      TallyCoversDecodable(results, |results|);
      s
    else s
  }

  /** Every decodable result is counted exactly once: the four points
      counters and the accidents add up to the decodable results, and the
      stars never outnumber the runs with points. */
  lemma {:induction false} TallyCoversDecodable(results: seq<Option<T.PlayerResult>>, k: nat)
    requires k <= |results| && PointsInRange(results, k)
    ensures Count(results, k, Points(0)) + Count(results, k, Points(1)) + Count(results, k, Points(2))
          + Count(results, k, Points(3)) + Count(results, k, Accidents) == Decodable(results, k)
    ensures Count(results, k, Stars) <= Count(results, k, Points(0)) + Count(results, k, Points(1))
                                      + Count(results, k, Points(2)) + Count(results, k, Points(3))
  {
    if k > 0 {
      TallyCoversDecodable(results, k - 1);
    }
  }

  // ---------------------------------------------------------------------
  // Former teams
  // ---------------------------------------------------------------------

  /** A row of the former-teams query: the team, its name and the number of
      matches (a nullable count). */
  datatype TeamRow = TeamRow(teamId: int, teamName: string, gameCount: Option<int>)

  /** `get_former_teams` after its query, from row `k` on: each row as
      (id, name, count as `u16`); a row without a count panics. */
  function FormerTeams(rows: seq<TeamRow>, k: nat): (r: Result<seq<(int, string, u16)>>)
    requires k <= |rows|
    ensures r.Ok? <==> forall i :: k <= i < |rows| ==> rows[i].gameCount.Some?
    ensures r.Fail? ==> r == Panics(UNWRAP_NONE)
    ensures r.Ok? ==> |r.value| == |rows| - k && forall i :: k <= i < |rows| ==>
      r.value[i - k] == (rows[i].teamId, rows[i].teamName, WrapTo(rows[i].gameCount.value, U16_LIMIT))
    decreases |rows| - k
  {
    if k == |rows| then Ok([])
    else if rows[k].gameCount.None? then Panics(UNWRAP_NONE)
    else
      var rest := FormerTeams(rows, k + 1);
      if rest.Fail? then rest
      else Ok([(rows[k].teamId, rows[k].teamName, WrapTo(rows[k].gameCount.value, U16_LIMIT))] + rest.value)
  }

  // ---------------------------------------------------------------------
  // The handler
  // ---------------------------------------------------------------------

  /** `PlayerInfo`, the body of a 200 answer. */
  datatype PlayerInfo = PlayerInfo(stats: PlayerStats, formerTeams: seq<(int, string, u16)>,
                                   name: string, userLike: Option<bool>)

  datatype Response = Response(status: nat, body: Option<PlayerInfo>)

  /** The like check, when asked, and the name query both succeed, and
      the player has a name. */
  predicate NameFound(auth: BackendSession.AuthStatus, like: Result<bool>, name: Result<Option<string>>) {
    (auth.NonAuthenticated? || like.Ok?) && name.Ok? && name.value.Some?
  }

  /** The results of the stats query tally without a panic. */
  predicate Tallies(rows: seq<string>) {
    PointsInRange(DecodeAll(rows), |rows|) && CountsFit(DecodeAll(rows))
  }

  /** `get_player_data` on the outcomes of its queries, asked in order: the
      like check (only for an authenticated caller), the name (`fetch_one`:
      no row is an error, a row with no name is `None`), the results and the
      teams. An error is 500, a missing name 404; a panic of the tally or of
      the teams unwinds the handler. */
  method PlayerDataHandler(auth: BackendSession.AuthStatus, like: Result<bool>, name: Result<Option<string>>,
                           results: Result<seq<string>>, teams: Result<seq<TeamRow>>)
    returns (r: Result<Response>)
    ensures auth.Authenticated? && like.Fail? ==> r == Ok(Response(HttpStatus.INTERNAL_SERVER_ERROR, Option.None))
    ensures (auth.NonAuthenticated? || like.Ok?) && name.Fail? ==>
      r == Ok(Response(HttpStatus.INTERNAL_SERVER_ERROR, Option.None))
    ensures (auth.NonAuthenticated? || like.Ok?) && name == Ok(Option.None) ==>
      r == Ok(Response(HttpStatus.NOT_FOUND, Option.None))
    ensures NameFound(auth, like, name) && results.Fail? ==>
      r == Ok(Response(HttpStatus.INTERNAL_SERVER_ERROR, Option.None))
    ensures NameFound(auth, like, name) && results.Ok? && Tallies(results.value) && teams.Fail? ==>
      r == Ok(Response(HttpStatus.INTERNAL_SERVER_ERROR, Option.None))
    ensures (NameFound(auth, like, name) && results.Ok? && Tallies(results.value) &&
             teams.Ok? && FormerTeams(teams.value, 0).Ok?) ==> r.Ok? && r.value.status == HttpStatus.OK
    ensures r.Fail? <==> (NameFound(auth, like, name) && results.Ok? &&
                          (!Tallies(results.value) || (teams.Ok? && FormerTeams(teams.value, 0).Fail?)))
    ensures r.Fail? ==> r.IsPanic()
    ensures r.Ok? ==> (r.value.body.Some? <==> r.value.status == HttpStatus.OK)
    ensures r.Ok? && r.value.status == HttpStatus.OK ==>
      && (auth.Authenticated? ==> like.Ok? && r.value.body.value.userLike == Some(like.value))
      && (auth.NonAuthenticated? ==> r.value.body.value.userLike.None?)
      && name.Ok? && name.value.Some? && r.value.body.value.name == name.value.value
      && results.Ok? && PointsInRange(DecodeAll(results.value), |results.value|) && CountsFit(DecodeAll(results.value))
      && r.value.body.value.stats == StatsOf(DecodeAll(results.value))
      && teams.Ok? && FormerTeams(teams.value, 0) == Ok(r.value.body.value.formerTeams)
  {
    var playerLike: Option<bool> := Option.None;
    if auth.Authenticated? {
      if like.Fail? {
        return Ok(Response(HttpStatus.INTERNAL_SERVER_ERROR, Option.None));
      }
      playerLike := Some(like.value);
    }
    if name.Fail? {
      return Ok(Response(HttpStatus.INTERNAL_SERVER_ERROR, Option.None));
    }
    if name.value.None? {
      return Ok(Response(HttpStatus.NOT_FOUND, Option.None));
    }
    if results.Fail? {
      return Ok(Response(HttpStatus.INTERNAL_SERVER_ERROR, Option.None));
    }
    var stats := PlayerStatsOf(results.value);
    if stats.Fail? {
      return Fail(stats.failure);
    }
    if teams.Fail? {
      return Ok(Response(HttpStatus.INTERNAL_SERVER_ERROR, Option.None));
    }
    var formerTeams := FormerTeams(teams.value, 0);
    if formerTeams.Fail? {
      return Fail(formerTeams.failure);
    }
    return Ok(Response(HttpStatus.OK, Some(PlayerInfo(stats.value, formerTeams.value, name.value.value, playerLike))));
  }
}
