/** The two teams of a match page (`game/team/mod.rs`): each team's name,
    its riders, one per row of its table, and its points, the sum of the
    riders' base scores. */
module ScraperTeam {
  import opened Wrappers
  import opened Text
  import SP = ScraperPlayer

  datatype Team = Team(name: string, points: u16, players: seq<SP.Player>)

  /** What the selectors of `Team::parse_teams` find on a match page: the
      inner HTML of every team-name element in document order, and the rows
      of the first player table of each team (`None` when the table is
      missing). */
  datatype TeamsPage = TeamsPage(
    names: seq<string>,
    tableOne: Option<seq<seq<SP.Cell>>>,
    tableTwo: Option<seq<seq<SP.Cell>>>)

  const NO_TEAM_ONE_NAME: string := "Unable to find team 1 name."
  const NO_TEAM_TWO_NAME: string := "Unable to find team 2 name."
  const NO_TEAM_ONE_PLAYERS: string := "Unable to find team 1 players."
  const NO_TEAM_TWO_PLAYERS: string := "Unable to find team 2 players."

  /** Message of the panic raised when a `u16` addition overflows. */
  const ADD_OVERFLOW: string := "attempt to add with overflow"

  /** The most riders a team can have whose points are sure to fit in a
      `u16`: each rider adds at most 7 * 255 = 1785 points. */
  const SAFE_TEAM_SIZE: nat := 36

  // ---------------------------------------------------------------------
  // Points
  // ---------------------------------------------------------------------

  /** The base scores of the riders, added up; bonus points are not part of
      a team's points. */
  function TeamPoints(players: seq<SP.Player>): nat {
    if players == [] then 0
    else TeamPoints(players[..|players| - 1]) + SP.BaseSum(players[|players| - 1].scores)
  }

  /** `Team::sum_score`: adds each rider's base score to a `u16` total;
      the sum overflows, and the addition panics, exactly when the team's
      points do not fit in a `u16`. */
  method SumScore(players: seq<SP.Player>) returns (r: Result<u16>)
    ensures TeamPoints(players) < U16_LIMIT ==> r == Ok(TeamPoints(players))
    ensures TeamPoints(players) >= U16_LIMIT ==> r == Panics(ADD_OVERFLOW)
  {
    var sum: u16 := 0;
    for i := 0 to |players|
      invariant sum == TeamPoints(players[..i])
    {
      assert players[..i + 1][..i] == players[..i];
      var score := SP.SumScore(players[i].scores);
      if sum + score.base >= U16_LIMIT {
        TeamPointsPrefix(players, i + 1);
        return Panics(ADD_OVERFLOW);
      }
      sum := sum + score.base;
    }
    assert players[..|players|] == players;
    return Ok(sum);
  }

  /** Points never shrink as riders are added. */
  lemma {:induction false} TeamPointsPrefix(players: seq<SP.Player>, k: nat)
    requires k <= |players|
    ensures TeamPoints(players[..k]) <= TeamPoints(players)
  {
    if k < |players| {
      var init := players[..|players| - 1];
      TeamPointsPrefix(init, k);
      assert init[..k] == players[..k];
    } else {
      assert players[..k] == players;
    }
  }

  /** The points of two groups of riders together are the sum of their
      points, whatever order the riders come in. */
  lemma {:induction false} TeamPointsAppend(a: seq<SP.Player>, b: seq<SP.Player>)
    ensures TeamPoints(a + b) == TeamPoints(a) + TeamPoints(b)
    decreases |b|
  {
    if b == [] {
      assert a + b == a;
    } else {
      assert (a + b)[..|a + b| - 1] == a + b[..|b| - 1];
      TeamPointsAppend(a, b[..|b| - 1]);
    }
  }

  /** A team of riders with at most seven results each scores at most 1785
      points per rider, so up to 36 riders never overflow the `u16`. */
  lemma {:induction false} TeamPointsBound(players: seq<SP.Player>)
    requires forall i :: 0 <= i < |players| ==> |players[i].scores| <= SP.MAX_SCORE_CELLS
    ensures TeamPoints(players) <= SP.MAX_SCORE_CELLS * (U8_LIMIT - 1) * |players|
    ensures |players| <= SAFE_TEAM_SIZE ==> TeamPoints(players) < U16_LIMIT
  {
    if players != [] {
      var last := players[|players| - 1];
      TeamPointsBound(players[..|players| - 1]);
      SP.BaseSumBound(last.scores);
    }
  }

  // ---------------------------------------------------------------------
  // Parsing
  // ---------------------------------------------------------------------

  /** Row `i` is the first of `rows` that does not parse. */
  predicate FirstBadRow(rows: seq<seq<SP.Cell>>, i: int) {
    0 <= i < |rows| && !SP.RowParses(rows[i]) && forall j :: 0 <= j < i ==> SP.RowParses(rows[j])
  }

  /** `Team::parse_players`: one rider per row, in row order; the first row
      that does not parse aborts the whole table with that row's outcome,
      a panic when its header does not parse and an error otherwise. */
  method ParsePlayers(rows: seq<seq<SP.Cell>>) returns (r: Result<seq<SP.Player>>)
    ensures r.Ok? <==> forall i :: 0 <= i < |rows| ==> SP.RowParses(rows[i])
    ensures r.Ok? ==> PlayersOfRows(rows, r.value)
    ensures r.Fail? ==>
      exists i :: FirstBadRow(rows, i) && (r.IsPanic() <==> SP.ParseHeader(rows[i]).Fail?)
  {
    var players: seq<SP.Player> := [];
    for i := 0 to |rows|
      invariant |players| == i
      invariant forall j :: 0 <= j < i ==> SP.RowParses(rows[j]) && SP.PlayerOfRow(rows[j], players[j])
    {
      var player := SP.ParsePlayer(rows[i]);
      if player.Fail? {
        assert FirstBadRow(rows, i);
        return Fail(player.failure);
      }
      players := players + [player.value];
    }
    return Ok(players);
  }

  /** Every row of the table parses. */
  predicate AllRowsParse(rows: seq<seq<SP.Cell>>) {
    forall i :: 0 <= i < |rows| ==> SP.RowParses(rows[i])
  }

  /** `players` are the riders of the rows, one per row and in row order. */
  predicate PlayersOfRows(rows: seq<seq<SP.Cell>>, players: seq<SP.Player>) {
    |players| == |rows| && forall i :: 0 <= i < |rows| ==> SP.PlayerOfRow(rows[i], players[i])
  }

  /** The rows determine their riders: two readings of the same rows agree. */
  lemma PlayersOfRowsUnique(rows: seq<seq<SP.Cell>>, a: seq<SP.Player>, b: seq<SP.Player>)
    requires PlayersOfRows(rows, a) && PlayersOfRows(rows, b)
    ensures a == b
  {
    forall i | 0 <= i < |rows|
      ensures a[i] == b[i]
    {
      assert a[i].scores == b[i].scores by {
        forall k | 0 <= k < |a[i].scores|
          ensures a[i].scores[k] == b[i].scores[k]
        {
          assert SP.ParseScore(rows[i][k + 2].html) == Ok(a[i].scores[k]);
        }
      }
    }
  }

  /** `team` is the team named `name` whose riders are those of the rows
      and whose points are theirs. */
  predicate TeamOf(team: Team, name: string, rows: seq<seq<SP.Cell>>) {
    team.name == name && PlayersOfRows(rows, team.players) && team.points == TeamPoints(team.players)
  }

  /** `Team::parse_teams`: the first name found is team one's and the
      second team two's, taken as they are, untrimmed; a missing name or
      table is an error, reported in the order of the lookups. */
  method ParseTeams(page: TeamsPage) returns (r: Result<(Team, Team)>)
    ensures |page.names| == 0 ==> r == Err(NO_TEAM_ONE_NAME)
    ensures |page.names| == 1 ==> r == Err(NO_TEAM_TWO_NAME)
    ensures |page.names| >= 2 && page.tableOne.None? ==> r == Err(NO_TEAM_ONE_PLAYERS)
    ensures |page.names| >= 2 && page.tableOne.Some? && page.tableTwo.None? ==> r == Err(NO_TEAM_TWO_PLAYERS)
    ensures r.Ok? ==>
      && |page.names| >= 2 && page.tableOne.Some? && page.tableTwo.Some?
      && TeamOf(r.value.0, page.names[0], page.tableOne.value)
      && TeamOf(r.value.1, page.names[1], page.tableTwo.value)
    ensures |page.names| >= 2 && page.tableOne.Some? && page.tableTwo.Some? ==>
      (r.Ok? <==>
        && (forall i :: 0 <= i < |page.tableOne.value| ==> SP.RowParses(page.tableOne.value[i]))
        && (forall i :: 0 <= i < |page.tableTwo.value| ==> SP.RowParses(page.tableTwo.value[i]))
        && (forall players :: PlayersOfRows(page.tableOne.value, players) ==> TeamPoints(players) < U16_LIMIT)
        && (forall players :: PlayersOfRows(page.tableTwo.value, players) ==> TeamPoints(players) < U16_LIMIT))
    ensures |page.names| >= 2 && page.tableOne.Some? && page.tableTwo.Some? &&
            !AllRowsParse(page.tableOne.value) ==>
      r.Fail? &&
      exists i :: FirstBadRow(page.tableOne.value, i) && (r.IsPanic() <==> SP.ParseHeader(page.tableOne.value[i]).Fail?)
    ensures |page.names| >= 2 && page.tableOne.Some? && page.tableTwo.Some? &&
            AllRowsParse(page.tableOne.value) && !AllRowsParse(page.tableTwo.value) ==>
      r.Fail? &&
      exists i :: FirstBadRow(page.tableTwo.value, i) && (r.IsPanic() <==> SP.ParseHeader(page.tableTwo.value[i]).Fail?)
    ensures |page.names| >= 2 && page.tableOne.Some? && page.tableTwo.Some? &&
            AllRowsParse(page.tableOne.value) && AllRowsParse(page.tableTwo.value) && r.Fail? ==>
      r == Panics(ADD_OVERFLOW)
  {
    if |page.names| == 0 {
      return Err(NO_TEAM_ONE_NAME);
    }
    if |page.names| == 1 {
      return Err(NO_TEAM_TWO_NAME);
    }
    if page.tableOne.None? {
      return Err(NO_TEAM_ONE_PLAYERS);
    }
    if page.tableTwo.None? {
      return Err(NO_TEAM_TWO_PLAYERS);
    }
    var playersOne := ParsePlayers(page.tableOne.value);
    if playersOne.Fail? {
      return Fail(playersOne.failure);
    }
    var playersTwo := ParsePlayers(page.tableTwo.value);
    if playersTwo.Fail? {
      return Fail(playersTwo.failure);
    }
    forall players | PlayersOfRows(page.tableOne.value, players)
      ensures players == playersOne.value
    {
      PlayersOfRowsUnique(page.tableOne.value, players, playersOne.value);
    }
    forall players | PlayersOfRows(page.tableTwo.value, players)
      ensures players == playersTwo.value
    {
      PlayersOfRowsUnique(page.tableTwo.value, players, playersTwo.value);
    }
    var pointsOne := SumScore(playersOne.value);
    if pointsOne.Fail? {
      return Fail(pointsOne.failure);
    }
    var pointsTwo := SumScore(playersTwo.value);
    if pointsTwo.Fail? {
      return Fail(pointsTwo.failure);
    }
    r := Ok((Team(page.names[0], pointsOne.value, playersOne.value),
             Team(page.names[1], pointsTwo.value, playersTwo.value)));
  }
}
