/** The team statistics of the backend (`data/team_stats.rs`): a team's
    wins, losses and ties, and the opponents it most often lost to and
    beat.

    The outcomes of the three queries are inputs; the counts they return
    are 64-bit and nullable. */
module BackendTeamStats {
  import opened Wrappers
  import opened Text
  import HttpStatus

  const SUB_OVERFLOW: string := "attempt to subtract with overflow"

  /** The row of the win-ratio query. */
  datatype TotalsRow = TotalsRow(wins: Option<int>, total: Option<int>, ties: Option<int>)

  /** A row of the losses or wins query: the opponent, its name and the
      number of matches. */
  datatype OpponentRow = OpponentRow(team2: Option<int>, team2Name: Option<string>, count: Option<int>)

  /** `GameData`. */
  datatype GameData = GameData(id: int, opponent: string, games: u32)

  /** `get_totals` after its query: wins, total and ties unwrapped and cast
      to `u32`, then `total - wins - ties` as the losses. A missing count
      panics, and so does a subtraction below zero. */
  function Totals(row: TotalsRow): (r: Result<(u32, u32, u32)>)
    ensures r.Ok? <==>
      && row.wins.Some? && row.total.Some? && row.ties.Some?
      && WrapTo(row.wins.value, U32_LIMIT) + WrapTo(row.ties.value, U32_LIMIT) <= WrapTo(row.total.value, U32_LIMIT)
    ensures r.Fail? ==> r.IsPanic()
    ensures r.Ok? ==>
      var (wins, losses, ties) := r.value;
      && wins == WrapTo(row.wins.value, U32_LIMIT) && ties == WrapTo(row.ties.value, U32_LIMIT)
      && wins + losses + ties == WrapTo(row.total.value, U32_LIMIT)
  {
    if row.wins.None? || row.total.None? || row.ties.None? then Panics(UNWRAP_NONE)
    else
      var wins := WrapTo(row.wins.value, U32_LIMIT);
      var total := WrapTo(row.total.value, U32_LIMIT);
      var ties := WrapTo(row.ties.value, U32_LIMIT);
      if total < wins || total - wins < ties then Panics(SUB_OVERFLOW)
      else Ok((wins, total - wins - ties, ties))
  }

  /** Counts as the database gives them (non-negative, below 2^32) are
      kept, and the three parts add up to the total exactly when wins and
      ties do not exceed it. */
  lemma TotalsOfCounts(wins: nat, total: nat, ties: nat)
    requires wins < U32_LIMIT && total < U32_LIMIT && ties < U32_LIMIT
    ensures Totals(TotalsRow(Some(wins), Some(total), Some(ties))).Ok? <==> wins + ties <= total
    ensures wins + ties <= total ==> Totals(TotalsRow(Some(wins), Some(total), Some(ties))) == Ok((wins, total - wins - ties, ties))
  {
  }

  /** One row of the losses or wins query as `GameData`: each column
      unwrapped, the count cast to `u32`. */
  function GameDataOf(row: OpponentRow): (r: Result<GameData>)
    ensures r.Ok? <==> row.team2.Some? && row.team2Name.Some? && row.count.Some?
    ensures r.Fail? ==> r == Panics(UNWRAP_NONE)
    ensures r.Ok? ==> r.value.id == row.team2.value && r.value.opponent == row.team2Name.value
    ensures r.Ok? ==> r.value.games == WrapTo(row.count.value, U32_LIMIT)
  {
    if row.team2.None? || row.team2Name.None? || row.count.None? then Panics(UNWRAP_NONE)
    else Ok(GameData(row.team2.value, row.team2Name.value, WrapTo(row.count.value, U32_LIMIT)))
  }

  /** `get_often_looses` and `get_often_wins` after their query, from row
      `k` on: the rows mapped in order; the first incomplete row panics. */
  function GamesOf(rows: seq<OpponentRow>, k: nat): (r: Result<seq<GameData>>)
    requires k <= |rows|
    ensures r.Ok? <==> forall i :: k <= i < |rows| ==> GameDataOf(rows[i]).Ok?
    ensures r.Fail? ==> r == Panics(UNWRAP_NONE)
    ensures r.Ok? ==> |r.value| == |rows| - k && forall i :: k <= i < |rows| ==> r.value[i - k] == GameDataOf(rows[i]).value
    decreases |rows| - k
  {
    if k == |rows| then Ok([])
    else
      var first := GameDataOf(rows[k]);
      if first.Fail? then Panics(UNWRAP_NONE)
      else
        var rest := GamesOf(rows, k + 1);
        if rest.Fail? then rest else Ok([first.value] + rest.value)
  }

  /** `TeamInfo`, the body of a 200 answer. */
  datatype TeamInfo = TeamInfo(wins: u32, losses: u32, ties: u32, oftenLosses: seq<GameData>, oftenWins: seq<GameData>)

  datatype Response = Response(status: nat, body: Option<TeamInfo>)

  /** `team_stats` on the outcomes of its three queries, asked in order:
      any query error is 500, and a panic while reading a query's rows
      unwinds the handler; otherwise 200 with the totals and both lists. */
  function TeamStats(totals: Result<TotalsRow>, losses: Result<seq<OpponentRow>>, wins: Result<seq<OpponentRow>>)
    : (r: Result<Response>)
    ensures r.Fail? ==> r.IsPanic()
    ensures totals.Fail? ==> r == Ok(Response(HttpStatus.INTERNAL_SERVER_ERROR, Option.None))
    ensures r.Ok? ==> (r.value.status == HttpStatus.OK <==> r.value.body.Some?)
    ensures r.Ok? ==> r.value.status == HttpStatus.OK || r.value.status == HttpStatus.INTERNAL_SERVER_ERROR
    ensures r.Ok? && r.value.status == HttpStatus.OK <==>
      && totals.Ok? && Totals(totals.value).Ok?
      && losses.Ok? && GamesOf(losses.value, 0).Ok?
      && wins.Ok? && GamesOf(wins.value, 0).Ok?
    ensures r.Ok? && r.value.status == HttpStatus.OK ==>
      var info := r.value.body.value;
      && Totals(totals.value) == Ok((info.wins, info.losses, info.ties))
      && GamesOf(losses.value, 0) == Ok(info.oftenLosses)
      && GamesOf(wins.value, 0) == Ok(info.oftenWins)
  {
    if totals.Fail? then Ok(Response(HttpStatus.INTERNAL_SERVER_ERROR, Option.None))
    else
      var counts := Totals(totals.value);
      if counts.Fail? then Fail(counts.failure)
      else if losses.Fail? then Ok(Response(HttpStatus.INTERNAL_SERVER_ERROR, Option.None))
      else
        var oftenLosses := GamesOf(losses.value, 0);
        if oftenLosses.Fail? then Fail(oftenLosses.failure)
        else if wins.Fail? then Ok(Response(HttpStatus.INTERNAL_SERVER_ERROR, Option.None))
        else
          var oftenWins := GamesOf(wins.value, 0);
          if oftenWins.Fail? then Fail(oftenWins.failure)
          else
            var (w, l, t) := counts.value;
            Ok(Response(HttpStatus.OK, Some(TeamInfo(w, l, t, oftenLosses.value, oftenWins.value))))
  }
}
