/** The match page of the backend (`data/match_info.rs`): the rows of four
    queries about one match are regrouped into the match as the frontend
    shows it: its teams and score, its timed runs with their riders, and
    every rider's results sorted by round.

    The queries themselves are not modelled: their outcomes are inputs. */
module BackendMatchInfo {
  import opened Wrappers
  import opened Text
  import T = Types
  import HttpStatus

  // ---------------------------------------------------------------------
  // Rows and results
  // ---------------------------------------------------------------------

  /** The row of the match's main query, with the two teams as ids. */
  datatype MainRecord = MainRecord(
    gameId: int, team1: int, score1: int, score2: int, team2: int, place: string, date: T.Timestamp)

  /** A row of the team-name query. */
  datatype TeamNameRow = TeamNameRow(teamId: int, teamName: string)

  /** `MatchMainInfo`: the main row with the two teams as names. */
  datatype MainInfo = MainInfo(
    gameId: int, team1: string, score1: int, score2: int, team2: string, place: string, date: T.Timestamp)

  /** `RunPlayerInfo`: one rider's entry in one run. */
  datatype RunPlayerRow = RunPlayerRow(runPosition: int, result: string, name: string, sname: string, playerId: int)

  /** `RunTimesInfo`: the time of one run, both parts nullable. */
  datatype RunTimeRow = RunTimeRow(runPosition: int, timeInteger: Option<int>, timeDecimal: Option<int>)

  /** A row of the player-score query, the result still as stored text. */
  datatype ScoreRecord = ScoreRecord(name: string, sname: string, round: int, score: string)

  /** `PlayerScoreInfo`: a player-score row with its result decoded. */
  datatype PlayerScoreInfo = PlayerScoreInfo(name: string, sname: string, run: int, score: T.PlayerResult)

  /** One rider's entry of a run as `combine_info` builds it: the rider's id,
      "name surname" and the stored result text. */
  datatype RunEntry = RunEntry(playerId: int, player: string, result: string)

  /** A run as `combine_info` builds it (its `RunInfo`). */
  datatype RunReport = RunReport(number: u8, time: Option<(u32, u16)>, playerScores: seq<RunEntry>)

  /** The match as `combine_info` builds it (its `MatchResult`). */
  datatype MatchReport = MatchReport(
    team1: string, team2: string, score1: u32, score2: u32,
    place: string, date: T.Timestamp, runs: seq<RunReport>, playerResults: seq<T.Player>)

  const NO_MAX_TIME: string := "Unable to find maximum runs_by_time."
  const NO_MAX_GAME: string := "Unable to find maximum runs_by_game."
  const RUN_COUNT_MISMATCH: string := "Total number of runs does not match."
  const TIME_NULLITY: string := "Time nullity does not match."
  const NO_RUN_ENTRY: string := "Cannot find entry corresponding to given time."

  // ---------------------------------------------------------------------
  // Team names
  // ---------------------------------------------------------------------

  /** `get_team_name` on the rows of its query: the first two rows, the one
      of `team1` first; fewer than two rows panic (`unwrap`). */
  function TeamNames(team1: int, team2: int, rows: seq<TeamNameRow>): (r: Result<(string, string)>)
    ensures r.Fail? <==> |rows| < 2
    ensures r.Fail? ==> r == Panics(UNWRAP_NONE)
  {
    if |rows| < 2 then Panics(UNWRAP_NONE)
    else if rows[0].teamId == team1 then Ok((rows[0].teamName, rows[1].teamName))
    else Ok((rows[1].teamName, rows[0].teamName))
  }

  /** Whatever order the query returns the two teams in, the names come
      back as (team one, team two). */
  lemma TeamNamesInOrder(team1: int, team2: int, name1: string, name2: string)
    requires team1 != team2
    ensures TeamNames(team1, team2, [TeamNameRow(team1, name1), TeamNameRow(team2, name2)]) == Ok((name1, name2))
    ensures TeamNames(team1, team2, [TeamNameRow(team2, name2), TeamNameRow(team1, name1)]) == Ok((name1, name2))
  {
  }

  /** `select_main_data` on the outcomes of its two queries: no match row
      is `None`; otherwise the row with the team ids replaced by the names.
      The team-name query runs only when there is a row. */
  function SelectMainData(record: Result<Option<MainRecord>>, names: Result<seq<TeamNameRow>>)
    : (r: Result<Option<MainInfo>>)
    ensures record == Ok(Option.None) ==> r == Ok(Option.None)
    ensures record.Fail? ==> r == Fail(record.failure)
    ensures record.Ok? && record.value.Some? ==>
      && (names.Fail? ==> r == Fail(names.failure))
      && (r.Ok? <==> names.Ok? && |names.value| >= 2)
  {
    if record.Fail? then Fail(record.failure)
    else if record.value.None? then Ok(Option.None)
    else if names.Fail? then Fail(names.failure)
    else
      var row := record.value.value;
      var teams := TeamNames(row.team1, row.team2, names.value);
      if teams.Fail? then Fail(teams.failure)
      else Ok(Some(MainInfo(row.gameId, teams.value.0, row.score1, row.score2, teams.value.1, row.place, row.date)))
  }

  /** A match row whose two teams come back from the team-name query keeps
      its fields, and team one's name goes first. */
  lemma MainDataKeepsRow(row: MainRecord, name1: string, name2: string, names: seq<TeamNameRow>)
    requires row.team1 != row.team2
    requires names == [TeamNameRow(row.team1, name1), TeamNameRow(row.team2, name2)]
          || names == [TeamNameRow(row.team2, name2), TeamNameRow(row.team1, name1)]
    ensures SelectMainData(Ok(Some(row)), Ok(names))
         == Ok(Some(MainInfo(row.gameId, name1, row.score1, row.score2, name2, row.place, row.date)))
  {
    TeamNamesInOrder(row.team1, row.team2, name1, name2);
  }

  // ---------------------------------------------------------------------
  // Player scores
  // ---------------------------------------------------------------------

  /** A stored score row with its result decoded. */
  function InfoOf(record: ScoreRecord, score: T.PlayerResult): PlayerScoreInfo {
    PlayerScoreInfo(record.name, record.sname, record.round, score)
  }

  /** The rows with every stored result decoded, in order. */
  function DecodedScores(records: seq<ScoreRecord>): seq<PlayerScoreInfo>
    requires forall i :: 0 <= i < |records| ==> T.Decode(records[i].score).Some?
  {
    seq(|records|, i requires 0 <= i < |records| => InfoOf(records[i], T.Decode(records[i].score).value))
  }

  /** `select_player_scores` after its query: every row decoded, in order,
      or `None` as soon as one stored result does not decode. */
  method SelectPlayerScores(records: seq<ScoreRecord>) returns (r: Option<seq<PlayerScoreInfo>>)
    ensures r.Some? <==> forall i :: 0 <= i < |records| ==> T.Decode(records[i].score).Some?
    ensures r.Some? ==> |r.value| == |records|
    ensures r.Some? ==> forall i :: 0 <= i < |records| ==>
      T.Decode(records[i].score).Some? && r.value[i] == InfoOf(records[i], T.Decode(records[i].score).value)
    ensures r.Some? ==> r.value == DecodedScores(records)
  {
    var infos: seq<PlayerScoreInfo> := [];
    for i := 0 to |records|
      invariant |infos| == i
      invariant forall j :: 0 <= j < i ==>
        T.Decode(records[j].score).Some? && infos[j] == InfoOf(records[j], T.Decode(records[j].score).value)
    {
      var score := T.Decode(records[i].score);
      if score.None? {
        return Option.None;
      }
      infos := infos + [InfoOf(records[i], score.value)];
    }
    assert infos == DecodedScores(records);
    return Some(infos);
  }

  /** Results stored as the codec writes them are all read back. */
  lemma EncodedScoresDecode(records: seq<ScoreRecord>, results: seq<T.PlayerResult>)
    requires |records| == |results|
    requires forall i :: 0 <= i < |records| ==> records[i].score == T.Encode(results[i])
    ensures forall i :: 0 <= i < |records| ==> T.Decode(records[i].score) == Some(results[i])
  {
    forall i | 0 <= i < |records|
      ensures T.Decode(records[i].score) == Some(results[i])
    {
      EncodedScoreDecodes(results[i]);
    }
  }

  /** One stored result reads back as itself. */
  lemma EncodedScoreDecodes(result: T.PlayerResult)
    ensures T.Decode(T.Encode(result)) == Some(result)
  {
    var e := T.Encode(result);
    assert [] + e + [] == e;
    T.DecodeEncode([], result, []);
  }

  // ---------------------------------------------------------------------
  // Grouping
  // ---------------------------------------------------------------------

  /** The values of the first `k` rows grouped by key: a key maps to the
      values of its rows, in row order. */
  function Group<X, K(==), V>(xs: seq<X>, k: nat, key: X -> K, value: X -> V): (m: map<K, seq<V>>)
    requires k <= |xs|
    ensures forall p :: p in m ==> 0 < |m[p]| <= k
  {
    if k == 0 then map[]
    else
      var m := Group(xs, k - 1, key, value);
      var p := key(xs[k - 1]);
      m[p := (if p in m then m[p] else []) + [value(xs[k - 1])]]
  }

  /** The values of those of the first `k` rows whose key is `p`, in order. */
  function Filtered<X, K(==), V>(xs: seq<X>, k: nat, key: X -> K, value: X -> V, p: K): seq<V>
    requires k <= |xs|
  {
    if k == 0 then []
    else Filtered(xs, k - 1, key, value, p) + (if key(xs[k - 1]) == p then [value(xs[k - 1])] else [])
  }

  /** Grouping keeps every row under its own key and nothing else: a key is
      grouped exactly when some row has it, and its group is the values of
      its rows in order. */
  lemma {:induction false} GroupIsFiltered<X, K, V>(xs: seq<X>, k: nat, key: X -> K, value: X -> V, p: K)
    requires k <= |xs|
    ensures p in Group(xs, k, key, value) <==> exists i :: 0 <= i < k && key(xs[i]) == p
    ensures p in Group(xs, k, key, value) ==> Group(xs, k, key, value)[p] == Filtered(xs, k, key, value, p)
    ensures p !in Group(xs, k, key, value) ==> Filtered(xs, k, key, value, p) == []
  {
    if k > 0 {
      GroupIsFiltered(xs, k - 1, key, value, p);
      if key(xs[k - 1]) != p && p in Group(xs, k, key, value) {
        var i :| 0 <= i < k - 1 && key(xs[i]) == p;
      }
    }
  }

  /** The loops of `combine_info` that fill a `HashMap` of vectors: each row
      in order is pushed onto the vector of its key, created empty when the
      key is new. */
  method GroupRows<X, K(==), V>(xs: seq<X>, key: X -> K, value: X -> V) returns (m: map<K, seq<V>>)
    ensures m == Group(xs, |xs|, key, value)
  {
    m := map[];
    for i := 0 to |xs|
      invariant m == Group(xs, i, key, value)
    {
      var p := key(xs[i]);
      if p !in m {
        m := m[p := []];
      }
      m := m[p := m[p] + [value(xs[i])]];
    }
  }

  // ---------------------------------------------------------------------
  // Runs
  // ---------------------------------------------------------------------

  /** The largest position among the first `k` rows (`max_by_key`). */
  function MaxPosition<X>(xs: seq<X>, k: nat, position: X -> int): (r: int)
    requires 0 < k <= |xs|
    ensures forall i :: 0 <= i < k ==> position(xs[i]) <= r
  {
    if k == 1 then position(xs[0])
    else
      var rest := MaxPosition(xs, k - 1, position);
      if position(xs[k - 1]) >= rest then position(xs[k - 1]) else rest
  }

  /** The maximum, which no row's position exceeds, is the position of one
      of the rows. */
  lemma {:induction false} MaxPositionIsMax<X>(xs: seq<X>, k: nat, position: X -> int)
    requires 0 < k <= |xs|
    ensures exists i :: 0 <= i < k && position(xs[i]) == MaxPosition(xs, k, position)
  {
    if k > 1 {
      MaxPositionIsMax(xs, k - 1, position);
      var i :| 0 <= i < k - 1 && position(xs[i]) == MaxPosition(xs, k - 1, position);
      if position(xs[k - 1]) >= MaxPosition(xs, k - 1, position) {
        assert position(xs[k - 1]) == MaxPosition(xs, k, position);
      } else {
        assert position(xs[i]) == MaxPosition(xs, k, position);
      }
    } else {
      assert position(xs[0]) == MaxPosition(xs, k, position);
    }
  }

  function RunPosition(row: RunPlayerRow): int { row.runPosition }

  function TimePosition(row: RunTimeRow): int { row.runPosition }

  /** The entry a run-player row makes: the rider's id, `"{name} {sname}"`
      and the result. */
  function EntryOf(row: RunPlayerRow): RunEntry {
    RunEntry(row.playerId, row.name + " " + row.sname, row.result)
  }

  /** A timed run with its entries: the position as `u8`, the seconds as
      `u32` and the fraction as `u16`, each truncated as `as` truncates. */
  function ReportOf(t: RunTimeRow, entries: seq<RunEntry>): RunReport
    requires t.timeInteger.Some? && t.timeDecimal.Some?
  {
    RunReport(WrapTo(t.runPosition, U8_LIMIT),
              Some((WrapTo(t.timeInteger.value, U32_LIMIT), WrapTo(t.timeDecimal.value, U16_LIMIT))),
              entries)
  }

  /** The run loop of `combine_info` over the first `k` time rows, starting
      from the grouped entries `groups`: a row without a fraction is
      skipped; a row with one needs the whole seconds and entries at its
      position, which it takes out of the groups. Gives the runs and what
      is left of the groups. */
  function TimedRuns(times: seq<RunTimeRow>, k: nat, groups: map<int, seq<RunEntry>>)
    : (r: Result<(seq<RunReport>, map<int, seq<RunEntry>>)>)
    requires k <= |times|
    ensures r.Ok? ==> |r.value.0| <= k && r.value.1.Keys <= groups.Keys
    ensures r.Fail? ==> r == Err(TIME_NULLITY) || r == Err(NO_RUN_ENTRY)
  {
    if k == 0 then Ok(([], groups))
    else
      var before := TimedRuns(times, k - 1, groups);
      var t := times[k - 1];
      if before.Fail? || t.timeDecimal.None? then before
      else if t.timeInteger.None? then Err(TIME_NULLITY)
      else if t.runPosition !in before.value.1 then Err(NO_RUN_ENTRY)
      else Ok((before.value.0 + [ReportOf(t, before.value.1[t.runPosition])],
               before.value.1 - {t.runPosition}))
  }

  /** The time rows among the first `k` that have a fraction, in order. */
  function Timed(times: seq<RunTimeRow>, k: nat): (ts: seq<RunTimeRow>)
    requires k <= |times|
    ensures |ts| <= k
    ensures forall i :: 0 <= i < |ts| ==> ts[i].timeDecimal.Some?
  {
    if k == 0 then []
    else Timed(times, k - 1) + (if times[k - 1].timeDecimal.Some? then [times[k - 1]] else [])
  }

  /** The positions of the time rows among the first `k` that have a
      fraction. */
  function TimedPositions(times: seq<RunTimeRow>, k: nat): set<int>
    requires k <= |times|
  {
    if k == 0 then {}
    else TimedPositions(times, k - 1) + (if times[k - 1].timeDecimal.Some? then {times[k - 1].runPosition} else {})
  }

  /** What the run loop needs of the first `k` time rows: each row with a
      fraction has whole seconds, has entries, and is the only such row at
      its position. */
  predicate TimesFit(times: seq<RunTimeRow>, k: nat, groups: map<int, seq<RunEntry>>)
    requires k <= |times|
  {
    forall i :: 0 <= i < k && times[i].timeDecimal.Some? ==>
      && times[i].timeInteger.Some?
      && times[i].runPosition in groups
      && times[i].runPosition !in TimedPositions(times, i)
  }

  /** The run loop succeeds exactly when the time rows fit, and then it has
      taken the positions of the timed rows out of the groups. */
  lemma {:induction false} TimedRunsOk(times: seq<RunTimeRow>, k: nat, groups: map<int, seq<RunEntry>>)
    requires k <= |times|
    ensures TimedRuns(times, k, groups).Ok? <==> TimesFit(times, k, groups)
    ensures TimedRuns(times, k, groups).Ok? ==> TimedRuns(times, k, groups).value.1 == groups - TimedPositions(times, k)
  {
    if k > 0 {
      TimedRunsOk(times, k - 1, groups);
      var t := times[k - 1];
      if TimesFit(times, k, groups) {
        assert TimesFit(times, k - 1, groups) by {
          forall i | 0 <= i < k - 1 && times[i].timeDecimal.Some?
            ensures times[i].timeInteger.Some? && times[i].runPosition in groups
            ensures times[i].runPosition !in TimedPositions(times, i)
          {
          }
        }
      }
    }
  }

  /** On success the runs are the timed rows, in order, each with all the
      entries of its position. */
  lemma {:induction false} TimedRunsAreTimedRows(times: seq<RunTimeRow>, k: nat, groups: map<int, seq<RunEntry>>)
    requires k <= |times| && TimedRuns(times, k, groups).Ok?
    ensures |TimedRuns(times, k, groups).value.0| == |Timed(times, k)|
    ensures forall i :: 0 <= i < |Timed(times, k)| ==>
      && Timed(times, k)[i].timeInteger.Some?
      && Timed(times, k)[i].runPosition in groups
      && TimedRuns(times, k, groups).value.0[i] == ReportOf(Timed(times, k)[i], groups[Timed(times, k)[i].runPosition])
  {
    if k > 0 {
      TimedRunsOk(times, k, groups);
      TimedRunsOk(times, k - 1, groups);
      TimedRunsAreTimedRows(times, k - 1, groups);
    }
  }

  /** The runs of a match from its run-player rows and its time rows: both
      must be non-empty with the same largest position, then the run loop
      over the entries grouped by position. */
  function CombineRuns(gameRuns: seq<RunPlayerRow>, runTimes: seq<RunTimeRow>): (r: Result<seq<RunReport>>)
    ensures r.Ok? ==> runTimes != [] && gameRuns != [] && |r.value| <= |runTimes|
    ensures r.Fail? ==> r in {Err(NO_MAX_TIME), Err(NO_MAX_GAME), Err(RUN_COUNT_MISMATCH), Err(TIME_NULLITY), Err(NO_RUN_ENTRY)}
  {
    if runTimes == [] then Err(NO_MAX_TIME)
    else if gameRuns == [] then Err(NO_MAX_GAME)
    else if MaxPosition(runTimes, |runTimes|, TimePosition) != MaxPosition(gameRuns, |gameRuns|, RunPosition) then
      Err(RUN_COUNT_MISMATCH)
    else
      var timed := TimedRuns(runTimes, |runTimes|, Group(gameRuns, |gameRuns|, RunPosition, EntryOf));
      if timed.Fail? then Fail(timed.failure) else Ok(timed.value.0)
  }

  /** A rider row exists at position `p`. */
  predicate HasEntries(gameRuns: seq<RunPlayerRow>, p: int) {
    exists i :: 0 <= i < |gameRuns| && gameRuns[i].runPosition == p
  }

  /** The runs of a match come out exactly when both row sets are
      non-empty, their largest positions agree, and every time row with a
      fraction has whole seconds and riders and is alone at its position. */
  lemma CombineRunsOk(gameRuns: seq<RunPlayerRow>, runTimes: seq<RunTimeRow>)
    ensures CombineRuns(gameRuns, runTimes).Ok? <==>
      && runTimes != [] && gameRuns != []
      && MaxPosition(runTimes, |runTimes|, TimePosition) == MaxPosition(gameRuns, |gameRuns|, RunPosition)
      && forall i :: 0 <= i < |runTimes| && runTimes[i].timeDecimal.Some? ==>
           && runTimes[i].timeInteger.Some?
           && HasEntries(gameRuns, runTimes[i].runPosition)
           && runTimes[i].runPosition !in TimedPositions(runTimes, i)
  {
    if runTimes != [] && gameRuns != [] {
      var groups := Group(gameRuns, |gameRuns|, RunPosition, EntryOf);
      TimedRunsOk(runTimes, |runTimes|, groups);
      forall i | 0 <= i < |runTimes|
        ensures runTimes[i].runPosition in groups <==> HasEntries(gameRuns, runTimes[i].runPosition)
      {
        GroupIsFiltered(gameRuns, |gameRuns|, RunPosition, EntryOf, runTimes[i].runPosition);
      }
    }
  }

  /** The runs of a match are its timed rows in order, each holding every
      rider row at its position, in row order; rows without a fraction
      give no run. */
  lemma CombineRunsAreTimed(gameRuns: seq<RunPlayerRow>, runTimes: seq<RunTimeRow>)
    requires CombineRuns(gameRuns, runTimes).Ok?
    ensures |CombineRuns(gameRuns, runTimes).value| == |Timed(runTimes, |runTimes|)|
    ensures forall i :: 0 <= i < |Timed(runTimes, |runTimes|)| ==>
      && Timed(runTimes, |runTimes|)[i].timeInteger.Some?
      && CombineRuns(gameRuns, runTimes).value[i]
         == ReportOf(Timed(runTimes, |runTimes|)[i],
                     Filtered(gameRuns, |gameRuns|, RunPosition, EntryOf, Timed(runTimes, |runTimes|)[i].runPosition))
  {
    var groups := Group(gameRuns, |gameRuns|, RunPosition, EntryOf);
    var ts := Timed(runTimes, |runTimes|);
    TimedRunsAreTimedRows(runTimes, |runTimes|, groups);
    forall i | 0 <= i < |ts|
      ensures groups[ts[i].runPosition] == Filtered(gameRuns, |gameRuns|, RunPosition, EntryOf, ts[i].runPosition)
    {
      GroupIsFiltered(gameRuns, |gameRuns|, RunPosition, EntryOf, ts[i].runPosition);
    }
  }

  // ---------------------------------------------------------------------
  // Players
  // ---------------------------------------------------------------------

  function ScoreKey(s: PlayerScoreInfo): (string, string) { (s.name, s.sname) }

  /** A score row's (round, result) pair, the round truncated to `u8`. */
  function ScoreValue(s: PlayerScoreInfo): (u8, T.PlayerResult) { (WrapTo(s.run, U8_LIMIT), s.score) }

  function PlayerKey(p: T.Player): (string, string) { (p.name, p.surname) }

  /** One player per group, in any order (a `HashMap` is drained), each
      built by `Player::new` from its key and its results. */
  predicate PlayersOfGroups(players: seq<T.Player>, groups: map<(string, string), seq<(u8, T.PlayerResult)>>) {
    && |players| == |groups|
    && (set i | 0 <= i < |players| :: PlayerKey(players[i])) == groups.Keys
    && (forall i :: 0 <= i < |players| ==>
          PlayerKey(players[i]) in groups
          && players[i] == T.NewPlayer(players[i].name, players[i].surname, groups[PlayerKey(players[i])]))
    && (forall i, j :: 0 <= i < j < |players| ==> PlayerKey(players[i]) != PlayerKey(players[j]))
  }

  /** The players built so far, `players[i]` from the group of `keys[i]`,
      are those of the groups no longer in `left`. */
  ghost predicate Collected(players: seq<T.Player>, keys: seq<(string, string)>,
                            groups: map<(string, string), seq<(u8, T.PlayerResult)>>,
                            left: map<(string, string), seq<(u8, T.PlayerResult)>>)
  {
    && left.Keys <= groups.Keys
    && (forall key :: key in left ==> left[key] == groups[key])
    && |players| == |keys|
    && |keys| + |left| == |groups|
    && (forall key :: key in groups && key !in left ==> key in keys)
    && (forall i :: 0 <= i < |keys| ==>
          keys[i] in groups && keys[i] !in left
          && players[i] == T.NewPlayer(keys[i].0, keys[i].1, groups[keys[i]]))
    && (forall i, j :: 0 <= i < j < |keys| ==> keys[i] != keys[j])
  }

  /** Taking one more group out keeps what has been collected. */
  lemma CollectedStep(players: seq<T.Player>, keys: seq<(string, string)>,
                      groups: map<(string, string), seq<(u8, T.PlayerResult)>>,
                      left: map<(string, string), seq<(u8, T.PlayerResult)>>, key: (string, string))
    requires Collected(players, keys, groups, left) && key in left
    ensures Collected(players + [T.NewPlayer(key.0, key.1, left[key])], keys + [key], groups, left - {key})
  {
    var players', keys', left' := players + [T.NewPlayer(key.0, key.1, left[key])], keys + [key], left - {key};
    assert |left'| == |left| - 1;
    forall k | k in groups && k !in left' ensures k in keys' {
      if k != key {
        assert k in keys;
      }
    }
    forall i | 0 <= i < |keys'|
      ensures keys'[i] in groups && keys'[i] !in left'
      ensures players'[i] == T.NewPlayer(keys'[i].0, keys'[i].1, groups[keys'[i]])
    {
      if i < |keys| {
        assert keys'[i] == keys[i] && players'[i] == players[i];
      }
    }
    forall i, j | 0 <= i < j < |keys'| ensures keys'[i] != keys'[j] {
      if j == |keys| {
        assert keys[i] !in left;
      }
    }
  }

  /** Nothing left means every group has been collected. */
  lemma CollectedAll(players: seq<T.Player>, keys: seq<(string, string)>,
                     groups: map<(string, string), seq<(u8, T.PlayerResult)>>)
    requires Collected(players, keys, groups, map[])
    ensures PlayersOfGroups(players, groups)
  {
    CollectedKeys(players, keys, groups);
    KeySetOf(players, keys, groups.Keys);
  }

  /** Each collected player carries the key it was built from. */
  lemma CollectedKeys(players: seq<T.Player>, keys: seq<(string, string)>,
                      groups: map<(string, string), seq<(u8, T.PlayerResult)>>)
    requires Collected(players, keys, groups, map[])
    ensures forall i :: 0 <= i < |players| ==> PlayerKey(players[i]) == keys[i]
  {
    forall i | 0 <= i < |players| ensures PlayerKey(players[i]) == keys[i] {
      assert players[i] == T.NewPlayer(keys[i].0, keys[i].1, groups[keys[i]]);
    }
  }

  /** Players carrying `keys`, which are exactly the keys of the groups,
      have the groups' keys as their key set. */
  lemma KeySetOf(players: seq<T.Player>, keys: seq<(string, string)>, groupKeys: set<(string, string)>)
    requires |players| == |keys|
    requires forall i :: 0 <= i < |players| ==> PlayerKey(players[i]) == keys[i]
    requires forall i :: 0 <= i < |keys| ==> keys[i] in groupKeys
    requires forall key :: key in groupKeys ==> key in keys
    ensures (set i | 0 <= i < |players| :: PlayerKey(players[i])) == groupKeys
  {
    var found := set i | 0 <= i < |players| :: PlayerKey(players[i]);
    forall key | key in groupKeys ensures key in found {
      var i :| 0 <= i < |keys| && keys[i] == key;
      assert PlayerKey(players[i]) == key;
    }
  }

  /** The last loop of `combine_info`: every group, taken out in whatever
      order the map yields it, becomes a player. */
  method CollectPlayers(groups: map<(string, string), seq<(u8, T.PlayerResult)>>) returns (players: seq<T.Player>)
    ensures PlayersOfGroups(players, groups)
  {
    var left := groups;
    players := [];
    ghost var keys: seq<(string, string)> := [];
    while left != map[]
      invariant Collected(players, keys, groups, left)
      decreases |left|
    {
      var key :| key in left;
      CollectedStep(players, keys, groups, left, key);
      players := players + [T.NewPlayer(key.0, key.1, left[key])];
      keys := keys + [key];
      left := left - {key};
    }
    CollectedAll(players, keys, groups);
  }

  // ---------------------------------------------------------------------
  // combine_info and the handler
  // ---------------------------------------------------------------------

  /** `combine_info`: the runs as `CombineRuns` gives them, the players
      from the score rows grouped by (name, surname), and the main row's
      fields, both scores truncated to `u32`. */
  method CombineInfo(main: MainInfo, gameRuns: seq<RunPlayerRow>, runTimes: seq<RunTimeRow>,
                     playerScores: seq<PlayerScoreInfo>)
    returns (r: Result<MatchReport>)
    ensures r.Ok? <==> CombineRuns(gameRuns, runTimes).Ok?
    ensures r.Fail? ==> r == Fail(CombineRuns(gameRuns, runTimes).failure)
    ensures r.Ok? ==> r.value == MatchReport(
      main.team1, main.team2, WrapTo(main.score1, U32_LIMIT), WrapTo(main.score2, U32_LIMIT),
      main.place, main.date, CombineRuns(gameRuns, runTimes).value, r.value.playerResults)
    ensures r.Ok? ==> PlayersOfGroups(r.value.playerResults, Group(playerScores, |playerScores|, ScoreKey, ScoreValue))
  {
    var runs := MatchRuns(gameRuns, runTimes);
    if runs.Fail? {
      return Fail(runs.failure);
    }
    var playerInfos := GroupRows(playerScores, ScoreKey, ScoreValue);
    var players := CollectPlayers(playerInfos);
    return Ok(MatchReport(main.team1, main.team2, WrapTo(main.score1, U32_LIMIT), WrapTo(main.score2, U32_LIMIT),
                          main.place, main.date, runs.value, players));
  }

  /** The first part of `combine_info`: the largest positions are compared,
      the rider rows are grouped by position, and the run loop builds the
      runs. */
  method MatchRuns(gameRuns: seq<RunPlayerRow>, runTimes: seq<RunTimeRow>) returns (r: Result<seq<RunReport>>)
    ensures r == CombineRuns(gameRuns, runTimes)
  {
    if runTimes == [] {
      return Err(NO_MAX_TIME);
    }
    if gameRuns == [] {
      return Err(NO_MAX_GAME);
    }
    if MaxPosition(runTimes, |runTimes|, TimePosition) != MaxPosition(gameRuns, |gameRuns|, RunPosition) {
      return Err(RUN_COUNT_MISMATCH);
    }
    var runInfos := GroupRows(gameRuns, RunPosition, EntryOf);
    r := TimeRuns(runTimes, runInfos);
  }

  /** The run loop of `combine_info`: each time row with a fraction takes
      the entries of its position out of `runInfos` and becomes a run. */
  method TimeRuns(runTimes: seq<RunTimeRow>, runInfos: map<int, seq<RunEntry>>) returns (r: Result<seq<RunReport>>)
    ensures TimedRuns(runTimes, |runTimes|, runInfos).Ok? <==> r.Ok?
    ensures r.Ok? ==> r.value == TimedRuns(runTimes, |runTimes|, runInfos).value.0
    ensures r.Fail? ==> r == Fail(TimedRuns(runTimes, |runTimes|, runInfos).failure)
  {
    var left := runInfos;
    var runs: seq<RunReport> := [];
    for i := 0 to |runTimes|
      invariant TimedRuns(runTimes, i, runInfos) == Ok((runs, left))
    {
      var time := runTimes[i];
      if time.timeDecimal.Some? {
        if time.timeInteger.None? {
          TimedRunsFailureStays(runTimes, i + 1, runInfos);
          return Err(TIME_NULLITY);
        }
        if time.runPosition !in left {
          TimedRunsFailureStays(runTimes, i + 1, runInfos);
          return Err(NO_RUN_ENTRY);
        }
        var scores := left[time.runPosition];
        left := left - {time.runPosition};
        runs := runs + [ReportOf(time, scores)];
      }
    }
    return Ok(runs);
  }

  /** Once the run loop fails it stays failed with the same error. */
  lemma {:induction false} TimedRunsFailureStays(times: seq<RunTimeRow>, k: nat, groups: map<int, seq<RunEntry>>)
    requires k <= |times| && TimedRuns(times, k, groups).Fail?
    ensures TimedRuns(times, |times|, groups) == TimedRuns(times, k, groups)
    decreases |times| - k
  {
    if k < |times| {
      TimedRunsFailureStays(times, k + 1, groups);
    }
  }

  /** A response of the match handler: its status and, with 200, the
      match. */
  datatype Response = Response(status: nat, body: Option<MatchReport>)

  /** `match_info_handler` on the outcomes of its queries: no match is 404;
      a query error, a stored result that does not decode, or runs that do
      not combine is 500; otherwise 200 with the match. A panic while
      reading the team names unwinds the handler. */
  method MatchInfoHandler(main: Result<Option<MainInfo>>, gameRuns: Result<seq<RunPlayerRow>>,
                          runTimes: Result<seq<RunTimeRow>>, scores: Result<seq<ScoreRecord>>)
    returns (r: Result<Response>)
    ensures main.IsPanic() <==> r.Fail?
    ensures r.Fail? ==> r == Fail(main.failure)
    ensures main == Ok(Option.None) ==> r == Ok(Response(HttpStatus.NOT_FOUND, Option.None))
    ensures r.Ok? ==> (r.value.body.Some? <==> r.value.status == HttpStatus.OK)
    ensures r.Ok? && r.value.status != HttpStatus.OK ==>
      r.value.status == HttpStatus.NOT_FOUND || r.value.status == HttpStatus.INTERNAL_SERVER_ERROR
    ensures r.Ok? && r.value.status == HttpStatus.OK <==>
      && main.Ok? && main.value.Some? && gameRuns.Ok? && runTimes.Ok? && scores.Ok?
      && (forall i :: 0 <= i < |scores.value| ==> T.Decode(scores.value[i].score).Some?)
      && CombineRuns(gameRuns.value, runTimes.value).Ok?
    ensures r.Ok? && r.value.status == HttpStatus.OK ==>
      r.value.body.value == MatchReport(
        main.value.value.team1, main.value.value.team2,
        WrapTo(main.value.value.score1, U32_LIMIT), WrapTo(main.value.value.score2, U32_LIMIT),
        main.value.value.place, main.value.value.date,
        CombineRuns(gameRuns.value, runTimes.value).value, r.value.body.value.playerResults)
    ensures r.Ok? && r.value.status == HttpStatus.OK ==>
      PlayersOfGroups(r.value.body.value.playerResults,
                      Group(DecodedScores(scores.value), |scores.value|, ScoreKey, ScoreValue))
  {
    if main.Fail? {
      if main.IsPanic() {
        return Fail(main.failure);
      }
      return Ok(Response(HttpStatus.INTERNAL_SERVER_ERROR, Option.None));
    }
    if main.value.None? {
      return Ok(Response(HttpStatus.NOT_FOUND, Option.None));
    }
    if gameRuns.Fail? || runTimes.Fail? || scores.Fail? {
      return Ok(Response(HttpStatus.INTERNAL_SERVER_ERROR, Option.None));
    }
    var playerScores := SelectPlayerScores(scores.value);
    if playerScores.None? {
      return Ok(Response(HttpStatus.INTERNAL_SERVER_ERROR, Option.None));
    }
    var combined := CombineInfo(main.value.value, gameRuns.value, runTimes.value, playerScores.value);
    if combined.Fail? {
      return Ok(Response(HttpStatus.INTERNAL_SERVER_ERROR, Option.None));
    }
    return Ok(Response(HttpStatus.OK, Some(combined.value)));
  }
}
