/** Writing one match into the database (`speedwayrs-loader/src/insertion.rs`).

    The database is a `Store`: three reference tables (teams, riders,
    stadiums), each a map from its unique key to a row id, and four tables
    of match data that are written inside one transaction. A transaction is
    a snapshot of the match tables, restored when the body fails.

    What the database and other connections do is an input. For every
    find-or-create a `Lookup` says whether the select fails, whether another
    connection inserts the same key between our select and our insert, and
    whether our insert or the re-select fails. Inside the transaction,
    `failAt` names the one statement, counted from `BEGIN` as 0, that fails,
    if any. */
module LoaderInsertion {
  import opened Wrappers
  import opened Text
  import T = Types
  import LT = LoaderTypes

  /** An error the database reports, with its SQLSTATE code if it has one. */
  datatype DbError = DbError(code: Option<string>, message: string)

  /** The SQLSTATE code of a unique violation. */
  const UNIQUE_VIOLATION: string := "23505"

  /** The error of `fetch_one` when the query returns no row. */
  const ROW_NOT_FOUND: string := "no rows returned by a query that expected to return at least one row"

  /** What the database and other connections do during one find-or-create:
      the select fails; another connection inserts the key between our
      select and our insert; our insert fails; the re-select fails. */
  datatype Lookup = Lookup(select: Option<DbError>, raced: bool, insert: Option<DbError>, reselect: Option<DbError>)

  /** A find-or-create during which nothing goes wrong. */
  const QUIET: Lookup := Lookup(Option.None, false, Option.None, Option.None)

  /** The lookup for the `i`th rider of a team; riders without one see a
      quiet database. */
  function LookupAt(lookups: seq<Lookup>, i: nat): Lookup {
    if i < |lookups| then lookups[i] else QUIET
  }

  /** A reference table: the id of each key, and the next id its sequence
      gives out. */
  datatype Table<K(==)> = Table(rows: map<K, int>, next: int)

  /** Ids are below the next one to be given out, which is not negative,
      and distinct keys have distinct ids. */
  predicate ValidTable<K(==)>(t: Table<K>) {
    && 0 <= t.next
    && (forall k :: k in t.rows ==> 0 <= t.rows[k] < t.next)
    && (forall k1, k2 :: k1 in t.rows && k2 in t.rows && t.rows[k1] == t.rows[k2] ==> k1 == k2)
  }

  /** The table after a row for `key` was inserted with the next id. */
  function Inserted<K(==)>(t: Table<K>, key: K): Table<K> {
    Table(t.rows[key := t.next], t.next + 1)
  }

  // ---------------------------------------------------------------------
  // Find-or-create
  // ---------------------------------------------------------------------

  /** `check_team`, `check_player` and `check_place` on a table, as one
      function of the table, the key and what happens around it: select
      the key; on a miss insert it; when the insert violates uniqueness,
      select again. Every other error is returned. */
  function Resolve<K(==)>(t: Table<K>, key: K, env: Lookup): (r: (Result<int>, Table<K>))
    ensures r.0.Ok? ==> key in r.1.rows && r.1.rows[key] == r.0.value
    ensures t.rows.Keys <= r.1.rows.Keys <= t.rows.Keys + {key}
    ensures forall k :: k in t.rows ==> r.1.rows[k] == t.rows[k]
  {
    if env.select.Some? then (Err(env.select.value.message), t)
    else if key in t.rows then (Ok(t.rows[key]), t)
    else if env.raced then
      // The other connection's row makes our insert a unique violation.
      var t' := Inserted(t, key);
      if env.reselect.Some? then (Err(env.reselect.value.message), t') else (Ok(t.next), t')
    else if env.insert.Some? then
      if env.insert.value.code == Some(UNIQUE_VIOLATION) then
        if env.reselect.Some? then (Err(env.reselect.value.message), t) else (Err(ROW_NOT_FOUND), t)
      else (Err(env.insert.value.message), t)
    else (Ok(t.next), Inserted(t, key))
  }

  /** A key already in the table gives its id and inserts nothing. */
  lemma ResolvePresent<K>(t: Table<K>, key: K, env: Lookup)
    requires env.select.None? && key in t.rows
    ensures Resolve(t, key, env) == (Ok(t.rows[key]), t)
  {
  }

  /** A missing key is inserted with a fresh id, by this connection or by
      the one it raced with, unless an error stops it. */
  lemma ResolveMissing<K>(t: Table<K>, key: K, env: Lookup)
    requires ValidTable(t) && env.select.None? && key !in t.rows
    ensures var r := Resolve(t, key, env);
      && (r.0.Ok? ==> r.0.value == t.next && r.1 == Inserted(t, key))
      && (r.0.Ok? <==> (env.raced && env.reselect.None?) || (!env.raced && env.insert.None?))
      && (forall k :: k in t.rows ==> t.rows[k] != t.next)
  {
  }

  /** Ids stay unique and below the next one. */
  lemma ResolveKeepsValid<K>(t: Table<K>, key: K, env: Lookup)
    requires ValidTable(t)
    ensures ValidTable(Resolve(t, key, env).1)
  {
    var t' := Resolve(t, key, env).1;
    if t' != t {
      assert key !in t.rows && t' == Inserted(t, key);
      forall k | k in t'.rows
        ensures 0 <= t'.rows[k] < t'.next
        ensures k != key ==> t'.rows[k] < t.next
      {
      }
    }
  }

  /** Once resolved, a key resolves to the same id again and nothing more is
      inserted. */
  lemma ResolveIdempotent<K>(t: Table<K>, key: K, env: Lookup, again: Lookup)
    requires Resolve(t, key, env).0.Ok? && again.select.None?
    ensures var r := Resolve(t, key, env); Resolve(r.1, key, again) == r
  {
  }

  /** An insert that fails for any reason but a unique violation is
      returned as it is. */
  lemma OtherInsertErrorIsReturned<K>(t: Table<K>, key: K, env: Lookup)
    requires env.select.None? && key !in t.rows && !env.raced
    requires env.insert.Some? && env.insert.value.code != Some(UNIQUE_VIOLATION)
    ensures Resolve(t, key, env) == (Err(env.insert.value.message), t)
  {
  }

  // ---------------------------------------------------------------------
  // Riders of a team
  // ---------------------------------------------------------------------

  function Key(p: LT.Player): (string, string) {
    (p.name, p.surname)
  }

  /** The keys of the riders. */
  function Keys(players: seq<LT.Player>): (keys: set<(string, string)>)
    ensures forall i :: 0 <= i < |players| ==> Key(players[i]) in keys
  {
    if players == [] then {} else Keys(players[..|players| - 1]) + {Key(players[|players| - 1])}
  }

  /** `map_players` as a function: each rider in order is resolved, and the
      first error ends it. */
  function ResolveAll(t: Table<(string, string)>, players: seq<LT.Player>, lookups: seq<Lookup>)
    : (r: (Result<map<(string, string), int>>, Table<(string, string)>))
    ensures t.rows.Keys <= r.1.rows.Keys <= t.rows.Keys + Keys(players)
  {
    if players == [] then (Ok(map[]), t)
    else
      var n := |players| - 1;
      var before := ResolveAll(t, players[..n], lookups);
      if before.0.Fail? then before
      else
        var id := Resolve(before.1, Key(players[n]), LookupAt(lookups, n));
        if id.0.Fail? then (Fail(id.0.failure), id.1)
        else (Ok(before.0.value[Key(players[n]) := id.0.value]), id.1)
  }

  /** Resolving riders only adds rows: every row of the table keeps its
      id, and ids stay unique and below the next one. */
  lemma {:induction false} ResolveAllGrows(t: Table<(string, string)>, players: seq<LT.Player>, lookups: seq<Lookup>)
    ensures forall k :: k in t.rows ==> k in ResolveAll(t, players, lookups).1.rows &&
                                        ResolveAll(t, players, lookups).1.rows[k] == t.rows[k]
    ensures ValidTable(t) ==> ValidTable(ResolveAll(t, players, lookups).1)
  {
    if players != [] {
      var n := |players| - 1;
      ResolveAllGrows(t, players[..n], lookups);
      var before := ResolveAll(t, players[..n], lookups);
      if before.0.Ok? && ValidTable(before.1) {
        ResolveKeepsValid(before.1, Key(players[n]), LookupAt(lookups, n));
      }
    }
  }

  /** The map holds exactly the riders' keys, and each id is the one in the
      table afterwards. */
  lemma {:induction false} ResolveAllAgrees(t: Table<(string, string)>, players: seq<LT.Player>, lookups: seq<Lookup>)
    requires ResolveAll(t, players, lookups).0.Ok?
    ensures ResolveAll(t, players, lookups).0.value.Keys == Keys(players)
    ensures forall k :: k in ResolveAll(t, players, lookups).0.value ==>
      k in ResolveAll(t, players, lookups).1.rows &&
      ResolveAll(t, players, lookups).1.rows[k] == ResolveAll(t, players, lookups).0.value[k]
  {
    if players != [] {
      var n := |players| - 1;
      ResolveAllAgrees(t, players[..n], lookups);
    }
  }

  /** Once a prefix of the riders fails, so does the whole: nothing after
      the first error is resolved. */
  lemma {:induction false} ResolveAllStops(t: Table<(string, string)>, players: seq<LT.Player>, k: nat, lookups: seq<Lookup>)
    requires k <= |players| && ResolveAll(t, players[..k], lookups).0.Fail?
    ensures ResolveAll(t, players, lookups) == ResolveAll(t, players[..k], lookups)
    decreases |players| - k
  {
    if k == |players| {
      assert players[..k] == players;
    } else {
      var n := |players| - 1;
      assert players[..n][..k] == players[..k];
      ResolveAllStops(t, players[..n], k, lookups);
      ResolveAllFailed(t, players, lookups);
    }
  }

  /** Once all but the last rider fail, the last is not resolved. */
  lemma ResolveAllFailed(t: Table<(string, string)>, players: seq<LT.Player>, lookups: seq<Lookup>)
    requires players != [] && ResolveAll(t, players[..|players| - 1], lookups).0.Fail?
    ensures ResolveAll(t, players, lookups) == ResolveAll(t, players[..|players| - 1], lookups)
  {
  }

  // ---------------------------------------------------------------------
  // Reference rows of a match
  // ---------------------------------------------------------------------

  /** The ids a match refers to. */
  datatype Resolved = Resolved(team1: int, team2: int, stadium: int, ids: map<(string, string), int>)

  /** What resolving the references leaves behind: the ids or the first
      error, and the three tables. */
  datatype References = References(
    result: Result<Resolved>,
    teams: Table<string>,
    players: Table<(string, string)>,
    places: Table<string>)

  /** What the database and other connections do while one match is written. */
  datatype Env = Env(
    team1: Lookup, team2: Lookup, place: Lookup,
    players1: seq<Lookup>, players2: seq<Lookup>,
    failAt: Option<nat>, failure: DbError)

  /** The first part of `insert_into_database`: both teams, by trimmed
      name, then the stadium, then the riders of team one and of team two;
      the two id maps are merged, team two's ids taking precedence. The
      first error ends it, and rows inserted before it stay. */
  function ResolveReferences(teams: Table<string>, players: Table<(string, string)>, places: Table<string>,
                             game: LT.GameInfo, env: Env): (refs: References)
    ensures teams.rows.Keys <= refs.teams.rows.Keys <= teams.rows.Keys + {Trim(game.team1.name), Trim(game.team2.name)}
    ensures places.rows.Keys <= refs.places.rows.Keys <= places.rows.Keys + {game.stadium}
    ensures players.rows.Keys <= refs.players.rows.Keys
    ensures refs.players.rows.Keys <= players.rows.Keys + Keys(game.team1.players) + Keys(game.team2.players)
    ensures refs.result.Ok? ==>
      && Trim(game.team1.name) in refs.teams.rows && refs.teams.rows[Trim(game.team1.name)] == refs.result.value.team1
      && Trim(game.team2.name) in refs.teams.rows && refs.teams.rows[Trim(game.team2.name)] == refs.result.value.team2
      && game.stadium in refs.places.rows && refs.places.rows[game.stadium] == refs.result.value.stadium
  {
    var one := Resolve(teams, Trim(game.team1.name), env.team1);
    if one.0.Fail? then References(Fail(one.0.failure), one.1, players, places) else
    var two := Resolve(one.1, Trim(game.team2.name), env.team2);
    if two.0.Fail? then References(Fail(two.0.failure), two.1, players, places) else
    var stadium := Resolve(places, game.stadium, env.place);
    if stadium.0.Fail? then References(Fail(stadium.0.failure), two.1, players, stadium.1) else
    var ids1 := ResolveAll(players, game.team1.players, env.players1);
    if ids1.0.Fail? then References(Fail(ids1.0.failure), two.1, ids1.1, stadium.1) else
    var ids2 := ResolveAll(ids1.1, game.team2.players, env.players2);
    if ids2.0.Fail? then References(Fail(ids2.0.failure), two.1, ids2.1, stadium.1) else
    References(Ok(Resolved(one.0.value, two.0.value, stadium.0.value, ids1.0.value + ids2.0.value)),
               two.1, ids2.1, stadium.1)
  }

  /** Every rider of both teams, the "no rider" placeholder included, has an
      id, and it is the rider's id in the table: the two teams' maps never
      disagree, so the precedence of team two changes nothing. */
  lemma ReferencesCoverRiders(teams: Table<string>, players: Table<(string, string)>, places: Table<string>,
                              game: LT.GameInfo, env: Env)
    requires ResolveReferences(teams, players, places, game, env).result.Ok?
    ensures var refs := ResolveReferences(teams, players, places, game, env);
      var ids := refs.result.value.ids;
      && ids.Keys == Keys(game.team1.players) + Keys(game.team2.players)
      && (forall k :: k in ids ==> k in refs.players.rows && ids[k] == refs.players.rows[k])
  {
    var refs := ResolveReferences(teams, players, places, game, env);
    var ids1 := ResolveAll(players, game.team1.players, env.players1);
    var ids2 := ResolveAll(ids1.1, game.team2.players, env.players2);
    assert ids1.0.Ok? && ids2.0.Ok?;
    assert refs.players == ids2.1 && refs.result.value.ids == ids1.0.value + ids2.0.value;
    ResolveAllAgrees(players, game.team1.players, env.players1);
    ResolveAllAgrees(ids1.1, game.team2.players, env.players2);
    ResolveAllGrows(ids1.1, game.team2.players, env.players2);
    MergedIdsAgree(ids1.0.value, ids2.0.value, ids1.1.rows, ids2.1.rows);
  }

  /** Two id maps that agree with a table, the second with a table that
      extends the first, merge into a map that agrees with the second. */
  lemma MergedIdsAgree<K>(ids1: map<K, int>, ids2: map<K, int>, rows1: map<K, int>, rows2: map<K, int>)
    requires forall k :: k in ids1 ==> k in rows1 && ids1[k] == rows1[k]
    requires forall k :: k in rows1 ==> k in rows2 && rows2[k] == rows1[k]
    requires forall k :: k in ids2 ==> k in rows2 && ids2[k] == rows2[k]
    ensures (ids1 + ids2).Keys == ids1.Keys + ids2.Keys
    ensures forall k :: k in ids1 + ids2 ==> k in rows2 && (ids1 + ids2)[k] == rows2[k]
  {
  }

  // ---------------------------------------------------------------------
  // Rows of a match
  // ---------------------------------------------------------------------

  datatype GameRow = GameRow(team1: int, score1: int, score2: int, team2: int, stadium: int, date: T.Timestamp)
  /** A result column holds the result's text, `Types.Encode` of it; the
      rows keep the result itself, which that text determines
      (`Types.EncodeInjective`). */
  datatype ScoreRow = ScoreRow(game: int, player: int, round: int, score: T.PlayerResult)
  datatype RunRow = RunRow(position: int, timeWhole: Option<int>, timeFraction: Option<int>, game: int)
  datatype RunScoreRow = RunScoreRow(run: int, player: int, result: T.PlayerResult)

  /** The match tables, written together or not at all. */
  datatype Written = Written(games: seq<GameRow>, scores: seq<ScoreRow>, runs: seq<RunRow>, runScores: seq<RunScoreRow>)

  /** The game row: both team ids, both teams' points widened to `i32`, the
      stadium id and the date read as UTC. */
  function GameRowOf(game: LT.GameInfo, refs: Resolved): (row: GameRow)
    ensures row.score1 == game.team1.points as int && row.score2 == game.team2.points as int
    ensures 0 <= row.score1 <= LT.I32_MAX && 0 <= row.score2 <= LT.I32_MAX
    ensures (row.team1, row.team2, row.stadium, row.date) == (refs.team1, refs.team2, refs.stadium, game.date)
  {
    GameRow(refs.team1, game.team1.points as int, game.team2.points as int, refs.team2, refs.stadium, game.date)
  }

  /** The "no rider" placeholder of a team sheet: "Brak zawodnika", in any
      ASCII case. */
  predicate IsPlaceholder(p: LT.Player): (placeholder: bool)
    ensures placeholder <==> LowerAscii(p.name) == "brak" && LowerAscii(p.surname) == "zawodnika"
  {
    LowerAsciiMatches(p.name, "Brak");
    LowerAsciiMatches(p.surname, "zawodnika");
    EqIgnoreAsciiCase(p.name, "Brak") && EqIgnoreAsciiCase(p.surname, "zawodnika")
  }

  /** Riders whose keys are all in the id map. */
  predicate AllKeyed(players: seq<LT.Player>, ids: map<(string, string), int>) {
    forall i :: 0 <= i < |players| ==> Key(players[i]) in ids
  }

  /** The per-round rows of one rider: one per result, the round being the
      result's index. */
  function RiderRows(p: LT.Player, id: int, game: int): (rows: seq<ScoreRow>)
    ensures |rows| == |p.scores|
    ensures forall i :: 0 <= i < |rows| ==> rows[i] == ScoreRow(game, id, i, p.scores[i])
  {
    seq(|p.scores|, i requires 0 <= i < |p.scores| => ScoreRow(game, id, i, p.scores[i]))
  }

  /** The rows one rider contributes: none for the placeholder, its
      per-round rows otherwise. (A rider without an id would make the
      source's `unwrap` panic; it never lacks one, by
      `ReferencesCoverRiders`.) */
  function RowsOf(p: LT.Player, ids: map<(string, string), int>, game: int): seq<ScoreRow> {
    if IsPlaceholder(p) || Key(p) !in ids then [] else RiderRows(p, ids[Key(p)], game)
  }

  /** The per-round rows of the riders in order. */
  function ScoreRows(players: seq<LT.Player>, ids: map<(string, string), int>, game: int): seq<ScoreRow> {
    if players == [] then [] else ScoreRows(players[..|players| - 1], ids, game) + RowsOf(players[|players| - 1], ids, game)
  }

  /** Every per-round row belongs to the game and to one of the ids the
      riders were resolved to. */
  lemma {:induction false} ScoreRowsBelong(players: seq<LT.Player>, ids: map<(string, string), int>, game: int)
    ensures forall i :: 0 <= i < |ScoreRows(players, ids, game)| ==>
      ScoreRows(players, ids, game)[i].game == game && ScoreRows(players, ids, game)[i].player in ids.Values
  {
    if players != [] {
      var n := |players| - 1;
      ScoreRowsBelong(players[..n], ids, game);
      var before: seq<ScoreRow> := ScoreRows(players[..n], ids, game);
      var last: seq<ScoreRow> := RowsOf(players[n], ids, game);
      forall i | 0 <= i < |before + last|
        ensures (before + last)[i].game == game && (before + last)[i].player in ids.Values
      {
        if i < |before| {
          assert (before + last)[i] == before[i];
        } else {
          assert (before + last)[i] == last[i - |before|];
          assert Key(players[n]) in ids;
        }
      }
    }
  }

  /** The rows of two groups of riders are those of each, in order. */
  lemma {:induction false} ScoreRowsAppend(a: seq<LT.Player>, b: seq<LT.Player>, ids: map<(string, string), int>, game: int)
    ensures ScoreRows(a + b, ids, game) == ScoreRows(a, ids, game) + ScoreRows(b, ids, game)
    decreases |b|
  {
    if b == [] {
      assert a + b == a;
    } else {
      var n := |b| - 1;
      var ab := a + b;
      assert ab[..|ab| - 1] == a + b[..n];
      assert ab[|ab| - 1] == b[n];
      ScoreRowsAppend(a, b[..n], ids, game);
      assert ScoreRows(ab, ids, game) == ScoreRows(a + b[..n], ids, game) + RowsOf(b[n], ids, game);
    }
  }

  /** A placeholder alone writes nothing; any other rider with an id writes
      its results, in order. */
  lemma ScoreRowsOfOne(p: LT.Player, ids: map<(string, string), int>, game: int)
    requires Key(p) in ids
    ensures IsPlaceholder(p) ==> ScoreRows([p], ids, game) == []
    ensures !IsPlaceholder(p) ==> ScoreRows([p], ids, game) == RiderRows(p, ids[Key(p)], game)
  {
    assert [p][..0] == [];
  }

  /** The rows of the first `k` riders are those of the first `k - 1`, then
      the `k`th rider's. */
  lemma ScoreRowsStep(riders: seq<LT.Player>, k: nat, ids: map<(string, string), int>, game: int)
    requires 0 < k <= |riders|
    ensures ScoreRows(riders[..k], ids, game) == ScoreRows(riders[..k - 1], ids, game) + RowsOf(riders[k - 1], ids, game)
  {
    assert riders[..k][..k - 1] == riders[..k - 1] && riders[..k][k - 1] == riders[k - 1];
  }

  /** What the per-round loop has done after its first `k` riders, taking
      the tables from `w0` to `w` and the statement counter from `stmt0`
      to `stmt`: all their rows written, in order, none of them failed. */
  ghost predicate ScoresWritten(riders: seq<LT.Player>, k: nat, ids: map<(string, string), int>, game: int,
                                w0: Written, w: Written, stmt0: nat, stmt: nat, failAt: Option<nat>)
    requires k <= |riders|
  {
    && w.(scores := w0.scores) == w0
    && w.scores == w0.scores + ScoreRows(riders[..k], ids, game)
    && stmt == stmt0 + |ScoreRows(riders[..k], ids, game)|
    && !FailsWithin(failAt, stmt0, stmt)
  }

  /** Writing the rows of rider `k` in full extends what the loop has done
      by one rider. */
  lemma ScoresWrittenStep(riders: seq<LT.Player>, k: nat, ids: map<(string, string), int>, game: int,
                          w0: Written, w: Written, stmt0: nat, stmt: nat, failAt: Option<nat>, w': Written, next: nat)
    requires k < |riders| && ScoresWritten(riders, k, ids, game, w0, w, stmt0, stmt, failAt)
    requires !FailsWithin(failAt, stmt, stmt + |RowsOf(riders[k], ids, game)|)
    requires w'.(scores := w.scores) == w && w'.scores == w.scores + RowsOf(riders[k], ids, game)
    requires next == stmt + |RowsOf(riders[k], ids, game)|
    ensures ScoresWritten(riders, k + 1, ids, game, w0, w', stmt0, next, failAt)
  {
    ScoreRowsStep(riders, k + 1, ids, game);
    assert w'.scores == w0.scores + (ScoreRows(riders[..k], ids, game) + RowsOf(riders[k], ids, game));
  }

  /** A failure among the rows of rider `k` falls within the rows of all
      the riders. */
  lemma ScoreFailureWithin(riders: seq<LT.Player>, k: nat, ids: map<(string, string), int>, game: int,
                           w0: Written, w: Written, stmt0: nat, stmt: nat, failAt: Option<nat>)
    requires k < |riders| && ScoresWritten(riders, k, ids, game, w0, w, stmt0, stmt, failAt)
    requires FailsWithin(failAt, stmt, stmt + |RowsOf(riders[k], ids, game)|)
    ensures FailsWithin(failAt, stmt0, stmt0 + |ScoreRows(riders, ids, game)|)
  {
    ScoreRowsStep(riders, k + 1, ids, game);
    ScoreRowsPrefix(riders, k + 1, ids, game);
  }

  /** The first `k` riders write no more rows than all of them. */
  lemma {:induction false} ScoreRowsPrefix(riders: seq<LT.Player>, k: nat, ids: map<(string, string), int>, game: int)
    requires k <= |riders|
    ensures |ScoreRows(riders[..k], ids, game)| <= |ScoreRows(riders, ids, game)|
    decreases |riders| - k
  {
    if k == |riders| {
      assert riders[..k] == riders;
    } else {
      ScoreRowsPrefix(riders, k + 1, ids, game);
      ScoreRowsStep(riders, k + 1, ids, game);
    }
  }

  /** The row of a run. */
  function RunRowOf(run: LT.Run, game: int): (row: RunRow)
    ensures row.position == run.number as int && row.game == game
    ensures (row.timeWhole, row.timeFraction) == LT.RunTime(run)
  {
    var time := LT.RunTime(run);
    RunRow(run.number as int, time.0, time.1, game)
  }

  /** The rows of the first `k` runs, in order. */
  function RunRows(runs: seq<LT.Run>, k: nat, game: int): (rows: seq<RunRow>)
    requires k <= |runs|
    ensures |rows| == k
  {
    if k == 0 then [] else RunRows(runs, k - 1, game) + [RunRowOf(runs[k - 1], game)]
  }

  /** The `i`th run row is that of the `i`th run. */
  lemma {:induction false} RunRowsAt(runs: seq<LT.Run>, k: nat, game: int)
    requires k <= |runs|
    ensures forall i :: 0 <= i < k ==> RunRows(runs, k, game)[i] == RunRowOf(runs[i], game)
  {
    if k > 0 {
      RunRowsAt(runs, k - 1, game);
      var rows := RunRows(runs, k, game);
      forall i | 0 <= i < k
        ensures rows[i] == RunRowOf(runs[i], game)
      {
        if i < k - 1 {
          assert rows[i] == RunRows(runs, k - 1, game)[i];
        }
      }
    }
  }

  /** The first failure of two, or the rows of both, in order. */
  function Then(a: Result<seq<RunScoreRow>>, b: Result<seq<RunScoreRow>>): Result<seq<RunScoreRow>> {
    if a.Fail? then a else if b.Fail? then b else Ok(a.value + b.value)
  }

  /** A run entry with its name split: the split or the panic, and the
      result. */
  type Entry = (Result<(string, string)>, T.PlayerResult)

  /** A run's entries, each name split as `PlayerRunScore::name` splits it. */
  function SplitEntries(entries: seq<LT.PlayerRunScore>): (split: seq<Entry>)
    ensures |split| == |entries|
  {
    if entries == [] then []
    else
      var n := |entries| - 1;
      SplitEntries(entries[..n]) + [(LT.RunScoreName(entries[n]), entries[n].score)]
  }

  /** The `i`th split entry is the `i`th entry's split name and result. */
  lemma {:induction false} SplitEntriesAt(entries: seq<LT.PlayerRunScore>, i: nat)
    requires i < |entries|
    ensures SplitEntries(entries)[i] == (LT.RunScoreName(entries[i]), entries[i].score)
  {
    var n := |entries| - 1;
    if i < n {
      SplitEntriesAt(entries[..n], i);
    }
  }

  /** Every split entry is its entry's split name and result. */
  lemma SplitEntriesAll(entries: seq<LT.PlayerRunScore>)
    ensures forall i :: 0 <= i < |entries| ==> SplitEntries(entries)[i] == (LT.RunScoreName(entries[i]), entries[i].score)
  {
    forall i | 0 <= i < |entries|
      ensures SplitEntries(entries)[i] == (LT.RunScoreName(entries[i]), entries[i].score)
    {
      SplitEntriesAt(entries, i);
    }
  }

  /** The row of one run entry, given its split name: none when the name
      is not a rider of the match; a name that did not split panics. */
  function EntryRow(name: Result<(string, string)>, score: T.PlayerResult, run: int, ids: map<(string, string), int>)
    : (r: Result<seq<RunScoreRow>>)
    ensures r.Fail? <==> name.Fail?
    ensures r.Fail? ==> r == Panics(UNWRAP_NONE)
    ensures r.Ok? ==> |r.value| <= 1 && (r.value != [] <==> name.value in ids)
    ensures r.Ok? && r.value != [] ==> r.value[0] == RunScoreRow(run, ids[name.value], score)
  {
    if name.Fail? then Panics(UNWRAP_NONE)
    else if name.value in ids then Ok([RunScoreRow(run, ids[name.value], score)])
    else Ok([])
  }

  /** The rows of a run's split entries, in order. */
  function EntryRows(split: seq<Entry>, k: nat, run: int, ids: map<(string, string), int>): Result<seq<RunScoreRow>>
    requires k <= |split|
  {
    if k == 0 then Ok([])
    else Then(EntryRows(split, k - 1, run, ids), EntryRow(split[k - 1].0, split[k - 1].1, run, ids))
  }

  /** The rows of all the entries of the run whose id is `run`. */
  function EntryRowsOf(entries: seq<LT.PlayerRunScore>, run: int, ids: map<(string, string), int>): Result<seq<RunScoreRow>> {
    EntryRows(SplitEntries(entries), |entries|, run, ids)
  }

  /** The split entries of every run. Splitting a name has no effect
      besides its result, so splitting them all before the run loop
      leaves the statements the loop issues unchanged. */
  function SplitRuns(runs: seq<LT.Run>): (splits: seq<seq<Entry>>)
    ensures |splits| == |runs|
  {
    if runs == [] then []
    else SplitRuns(runs[..|runs| - 1]) + [SplitEntries(runs[|runs| - 1].playerScores)]
  }

  /** The `i`th list of split entries is that of run `i`. */
  lemma {:induction false} SplitRunsAt(runs: seq<LT.Run>)
    ensures forall i :: 0 <= i < |runs| ==> SplitRuns(runs)[i] == SplitEntries(runs[i].playerScores)
  {
    if runs != [] {
      var n := |runs| - 1;
      SplitRunsAt(runs[..n]);
      forall i | 0 <= i < |runs|
        ensures SplitRuns(runs)[i] == SplitEntries(runs[i].playerScores)
      {
        if i < n {
          assert runs[..n][i] == runs[i];
        }
      }
    }
  }

  /** The entry rows of the first `k` runs, given their split entries; the
      `i`th run has id `base + i`. */
  function RunScoreRows(splits: seq<seq<Entry>>, k: nat, base: int, ids: map<(string, string), int>)
    : Result<seq<RunScoreRow>>
    requires k <= |splits|
  {
    if k == 0 then Ok([])
    else Then(RunScoreRows(splits, k - 1, base, ids), EntryRows(splits[k - 1], |splits[k - 1]|, base + (k - 1), ids))
  }

  /** The entries of a run are written in order: once the first `k` fail
      the whole fails, and they write no more rows than the whole. */
  lemma {:induction false} EntryRowsPrefix(split: seq<Entry>, k: nat, run: int, ids: map<(string, string), int>)
    requires k <= |split|
    ensures EntryRows(split, k, run, ids).Fail? ==> EntryRows(split, |split|, run, ids).Fail?
    ensures EntryRows(split, |split|, run, ids).Ok? ==>
      EntryRows(split, k, run, ids).Ok? && |EntryRows(split, k, run, ids).value| <= |EntryRows(split, |split|, run, ids).value|
    decreases |split| - k
  {
    if k < |split| {
      EntryRowsPrefix(split, k + 1, run, ids);
    }
  }

  /** Runs are written in order: once the first `k` fail the whole fails,
      and they write no more rows than the whole. */
  lemma {:induction false} RunScoreRowsPrefix(splits: seq<seq<Entry>>, k: nat, base: int, ids: map<(string, string), int>)
    requires k <= |splits|
    ensures RunScoreRows(splits, k, base, ids).Fail? ==> RunScoreRows(splits, |splits|, base, ids).Fail?
    ensures RunScoreRows(splits, |splits|, base, ids).Ok? ==>
      RunScoreRows(splits, k, base, ids).Ok? &&
      |RunScoreRows(splits, k, base, ids).value| <= |RunScoreRows(splits, |splits|, base, ids).value|
    decreases |splits| - k
  {
    if k < |splits| {
      RunScoreRowsPrefix(splits, k + 1, base, ids);
    }
  }

  /** What the run loop has done after its first `k` runs, taking the
      tables from `w0` to `w` and the statement counter from `stmt0` to
      `stmt`: every row of those runs written, in order, and none of their
      statements failed. */
  ghost predicate RunsWritten(runs: seq<LT.Run>, splits: seq<seq<Entry>>, k: nat, base: int, ids: map<(string, string), int>,
                              game: int, w0: Written, w: Written, stmt0: nat, stmt: nat, failAt: Option<nat>)
    requires k <= |runs| == |splits|
  {
    && w.games == w0.games && w.scores == w0.scores
    && RunScoreRows(splits, k, base, ids).Ok?
    && w.runs == w0.runs + RunRows(runs, k, game)
    && w.runScores == w0.runScores + RunScoreRows(splits, k, base, ids).value
    && stmt == stmt0 + k + |RunScoreRows(splits, k, base, ids).value|
    && !FailsWithin(failAt, stmt0, stmt)
  }

  /** Writing run `k` in full extends what the run loop has done by one run. */
  lemma RunsWrittenStep(runs: seq<LT.Run>, splits: seq<seq<Entry>>, k: nat, base: int, ids: map<(string, string), int>,
                        game: int, w0: Written, w: Written, stmt0: nat, stmt: nat, failAt: Option<nat>, w': Written, next: nat)
    requires k < |runs| == |splits| && RunsWritten(runs, splits, k, base, ids, game, w0, w, stmt0, stmt, failAt)
    requires EntryRows(splits[k], |splits[k]|, base + k, ids).Ok?
    requires !FailsWithin(failAt, stmt, stmt + 1 + |EntryRows(splits[k], |splits[k]|, base + k, ids).value|)
    requires w'.games == w.games && w'.scores == w.scores && w'.runs == w.runs + [RunRowOf(runs[k], game)]
    requires w'.runScores == w.runScores + EntryRows(splits[k], |splits[k]|, base + k, ids).value
    requires next == stmt + 1 + |EntryRows(splits[k], |splits[k]|, base + k, ids).value|
    ensures RunsWritten(runs, splits, k + 1, base, ids, game, w0, w', stmt0, next, failAt)
  {
    var pre := RunScoreRows(splits, k, base, ids).value;
    var mine := EntryRows(splits[k], |splits[k]|, base + k, ids).value;
    assert RunScoreRows(splits, k + 1, base, ids) == Ok(pre + mine);
    assert w'.runScores == w0.runScores + (pre + mine);
  }

  /** Run `k` stops the run loop when it fails: either its entries fail,
      so all do, or one of its statements (its row, then its entries)
      fails, and that statement comes before the last of all the runs. */
  lemma RunFailureStops(runs: seq<LT.Run>, splits: seq<seq<Entry>>, k: nat, base: int, ids: map<(string, string), int>,
                        game: int, w0: Written, w: Written, stmt0: nat, stmt: nat, failAt: Option<nat>)
    requires k < |runs| == |splits| && RunsWritten(runs, splits, k, base, ids, game, w0, w, stmt0, stmt, failAt)
    ensures EntryRows(splits[k], |splits[k]|, base + k, ids).Fail? ==> RunScoreRows(splits, |splits|, base, ids).Fail?
    ensures !(EntryRows(splits[k], |splits[k]|, base + k, ids).Ok? &&
              !FailsWithin(failAt, stmt, stmt + 1 + |EntryRows(splits[k], |splits[k]|, base + k, ids).value|)) ==>
            !(RunScoreRows(splits, |splits|, base, ids).Ok? &&
              !FailsWithin(failAt, stmt0, stmt0 + |runs| + |RunScoreRows(splits, |splits|, base, ids).value|))
  {
    RunScoreRowsPrefix(splits, k + 1, base, ids);
    assert RunScoreRows(splits, k + 1, base, ids)
      == Then(RunScoreRows(splits, k, base, ids), EntryRows(splits[k], |splits[k]|, base + k, ids));
  }

  /** The first `k` entries write rows exactly when each of their names
      split. */
  lemma {:induction false} EntryRowsOkUpTo(split: seq<Entry>, k: nat, run: int, ids: map<(string, string), int>)
    requires k <= |split|
    ensures EntryRows(split, k, run, ids).Ok? <==> forall i :: 0 <= i < k ==> split[i].0.Ok?
  {
    if k > 0 {
      EntryRowsOkUpTo(split, k - 1, run, ids);
    }
  }

  /** Every row the first `k` entries write is for the run and for an id
      of the map. */
  lemma {:induction false} EntryRowsKeyedUpTo(split: seq<Entry>, k: nat, run: int, ids: map<(string, string), int>)
    requires k <= |split|
    ensures EntryRows(split, k, run, ids).Ok? ==>
      var rows := EntryRows(split, k, run, ids).value;
      forall j :: 0 <= j < |rows| ==> rows[j].run == run && rows[j].player in ids.Values
  {
    if k > 0 {
      EntryRowsKeyedUpTo(split, k - 1, run, ids);
      assert EntryRows(split, k - 1, run, ids).Ok? ==>
        var rows := EntryRows(split, k - 1, run, ids).value;
        forall j :: 0 <= j < |rows| ==> rows[j].run == run && rows[j].player in ids.Values;
      var name := split[k - 1].0;
      if EntryRows(split, k, run, ids).Ok? {
        var before := EntryRows(split, k - 1, run, ids).value;
        var rows := EntryRows(split, k, run, ids).value;
        if name.value in ids {
          assert ids[name.value] in ids.Values;
          assert rows == before + [RunScoreRow(run, ids[name.value], split[k - 1].1)];
        } else {
          assert rows == before;
        }
        forall j | 0 <= j < |rows|
          ensures rows[j].run == run && rows[j].player in ids.Values
        {
          if j < |before| {
            assert rows[j] == before[j];
          }
        }
      }
    }
  }

  /** The entries of a run write rows exactly when every name splits, and
      every row is for that run and for an id of the map. */
  lemma EntryRowsKnown(entries: seq<LT.PlayerRunScore>, run: int, ids: map<(string, string), int>)
    ensures EntryRowsOf(entries, run, ids).Ok? <==> forall i :: 0 <= i < |entries| ==> LT.RunScoreName(entries[i]).Ok?
    ensures EntryRowsOf(entries, run, ids).Ok? ==>
      var rows := EntryRowsOf(entries, run, ids).value;
      forall j :: 0 <= j < |rows| ==> rows[j].run == run && rows[j].player in ids.Values
  {
    SplitEntriesAll(entries);
    var split := SplitEntries(entries);
    EntryRowsOkUpTo(split, |split|, run, ids);
    EntryRowsKeyedUpTo(split, |split|, run, ids);
  }

  /** The first `k` entries, when all riders have ids, write one row each,
      in order. */
  lemma {:induction false} KnownEntriesUpTo(split: seq<Entry>, k: nat, run: int, ids: map<(string, string), int>)
    requires k <= |split|
    requires forall i :: 0 <= i < |split| ==> split[i].0.Ok? && split[i].0.value in ids
    ensures var r := EntryRows(split, k, run, ids);
      && r.Ok? && |r.value| == k
      && forall i :: 0 <= i < k ==> r.value[i] == RunScoreRow(run, ids[split[i].0.value], split[i].1)
  {
    if k > 0 {
      KnownEntriesUpTo(split, k - 1, run, ids);
      var row := RunScoreRow(run, ids[split[k - 1].0.value], split[k - 1].1);
      var before := EntryRows(split, k - 1, run, ids).value;
      var rows := EntryRows(split, k, run, ids).value;
      assert rows == before + [row];
      forall i | 0 <= i < k
        ensures rows[i] == RunScoreRow(run, ids[split[i].0.value], split[i].1)
      {
        if i < k - 1 {
          assert rows[i] == before[i];
        }
      }
    }
  }

  /** Entries whose riders all have ids write one row each, in order. */
  lemma KnownEntriesWriteAll(entries: seq<LT.PlayerRunScore>, run: int, ids: map<(string, string), int>)
    requires forall i :: 0 <= i < |entries| ==> LT.RunScoreName(entries[i]).Ok? && LT.RunScoreName(entries[i]).value in ids
    ensures var r := EntryRowsOf(entries, run, ids);
      && r.Ok? && |r.value| == |entries|
      && forall i :: 0 <= i < |entries| ==>
           r.value[i] == RunScoreRow(run, ids[LT.RunScoreName(entries[i]).value], entries[i].score)
  {
    SplitEntriesAll(entries);
    var split := SplitEntries(entries);
    KnownEntriesUpTo(split, |split|, run, ids);
  }

  /** The first `k` entries, when none of their riders is in the match,
      write nothing. */
  lemma {:induction false} StrangersUpTo(split: seq<Entry>, k: nat, run: int, ids: map<(string, string), int>)
    requires k <= |split|
    requires forall i :: 0 <= i < |split| ==> split[i].0.Ok? && split[i].0.value !in ids
    ensures EntryRows(split, k, run, ids) == Ok([])
  {
    if k > 0 {
      StrangersUpTo(split, k - 1, run, ids);
      var none: seq<RunScoreRow> := [];
      assert none + none == none;
      assert Then(Ok(none), Ok(none)) == Ok(none);
    }
  }

  /** Entries of riders who are not in the match write nothing. */
  lemma StrangersWriteNothing(entries: seq<LT.PlayerRunScore>, run: int, ids: map<(string, string), int>)
    requires forall i :: 0 <= i < |entries| ==> LT.RunScoreName(entries[i]).Ok? && LT.RunScoreName(entries[i]).value !in ids
    ensures EntryRowsOf(entries, run, ids) == Ok([])
  {
    SplitEntriesAll(entries);
    var split := SplitEntries(entries);
    StrangersUpTo(split, |split|, run, ids);
  }

  /** The number of statements the transaction issues when nothing fails:
      `BEGIN`, the game, each per-round row, each run and each entry row,
      and `COMMIT`. */
  function StatementCount(scores: seq<ScoreRow>, runs: seq<LT.Run>, runScores: seq<RunScoreRow>): nat {
    3 + |scores| + |runs| + |runScores|
  }

  /** Statement `failAt` falls in `[lo, hi)`. */
  predicate FailsWithin(failAt: Option<nat>, lo: nat, hi: nat) {
    failAt.Some? && lo <= failAt.value < hi
  }

  /** The statements of a transaction whose `COMMIT` is statement `commit`:
      `BEGIN`, the game, the body from statement 2, then `COMMIT`. */
  lemma FailsWithinSplit(failAt: Option<nat>, commit: nat)
    requires 2 <= commit
    ensures FailsWithin(failAt, 0, commit + 1) <==>
      failAt == Some(0) || failAt == Some(1) || FailsWithin(failAt, 2, commit) || failAt == Some(commit)
  {
  }

  /** A failure within a range is a failure within any range around it. */
  lemma FailsWithinWider(failAt: Option<nat>, lo: nat, hi: nat, lo': nat, hi': nat)
    requires lo' <= lo && hi <= hi' && FailsWithin(failAt, lo, hi)
    ensures FailsWithin(failAt, lo', hi')
  {
  }

  // ---------------------------------------------------------------------
  // The database
  // ---------------------------------------------------------------------

  class Store {
    var teams: Table<string>
    var players: Table<(string, string)>
    var places: Table<string>
    var written: Written

    constructor ()
      ensures teams == Table(map[], 0) && players == Table(map[], 0) && places == Table(map[], 0)
      ensures written == Written([], [], [], [])
    {
      teams := Table(map[], 0);
      players := Table(map[], 0);
      places := Table(map[], 0);
      written := Written([], [], [], []);
    }

    /** `check_team`: find-or-create by the trimmed name. */
    method CheckTeam(name: string, env: Lookup) returns (r: Result<int>)
      modifies this`teams
      ensures (r, teams) == Resolve(old(teams), Trim(name), env)
    {
      var key := Trim(name);
      if env.select.Some? {
        return Err(env.select.value.message);
      }
      if key in teams.rows {
        return Ok(teams.rows[key]);
      }
      if env.raced {
        teams := Inserted(teams, key);
      } else if env.insert.None? {
        var id := teams.next;
        teams := Inserted(teams, key);
        return Ok(id);
      } else if env.insert.value.code != Some(UNIQUE_VIOLATION) {
        return Err(env.insert.value.message);
      }
      // The insert hit a unique violation: select the key again.
      if env.reselect.Some? {
        return Err(env.reselect.value.message);
      }
      if key !in teams.rows {
        return Err(ROW_NOT_FOUND);
      }
      return Ok(teams.rows[key]);
    }

    /** `check_player`: find-or-create by name and surname as given. */
    method CheckPlayer(name: string, surname: string, env: Lookup) returns (r: Result<int>)
      modifies this`players
      ensures (r, players) == Resolve(old(players), (name, surname), env)
    {
      var key := (name, surname);
      if env.select.Some? {
        return Err(env.select.value.message);
      }
      if key in players.rows {
        return Ok(players.rows[key]);
      }
      if env.raced {
        players := Inserted(players, key);
      } else if env.insert.None? {
        var id := players.next;
        players := Inserted(players, key);
        return Ok(id);
      } else if env.insert.value.code != Some(UNIQUE_VIOLATION) {
        return Err(env.insert.value.message);
      }
      if env.reselect.Some? {
        return Err(env.reselect.value.message);
      }
      if key !in players.rows {
        return Err(ROW_NOT_FOUND);
      }
      return Ok(players.rows[key]);
    }

    /** `check_place`: find-or-create by the stadium text as given. */
    method CheckPlace(description: string, env: Lookup) returns (r: Result<int>)
      modifies this`places
      ensures (r, places) == Resolve(old(places), description, env)
    {
      if env.select.Some? {
        return Err(env.select.value.message);
      }
      if description in places.rows {
        return Ok(places.rows[description]);
      }
      if env.raced {
        places := Inserted(places, description);
      } else if env.insert.None? {
        var id := places.next;
        places := Inserted(places, description);
        return Ok(id);
      } else if env.insert.value.code != Some(UNIQUE_VIOLATION) {
        return Err(env.insert.value.message);
      }
      if env.reselect.Some? {
        return Err(env.reselect.value.message);
      }
      if description !in places.rows {
        return Err(ROW_NOT_FOUND);
      }
      return Ok(places.rows[description]);
    }

    /** `map_players`: resolves each rider of a team and maps its (name,
        surname) to the id; the first error is returned. */
    method MapPlayers(riders: seq<LT.Player>, lookups: seq<Lookup>) returns (r: Result<map<(string, string), int>>)
      modifies this`players
      ensures (r, players) == ResolveAll(old(players), riders, lookups)
    {
      var ids := map[];
      for i := 0 to |riders|
        invariant (Ok(ids), players) == ResolveAll(old(players), riders[..i], lookups)
      {
        assert riders[..i + 1][..i] == riders[..i];
        var id := CheckPlayer(riders[i].name, riders[i].surname, LookupAt(lookups, i));
        if id.Fail? {
          ResolveAllStops(old(players), riders, i + 1, lookups);
          return Fail(id.failure);
        }
        ids := ids[(riders[i].name, riders[i].surname) := id.value];
      }
      assert riders[..|riders|] == riders;
      return Ok(ids);
    }

    /** The per-round rows of one rider, one statement each, from
        statement `stmt0` on; it stops at the one that fails. */
    method WriteRider(rider: LT.Player, id: int, game: int, stmt0: nat, failAt: Option<nat>)
      returns (failed: bool, stmt: nat)
      modifies this`written
      ensures written.(scores := old(written.scores)) == old(written)
      ensures failed == FailsWithin(failAt, stmt0, stmt0 + |RiderRows(rider, id, game)|)
      ensures !failed ==> written.scores == old(written.scores) + RiderRows(rider, id, game)
      ensures !failed ==> stmt == stmt0 + |RiderRows(rider, id, game)|
    {
      var rows := RiderRows(rider, id, game);
      stmt := stmt0;
      for j := 0 to |rider.scores|
        invariant written.(scores := old(written.scores)) == old(written)
        invariant written.scores == old(written.scores) + rows[..j] && stmt == stmt0 + j
        invariant !FailsWithin(failAt, stmt0, stmt)
      {
        if failAt == Some(stmt) {
          return true, stmt;
        }
        assert rows[..j + 1] == rows[..j] + [rows[j]];
        written := written.(scores := written.scores + [ScoreRow(game, id, j, rider.scores[j])]);
        stmt := stmt + 1;
      }
      assert rows[..|rows|] == rows;
      failed := false;
    }

    /** One rider of the per-round loop: the placeholder is skipped, any
        other rider writes the rows of its results. */
    method WriteRowsOf(rider: LT.Player, ids: map<(string, string), int>, game: int, stmt0: nat, failAt: Option<nat>)
      returns (failed: bool, stmt: nat)
      requires Key(rider) in ids
      modifies this`written
      ensures written.(scores := old(written.scores)) == old(written)
      ensures failed == FailsWithin(failAt, stmt0, stmt0 + |RowsOf(rider, ids, game)|)
      ensures !failed ==> written.scores == old(written.scores) + RowsOf(rider, ids, game)
      ensures !failed ==> stmt == stmt0 + |RowsOf(rider, ids, game)|
    {
      if IsPlaceholder(rider) {
        assert written.scores == old(written.scores) + [];
        return false, stmt0;
      }
      failed, stmt := WriteRider(rider, ids[Key(rider)], game, stmt0, failAt);
    }

    /** The per-round loop of the transaction: for each rider of both teams
        but the placeholder, the rows of its results. Statement `stmt0` is
        the first it issues; it stops at the one that fails. */
    method WriteScores(riders: seq<LT.Player>, ids: map<(string, string), int>, game: int, stmt0: nat, failAt: Option<nat>)
      returns (failed: bool, stmt: nat)
      requires AllKeyed(riders, ids)
      modifies this`written
      ensures written.(scores := old(written.scores)) == old(written)
      ensures failed == FailsWithin(failAt, stmt0, stmt0 + |ScoreRows(riders, ids, game)|)
      ensures !failed ==> written.scores == old(written.scores) + ScoreRows(riders, ids, game)
      ensures !failed ==> stmt == stmt0 + |ScoreRows(riders, ids, game)|
    {
      stmt := stmt0;
      for i := 0 to |riders|
        invariant ScoresWritten(riders, i, ids, game, old(written), written, stmt0, stmt, failAt)
      {
        ghost var w := written;
        var failedHere, next := WriteRowsOf(riders[i], ids, game, stmt, failAt);
        if failedHere {
          ScoreFailureWithin(riders, i, ids, game, old(written), w, stmt0, stmt, failAt);
          return true, next;
        }
        ScoresWrittenStep(riders, i, ids, game, old(written), w, stmt0, stmt, failAt, written, next);
        stmt := next;
      }
      assert riders[..|riders|] == riders;
      failed := false;
    }

    /** One entry of a run, given its split name: a name that did not
        split panics (`unwrap`); the entry of a rider of the match writes
        its row as statement `stmt0`; any other entry is skipped. */
    method WriteEntry(name: Result<(string, string)>, score: T.PlayerResult, run: int, ids: map<(string, string), int>,
                      stmt0: nat, failAt: Option<nat>, failure: DbError)
      returns (r: Result<()>, stmt: nat)
      modifies this`written
      ensures written.(runScores := old(written.runScores)) == old(written)
      ensures r.Ok? <==> (EntryRow(name, score, run, ids).Ok? &&
        !FailsWithin(failAt, stmt0, stmt0 + |EntryRow(name, score, run, ids).value|))
      ensures r.Ok? ==>
        && written.runScores == old(written.runScores) + EntryRow(name, score, run, ids).value
        && stmt == stmt0 + |EntryRow(name, score, run, ids).value|
      ensures r.IsPanic() <==> EntryRow(name, score, run, ids).Fail?
      ensures r.Fail? ==> r == Panics(UNWRAP_NONE) || r == Err(failure.message)
    {
      if name.Fail? {
        return Panics(UNWRAP_NONE), stmt0;
      }
      if name.value !in ids {
        assert written.runScores == old(written.runScores) + [];
        return Ok(()), stmt0;
      }
      if failAt == Some(stmt0) {
        return Err(failure.message), stmt0;
      }
      written := written.(runScores := written.runScores + [RunScoreRow(run, ids[name.value], score)]);
      return Ok(()), stmt0 + 1;
    }

    /** The entries of one run, given their split names, in order: an
        entry whose name did not split panics; an entry of a rider of the
        match writes its row as one statement; the others are skipped. */
    method WriteEntries(split: seq<Entry>, run: int, ids: map<(string, string), int>,
                        stmt0: nat, failAt: Option<nat>, failure: DbError)
      returns (r: Result<()>, stmt: nat)
      modifies this`written
      ensures written.(runScores := old(written.runScores)) == old(written)
      ensures r.Ok? <==> (EntryRows(split, |split|, run, ids).Ok? &&
        !FailsWithin(failAt, stmt0, stmt0 + |EntryRows(split, |split|, run, ids).value|))
      ensures r.Ok? ==>
        && written.runScores == old(written.runScores) + EntryRows(split, |split|, run, ids).value
        && stmt == stmt0 + |EntryRows(split, |split|, run, ids).value|
      ensures r.IsPanic() ==> EntryRows(split, |split|, run, ids).Fail?
      ensures r.Fail? ==> r == Panics(UNWRAP_NONE) || r == Err(failure.message)
    {
      stmt := stmt0;
      for j := 0 to |split|
        invariant written.(runScores := old(written.runScores)) == old(written)
        invariant EntryRows(split, j, run, ids).Ok?
        invariant written.runScores == old(written.runScores) + EntryRows(split, j, run, ids).value
        invariant stmt == stmt0 + |EntryRows(split, j, run, ids).value|
        invariant !FailsWithin(failAt, stmt0, stmt)
      {
        var done, next := WriteEntry(split[j].0, split[j].1, run, ids, stmt, failAt, failure);
        if done.Fail? {
          EntryRowsPrefix(split, j + 1, run, ids);
          return done, next;
        }
        stmt := next;
      }
      r := Ok(());
    }

    /** One run of the transaction: its row, one statement, whose id is its
        place in the run table, then its entries. */
    method WriteRun(run: LT.Run, split: seq<Entry>, game: int, ids: map<(string, string), int>,
                    stmt0: nat, failAt: Option<nat>, failure: DbError)
      returns (r: Result<()>, stmt: nat)
      modifies this`written
      ensures written.games == old(written.games) && written.scores == old(written.scores)
      ensures r.Ok? <==> (EntryRows(split, |split|, |old(written.runs)|, ids).Ok? &&
        !FailsWithin(failAt, stmt0, stmt0 + 1 + |EntryRows(split, |split|, |old(written.runs)|, ids).value|))
      ensures r.Ok? ==>
        && written.runs == old(written.runs) + [RunRowOf(run, game)]
        && written.runScores == old(written.runScores) + EntryRows(split, |split|, |old(written.runs)|, ids).value
        && stmt == stmt0 + 1 + |EntryRows(split, |split|, |old(written.runs)|, ids).value|
      ensures r.IsPanic() ==> EntryRows(split, |split|, |old(written.runs)|, ids).Fail?
      ensures r.Fail? ==> r == Panics(UNWRAP_NONE) || r == Err(failure.message)
    {
      if failAt == Some(stmt0) {
        return Err(failure.message), stmt0;
      }
      var id := |written.runs|;
      written := written.(runs := written.runs + [RunRowOf(run, game)]);
      r, stmt := WriteEntries(split, id, ids, stmt0 + 1, failAt, failure);
    }

    /** The run loop of the transaction: the runs in order, the `k`th with
        id `k` past the runs already in the table. */
    method WriteRuns(runs: seq<LT.Run>, splits: seq<seq<Entry>>, ids: map<(string, string), int>, game: int,
                     ghost base: nat, stmt0: nat, failAt: Option<nat>, failure: DbError)
      returns (r: Result<()>, stmt: nat)
      requires |splits| == |runs| && base == |written.runs|
      modifies this`written
      ensures written.games == old(written.games) && written.scores == old(written.scores)
      ensures r.Ok? <==> (RunScoreRows(splits, |splits|, base, ids).Ok? &&
        !FailsWithin(failAt, stmt0, stmt0 + |runs| + |RunScoreRows(splits, |splits|, base, ids).value|))
      ensures r.Ok? ==>
        && written.runs == old(written.runs) + RunRows(runs, |runs|, game)
        && written.runScores == old(written.runScores) + RunScoreRows(splits, |splits|, base, ids).value
        && stmt == stmt0 + |runs| + |RunScoreRows(splits, |splits|, base, ids).value|
      ensures r.IsPanic() ==> RunScoreRows(splits, |splits|, base, ids).Fail?
      ensures r.Fail? ==> r == Panics(UNWRAP_NONE) || r == Err(failure.message)
    {
      stmt := stmt0;
      for k := 0 to |runs|
        invariant |written.runs| == base + k
        invariant RunsWritten(runs, splits, k, base, ids, game, old(written), written, stmt0, stmt, failAt)
      {
        ghost var w := written;
        RunFailureStops(runs, splits, k, base, ids, game, old(written), w, stmt0, stmt, failAt);
        var done, next := WriteRun(runs[k], splits[k], game, ids, stmt, failAt, failure);
        if done.Fail? {
          return done, next;
        }
        RunsWrittenStep(runs, splits, k, base, ids, game, old(written), w, stmt0, stmt, failAt, written, next);
        stmt := next;
      }
      r := Ok(());
    }

    /** The reference phase of `insert_into_database`: both teams, the
        stadium and the riders of both teams, outside any transaction and
        in that order; the first failure ends it. */
    method ResolveGame(game: LT.GameInfo, env: Env) returns (r: Result<Resolved>)
      modifies this`teams, this`players, this`places
      ensures r == ResolveReferences(old(teams), old(players), old(places), game, env).result
      ensures teams == ResolveReferences(old(teams), old(players), old(places), game, env).teams
      ensures players == ResolveReferences(old(teams), old(players), old(places), game, env).players
      ensures places == ResolveReferences(old(teams), old(players), old(places), game, env).places
    {
      var team1 := CheckTeam(game.team1.name, env.team1);
      if team1.Fail? {
        return Fail(team1.failure);
      }
      var team2 := CheckTeam(game.team2.name, env.team2);
      if team2.Fail? {
        return Fail(team2.failure);
      }
      var stadium := CheckPlace(game.stadium, env.place);
      if stadium.Fail? {
        return Fail(stadium.failure);
      }
      var ids1 := MapPlayers(game.team1.players, env.players1);
      if ids1.Fail? {
        return Fail(ids1.failure);
      }
      var ids2 := MapPlayers(game.team2.players, env.players2);
      if ids2.Fail? {
        return Fail(ids2.failure);
      }
      return Ok(Resolved(team1.value, team2.value, stadium.value, ids1.value + ids2.value));
    }

    /** The body of the transaction from statement `stmt0` on: the per-round
        rows of the riders, then the runs with their entries, stopping at
        the first failure without rolling back. */
    method WriteBody(riders: seq<LT.Player>, runs: seq<LT.Run>, splits: seq<seq<Entry>>, ids: map<(string, string), int>,
                     game: int, ghost base: nat, stmt0: nat, failAt: Option<nat>, failure: DbError)
      returns (r: Result<()>, stmt: nat)
      requires AllKeyed(riders, ids) && |splits| == |runs| && base == |written.runs|
      modifies this`written
      ensures written.games == old(written.games)
      ensures r.Ok? <==> (RunScoreRows(splits, |runs|, base, ids).Ok? &&
        !FailsWithin(failAt, stmt0, stmt0 + |ScoreRows(riders, ids, game)| + |runs| + |RunScoreRows(splits, |runs|, base, ids).value|))
      ensures r.Ok? ==>
        && written.scores == old(written.scores) + ScoreRows(riders, ids, game)
        && written.runs == old(written.runs) + RunRows(runs, |runs|, game)
        && written.runScores == old(written.runScores) + RunScoreRows(splits, |runs|, base, ids).value
        && stmt == stmt0 + |ScoreRows(riders, ids, game)| + |runs| + |RunScoreRows(splits, |runs|, base, ids).value|
      ensures r.IsPanic() ==> RunScoreRows(splits, |runs|, base, ids).Fail?
      ensures r.Fail? ==> r == Panics(UNWRAP_NONE) || r == Err(failure.message)
    {
      ghost var entries := RunScoreRows(splits, |runs|, base, ids);
      var failed;
      failed, stmt := WriteScores(riders, ids, game, stmt0, failAt);
      if failed {
        assert entries.Ok? ==> FailsWithin(failAt, stmt0, stmt0 + |ScoreRows(riders, ids, game)| + |runs| + |entries.value|);
        return Err(failure.message), stmt;
      }
      ghost var mid := stmt;
      r, stmt := WriteRuns(runs, splits, ids, game, base, stmt, failAt, failure);
      if r.Fail? && entries.Ok? {
        FailsWithinWider(failAt, mid, mid + |runs| + |entries.value|, stmt0, mid + |runs| + |entries.value|);
      }
    }

    /** The transaction of `insert_into_database`: `BEGIN` (statement 0),
        the game (statement 1), the per-round rows, the runs with their
        entries and `COMMIT`. Any failure rolls the match tables back. */
    method Transaction(game: LT.GameInfo, res: Resolved, env: Env) returns (r: Result<()>)
      requires AllKeyed(game.team1.players + game.team2.players, res.ids)
      modifies this`written
      ensures r.Ok? <==> (RunScoreRows(SplitRuns(game.runs), |game.runs|, |old(written.runs)|, res.ids).Ok? &&
        !FailsWithin(env.failAt, 0, StatementCount(ScoreRows(game.team1.players + game.team2.players, res.ids, |old(written.games)|),
                                                   game.runs,
                                                   RunScoreRows(SplitRuns(game.runs), |game.runs|, |old(written.runs)|, res.ids).value)))
      ensures r.Ok? ==> written == Written(
        old(written.games) + [GameRowOf(game, res)],
        old(written.scores) + ScoreRows(game.team1.players + game.team2.players, res.ids, |old(written.games)|),
        old(written.runs) + RunRows(game.runs, |game.runs|, |old(written.games)|),
        old(written.runScores) + RunScoreRows(SplitRuns(game.runs), |game.runs|, |old(written.runs)|, res.ids).value)
      ensures r.Fail? ==> written == old(written)
      ensures r.IsPanic() ==> RunScoreRows(SplitRuns(game.runs), |game.runs|, |old(written.runs)|, res.ids).Fail?
      ensures r.Fail? ==> r == Panics(UNWRAP_NONE) || r == Err(env.failure.message)
    {
      var snapshot := written;
      var id := |written.games|;
      var splits := SplitRuns(game.runs);
      var riders := game.team1.players + game.team2.players;
      ghost var scores := ScoreRows(riders, res.ids, id);
      ghost var base := |written.runs|;
      ghost var entries := RunScoreRows(splits, |game.runs|, base, res.ids);
      ghost var commit := 2 + |scores| + |game.runs| + (if entries.Ok? then |entries.value| else 0);
      FailsWithinSplit(env.failAt, commit);
      if env.failAt == Some(0) || env.failAt == Some(1) {
        return Err(env.failure.message);
      }
      written := written.(games := written.games + [GameRowOf(game, res)]);
      var stmt;
      r, stmt := WriteBody(riders, game.runs, splits, res.ids, id, base, 2, env.failAt, env.failure);
      if r.Fail? {
        assert entries.Ok? ==> FailsWithin(env.failAt, 2, commit);
        written := snapshot;
        return r;
      }
      assert entries.Ok? && stmt == commit;
      if env.failAt == Some(stmt) {
        written := snapshot;
        return Err(env.failure.message);
      }
    }

    /** `insert_into_database`: resolve the references, then write the
        match in one transaction. A failure inside the transaction rolls
        the match tables back; rows of the reference tables stay. */
    method InsertIntoDatabase(game: LT.GameInfo, env: Env) returns (r: Result<()>)
      modifies this
      ensures teams == ResolveReferences(old(teams), old(players), old(places), game, env).teams
      ensures players == ResolveReferences(old(teams), old(players), old(places), game, env).players
      ensures places == ResolveReferences(old(teams), old(players), old(places), game, env).places
      ensures ResolveReferences(old(teams), old(players), old(places), game, env).result.Fail? ==>
        r == Fail(ResolveReferences(old(teams), old(players), old(places), game, env).result.failure) &&
        written == old(written)
      ensures ResolveReferences(old(teams), old(players), old(places), game, env).result.Ok? ==>
        var res := ResolveReferences(old(teams), old(players), old(places), game, env).result.value;
        var id := |old(written.games)|;
        var scores := ScoreRows(game.team1.players + game.team2.players, res.ids, id);
        var entries := RunScoreRows(SplitRuns(game.runs), |game.runs|, |old(written.runs)|, res.ids);
        && (r.Ok? <==> (entries.Ok? && !FailsWithin(env.failAt, 0, StatementCount(scores, game.runs, entries.value))))
        && (r.Ok? ==> written == Written(old(written.games) + [GameRowOf(game, res)],
                                         old(written.scores) + scores,
                                         old(written.runs) + RunRows(game.runs, |game.runs|, id),
                                         old(written.runScores) + entries.value))
        && (r.Fail? ==> written == old(written))
        && (r.IsPanic() ==> entries.Fail?)
        && (r.Fail? ==> r == Panics(UNWRAP_NONE) || r == Err(env.failure.message))
    {
      var res := ResolveGame(game, env);
      if res.Fail? {
        return Fail(res.failure);
      }
      ReferencesCoverRiders(old(teams), old(players), old(places), game, env);
      var riders := game.team1.players + game.team2.players;
      assert AllKeyed(riders, res.value.ids) by {
        forall i | 0 <= i < |riders|
          ensures Key(riders[i]) in res.value.ids
        {
          if i < |game.team1.players| {
            assert riders[i] == game.team1.players[i];
          } else {
            assert riders[i] == game.team2.players[i - |game.team1.players|];
          }
        }
      }
      r := Transaction(game, res.value, env);
    }
  }
}
