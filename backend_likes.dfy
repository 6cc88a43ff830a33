/** The like toggle of the backend (`utils/mod.rs`): an authenticated user
    likes a team or a player they do not like yet, and unlikes one they
    do.

    The two like tables are sets of (user, id) pairs; whether each query
    fails is an input. */
module BackendLikes {
  import opened Wrappers
  import HttpStatus
  import BackendSession

  /** A row of a like table: who likes which team or player. */
  type Like = (string, int)

  /** A set with `like` flipped: removed if present, added if not. */
  function Toggle(likes: set<Like>, like: Like): (r: set<Like>)
    ensures like in r <==> like !in likes
    ensures forall other :: other != like ==> (other in r <==> other in likes)
  {
    if like in likes then likes - {like} else likes + {like}
  }

  /** Toggling twice gives back the original set. */
  lemma ToggleTwice(likes: set<Like>, like: Like)
    ensures Toggle(Toggle(likes, like), like) == likes
  {
  }

  /** Toggles of different likes do not interfere. */
  lemma ToggleCommutes(likes: set<Like>, a: Like, b: Like)
    ensures Toggle(Toggle(likes, a), b) == Toggle(Toggle(likes, b), a)
  {
  }

  /** Which database calls fail: the check and the insert or delete, for
      the team and for the player. */
  datatype Faults = Faults(teamCheck: bool, teamWrite: bool, playerCheck: bool, playerWrite: bool)

  /** `LikeResponse`: for each id given, whether it is now liked. */
  datatype LikeResponse = LikeResponse(teamLike: Option<bool>, playerLike: Option<bool>)

  datatype Response = Response(status: nat, body: Option<LikeResponse>)

  class LikeTables {
    var teamLikes: set<Like>
    var playerLikes: set<Like>

    constructor (teamLikes: set<Like>, playerLikes: set<Like>)
      ensures this.teamLikes == teamLikes && this.playerLikes == playerLikes
    {
      this.teamLikes := teamLikes;
      this.playerLikes := playerLikes;
    }

    /** `like`: 401 for a caller not logged in. Otherwise the team, if
        given, is toggled (check, then insert or delete), then the player,
        if given; the answer says for each whether it is now liked. A
        failing call is 500 and stops there: a team toggled before a
        player call fails stays toggled. */
    method ToggleLikes(auth: BackendSession.AuthStatus, teamId: Option<int>, playerId: Option<int>, faults: Faults)
      returns (r: Response)
      modifies this
      ensures auth.NonAuthenticated? ==>
        r == Response(HttpStatus.UNAUTHORIZED, Option.None) && teamLikes == old(teamLikes) && playerLikes == old(playerLikes)
      ensures auth.Authenticated? ==>
        var teamOk := teamId.None? || (!faults.teamCheck && !faults.teamWrite);
        var playerOk := playerId.None? || (!faults.playerCheck && !faults.playerWrite);
        && teamLikes == (if teamId.Some? && teamOk then Toggle(old(teamLikes), (auth.user, teamId.value)) else old(teamLikes))
        && playerLikes == (if playerId.Some? && teamOk && playerOk
                           then Toggle(old(playerLikes), (auth.user, playerId.value)) else old(playerLikes))
        && (r.status == HttpStatus.OK <==> teamOk && playerOk)
        && (r.status != HttpStatus.OK ==> r == Response(HttpStatus.INTERNAL_SERVER_ERROR, Option.None))
        && (r.status == HttpStatus.OK ==> r.body == Some(LikeResponse(
              if teamId.Some? then Some((auth.user, teamId.value) in teamLikes) else Option.None,
              if playerId.Some? then Some((auth.user, playerId.value) in playerLikes) else Option.None)))
    {
      if auth.NonAuthenticated? {
        return Response(HttpStatus.UNAUTHORIZED, Option.None);
      }
      var username := auth.user;
      var response := LikeResponse(Option.None, Option.None);
      if teamId.Some? {
        if faults.teamCheck {
          return Response(HttpStatus.INTERNAL_SERVER_ERROR, Option.None);
        }
        var liked := (username, teamId.value) in teamLikes;
        if faults.teamWrite {
          return Response(HttpStatus.INTERNAL_SERVER_ERROR, Option.None);
        }
        if !liked {
          teamLikes := teamLikes + {(username, teamId.value)};
          response := response.(teamLike := Some(true));
        } else {
          teamLikes := teamLikes - {(username, teamId.value)};
          response := response.(teamLike := Some(false));
        }
      }
      if playerId.Some? {
        if faults.playerCheck {
          return Response(HttpStatus.INTERNAL_SERVER_ERROR, Option.None);
        }
        var liked := (username, playerId.value) in playerLikes;
        if faults.playerWrite {
          return Response(HttpStatus.INTERNAL_SERVER_ERROR, Option.None);
        }
        if !liked {
          playerLikes := playerLikes + {(username, playerId.value)};
          response := response.(playerLike := Some(true));
        } else {
          playerLikes := playerLikes - {(username, playerId.value)};
          response := response.(playerLike := Some(false));
        }
      }
      return Response(HttpStatus.OK, Some(response));
    }
  }
}
