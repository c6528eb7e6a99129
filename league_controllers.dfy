/** The league membership transitions of controllers/league.controllers.js:
    `verifyLeagueAndPlayers` (the owner check and the split of the requested
    ids into existing and unknown players), `addPlayers` (inviting the ones not
    yet in the league), `removePlayer`, and the field checks of
    `createLeague`. */
module LeagueControllers {
  import opened Ids
  import opened Wrappers
  import opened Lists
  import opened Text
  import opened LeagueModel
  import opened PlayerModel

  // ---------------------------------------------------------------------
  // verifyLeagueAndPlayers

  datatype VerifyError =
    | BadRequest          // no leagueId, or players is not an array
    | CallerNotFound
    | LeagueNotFound
    | NotOwner

  /** The successful result: the league's position and the trimmed inputs,
      split into existing players and the rest. */
  datatype Verified = Verified(league: nat, verified: seq<string>, invalid: seq<string>)

  /** `Player.exists({ _id })` for the trimmed string. */
  function Known(players: seq<Player>): string -> bool {
    (s: string) => PlayerId(s) in PlayerIds(players)
  }

  function Trimmed(inputs: seq<string>): seq<string> {
    Map(inputs, Trim)
  }

  lemma TrimmedSnoc(ids: seq<string>, i: nat)
    requires i < |ids|
    ensures Trimmed(ids[..i + 1]) == Trimmed(ids[..i]) + [Trim(ids[i])]
  {
    assert ids[..i + 1] == ids[..i] + [ids[i]];
    MapAppend(ids[..i], [ids[i]], Trim);
  }

  /** The guards of `verifyLeagueAndPlayers`, in order, then a loop that files
      every trimmed input under verified or invalid. */
  method VerifyLeagueAndPlayers(leagues: seq<League>, players: seq<Player>, user: UserId,
                                leagueId: Option<LeagueId>, inputs: Option<seq<string>>)
    returns (r: Result<Verified, VerifyError>)
    ensures leagueId.None? || inputs.None? ==> r == Err(BadRequest)
    ensures r.Ok? <==>
      && leagueId.Some? && inputs.Some?
      && IndexOfUser(players, user).Some?
      && IndexOfLeague(leagues, leagueId.value).Some?
      && leagues[IndexOfLeague(leagues, leagueId.value).value].owner == players[IndexOfUser(players, user).value].id
    ensures r.Ok? ==>
      && r.value.league == IndexOfLeague(leagues, leagueId.value).value
      && r.value.verified == Filter(Trimmed(inputs.value), Known(players))
      && r.value.invalid == Filter(Trimmed(inputs.value), Not(Known(players)))
  {
    if leagueId.None? || inputs.None? {
      return Err(BadRequest);
    }
    var me := IndexOfUser(players, user);
    var league := IndexOfLeague(leagues, leagueId.value);
    if me.None? {
      return Err(CallerNotFound);
    }
    if league.None? {
      return Err(LeagueNotFound);
    }
    if leagues[league.value].owner != players[me.value].id {
      return Err(NotOwner);
    }
    var verified, invalid := SplitKnown(inputs.value, players);
    return Ok(Verified(league.value, verified, invalid));
  }

  /** The loop of `verifyLeagueAndPlayers`: every trimmed input is filed under
      verified when a player has that id and under invalid otherwise. */
  method SplitKnown(ids: seq<string>, players: seq<Player>) returns (verified: seq<string>, invalid: seq<string>)
    ensures verified == Filter(Trimmed(ids), Known(players))
    ensures invalid == Filter(Trimmed(ids), Not(Known(players)))
  {
    var known := Known(players);
    verified, invalid := [], [];
    for i := 0 to |ids|
      invariant verified == Filter(Trimmed(ids[..i]), known)
      invariant invalid == Filter(Trimmed(ids[..i]), Not(known))
    {
      var playerId := Trim(ids[i]);
      TrimmedSnoc(ids, i);
      FilterSnoc(Trimmed(ids[..i]), playerId, known);
      FilterSnoc(Trimmed(ids[..i]), playerId, Not(known));
      if PlayerId(playerId) in PlayerIds(players) {
        verified := verified + [playerId];
      } else {
        invalid := invalid + [playerId];
      }
    }
    assert ids[..|ids|] == ids;
  }

  /** Every trimmed input lands in exactly one of the two lists: together they
      are a rearrangement of the inputs, and no string is in both. */
  lemma VerifiedPartition(inputs: seq<string>, players: seq<Player>)
    ensures multiset(Filter(Trimmed(inputs), Known(players))) + multiset(Filter(Trimmed(inputs), Not(Known(players))))
         == multiset(Trimmed(inputs))
    ensures forall i :: 0 <= i < |Filter(Trimmed(inputs), Known(players))| ==>
      Filter(Trimmed(inputs), Known(players))[i] !in Filter(Trimmed(inputs), Not(Known(players)))
  {
    FilterPartition(Trimmed(inputs), Known(players));
  }

  // ---------------------------------------------------------------------
  // addPlayers

  /** `allPlayers.includes(player.toString())`. */
  function InLeague(l: League): string -> bool {
    (s: string) => PlayerId(s) in AllPlayers(l)
  }

  function ToPlayerId(s: string): PlayerId {
    PlayerId(s)
  }

  datatype AddOutcome =
    | Added(invited: seq<string>, alreadyInLeague: seq<string>, invalid: seq<string>)
    | AddRefused(error: VerifyError)   // 400
    | AddFailed                        // 500: the save was refused

  /** Appending new ids to the invited list of a well-formed league keeps it
      well-formed exactly when the new ids have no duplicate among themselves. */
  lemma {:induction false} InviteKeepsWellFormed(l: League, newIds: seq<PlayerId>)
    requires ListsWellFormed(l.members, l.invited, l.requesting)
    requires forall k :: 0 <= k < |newIds| ==> newIds[k] !in AllPlayers(l)
    ensures ListsWellFormed(l.members, l.invited + newIds, l.requesting) <==> NoDuplicates(newIds)
  {
    forall k | 0 <= k < |newIds| ensures newIds[k] !in l.members && newIds[k] !in l.invited && newIds[k] !in l.requesting {
      assert forall x :: x in l.members || x in l.invited || x in l.requesting ==> x in AllPlayers(l);
    }
    NoDuplicatesAppend(l.invited, newIds);
    DisjointSymmetric(l.invited, newIds);
    DisjointAppend(l.invited, newIds, l.requesting);
    DisjointSymmetric(l.members, l.invited + newIds);
    DisjointSymmetric(l.members, l.invited);
    DisjointSymmetric(l.members, newIds);
    DisjointAppend(l.invited, newIds, l.members);
  }

  lemma {:induction false} ToPlayerIdKeepsDistinct(s: seq<string>)
    ensures NoDuplicates(Map(s, ToPlayerId)) <==> NoDuplicates(s)
  {
    var m := Map(s, ToPlayerId);
    assert forall i :: 0 <= i < |s| ==> m[i] == PlayerId(s[i]);
  }

  /** `addPlayers`: the verified ids already in any of the three lists are
      reported; the others are appended to invited_players in input order and
      the league is saved, but only when there is at least one. */
  method AddPlayers(leagues: LeagueTable, players: seq<Player>, user: UserId,
                    leagueId: Option<LeagueId>, inputs: Option<seq<string>>)
    returns (r: AddOutcome)
    requires leagues.Valid()
    modifies leagues
    ensures leagues.Valid()
    ensures r.AddRefused? ==> leagues.rows == old(leagues.rows)
    ensures r.AddFailed? ==> leagues.rows == old(leagues.rows)
    ensures r.Added? ==>
      && leagueId.Some? && inputs.Some?
      && IndexOfLeague(old(leagues.rows), leagueId.value).Some?
      && var i := IndexOfLeague(old(leagues.rows), leagueId.value).value;
         var l := old(leagues.rows)[i];
         var verified := Filter(Trimmed(inputs.value), Known(players));
         && r.alreadyInLeague == Filter(verified, InLeague(l))
         && r.invited == Filter(verified, Not(InLeague(l)))
         && r.invalid == Filter(Trimmed(inputs.value), Not(Known(players)))
         && leagues.rows == old(leagues.rows)[i := l.(invited := l.invited + Map(r.invited, ToPlayerId))]
    ensures r.AddFailed? ==>
      && leagueId.Some? && inputs.Some?
      && IndexOfLeague(old(leagues.rows), leagueId.value).Some?
      && var l := old(leagues.rows)[IndexOfLeague(old(leagues.rows), leagueId.value).value];
         !NoDuplicates(Filter(Filter(Trimmed(inputs.value), Known(players)), Not(InLeague(l))))
  {
    var checked := VerifyLeagueAndPlayers(leagues.rows, players, user, leagueId, inputs);
    if checked.Err? {
      return AddRefused(checked.error);
    }
    var i := checked.value.league;
    var league := leagues.rows[i];
    var inLeague := InLeague(league);
    var already := Filter(checked.value.verified, inLeague);
    var invited := Filter(checked.value.verified, Not(inLeague));
    var refused := Invite(leagues, i, invited);
    if refused {
      return AddFailed;
    }
    return Added(invited, already, checked.value.invalid);
  }

  /** The save of `addPlayers`: the ids not yet in league i are appended to
      its invited list, which is refused exactly when they repeat an id; with
      none to invite nothing is saved. */
  method Invite(leagues: LeagueTable, i: nat, invited: seq<string>) returns (refused: bool)
    requires leagues.Valid() && i < |leagues.rows|
    requires forall k :: 0 <= k < |invited| ==> PlayerId(invited[k]) !in AllPlayers(leagues.rows[i])
    modifies leagues
    ensures leagues.Valid()
    ensures refused <==> !NoDuplicates(invited)
    ensures refused ==> leagues.rows == old(leagues.rows)
    ensures !refused ==>
      var l := old(leagues.rows)[i];
      leagues.rows == old(leagues.rows)[i := l.(invited := l.invited + Map(invited, ToPlayerId))]
  {
    var league := leagues.rows[i];
    if |invited| > 0 {
      var newIds := Map(invited, ToPlayerId);
      var l' := league.(invited := league.invited + newIds);
      ValidateListsMeaning(league.members, league.invited, league.requesting);
      ValidateListsMeaning(l'.members, l'.invited, l'.requesting);
      InviteKeepsWellFormed(league, newIds);
      ToPlayerIdKeepsDistinct(invited);
      var saved := leagues.Save(i, l');
      refused := saved.Some?;
    } else {
      assert league.invited + Map(invited, ToPlayerId) == league.invited;
      assert leagues.rows[i := league] == leagues.rows;
      refused := false;
    }
  }

  /** The two parts `addPlayers` reports are disjoint and together are the
      verified ids. */
  lemma AddPartition(verified: seq<string>, l: League)
    ensures multiset(Filter(verified, InLeague(l))) + multiset(Filter(verified, Not(InLeague(l)))) == multiset(verified)
    ensures forall k :: 0 <= k < |Filter(verified, Not(InLeague(l)))| ==>
      PlayerId(Filter(verified, Not(InLeague(l)))[k]) !in AllPlayers(l)
  {
    FilterPartition(verified, InLeague(l));
  }

  // ---------------------------------------------------------------------
  // removePlayer

  datatype RemoveOutcome =
    | Removed
    | RemoveMissingFields   // 400
    | RemoveLeagueNotFound  // 404
    | RemovePlayerNotFound  // 404
    | NotInLeague           // 404
    | RemoveServerError     // 500: a missing caller player, or a caller who is not the owner

  /** The league after `pull` on the first of members, invited, requesting that
      holds the id. */
  function RemoveFromLeague(l: League, id: PlayerId): League {
    if id in l.members then l.(members := RemoveAll(l.members, id))
    else if id in l.invited then l.(invited := RemoveAll(l.invited, id))
    else l.(requesting := RemoveAll(l.requesting, id))
  }

  lemma DisjointOfSubsequences(a: seq<PlayerId>, b: seq<PlayerId>, a': seq<PlayerId>, b': seq<PlayerId>)
    requires Disjoint(a, b)
    requires forall k :: 0 <= k < |a'| ==> a'[k] in a
    requires forall k :: 0 <= k < |b'| ==> b'[k] in b
    ensures Disjoint(a', b')
  {
    forall k | 0 <= k < |a'| ensures a'[k] !in b' {
      var j :| 0 <= j < |a| && a[j] == a'[k];
      assert a[j] !in b;
    }
  }

  /** Removal keeps a well-formed league well-formed; the id is gone from the
      list it was taken from and the other two lists are untouched. */
  lemma RemoveFromLeagueMeaning(l: League, id: PlayerId)
    requires ListsWellFormed(l.members, l.invited, l.requesting)
    ensures var l' := RemoveFromLeague(l, id);
      && ListsWellFormed(l'.members, l'.invited, l'.requesting)
      && l'.id == l.id && l'.name == l.name && l'.joinCode == l.joinCode && l'.owner == l.owner
      && id !in l'.members
      && (id in l.members ==> l'.invited == l.invited && l'.requesting == l.requesting)
      && (id !in l.members && id in l.invited ==> id !in l'.invited && l'.members == l.members && l'.requesting == l.requesting)
      && (id !in l.members && id !in l.invited ==> id !in l'.requesting && l'.members == l.members && l'.invited == l.invited)
  {
    var l' := RemoveFromLeague(l, id);
    RemoveAllKeepsDistinct(l.members, id);
    RemoveAllKeepsDistinct(l.invited, id);
    RemoveAllKeepsDistinct(l.requesting, id);
    DisjointOfSubsequences(l.members, l.invited, l'.members, l'.invited);
    DisjointOfSubsequences(l.members, l.requesting, l'.members, l'.requesting);
    DisjointOfSubsequences(l.invited, l.requesting, l'.invited, l'.requesting);
  }

  /** `removePlayer`: the guards in order (fields, league, player, caller,
      owner, membership), then removal from exactly one list. */
  method RemovePlayer(leagues: LeagueTable, players: seq<Player>, user: UserId,
                      leagueId: Option<LeagueId>, playerId: Option<string>)
    returns (r: RemoveOutcome)
    requires leagues.Valid()
    modifies leagues
    ensures leagues.Valid()
    ensures leagueId.None? || playerId.None? || playerId.value == "" ==> r == RemoveMissingFields
    ensures r == Removed <==>
      && leagueId.Some? && playerId.Some? && playerId.value != ""
      && IndexOfLeague(old(leagues.rows), leagueId.value).Some?
      && IndexOfPlayer(players, PlayerId(playerId.value)).Some?
      && IndexOfUser(players, user).Some?
      && var l := old(leagues.rows)[IndexOfLeague(old(leagues.rows), leagueId.value).value];
         l.owner == players[IndexOfUser(players, user).value].id
         && PlayerId(playerId.value) in AllPlayers(l)
    ensures leagueId.Some? && playerId.Some? && playerId.value != "" ==>
      var league := IndexOfLeague(old(leagues.rows), leagueId.value);
      var player := IndexOfPlayer(players, PlayerId(playerId.value));
      var me := IndexOfUser(players, user);
      && (league.None? ==> r == RemoveLeagueNotFound)
      && (league.Some? && player.None? ==> r == RemovePlayerNotFound)
      && (league.Some? && player.Some? && me.None? ==> r == RemoveServerError)
      && (league.Some? && player.Some? && me.Some? ==>
            var l := old(leagues.rows)[league.value];
            && (l.owner != players[me.value].id ==> r == RemoveServerError)
            && (l.owner == players[me.value].id && PlayerId(playerId.value) !in AllPlayers(l) ==> r == NotInLeague))
    ensures r == Removed ==>
      var i := IndexOfLeague(old(leagues.rows), leagueId.value).value;
      leagues.rows == old(leagues.rows)[i := RemoveFromLeague(old(leagues.rows)[i], PlayerId(playerId.value))]
    ensures r != Removed ==> leagues.rows == old(leagues.rows)
  {
    if leagueId.None? || playerId.None? || playerId.value == "" {
      return RemoveMissingFields;
    }
    var me := IndexOfUser(players, user);
    var league := IndexOfLeague(leagues.rows, leagueId.value);
    var id := PlayerId(playerId.value);
    var player := IndexOfPlayer(players, id);
    if league.None? {
      return RemoveLeagueNotFound;
    }
    if player.None? {
      return RemovePlayerNotFound;
    }
    if me.None? {
      // `userPlayer._id` on a missing player throws
      return RemoveServerError;
    }
    var l := leagues.rows[league.value];
    if l.owner != players[me.value].id {
      // the message interpolates `leagueId`, which is unbound here: the
      // ReferenceError reaches the catch and its 500
      return RemoveServerError;
    }
    if id !in l.members && id !in l.invited && id !in l.requesting {
      assert id !in AllPlayers(l);
      return NotInLeague;
    }
    ValidateListsMeaning(l.members, l.invited, l.requesting);
    RemoveFromLeagueMeaning(l, id);
    var l' := RemoveFromLeague(l, id);
    ValidateListsMeaning(l'.members, l'.invited, l'.requesting);
    var saved := leagues.Save(league.value, l');
    assert saved.None?;
    return Removed;
  }

  // ---------------------------------------------------------------------
  // createLeague

  datatype CreateOutcome =
    | Created(league: League)
    | CreatePlayerNotFound   // 404; the later `userPlayer._id` throws, so nothing is saved
    | CreateMissingFields    // 400: no name or no mode
    | CreateMissingTeam      // 400: team mode without a team
    | CreateNameTaken        // 400
    | CreateRejected         // the save throws: a bad mode or a duplicate in invited_players

  /** A request field that JavaScript treats as false when absent or empty. */
  predicate Present(field: Option<string>) {
    field.Some? && field.value != ""
  }

  /** `createLeague` for a caller, the body's name, mode, team and
      invited_players, a fresh id and the draws behind the generated join
      code. */
  method CreateLeague(leagues: LeagueTable, players: seq<Player>, user: UserId,
                      name: Option<string>, mode: Option<string>, team: Option<TeamId>,
                      invited: Option<seq<PlayerId>>, id: LeagueId, draws: seq<real>)
    returns (r: CreateOutcome)
    requires leagues.Valid()
    requires forall i :: 0 <= i < |leagues.rows| ==> leagues.rows[i].id != id
    requires AreDraws(draws) && FirstFreeCode(leagues.rows, draws).Some?
    modifies leagues
    ensures leagues.Valid()
    ensures IndexOfUser(players, user).None? ==> r == CreatePlayerNotFound
    ensures IndexOfUser(players, user).Some? && !(Present(name) && Present(mode)) ==> r == CreateMissingFields
    ensures IndexOfUser(players, user).Some? && Present(name) && mode == Some("team") && team.None? ==> r == CreateMissingTeam
    ensures r.Created? <==>
      && IndexOfUser(players, user).Some?
      && Present(name) && Present(mode)
      && !(mode.value == "team" && team.None?)
      && !NameTaken(old(leagues.rows), name.value)
      && NoDuplicates(invited.GetOr([]))
      && ParseMode(mode.value).Some?
    ensures r.Created? ==>
      && r.league.id == id
      && r.league.name == name.value
      && r.league.owner == players[IndexOfUser(players, user).value].id
      && ModeName(r.league.mode) == mode.value
      && r.league.team == team
      && r.league.members == [] && r.league.requesting == []
      && r.league.invited == invited.GetOr([])
      && r.league.joinCode == GenerateJoinCode(draws[FirstFreeCode(old(leagues.rows), draws).value])
      && !JoinCodeTaken(old(leagues.rows), r.league.joinCode)
      && leagues.rows == old(leagues.rows) + [r.league]
    ensures !r.Created? ==> leagues.rows == old(leagues.rows)
  {
    var me := IndexOfUser(players, user);
    if me.None? {
      return CreatePlayerNotFound;
    }
    if name.None? || name.value == "" || mode.None? || mode.value == "" {
      return CreateMissingFields;
    }
    if mode.value == "team" && team.None? {
      return CreateMissingTeam;
    }
    if NameTaken(leagues.rows, name.value) {
      return CreateNameTaken;
    }
    var invitedPlayers := invited.GetOr([]);
    var lists := ValidateLists([], invitedPlayers, []);
    ValidateListsMeaning([], invitedPlayers, []);
    var parsed := ParseMode(mode.value);
    if lists.Some? || parsed.None? {
      return CreateRejected;
    }
    var code := FreshJoinCode(leagues.rows, draws);
    var league := League(id, name.value, players[me.value].id, code,
                         parsed.value, team, [], [], invitedPlayers, []);
    assert ValidateLeague(league) == lists;
    var saved := leagues.Insert(league);
    assert saved.None?;
    return Created(league);
  }
}
