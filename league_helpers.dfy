/** `getLeaderboard` of helpers/league.helpers.js: one entry per league member
    with the sum of that member's Complete prediction scores and whether the
    member is a friend of the caller, sorted by total (highest first, ties in
    member order) and numbered from 1. */
module LeagueHelpers {
  import opened Ids
  import opened Wrappers
  import opened Lists
  import StableSort
  import opened PredictionModel
  import opened LeagueMembership
  import opened LeagueModel
  import opened PlayerModel

  /** A member's row before ranking. */
  datatype Entry = Entry(player: PlayerId, mutualFriend: bool, totalScore: int)

  /** A row of the result. */
  datatype Standing = Standing(player: PlayerId, mutualFriend: bool, totalScore: int, ranking: nat)

  function CompleteOf(member: PlayerId): Prediction -> bool {
    (p: Prediction) => p.player == member && p.status == Complete
  }

  /** `Prediction.find({ player, status: 'Complete' })` summed (`score || 0`
      is the score itself, which always holds a number). */
  function CompleteTotal(preds: seq<Prediction>, member: PlayerId): int {
    SumScores(Filter(preds, CompleteOf(member)))
  }

  function MakeEntry(friends: seq<PlayerId>, preds: seq<Prediction>): PlayerId -> Entry {
    (m: PlayerId) => Entry(m, m in friends, CompleteTotal(preds, m))
  }

  /** The comparator `b.totalScore - a.totalScore` as an ascending key. */
  function TotalDescending(e: Entry): int {
    -e.totalScore
  }

  function Entries(members: seq<PlayerId>, friends: seq<PlayerId>, preds: seq<Prediction>): seq<Entry> {
    Map(members, MakeEntry(friends, preds))
  }

  function SortedEntries(members: seq<PlayerId>, friends: seq<PlayerId>, preds: seq<Prediction>): seq<Entry> {
    StableSort.SortBy(Entries(members, friends, preds), TotalDescending)
  }

  /** `map((current, i) => ({ ...current, ranking: i + 1 }))`. */
  function Ranked(s: seq<Entry>): (r: seq<Standing>)
    ensures |r| == |s|
    ensures forall i :: 0 <= i < |s| ==>
      r[i] == Standing(s[i].player, s[i].mutualFriend, s[i].totalScore, i + 1)
  {
    seq(|s|, i requires 0 <= i < |s| => Standing(s[i].player, s[i].mutualFriend, s[i].totalScore, i + 1))
  }

  /** The leaderboard of a league with these members, seen by a player with
      these friends. */
  function Leaderboard(members: seq<PlayerId>, friends: seq<PlayerId>, preds: seq<Prediction>): seq<Standing> {
    Ranked(SortedEntries(members, friends, preds))
  }

  function PlayerOf(s: Standing): PlayerId {
    s.player
  }

  /** Ranks run 1..N, one row per member, and every row holds its member's own
      total and friendship flag. */
  lemma LeaderboardRows(members: seq<PlayerId>, friends: seq<PlayerId>, preds: seq<Prediction>)
    ensures var board := Leaderboard(members, friends, preds);
      && |board| == |members|
      && (forall i :: 0 <= i < |board| ==> board[i].ranking == i + 1)
      && (forall i :: 0 <= i < |board| ==> board[i].player in members)
      && (forall i :: 0 <= i < |board| ==> board[i].totalScore == CompleteTotal(preds, board[i].player))
      && (forall i :: 0 <= i < |board| ==> (board[i].mutualFriend <==> board[i].player in friends))
  {
    var entries := Entries(members, friends, preds);
    var sorted := SortedEntries(members, friends, preds);
    forall i | 0 <= i < |sorted|
      ensures sorted[i].player in members
      ensures sorted[i].totalScore == CompleteTotal(preds, sorted[i].player)
      ensures sorted[i].mutualFriend <==> sorted[i].player in friends
    {
      assert sorted[i] in multiset(entries);
      var k :| 0 <= k < |entries| && entries[k] == sorted[i];
      assert entries[k] == MakeEntry(friends, preds)(members[k]);
    }
  }

  /** Totals never increase down the board. */
  lemma LeaderboardOrdered(members: seq<PlayerId>, friends: seq<PlayerId>, preds: seq<Prediction>)
    ensures var board := Leaderboard(members, friends, preds);
      forall i, j :: 0 <= i < j < |board| ==> board[i].totalScore >= board[j].totalScore
  {
    var sorted := SortedEntries(members, friends, preds);
    assert StableSort.SortedBy(sorted, TotalDescending);
    assert forall i, j :: 0 <= i < j < |sorted| ==> TotalDescending(sorted[i]) <= TotalDescending(sorted[j]);
  }

  /** The board lists the members, each as often as in the league. */
  lemma LeaderboardIsPermutation(members: seq<PlayerId>, friends: seq<PlayerId>, preds: seq<Prediction>)
    ensures multiset(Map(Leaderboard(members, friends, preds), PlayerOf)) == multiset(members)
  {
    var entries := Entries(members, friends, preds);
    var sorted := SortedEntries(members, friends, preds);
    var entryPlayer := (e: Entry) => e.player;
    MapPreservesMultiset(sorted, entries, entryPlayer);
    assert Map(Leaderboard(members, friends, preds), PlayerOf) == Map(sorted, entryPlayer);
    assert Map(entries, entryPlayer) == members;
  }

  /** Members with equal totals keep their order in the league. */
  lemma LeaderboardStable(members: seq<PlayerId>, friends: seq<PlayerId>, preds: seq<Prediction>, total: int)
    ensures StableSort.WithKey(SortedEntries(members, friends, preds), TotalDescending, -total)
         == StableSort.WithKey(Entries(members, friends, preds), TotalDescending, -total)
  {
    var entries := Entries(members, friends, preds);
    var sorted := SortedEntries(members, friends, preds);
    assert sorted == StableSort.SortBy(entries, TotalDescending);
    StableSort.SortByIsStable(entries, TotalDescending, -total);
  }

  datatype LeaderboardError = ServerError

  /** `getLeaderboard(leagueId, userId)`.  A missing league fails at once; a
      missing caller player (or user record, whose username is copied) fails
      at the first member, so an empty league still gets an empty board. */
  method GetLeaderboard(leagues: seq<League>, players: seq<Player>, preds: seq<Prediction>,
                        leagueId: LeagueId, user: UserId, userFound: bool)
    returns (r: Result<seq<Standing>, LeaderboardError>)
    ensures r.Ok? <==>
      IndexOfLeague(leagues, leagueId).Some?
      && (leagues[IndexOfLeague(leagues, leagueId).value].members == []
          || (userFound && IndexOfUser(players, user).Some?))
    ensures r.Ok? && IndexOfUser(players, user).Some? ==>
      r.value == Leaderboard(leagues[IndexOfLeague(leagues, leagueId).value].members,
                             players[IndexOfUser(players, user).value].friends, preds)
    ensures r.Ok? && IndexOfUser(players, user).None? ==> r.value == []
  {
    var viewer := IndexOfUser(players, user);
    var league := IndexOfLeague(leagues, leagueId);
    if league.None? {
      return Err(ServerError);
    }
    var members := leagues[league.value].members;
    var friends := if viewer.Some? then players[viewer.value].friends else [];
    var entries: seq<Entry> := [];
    for i := 0 to |members|
      invariant entries == Map(members[..i], MakeEntry(friends, preds))
      invariant i > 0 ==> userFound && viewer.Some?
    {
      if !userFound || viewer.None? {
        return Err(ServerError);
      }
      var playerId := members[i];
      var totalScore := CompleteTotal(preds, playerId);
      entries := entries + [Entry(playerId, playerId in friends, totalScore)];
      assert members[..i + 1] == members[..i] + [playerId];
      MapAppend(members[..i], [playerId], MakeEntry(friends, preds));
    }
    assert members[..|members|] == members;
    var sorted := StableSort.SortBy(entries, TotalDescending);
    r := Ok(Ranked(sorted));
  }
}
