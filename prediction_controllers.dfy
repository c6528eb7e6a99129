/** controllers/prediction.controllers.js: `submitPrediction` (Pending to
    Submitted behind its guards) and `getPredictions` (the caller's upcoming
    games with a prediction each, created when absent, grouped by day). */
module PredictionControllers {
  import opened Ids
  import opened Wrappers
  import opened Lists
  import StableSort
  import opened GameModel
  import opened PredictionModel
  import opened LeagueModel
  import opened PlayerModel

  // ---------------------------------------------------------------------
  // submitPrediction

  datatype SubmitOutcome =
    | SubmitDone
    | SubmitMissingId       // 400
    | SubmitMissingScores   // 400
    | SubmitServerError     // 500: a lookup came back empty and was dereferenced
    | NotYourPrediction     // 403
    | AlreadySubmitted      // 400
    | Expired               // 400, `expired: true`

  /** `!x` on a number is false only for a present, non-zero value. */
  predicate Given(x: Option<int>) {
    x.Some? && x.value != 0
  }

  /** The stored prediction after a submission. */
  function WithGuess(p: Prediction, away: int, home: int): (q: Prediction)
    ensures q.id == p.id && q.player == p.player && q.game == p.game && q.score == p.score
    ensures q.guess == Some(Guess(away, home)) && q.status == Submitted
    ensures GuessMatchesStatus(q)
  {
    p.(guess := Some(Guess(away, home)), status := Submitted)
  }

  /** `submitPrediction`.  The lookups of the caller, the prediction and its
      game happen together; a missing prediction fails at `prediction.game`, a
      missing caller at the ownership test and a missing game at the date
      test, each after the checks before it. */
  method SubmitPrediction(preds: PredictionTable, players: seq<Player>, games: seq<Game>, user: UserId,
                          predictionId: Option<PredictionId>, away: Option<int>, home: Option<int>, now: int)
    returns (r: SubmitOutcome)
    requires preds.Valid()
    modifies preds
    ensures preds.Valid()
    ensures r != SubmitDone ==> preds.rows == old(preds.rows)
    ensures predictionId.None? ==> r == SubmitMissingId
    ensures predictionId.Some? && !(Given(away) && Given(home)) ==> r == SubmitMissingScores
    ensures predictionId.Some? && Given(away) && Given(home) ==>
      var p := IndexOfPrediction(old(preds.rows), predictionId.value);
      var me := IndexOfUser(players, user);
      && (r == SubmitServerError <==>
            p.None? || me.None?
            || (&& old(preds.rows)[p.value].player == players[me.value].id
                && old(preds.rows)[p.value].status == Status.Pending
                && IndexOfGame(games, old(preds.rows)[p.value].game).None?))
      && (r == NotYourPrediction <==>
            p.Some? && me.Some? && old(preds.rows)[p.value].player != players[me.value].id)
      && (r == AlreadySubmitted <==>
            && p.Some? && me.Some? && old(preds.rows)[p.value].player == players[me.value].id
            && old(preds.rows)[p.value].status != Status.Pending)
      && (r == Expired <==>
            && p.Some? && me.Some? && old(preds.rows)[p.value].player == players[me.value].id
            && old(preds.rows)[p.value].status == Status.Pending
            && IndexOfGame(games, old(preds.rows)[p.value].game).Some?
            && games[IndexOfGame(games, old(preds.rows)[p.value].game).value].date < now)
    ensures r == SubmitDone ==>
      && predictionId.Some? && Given(away) && Given(home)
      && IndexOfPrediction(old(preds.rows), predictionId.value).Some?
      && var i := IndexOfPrediction(old(preds.rows), predictionId.value).value;
         && old(preds.rows)[i].status == Status.Pending
         && IndexOfGame(games, old(preds.rows)[i].game).Some?
         && now <= games[IndexOfGame(games, old(preds.rows)[i].game).value].date
         && preds.rows == old(preds.rows)[i := WithGuess(old(preds.rows)[i], away.value, home.value)]
  {
    if predictionId.None? {
      return SubmitMissingId;
    }
    if !Given(away) || !Given(home) {
      return SubmitMissingScores;
    }
    var me := IndexOfUser(players, user);
    var found := IndexOfPrediction(preds.rows, predictionId.value);
    if found.None? {
      return SubmitServerError;
    }
    var prediction := preds.rows[found.value];
    var game := IndexOfGame(games, prediction.game);
    if me.None? {
      return SubmitServerError;
    }
    if prediction.player != players[me.value].id {
      return NotYourPrediction;
    }
    if prediction.status != Status.Pending {
      return AlreadySubmitted;
    }
    if game.None? {
      return SubmitServerError;
    }
    if games[game.value].date < now {
      return Expired;
    }
    var updated := WithGuess(prediction, away.value, home.value);
    preds.rows := preds.rows[found.value := updated];
    r := SubmitDone;
  }

  // ---------------------------------------------------------------------
  // getPredictions: which games, and which leagues each is listed under

  /** A row of the answer before grouping. */
  datatype PredictionView = PredictionView(
    id: PredictionId,
    date: int,
    status: Status,
    awayTeam: TeamId,
    homeTeam: TeamId,
    guess: Option<Guess>,
    leagues: seq<string>)

  /** `League.find({ member_players: { $in: [player._id] } })`. */
  function MemberOf(player: PlayerId): League -> bool {
    (l: League) => player in l.members
  }

  predicate AnyClassic(ls: seq<League>) {
    exists k :: 0 <= k < |ls| && ls[k].mode == Classic
  }

  /** The teams of the caller's leagues (a league without a team adds none). */
  function TeamIds(ls: seq<League>): set<TeamId> {
    set k | 0 <= k < |ls| && ls[k].team.Some? :: ls[k].team.value
  }

  /** The query of lines 19-25: within [now, windowEnd), and, unless one of
      the caller's leagues is classic, involving one of their teams. */
  function Selected(now: int, windowEnd: int, classic: bool, teams: set<TeamId>): Game -> bool {
    (g: Game) => now <= g.date < windowEnd && (classic || g.awayTeam in teams || g.homeTeam in teams)
  }

  function ByDate(g: Game): int {
    g.date
  }

  /** The fetched games in ascending date order. */
  function Listed(games: seq<Game>, ls: seq<League>, now: int, windowEnd: int): seq<Game> {
    StableSort.SortBy(Filter(games, Selected(now, windowEnd, AnyClassic(ls), TeamIds(ls))), ByDate)
  }

  /** `now < game.date`. */
  function After(now: int): Game -> bool {
    (g: Game) => now < g.date
  }

  /** The games that get a row. */
  function Shown(games: seq<Game>, ls: seq<League>, now: int, windowEnd: int): seq<Game> {
    Filter(Listed(games, ls, now, windowEnd), After(now))
  }

  /** The test of line 32 for a league it does not throw on. */
  function Included(g: Game): League -> bool {
    (l: League) => l.mode == Classic || (l.team.Some? && (l.team.value == g.awayTeam || l.team.value == g.homeTeam))
  }

  /** A team-mode league with no team: `league.team.toString()` at line 32
      throws on it. */
  predicate HasTeamlessTeamLeague(ls: seq<League>) {
    exists k :: 0 <= k < |ls| && ls[k].mode == Team && ls[k].team.None?
  }

  function LeagueName(l: League): string {
    l.name
  }

  /** The row built from a prediction for a game. */
  function View(p: Prediction, g: Game, ls: seq<League>): PredictionView {
    PredictionView(p.id, g.date, p.status, g.awayTeam, g.homeTeam, p.guess, Map(Filter(ls, Included(g)), LeagueName))
  }

  /** `name` is the name of one of `ls` that is classic or follows one of the
      game's two teams. */
  predicate NamesLeagueFor(ls: seq<League>, g: Game, name: string) {
    exists j :: 0 <= j < |ls| && ls[j].name == name
                && (ls[j].mode == Classic || ls[j].team == Some(g.awayTeam) || ls[j].team == Some(g.homeTeam))
  }

  /** A game's row lists exactly the caller's leagues that are classic or
      follow one of the game's two teams, in their order. */
  lemma ListedLeagues(p: Prediction, g: Game, ls: seq<League>, l: League)
    requires l in ls
    ensures (l.mode == Classic || l.team == Some(g.awayTeam) || l.team == Some(g.homeTeam)) ==>
      l.name in View(p, g, ls).leagues
    ensures forall k :: 0 <= k < |View(p, g, ls).leagues| ==> NamesLeagueFor(ls, g, View(p, g, ls).leagues[k])
  {
    if l.mode == Classic || l.team == Some(g.awayTeam) || l.team == Some(g.homeTeam) {
      IncludedIsListed(p, g, ls, l);
    }
    ListedIsIncluded(p, g, ls);
  }

  lemma IncludedIsListed(p: Prediction, g: Game, ls: seq<League>, l: League)
    requires l in ls && (l.mode == Classic || l.team == Some(g.awayTeam) || l.team == Some(g.homeTeam))
    ensures l.name in View(p, g, ls).leagues
  {
    var included := Filter(ls, Included(g));
    var j :| 0 <= j < |included| && included[j] == l;
    assert View(p, g, ls).leagues[j] == l.name;
  }

  lemma ListedIsIncluded(p: Prediction, g: Game, ls: seq<League>)
    ensures forall k :: 0 <= k < |View(p, g, ls).leagues| ==> NamesLeagueFor(ls, g, View(p, g, ls).leagues[k])
  {
    var included := Filter(ls, Included(g));
    forall k | 0 <= k < |View(p, g, ls).leagues|
      ensures NamesLeagueFor(ls, g, View(p, g, ls).leagues[k])
    {
      assert included[k] in ls;
      var j :| 0 <= j < |ls| && ls[j] == included[k];
      assert View(p, g, ls).leagues[k] == ls[j].name;
    }
  }

  /** Every shown game is stored, starts strictly after now and before the
      window's end, and the shown games come in date order. */
  lemma ShownGamesAreUpcoming(games: seq<Game>, ls: seq<League>, now: int, windowEnd: int)
    ensures forall k :: 0 <= k < |Shown(games, ls, now, windowEnd)| ==>
      && now < Shown(games, ls, now, windowEnd)[k].date < windowEnd
      && Shown(games, ls, now, windowEnd)[k] in games
    ensures forall k, k' :: 0 <= k < k' < |Shown(games, ls, now, windowEnd)| ==>
      Shown(games, ls, now, windowEnd)[k].date <= Shown(games, ls, now, windowEnd)[k'].date
  {
    var fetched := Filter(games, Selected(now, windowEnd, AnyClassic(ls), TeamIds(ls)));
    var listed := Listed(games, ls, now, windowEnd);
    var shown := Shown(games, ls, now, windowEnd);
    forall k | 0 <= k < |shown|
      ensures now < shown[k].date < windowEnd && shown[k] in games
    {
      assert shown[k] in listed;
      assert shown[k] in multiset(listed);
      assert shown[k] in fetched;
    }
    FilterKeepsSorted(listed, After(now));
  }

  /** A subsequence of a date-sorted sequence is date-sorted. */
  lemma FilterKeepsSorted(s: seq<Game>, f: Game -> bool)
    requires StableSort.SortedBy(s, ByDate)
    ensures forall k, k' :: 0 <= k < k' < |Filter(s, f)| ==> Filter(s, f)[k].date <= Filter(s, f)[k'].date
  {
    var earlier := (a: Game, b: Game) => a.date <= b.date;
    assert forall i, j :: 0 <= i < j < |s| ==> earlier(s[i], s[j]) by {
      assert forall i, j :: 0 <= i < j < |s| ==> ByDate(s[i]) <= ByDate(s[j]);
    }
    FilterKeepsPairwise(s, f, earlier);
  }

  // ---------------------------------------------------------------------
  // getPredictions: the rows and the predictions created on the way

  /** The caller has a stored prediction for `g`, and `v` is built from it. */
  predicate ViewMatches(v: PredictionView, rows: seq<Prediction>, me: PlayerId, g: Game, ls: seq<League>) {
    exists j :: 0 <= j < |rows| && rows[j].player == me && rows[j].game == g.id && v == View(rows[j], g, ls)
  }

  /** With the (player, game) index unique, the row for a game is determined. */
  lemma ViewIsDetermined(v: PredictionView, w: PredictionView, rows: seq<Prediction>, me: PlayerId, g: Game, ls: seq<League>)
    requires UniquePlayerGame(rows)
    requires ViewMatches(v, rows, me, g, ls) && ViewMatches(w, rows, me, g, ls)
    ensures v == w
  {
    var j :| 0 <= j < |rows| && rows[j].player == me && rows[j].game == g.id && v == View(rows[j], g, ls);
    var j' :| 0 <= j' < |rows| && rows[j'].player == me && rows[j'].game == g.id && w == View(rows[j'], g, ls);
    assert j == j';
  }

  lemma ViewMatchesGrow(v: PredictionView, rows: seq<Prediction>, rows': seq<Prediction>, me: PlayerId, g: Game, ls: seq<League>)
    requires ViewMatches(v, rows, me, g, ls)
    requires |rows| <= |rows'| && rows'[..|rows|] == rows
    ensures ViewMatches(v, rows', me, g, ls)
  {
    var j :| 0 <= j < |rows| && rows[j].player == me && rows[j].game == g.id && v == View(rows[j], g, ls);
    assert rows'[j] == rows'[..|rows|][j];
  }

  function GameIdsOf(gs: seq<Game>): set<GameId> {
    set k | 0 <= k < |gs| :: gs[k].id
  }

  /** What `getPredictions` may add to the collection: Pending predictions of
      the caller, with no guess and score 0, for shown games the caller had no
      prediction for. */
  predicate OnlyCreated(old_: seq<Prediction>, rows: seq<Prediction>, me: PlayerId, shown: seq<Game>) {
    && |old_| <= |rows| && rows[..|old_|] == old_
    && forall k :: |old_| <= k < |rows| ==>
         && rows[k].player == me && rows[k].guess.None? && rows[k].status == Status.Pending && rows[k].score == 0
         && !HasPrediction(old_, me, rows[k].game)
         && rows[k].game in GameIdsOf(shown)
  }

  datatype PredictionsError = ServerError

  /** A created prediction for the next shown game keeps the loop's facts. */
  lemma CreatedStep(old_: seq<Prediction>, before: seq<Prediction>, me: PlayerId, shownBefore: seq<Game>,
                    game: Game, row: Prediction, views: seq<PredictionView>, mine: seq<League>)
    requires OnlyCreated(old_, before, me, shownBefore)
    requires row.player == me && row.game == game.id && row.guess.None? && row.status == Status.Pending && row.score == 0
    requires !HasPrediction(before, me, game.id)
    requires |views| == |shownBefore|
    requires forall k :: 0 <= k < |views| ==> ViewMatches(views[k], before, me, shownBefore[k], mine)
    ensures OnlyCreated(old_, before + [row], me, shownBefore + [game])
    ensures forall k :: 0 <= k < |views| + 1 ==>
      ViewMatches((views + [View(row, game, mine)])[k], before + [row], me, (shownBefore + [game])[k], mine)
  {
    var after, shownAfter := before + [row], shownBefore + [game];
    ShownIdsGrow(shownBefore, game);
    assert !HasPrediction(old_, me, game.id) by {
      assert forall k :: 0 <= k < |old_| ==> old_[k] == before[k];
    }
    assert after[..|old_|] == before[..|old_|];
    forall k | 0 <= k < |views| + 1
      ensures ViewMatches((views + [View(row, game, mine)])[k], after, me, shownAfter[k], mine)
    {
      if k < |views| {
        ViewMatchesGrow(views[k], before, after, me, shownBefore[k], mine);
      } else {
        assert after[|before|] == row;
      }
    }
  }

  /** A prediction already stored for the next shown game keeps them too. */
  lemma ExistingStep(old_: seq<Prediction>, rows: seq<Prediction>, me: PlayerId, shownBefore: seq<Game>,
                     game: Game, j: nat, views: seq<PredictionView>, mine: seq<League>)
    requires OnlyCreated(old_, rows, me, shownBefore)
    requires j < |rows| && rows[j].player == me && rows[j].game == game.id
    requires |views| == |shownBefore|
    requires forall k :: 0 <= k < |views| ==> ViewMatches(views[k], rows, me, shownBefore[k], mine)
    ensures OnlyCreated(old_, rows, me, shownBefore + [game])
    ensures forall k :: 0 <= k < |views| + 1 ==>
      ViewMatches((views + [View(rows[j], game, mine)])[k], rows, me, (shownBefore + [game])[k], mine)
  {
    ShownIdsGrow(shownBefore, game);
  }

  lemma ShownIdsGrow(shown: seq<Game>, game: Game)
    ensures GameIdsOf(shown + [game]) == GameIdsOf(shown) + {game.id}
  {
    var shownAfter := shown + [game];
    forall k | 0 <= k < |shown| ensures shown[k].id in GameIdsOf(shownAfter) {
      assert shownAfter[k] == shown[k];
    }
    assert shownAfter[|shown|] == game;
  }

  /** Every fetched game is a stored one. */
  lemma ListedAreStored(games: seq<Game>, mine: seq<League>, now: int, windowEnd: int, i: nat)
    requires i < |Listed(games, mine, now, windowEnd)|
    ensures Listed(games, mine, now, windowEnd)[i].id in GameIds(games)
  {
    var listed := Listed(games, mine, now, windowEnd);
    var fetched := Filter(games, Selected(now, windowEnd, AnyClassic(mine), TeamIds(mine)));
    assert listed[i] in multiset(fetched);
    assert listed[i] in games;
  }

  /** Row k is built from the caller's prediction for shown game k. */
  predicate ViewsMatch(views: seq<PredictionView>, rows: seq<Prediction>, me: PlayerId, shown: seq<Game>, mine: seq<League>) {
    && |views| == |shown|
    && forall k :: 0 <= k < |views| ==> ViewMatches(views[k], rows, me, shown[k], mine)
  }

  /** One shown game of the loop of lines 27-61: the caller's prediction for
      it is created when missing (lines 33-47) or read (lines 48-59), and its
      row is appended. */
  method ViewGame(preds: PredictionTable, players: seq<Player>, games: seq<Game>, player: PlayerId, game: Game,
                  mine: seq<League>, ghost start: seq<Prediction>, ghost shown: seq<Game>, views: seq<PredictionView>)
    returns (views': seq<PredictionView>)
    requires preds.Valid() && player in PlayerIds(players) && game.id in GameIds(games)
    requires OnlyCreated(start, preds.rows, player, shown)
    requires ViewsMatch(views, preds.rows, player, shown, mine)
    modifies preds
    ensures preds.Valid()
    ensures OnlyCreated(start, preds.rows, player, shown + [game])
    ensures ViewsMatch(views', preds.rows, player, shown + [game], mine)
  {
    var prediction := IndexOfPlayerGame(preds.rows, player, game.id);
    if prediction.None? {
      ghost var before := preds.rows;
      var created := preds.Create(player, game.id, PlayerIds(players), GameIds(games));
      var row := Prediction(created.value, player, game.id, None, Status.Pending, 0);
      CreatedStep(start, before, player, shown, game, row, views, mine);
      views' := views + [View(row, game, mine)];
    } else {
      ExistingStep(start, preds.rows, player, shown, game, prediction.value, views, mine);
      views' := views + [View(preds.rows[prediction.value], game, mine)];
    }
  }

  /** The loop of lines 27-61 over the fetched games `listed`. */
  method VisitListed(preds: PredictionTable, players: seq<Player>, games: seq<Game>, player: PlayerId,
                     listed: seq<Game>, mine: seq<League>, now: int)
    returns (views: seq<PredictionView>)
    requires preds.Valid() && player in PlayerIds(players)
    requires forall i :: 0 <= i < |listed| ==> listed[i].id in GameIds(games)
    modifies preds
    ensures preds.Valid()
    ensures OnlyCreated(old(preds.rows), preds.rows, player, Filter(listed, After(now)))
    ensures |views| == |Filter(listed, After(now))|
    ensures forall k :: 0 <= k < |views| ==>
      ViewMatches(views[k], preds.rows, player, Filter(listed, After(now))[k], mine)
  {
    views := [];
    ghost var shown: seq<Game> := [];
    assert preds.rows[..|preds.rows|] == preds.rows;
    for i := 0 to |listed|
      invariant shown == Filter(listed[..i], After(now))
      invariant preds.Valid()
      invariant OnlyCreated(old(preds.rows), preds.rows, player, shown)
      invariant ViewsMatch(views, preds.rows, player, shown, mine)
    {
      var game := listed[i];
      FilterPrefixStep(listed, i, After(now));
      if now < game.date {
        views := ViewGame(preds, players, games, player, game, mine, old(preds.rows), shown, views);
        shown := shown + [game];
      }
    }
    assert listed[..|listed|] == listed;
  }

  /** The loop of lines 27-61 for the caller `players[me]`. */
  method CollectViews(preds: PredictionTable, players: seq<Player>, games: seq<Game>, me: nat,
                      mine: seq<League>, now: int, windowEnd: int)
    returns (views: seq<PredictionView>)
    requires preds.Valid() && me < |players|
    modifies preds
    ensures preds.Valid()
    ensures OnlyCreated(old(preds.rows), preds.rows, players[me].id, Shown(games, mine, now, windowEnd))
    ensures |views| == |Shown(games, mine, now, windowEnd)|
    ensures forall k :: 0 <= k < |views| ==>
      ViewMatches(views[k], preds.rows, players[me].id, Shown(games, mine, now, windowEnd)[k], mine)
  {
    var listed := Listed(games, mine, now, windowEnd);
    assert players[me].id in PlayerIds(players);
    forall i | 0 <= i < |listed| ensures listed[i].id in GameIds(games) {
      ListedAreStored(games, mine, now, windowEnd, i);
    }
    views := VisitListed(preds, players, games, players[me].id, listed, mine, now);
  }

  // ---------------------------------------------------------------------
  // getPredictions: grouping by day

  /** The answer: the rows of one calendar day (as given by the day key). */
  datatype DayGroup = DayGroup(date: string, games: seq<PredictionView>)

  /** `datedPredictions.find(entry => entry.date === date)`. */
  function FindDay(groups: seq<DayGroup>, day: string): (r: Option<nat>)
    ensures r.Some? ==> r.value < |groups| && groups[r.value].date == day
    ensures r.None? ==> forall k :: 0 <= k < |groups| ==> groups[k].date != day
  {
    if groups == [] then None
    else if groups[0].date == day then Some(0)
    else match FindDay(groups[1..], day)
      case None => None
      case Some(k) => Some(k + 1)
  }

  /** The groups after the forEach of lines 65-73 has seen `views`. */
  function Grouped(views: seq<PredictionView>, dayKey: int -> string): seq<DayGroup> {
    if views == [] then []
    else
      var groups := Grouped(views[..|views| - 1], dayKey);
      var v := views[|views| - 1];
      match FindDay(groups, dayKey(v.date))
      case Some(j) => groups[j := groups[j].(games := groups[j].games + [v])]
      case None => groups + [DayGroup(dayKey(v.date), [v])]
  }

  function DayOf(dayKey: int -> string): PredictionView -> string {
    (v: PredictionView) => dayKey(v.date)
  }

  /** The distinct day keys, in the order in which they are first met. */
  function Days(views: seq<PredictionView>, dayKey: int -> string): seq<string> {
    Distinct(Map(views, DayOf(dayKey)))
  }

  function OnDay(dayKey: int -> string, day: string): PredictionView -> bool {
    (v: PredictionView) => dayKey(v.date) == day
  }

  /** The day keys are distinct and are exactly the keys of the rows. */
  lemma DaysMeaning(views: seq<PredictionView>, dayKey: int -> string)
    ensures NoDuplicates(Days(views, dayKey))
    ensures forall d :: d in Days(views, dayKey) <==> exists i :: 0 <= i < |views| && dayKey(views[i].date) == d
  {
    DistinctMeaning(Map(views, DayOf(dayKey)));
    var days := Map(views, DayOf(dayKey));
    forall d | d in days ensures exists i :: 0 <= i < |views| && dayKey(views[i].date) == d {
      var i :| 0 <= i < |days| && days[i] == d;
      assert dayKey(views[i].date) == d;
    }
  }

  /** A day key met earlier keeps its place: the keys of a prefix are a prefix
      of the keys. */
  lemma DaysFirstSeen(views: seq<PredictionView>, dayKey: int -> string, n: nat)
    requires n <= |views|
    ensures |Days(views[..n], dayKey)| <= |Days(views, dayKey)|
    ensures Days(views, dayKey)[..|Days(views[..n], dayKey)|] == Days(views[..n], dayKey)
  {
    MapPrefix(views, n, DayOf(dayKey));
    DistinctPrefix(Map(views, DayOf(dayKey)), n);
  }

  /** Adding a row adds its key at the end when it is new. */
  lemma DaysSnoc(views: seq<PredictionView>, dayKey: int -> string)
    requires views != []
    ensures var init, day := views[..|views| - 1], dayKey(views[|views| - 1].date);
      Days(views, dayKey) == if day in Days(init, dayKey) then Days(init, dayKey) else Days(init, dayKey) + [day]
  {
    var m := Map(views, DayOf(dayKey));
    MapPrefix(views, |views| - 1, DayOf(dayKey));
    assert m[..|m| - 1] == Map(views[..|views| - 1], DayOf(dayKey));
  }

  /** The k-th group holds the k-th day key and, in their order, exactly the
      rows with that key. */
  predicate GroupsMatch(groups: seq<DayGroup>, views: seq<PredictionView>, dayKey: int -> string) {
    && |groups| == |Days(views, dayKey)|
    && forall k :: 0 <= k < |groups| ==>
         groups[k] == DayGroup(Days(views, dayKey)[k], Filter(views, OnDay(dayKey, Days(views, dayKey)[k])))
  }

  /** A row of a day already met joins that day's group. */
  lemma GroupedStepOld(init: seq<PredictionView>, v: PredictionView, dayKey: int -> string)
    requires GroupsMatch(Grouped(init, dayKey), init, dayKey)
    requires dayKey(v.date) in Days(init, dayKey)
    ensures GroupsMatch(Grouped(init + [v], dayKey), init + [v], dayKey)
  {
    var views := init + [v];
    LastOfSnoc(init, v);
    DaysSnoc(views, dayKey);
    DaysMeaning(init, dayKey);
    var groups, days, day := Grouped(init, dayKey), Days(init, dayKey), dayKey(v.date);
    assert Days(views, dayKey) == days;
    var j := FindDay(groups, day).value;
    assert days[j] == day;
    var groups' := groups[j := groups[j].(games := groups[j].games + [v])];
    assert Grouped(views, dayKey) == groups';
    forall k | 0 <= k < |groups'|
      ensures groups'[k] == DayGroup(days[k], Filter(views, OnDay(dayKey, days[k])))
    {
      FilterSnoc(init, v, OnDay(dayKey, days[k]));
      if k != j {
        assert days[k] != day;
      }
    }
  }

  /** Appending the group of a day no earlier row has keeps group k equal to
      its day's rows. */
  lemma AppendNewGroup(groups: seq<DayGroup>, days: seq<string>, init: seq<PredictionView>, v: PredictionView,
                       dayKey: int -> string, k: nat)
    requires |groups| == |days| && k <= |days|
    requires k < |days| ==> groups[k] == DayGroup(days[k], Filter(init, OnDay(dayKey, days[k])))
    requires k < |days| ==> days[k] != dayKey(v.date)
    requires forall i :: 0 <= i < |init| ==> dayKey(init[i].date) != dayKey(v.date)
    ensures var groups', days' := groups + [DayGroup(dayKey(v.date), [v])], days + [dayKey(v.date)];
      groups'[k] == DayGroup(days'[k], Filter(init + [v], OnDay(dayKey, days'[k])))
  {
    var day := dayKey(v.date);
    var groups', days' := groups + [DayGroup(day, [v])], days + [day];
    if k < |days| {
      assert days'[k] == days[k] && groups'[k] == groups[k];
      FilterSnoc(init, v, OnDay(dayKey, days[k]));
    } else {
      FilterNone(init, OnDay(dayKey, day));
      FilterSnoc(init, v, OnDay(dayKey, day));
    }
  }

  /** A row of a new day opens a group at the end. */
  lemma GroupedStepNew(init: seq<PredictionView>, v: PredictionView, dayKey: int -> string)
    requires GroupsMatch(Grouped(init, dayKey), init, dayKey)
    requires dayKey(v.date) !in Days(init, dayKey)
    ensures GroupsMatch(Grouped(init + [v], dayKey), init + [v], dayKey)
  {
    var views := init + [v];
    LastOfSnoc(init, v);
    DaysSnoc(views, dayKey);
    DaysMeaning(init, dayKey);
    var groups, days, day := Grouped(init, dayKey), Days(init, dayKey), dayKey(v.date);
    assert Days(views, dayKey) == days + [day];
    assert FindDay(groups, day).None?;
    assert Grouped(views, dayKey) == groups + [DayGroup(day, [v])];
    assert forall i :: 0 <= i < |init| ==> dayKey(init[i].date) != day by {
      assert !exists i :: 0 <= i < |init| && dayKey(init[i].date) == day;
    }
    forall k | 0 <= k < |days| + 1
      ensures (groups + [DayGroup(day, [v])])[k]
              == DayGroup((days + [day])[k], Filter(views, OnDay(dayKey, (days + [day])[k])))
    {
      AppendNewGroup(groups, days, init, v, dayKey, k);
    }
  }

  lemma {:induction false} GroupedMeaning(views: seq<PredictionView>, dayKey: int -> string)
    ensures |Grouped(views, dayKey)| == |Days(views, dayKey)|
    ensures forall k :: 0 <= k < |Grouped(views, dayKey)| ==>
      Grouped(views, dayKey)[k] == DayGroup(Days(views, dayKey)[k], Filter(views, OnDay(dayKey, Days(views, dayKey)[k])))
  {
    if views != [] {
      var init, v := views[..|views| - 1], views[|views| - 1];
      InitSnocLast(views);
      GroupedMeaning(init, dayKey);
      if dayKey(v.date) in Days(init, dayKey) {
        GroupedStepOld(init, v, dayKey);
      } else {
        GroupedStepNew(init, v, dayKey);
      }
    }
  }

  /** Every row lands in exactly one group: the one of its day key. */
  lemma EachViewInOneGroup(views: seq<PredictionView>, dayKey: int -> string, i: nat)
    requires i < |views|
    ensures exists k :: 0 <= k < |Grouped(views, dayKey)| && Grouped(views, dayKey)[k].date == dayKey(views[i].date)
    ensures forall k :: 0 <= k < |Grouped(views, dayKey)| ==>
      (views[i] in Grouped(views, dayKey)[k].games <==> Grouped(views, dayKey)[k].date == dayKey(views[i].date))
    ensures forall k, k' :: 0 <= k < k' < |Grouped(views, dayKey)| ==>
      Grouped(views, dayKey)[k].date != Grouped(views, dayKey)[k'].date
  {
    GroupedMeaning(views, dayKey);
    DaysMeaning(views, dayKey);
    var groups := Grouped(views, dayKey);
    var days := Days(views, dayKey);
    assert dayKey(views[i].date) in days;
    var k :| 0 <= k < |days| && days[k] == dayKey(views[i].date);
    assert groups[k].date == dayKey(views[i].date);
  }

  /** The forEach of lines 65-73. */
  method GroupByDay(views: seq<PredictionView>, dayKey: int -> string) returns (groups: seq<DayGroup>)
    ensures groups == Grouped(views, dayKey)
  {
    groups := [];
    for i := 0 to |views|
      invariant groups == Grouped(views[..i], dayKey)
    {
      var prediction := views[i];
      var date := dayKey(prediction.date);
      var existing := FindDay(groups, date);
      assert views[..i + 1][..i] == views[..i];
      if existing.Some? {
        var entry := groups[existing.value];
        groups := groups[existing.value := entry.(games := entry.games + [prediction])];
      } else {
        groups := groups + [DayGroup(date, [prediction])];
      }
    }
    assert views[..|views|] == views;
  }

  /** `getPredictions` with the clock (`now`, the end of the three-day window)
      and the calendar day of a date as parameters.  A missing caller player
      fails at `player._id`; a team-mode league of the caller without a team
      fails at the first shown game, before anything is written. */
  method GetPredictions(preds: PredictionTable, players: seq<Player>, leagues: seq<League>, games: seq<Game>,
                        user: UserId, now: int, windowEnd: int, dayKey: int -> string)
    returns (r: Result<seq<DayGroup>, PredictionsError>, ghost views: seq<PredictionView>)
    requires preds.Valid()
    modifies preds
    ensures preds.Valid()
    ensures IndexOfUser(players, user).None? ==> r.Err?
    ensures IndexOfUser(players, user).Some? ==>
      var mine := Filter(leagues, MemberOf(players[IndexOfUser(players, user).value].id));
      (r.Err? <==> |Shown(games, mine, now, windowEnd)| > 0 && HasTeamlessTeamLeague(mine))
    ensures r.Err? ==> preds.rows == old(preds.rows)
    ensures r.Ok? ==>
      var me := players[IndexOfUser(players, user).value].id;
      var mine := Filter(leagues, MemberOf(me));
      var shown := Shown(games, mine, now, windowEnd);
      && OnlyCreated(old(preds.rows), preds.rows, me, shown)
      && |views| == |shown|
      && (forall k :: 0 <= k < |views| ==> ViewMatches(views[k], preds.rows, me, shown[k], mine))
      && r.value == Grouped(views, dayKey)
  {
    var me := IndexOfUser(players, user);
    if me.None? {
      return Err(ServerError), [];
    }
    var mine := Filter(leagues, MemberOf(players[me.value].id));
    if |Shown(games, mine, now, windowEnd)| > 0 && HasTeamlessTeamLeague(mine) {
      return Err(ServerError), [];
    }
    var predictions := CollectViews(preds, players, games, me.value, mine, now, windowEnd);
    views := predictions;
    var groups := GroupByDay(predictions, dayKey);
    r := Ok(groups);
  }
}
