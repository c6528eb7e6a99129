# Fantasy basketball predictions: a Dafny model of the backend core

This project models the core of a fantasy-sports backend. Players form
leagues, predict the final scores of upcoming NBA games, and collect points
when those games end. The model covers:

- the four MongoDB collections the core writes: Player, League, Prediction
  and Game, each with its validators, unique indexes and save hooks;
- the controllers that move players between a league's lists
  (`createLeague`, `addPlayers`, `removePlayer`);
- the friend requests between players (`addFriend`, `acceptFriend`,
  `cancelFriendRequest`, `deleteFriend`);
- the prediction controllers (`getPredictions`, `submitPrediction`);
- the game controllers (`retrieveGames`, `updateGames`, `getGames`);
- the scoring and ranking helpers (`calculateScore`, `updatePredictions`,
  `getRanking`, `getLeaderboard`);
- the date formatting helpers (`formatDate`, `myDateTime`).

A collection is a class that owns a `rows` sequence and an invariant
`Valid()`. The invariant gathers the unique indexes and the document
validators. A controller is a method that reads the collections and changes
the ones it names in `modifies`.

Each controller's contract gives every error response it can send and the
exact new contents of the collections. Pure functions describe the
multi-step algorithms:

- `updateGames` is two folds:
  - the first pass applies the retrieved reports;
  - the second pass asks the provider about each stale game.
- `getPredictions` is split into three parts:
  - the games it lists;
  - the predictions it creates on first view;
  - its grouping by day.
- `getRanking` and `getLeaderboard` sort stably, like JavaScript's `sort`.

Lemmas state what these functions mean. Examples:

- idempotence of the first pass;
- how many games a run counts as updated;
- which games a run deletes and which it finishes;
- that a leaderboard is a permutation of a league's members;
- the zero floor of a ranking;
- that a formatted date can be split back into its parts.

The outside world enters as parameters:

- the current time `now`;
- the random draws behind join codes and friend codes;
- the results of the HTTP calls to the provider (`fetch`, `lookup`);
- the start of a day (`dayStart`) and the calendar day of a timestamp
  (`dayKey`);
- the per-league game queries of `getGames` (`cardsFor`).

## Model

| member | source | states |
|---|---|---|
| Scoring.CalculateScore | helpers/prediction.helpers.js:32-51 | the rounded sum of the two half-scores, each side's miss capped at 100, is an integer in 0..100 equal to 100 minus half the sum of the capped misses (rounded half up) |
| Scoring.RoundHalfPoints | helpers/prediction.helpers.js:46-49 | `Math.round(100 - s/2)` equals the integer `100 - s div 2` for every total miss `s` |
| Scoring.ExactPredictionScoresFull | helpers/prediction.helpers.js:39-49 | a prediction exact on both sides gets the full 100 points |
| Scoring.ScoreSymmetric | helpers/prediction.helpers.js:39-40 | only the size of each miss counts: swapping actual and predicted scores keeps the score |
| Scoring.ScoreNonIncreasing | helpers/prediction.helpers.js:39-47 | a larger miss on either side never earns more points |
| Scoring.ScoreFlatBeyondCap | helpers/prediction.helpers.js:39-40 | once a side misses by 100 or more, missing by more costs nothing further |
| Scoring.WorkedExample | helpers/prediction.helpers.js:39-49 | final 102-98 against a prediction of 100-95 scores 98 (100 - 2.5 rounds up) |
| PredictionHelpers.SettleAllCompletes | helpers/prediction.helpers.js:15-23 | every Submitted prediction of the game becomes Complete with the score `calculateScore` gives its guess; none of the game's predictions stays Submitted |
| PredictionHelpers.SettleAllLeavesOthers | helpers/prediction.helpers.js:15 | predictions of other games, and Pending or Complete ones, are unchanged; ids, players and games of all rows are kept |
| PredictionHelpers.SettleAllIdempotent | helpers/prediction.helpers.js:15-23 | settling a game a second time changes nothing |
| PredictionHelpers.SettleAllKeepsTableInvariant | helpers/prediction.helpers.js:15-23 | settling keeps the unique ids, the (player, game) index and the guess/status agreement |
| PredictionHelpers.UpdatePredictions | helpers/prediction.helpers.js:6-30 | a missing game gives "does not exist", a non-Final game "is not complete" (both iff, and no write); otherwise the prediction rows become `SettleAll` of the old rows |
| PredictionHelpers.FirstStop | helpers/prediction.helpers.js:57-75 | the position returned is the first at which the scan finds the player or a score of 0; None means there is no such position |
| PredictionHelpers.Ranking | helpers/prediction.helpers.js:57-82 | the rank reported lies in 1..max(1, n) |
| PredictionHelpers.GetRanking | helpers/prediction.helpers.js:53-87 | the loop's result is `Ranking` of the game's predictions sorted by score, highest first and stable |
| PredictionHelpers.FirstStopAt | helpers/prediction.helpers.js:57-75 | the scan stops at the first position holding the player or a zero score |
| PredictionHelpers.RankingOfReachedPlayer | helpers/prediction.helpers.js:58-65 | a player reached before any zero score gets their 1-based position and their own score |
| PredictionHelpers.RankingZeroFloor | helpers/prediction.helpers.js:66-74 | a player not reached before the first zero score ties with it: that position and score 0 |
| PredictionHelpers.RankingWithoutStop | helpers/prediction.helpers.js:76-82 | without the player and without a zero score the result is rank max(1, n) with score 0 |
| PredictionHelpers.ExampleSorted | helpers/prediction.helpers.js:56 | scores 90, 80, 80, 0, 0 are already in the comparator's order |
| PredictionHelpers.ExampleAlreadyRanked | helpers/prediction.helpers.js:55-56 | sorting that list of one game leaves it as it is |
| PredictionHelpers.RankingExample | helpers/prediction.helpers.js:53-82 | on that list B ranks second with 80, while D, E and a player with no prediction all tie at rank 4 with score 0 |
| PredictionHelpers.ExampleSecond | helpers/prediction.helpers.js:58-65 | B, reached second, ranks 2 with score 80 |
| PredictionHelpers.ExampleFirstZero | helpers/prediction.helpers.js:58-74 | D, the first zero score, ranks 4 |
| PredictionHelpers.ExampleBelowZero | helpers/prediction.helpers.js:66-74 | E, after the first zero, is floored at rank 4 |
| PredictionHelpers.ExampleAbsent | helpers/prediction.helpers.js:66-74 | a player with no prediction is floored at rank 4 |
| PredictionHelpers.FilterAllOfGame | helpers/prediction.helpers.js:55 | selecting the predictions of a game from a list holding only that game's predictions keeps the whole list |
| StableSort.InsertPermutes | helpers/prediction.helpers.js:56 | one insertion step of the sort holds the input's elements plus the inserted one, each as often |
| StableSort.InsertSorted | helpers/prediction.helpers.js:56 | inserting into a list ordered by the key leaves it ordered |
| StableSort.InsertBound | helpers/prediction.helpers.js:56 | an insertion keeps every key at most a bound that all keys, the new one included, respect |
| StableSort.SortBy | helpers/league.helpers.js:131 | the sort gives a permutation of its input, ordered by the key |
| StableSort.SortByIsStable | helpers/league.helpers.js:131 | elements with equal keys keep their relative order, as in JavaScript's stable `sort` |
| StableSort.SortBySorted | helpers/prediction.helpers.js:56 | a list already in order is returned unchanged |
| StableSort.WithKeySnoc | helpers/league.helpers.js:131 | the elements of a given key in `s + [x]` are those of `s`, then `x` if it has that key |
| StableSort.InsertWithKey | helpers/league.helpers.js:131 | an insertion appends `x` to the elements of its key and leaves every other key's elements as they were |
| PredictionModel.CheckNew | models/prediction.module.js:29-45 | the save of a new prediction fails for a missing player, else for a missing game, else for a duplicate (player, game), each iff, and succeeds exactly otherwise |
| PredictionModel.AcceptedKeepsUnique | models/prediction.module.js:29 | a prediction the checks accept keeps the (player, game) index unique |
| PredictionModel.IndexOfPrediction | models/prediction.module.js:4-27 | `findById` returns a row with that id, or None when no row has it |
| PredictionModel.IndexOfPlayerGame | models/prediction.module.js:29 | `findOne({ player, game })` returns a matching row, or None exactly when there is none |
| PredictionModel.PredictionTable.constructor | models/prediction.module.js:4-29 | an empty collection is valid |
| PredictionModel.CheckScorelessAsWritten | models/prediction.module.js:14-21 | as written, saving a prediction without scores always fails: a missing player, then a missing game, and otherwise the two required scores |
| PredictionModel.ScorelessSaveRefusedAsWritten | models/prediction.module.js:14-21 | every save the intended check `CheckNew` accepts is refused as written for its missing scores |
| PredictionModel.PredictionTable.Create | models/prediction.module.js:22-45 | appends a Pending prediction with score 0 and a fresh id exactly when `CheckNew` passes, otherwise reports its error and writes nothing |
| LeagueMembership.Insert | models/leagueMembership.module.js:27 | the unique index refuses a second (player, league) membership (iff), otherwise appends the new row and keeps the index unique |
| LeagueMembership.SumScoresSnoc | models/leagueMembership.module.js:29-34 | the reduce sum grows by the last score |
| LeagueMembership.SumScoresNonNegative | models/leagueMembership.module.js:29-34 | non-negative scores sum to a non-negative total |
| LeagueMembership.TotalOfNothing | models/leagueMembership.module.js:29-34 | a membership with no predictions totals 0 |
| LeagueMembership.TotalScoreBySet | models/leagueMembership.module.js:29-34 | the `$in` query makes the total depend only on the set of listed ids |
| LeagueMembership.RepeatedIdCountedOnce | models/leagueMembership.module.js:29-34 | listing an id twice does not count its score twice |
| LeagueMembership.TotalScoreBounds | models/leagueMembership.module.js:29-34 | with scores in 0..100 the total lies between 0 and 100 times the number of matched predictions |
| LeagueMembership.SumScoresBounds | models/leagueMembership.module.js:29-34 | n scores in 0..100 sum to between 0 and 100n |
| LeagueModel.ParseMode | models/league.module.js:35-39 | only "classic" and "team" are accepted mode values, and each maps back to its own name |
| LeagueModel.ParseModeName | models/league.module.js:35-39 | every mode survives storage as its name |
| LeagueModel.ValidateJoinCode | models/league.module.js:19-31 | the validator's length check and character scan accept exactly the codes of eight decimal digits |
| LeagueModel.GenerateJoinCode | models/league.module.js:75-82 | a generated code is eight digits long and reads back as `floor(10000000 + random * 90000000)` |
| LeagueModel.ValidateListsMeaning | models/league.module.js:84-107 | the hook reports duplicate members, invited or requesting players, each list in turn, then an overlap, and passes exactly when the three lists are duplicate-free and pairwise disjoint |
| LeagueModel.LeagueTable.constructor | models/league.module.js:5-68 | an empty collection is valid |
| LeagueModel.FirstFreeCode | models/league.module.js:75-82 | the generator stops at the first draw whose code no stored league has; every earlier draw gives a taken code, and None means every draw does |
| LeagueModel.FreshJoinCode | models/league.module.js:75-82 | the retry loop returns the code of the first free draw, an eight-digit code no stored league has |
| LeagueModel.LeagueTable.Insert | models/league.module.js:7-17 | a new league is stored exactly when the hook passes, its name is not taken and its join code is not taken; the hook's error comes first, then the duplicate name, then the duplicate code; a failed save writes nothing |
| LeagueModel.LeagueTable.Save | models/league.module.js:84-107 | saving an edited league runs the list hook: the row is replaced iff it passes, otherwise nothing changes |
| LeagueModel.IndexOfLeague | models/league.module.js:5-68 | `findById` returns a league with that id, or None when there is none |
| LeagueHelpers.LeaderboardRows | helpers/league.helpers.js:121-137 | one row per member, ranks 1..N in order, each row holding its member's total of Complete scores and `mutualFriend` iff the member is the viewer's friend |
| LeagueHelpers.LeaderboardOrdered | helpers/league.helpers.js:131 | totals never increase down the board |
| LeagueHelpers.LeaderboardIsPermutation | helpers/league.helpers.js:121-137 | the board lists each member exactly as often as the league does |
| LeagueHelpers.LeaderboardStable | helpers/league.helpers.js:131 | members with equal totals keep their order in the league |
| LeagueHelpers.GetLeaderboard | helpers/league.helpers.js:114-144 | a missing league fails; the viewer's player is read before the loop and is needed only when the league has members; a success is the leaderboard for the viewer's friends, or an empty board |
| PlayerModel.ValidateFriendId | models/player.module.js:15-19 | a friend code is accepted exactly when it has eight characters |
| PlayerModel.GenerateFriendId | models/player.module.js:94-101 | a generated code passes the validator, is all digits and reads back as the eight-digit draw |
| PlayerModel.FriendsValidatorMeaning | models/player.module.js:28-41 | the friends list passes exactly when it holds neither the player nor a duplicate, and shares nothing with sent_requests |
| PlayerModel.SentValidatorMeaning | models/player.module.js:49-62 | sent_requests passes exactly when it holds neither the player nor a duplicate, and shares nothing with friends |
| PlayerModel.ValidatePlayerMeaning | models/player.module.js:15-76 | a document passes the path validators exactly when it meets the player invariant |
| PlayerModel.SendRequestKeepsInvariant | models/player.module.js:49-62 | a request to someone who is neither the player nor a friend keeps a valid player valid iff it was not already sent |
| PlayerModel.AddFriendKeepsInvariant | models/player.module.js:28-41 | adding a friend keeps a valid player valid iff the newcomer is not the player, not a friend and not a sent request |
| PlayerModel.RemovalKeepsInvariant | models/player.module.js:28-62 | removing an id from friends or from sent_requests keeps a valid player valid |
| PlayerModel.IndexOfUser | models/player.module.js:5-13 | `findOne({ user })` returns a player of that user, or None when there is none |
| PlayerModel.IndexOfPlayer | models/player.module.js:5-13 | `findById` returns a player with that id, or None when there is none |
| PlayerModel.IndexOfFriendCode | models/player.module.js:11-13 | `findOne({ friendId })` returns a player with that code, or None when there is none |
| PlayerModel.PlayerTable.constructor | models/player.module.js:5-80 | an empty collection is valid |
| PlayerModel.PlayerTable.Insert | models/player.module.js:11-13 | a new player is stored iff validation passes, the user has no player yet and its friend code is not taken; the validation error is reported first, then the second player for the user, then the duplicate friend code; a failed save writes nothing |
| PlayerModel.PlayerTable.Save | models/player.module.js:15-76 | saving an edited player that keeps its friend code succeeds exactly when it meets the invariant and then replaces only that row |
| PlayerControllers.AddFriend | controllers/player.controllers.js:71-109 | a missing field, a caller without a player and an unknown code each get their own response; on success the caller's sent_requests gain the friend, nothing else changes, and the collection stays valid |
| PlayerControllers.Accepted | controllers/player.controllers.js:110-141 | after an acceptance each player has the other as a friend, and the request is gone from the friend's sent_requests |
| PlayerControllers.AcceptedFriendSide | controllers/player.controllers.js:110-141 | the friend's side of an acceptance is valid exactly when the two were not already friends |
| PlayerControllers.MutualRequestsCannotBeAccepted | controllers/player.controllers.js:110-141 | when both players sent requests, the caller's save fails, because the friend is also in its sent_requests |
| PlayerControllers.AcceptSucceedsExactly | controllers/player.controllers.js:110-141 | both saves pass exactly when the two were not friends and the caller had not also sent a request |
| PlayerControllers.AcceptFriend | controllers/player.controllers.js:110-141 | a missing field, a missing caller and an id with no pending request get their responses; it succeeds exactly when the friend's sent_requests hold the caller and neither is already the other's friend nor has the caller a request of its own pending to the friend; on success both documents are as `Accepted` says; a failed second save leaves the first one written |
| PlayerControllers.CancelFriendRequest | controllers/player.controllers.js:142-170 | succeeds exactly for a known caller and an existing player whose id is in the caller's sent_requests; it then removes every occurrence of the id from the caller's sent_requests and changes nothing else |
| PlayerControllers.DeleteFriend | controllers/player.controllers.js:171-203 | succeeds exactly for a known caller and an existing friend document whose id is in the caller's friends; it then removes each player from the other's friends and changes nothing else |
| LeagueControllers.TrimmedSnoc | controllers/league.controllers.js:150-161 | trimming a list one element longer appends that element trimmed |
| LeagueControllers.VerifyLeagueAndPlayers | controllers/league.controllers.js:129-168 | missing arguments are refused; the result is Ok exactly when the caller, the league and ownership check out; it then holds the trimmed ids of known players, in order |
| LeagueControllers.SplitKnown | controllers/league.controllers.js:150-161 | every trimmed input goes to the verified list when a player has that id and to the invalid list otherwise, in input order |
| LeagueControllers.VerifiedPartition | controllers/league.controllers.js:150-161 | the known and unknown inputs together are all trimmed inputs, counted with repeats, and no known input is also listed as unknown |
| LeagueControllers.InviteKeepsWellFormed | controllers/league.controllers.js:62-70 | inviting ids that are in none of the league's lists keeps the lists well formed iff the new ids are distinct |
| LeagueControllers.ToPlayerIdKeepsDistinct | controllers/league.controllers.js:62-70 | converting strings to player ids keeps them distinct exactly when the strings were |
| LeagueControllers.AddPlayers | controllers/league.controllers.js:53-83 | a refused verification writes nothing; otherwise the ids not yet in the league are appended to `invited` and the others are reported back, or the save fails and nothing changes |
| LeagueControllers.Invite | controllers/league.controllers.js:67-70 | the new ids are appended to the league's invited list; the save is refused, changing nothing, exactly when they repeat an id; with none to invite nothing changes |
| LeagueControllers.AddPartition | controllers/league.controllers.js:62-65 | the invitees and the ids already known to the league together are the verified ids, and no invitee is known to the league |
| LeagueControllers.DisjointOfSubsequences | models/league.module.js:102-105 | sublists of disjoint lists stay disjoint |
| LeagueControllers.RemoveFromLeagueMeaning | controllers/league.controllers.js:109-120 | the id leaves all three lists, everything else stays, and the lists stay well formed |
| LeagueControllers.RemovePlayer | controllers/league.controllers.js:85-127 | missing fields are refused; a missing league or player gets its 404, a missing caller or a caller who is not the owner the 500, an id in none of the lists the 404; the removal happens exactly when all these checks pass; it then pulls the id from the first of members, invited and requesting that holds it, and only that league changes |
| LeagueControllers.CreateLeague | controllers/league.controllers.js:7-51 | a missing player, missing fields and a team league without a team each get their response; a league is created exactly when the name is free and the hook passes, owned by the caller, with the given mode, team and invitees, no members and the join code of the first free draw, which no stored league has |
| PredictionControllers.WithGuess | controllers/prediction.controllers.js:101-104 | a submitted guess keeps id, player, game and score and makes the prediction Submitted with that guess |
| PredictionControllers.SubmitPrediction | controllers/prediction.controllers.js:81-111 | a missing id, a missing or zero score, someone else's prediction, one already submitted and a game already started each get their response (the last three iff), as does the server error of a missing lookup; none of them writes; otherwise only that prediction gets the guess and becomes Submitted |
| PredictionControllers.ListedLeagues | controllers/prediction.controllers.js:32 | a league is named under a prediction iff it is classic or is one of the game's teams' leagues, and every name listed comes from the caller's leagues |
| PredictionControllers.IncludedIsListed | controllers/prediction.controllers.js:32 | a caller's league that is classic or follows one of the game's teams is named in the game's row |
| PredictionControllers.ListedIsIncluded | controllers/prediction.controllers.js:32 | every name in a game's row is that of a caller's league that is classic or follows one of the game's teams |
| PredictionControllers.ShownGamesAreUpcoming | controllers/prediction.controllers.js:19-29 | every game shown starts after now and before the window end, is a stored game, and the games are in date order |
| PredictionControllers.FilterKeepsSorted | controllers/prediction.controllers.js:25-29 | dropping games from a date-sorted list keeps it date-sorted |
| PredictionControllers.ViewIsDetermined | controllers/prediction.controllers.js:48-59 | under the (player, game) index, the view of a game's prediction is unique |
| PredictionControllers.ViewMatchesGrow | controllers/prediction.controllers.js:33-47 | creating more predictions does not change the view of an existing one |
| PredictionControllers.CreatedStep | controllers/prediction.controllers.js:33-47 | the lazily created Pending prediction with score 0 is the only row added, and its view joins the list |
| PredictionControllers.ExistingStep | controllers/prediction.controllers.js:48-59 | an existing prediction is shown as stored and adds no row |
| PredictionControllers.ShownIdsGrow | controllers/prediction.controllers.js:27-61 | the ids of the games shown grow by the new game's id |
| PredictionControllers.ListedAreStored | controllers/prediction.controllers.js:19-25 | every listed game is a stored game |
| PredictionControllers.ViewGame | controllers/prediction.controllers.js:28-59 | for one shown game, the caller's prediction is created only when missing and a row matching it is appended |
| PredictionControllers.VisitListed | controllers/prediction.controllers.js:27-61 | over the listed games, only those after now get a row, each matching the caller's prediction, and only missing predictions are created |
| PredictionControllers.CollectViews | controllers/prediction.controllers.js:27-61 | the loop adds only the caller's missing predictions for the games shown, with one view per game shown, each matching the caller's prediction for that game |
| PredictionControllers.FindDay | controllers/prediction.controllers.js:63-73 | finds a group of that day, or None when no group has it |
| PredictionControllers.DaysMeaning | controllers/prediction.controllers.js:63-73 | the group days are distinct, and they are exactly the days of the views |
| PredictionControllers.DaysFirstSeen | controllers/prediction.controllers.js:63-73 | groups appear in the order their day is first seen |
| PredictionControllers.DaysSnoc | controllers/prediction.controllers.js:63-73 | a new view adds its day at the end if that day is new, and nothing otherwise |
| PredictionControllers.GroupedStepOld | controllers/prediction.controllers.js:67-69 | a view of a day already grouped joins that day's group, and every group still holds exactly its day's views |
| PredictionControllers.AppendNewGroup | controllers/prediction.controllers.js:70-72 | after a view of a new day opens a group at the end, each group still holds exactly its day's views |
| PredictionControllers.GroupedStepNew | controllers/prediction.controllers.js:70-72 | a view of a new day opens a group at the end, and every group still holds exactly its day's views |
| PredictionControllers.GroupedMeaning | controllers/prediction.controllers.js:63-73 | one group per day, in first-seen order, each holding exactly that day's views in their order |
| PredictionControllers.EachViewInOneGroup | controllers/prediction.controllers.js:63-73 | every view lies in a group of its own day, and no two groups share a day |
| PredictionControllers.GroupByDay | controllers/prediction.controllers.js:63-73 | the loop builds `Grouped` of the views |
| PredictionControllers.GetPredictions | controllers/prediction.controllers.js:7-80 | fails when the caller has no player, and otherwise exactly when a game is shown and one of the caller's leagues is a team league without a team, both with no write; otherwise it creates only the missing predictions for the games shown and returns their views grouped by day |
| GameModel.IndexOfGame | models/game.module.js:4-35 | `findById` returns the first row with that id, or None when there is none |
| GameModel.IndexOfProviderGame | models/game.module.js:4-35 | `findOne({ balldontlie_id })` returns the first row with that provider id, or None when there is none |
| GameModel.GameTable.constructor | models/game.module.js:4-35 | a collection with distinct ids is valid |
| GameControllers.FindProviderId | controllers/game.controllers.js:174 | finds an entry with that provider id, or None when there is none |
| GameControllers.DedupeIds | controllers/game.controllers.js:174 | the de-duplicated games' ids are the distinct ids received, in first-seen order |
| GameControllers.LastWithIdSnoc | controllers/game.controllers.js:174 | a newly received game is the last of its id; earlier ones stay last unless the id is the same |
| GameControllers.DedupeKeepsLast | controllers/game.controllers.js:174 | the de-duplicated entry for each id is the last game received with it |
| GameControllers.DedupeDistinct | controllers/game.controllers.js:174 | the ids kept are duplicate-free, and are the same set as those received |
| GameControllers.RetrieveGames | controllers/game.controllers.js:148-175 | non-dates are refused with no request; otherwise the requests, the failure on an empty list and the games received are those of `RoundsFrom`, a success is their de-duplication with distinct ids, and there are at most 5 requests, at least one for a non-empty range |
| GameControllers.RoundsGrow | controllers/game.controllers.js:156-173 | the rounds only add games, make at most 5 requests, at least one more when the loop runs, and fail on an empty list only when nothing was received |
| GameControllers.FirstPassShape | controllers/game.controllers.js:100-112 | the first pass keeps every game's id and provider id and every Final game; any other game is unchanged or finished by a retrieved Final report of its provider id |
| GameControllers.ProviderLookupSame | controllers/game.controllers.js:100-112 | the first pass does not change which game a provider id finds |
| GameControllers.FirstPassSettles | controllers/game.controllers.js:100-112 | after the first pass, every game reported Final is Final |
| GameControllers.SettledPassIsNoop | controllers/game.controllers.js:100-112 | a pass over games it has already applied changes nothing |
| GameControllers.FirstPassIdempotent | controllers/game.controllers.js:100-112 | running the first pass twice over the same reports is running it once |
| GameControllers.FirstPassCounts | controllers/game.controllers.js:100-112 | the first pass counts exactly the games it turned Final |
| GameControllers.FirstPassKeepsFinal | controllers/game.controllers.js:100-112 | a game Final before the pass is unchanged by it |
| GameControllers.NewlyFinalStep | controllers/game.controllers.js:100-112 | the set of games turned Final grows only by the game changed in one step |
| GameControllers.SecondPassCounts | controllers/game.controllers.js:116-140 | a second pass that did not fail adds one update per stale game the provider reports Final |
| GameControllers.SecondPassFailureSticks | controllers/game.controllers.js:143-146 | once a request fails without a response the run stays failed |
| GameControllers.SecondPassAddsNoGame | controllers/game.controllers.js:116-140 | the second pass adds no game id |
| GameControllers.SecondPassDeletes | controllers/game.controllers.js:133-138 | a stale game the provider no longer knows is removed together with its predictions, unless the run failed |
| GameControllers.SecondPassSplit | controllers/game.controllers.js:116-140 | the second pass over a list is the pass over its first part, then the pass over the rest |
| GameControllers.SecondPassPrefixStep | controllers/game.controllers.js:116-140 | the pass over one more stale game is one more step |
| GameControllers.SecondPassStops | controllers/game.controllers.js:134-146 | a request with no response fails the whole run, keeping what the earlier games did |
| GameControllers.SecondPassFinishes | controllers/game.controllers.js:124-131 | a stale game reported Final ends Final with the reported scores, unless the run failed |
| GameControllers.OtherIdsDiffer | controllers/game.controllers.js:115 | with distinct ids, no stale game before or after the k-th has its id |
| GameControllers.SecondStepFinishes | controllers/game.controllers.js:124-131 | a stored game the provider reports Final is Final with those scores after its step |
| GameControllers.InGameIds | controllers/game.controllers.js:115 | a stored game's id is among the stored ids |
| GameControllers.SecondPassKeepsOther | controllers/game.controllers.js:116-140 | a game that is not among the stale ones keeps its id through the second pass |
| GameControllers.SecondPassKeepsFinished | controllers/game.controllers.js:116-140 | a game not among the stale ones stays, unchanged, through the second pass |
| GameControllers.ReconcileKeepsFinal | controllers/game.controllers.js:88-147 | a game that was Final before the run is still stored, unchanged, whatever the provider answers |
| GameControllers.StaleIdsAvoidFinal | controllers/game.controllers.js:115 | no stale game shares its id with a Final game |
| GameControllers.ReconcileCounts | controllers/game.controllers.js:88-147 | a run that did not fail counts the games the first pass finished plus the stale games reported Final |
| GameControllers.ReconcileDeletes | controllers/game.controllers.js:133-138 | a stale game the provider answers 404 for is gone with its predictions after a successful run |
| GameControllers.ReconcileFinishes | controllers/game.controllers.js:124-131 | a stale game the provider reports Final is Final with those scores after a successful run |
| GameControllers.UpdateGames | controllers/game.controllers.js:88-147 | a retrieval error gives a server error with no write; otherwise both collections become the `Reconcile` run; the result is Ok iff no request failed without a response, and then carries the run's count |
| GameControllers.ApplyReports | controllers/game.controllers.js:100-112 | the loop leaves the collections as the first pass says, with its count |
| GameControllers.FinishAt | controllers/game.controllers.js:104-110 | only that game becomes Final with the reported scores, and its predictions are settled |
| GameControllers.CheckStale | controllers/game.controllers.js:116-140 | the loop leaves the collections, the count and the failure flag as the second pass says |
| GameControllers.CheckStaleGame | controllers/game.controllers.js:122-139 | one answered request: the collections and the count become one step of the second pass, and the later stale games stay stored |
| GameControllers.FinishById | controllers/game.controllers.js:124-131 | only the game with that id becomes Final with the reported scores |
| GameControllers.FinishKeepsIds | controllers/game.controllers.js:104-110 | finishing a game keeps all ids and provider ids |
| GameControllers.FinishedFound | controllers/game.controllers.js:104-110 | a finished game is found by its id and holds the reported scores |
| GameControllers.FinishByIdKeepsIds | controllers/game.controllers.js:124-131 | finishing by id keeps all ids |
| GameControllers.FinishedByIdFound | controllers/game.controllers.js:124-131 | the game finished by id holds the reported scores |
| GameControllers.StaleIdsDistinct | controllers/game.controllers.js:115 | the stale games have distinct ids |
| GameControllers.FilterOfUniqueIds | controllers/game.controllers.js:115 | a selection of games with distinct ids has distinct ids |
| GameControllers.DeleteKeepsOthers | controllers/game.controllers.js:133-138 | deleting a game keeps every other game |
| GameControllers.FilterKeepsPredictionTable | controllers/game.controllers.js:135-136 | deleting predictions keeps the prediction collection valid |
| GameControllers.SortCardsMeaning | controllers/game.controllers.js:53-54 | the sorted cards are a permutation of the input, with the defined cards first in key order and undefined entries last |
| GameControllers.GetGames | controllers/game.controllers.js:14-61 | fails iff the caller has no player; otherwise the cards of the caller's leagues, upcoming ones by date and recent ones latest first |
| BalldontlieApi.TwoDigitsMeaning | config/balldontlie_api.js:17-18 | a month or day below 100 is padded to two digits that read back as it |
| BalldontlieApi.InvalidDateOnlyForNonDates | config/balldontlie_api.js:15-21 | the text is "Invalid Date" exactly when the argument is not a Date |
| BalldontlieApi.FormatDateLength | config/balldontlie_api.js:16-19 | a date in a four-digit year is ten characters long |
| BalldontlieApi.FormatDateSplit | config/balldontlie_api.js:16-19 | splitting on '-' gives three digit strings that read back as the year, the month counted from 1 and the day, the last two two characters long |
| MyFirstModule.DisplayHourRange | myfirstmodule.js:3 | the hour shown lies in 1..12, and hours twelve apart show the same hour |
| MyFirstModule.MyDateTimeParts | myfirstmodule.js:3-6 | the text is the shown hour, ':', a two-digit minute that reads back as the minute, then "AM" exactly before noon and "PM" otherwise |
| MyFirstModule.MyDateTimeInjective | myfirstmodule.js:3-6 | different times of day give different texts |

## Left out

- Database I/O, HTTP request and response shaping, authentication, the chat, the bots and the team controllers are not modelled. The controllers return a datatype naming each response the source sends.
- Team names and usernames are left out, because only ids matter to the logic. `getLeaderboard` puts the viewer's own username on every row. The model keeps no username, so it does not show this.
- Time, randomness and HTTP calls are parameters: `now`, the draws `random` and `draws` in 0..1, `fetch`, `lookup`, `dayStart`, `dayKey` and `cardsFor`. The local time zone used by `toDateString` and by the date getters is folded into `dayKey` and `DateParts`.
- `helpers/game.helpers.js` is not part of this model. Building the per-league game cards (two limit-5 queries and their formatting) is the parameter `cardsFor` of `GameControllers.GetGames`.
- `RetrieveGames` drops the five-second `sleep` between requests and the logging, and `formatDate` of the two bounds is folded into `fetch`. A failed request is a `None` that the loop skips. The round's next start date is the day of the last game received, as `dayStart` gives it.
- `loadGames` and `verifyGames` are not modelled; they only fill and inspect the collection.
- Mongo's sort order among equal keys is not specified. Every sort is modelled as JavaScript's stable `sort` over the rows in stored order.
- `ObjectId.isValid` and a cast failure of an id are folded into "no document with that id".
- Mongoose's empty-array defaults for list paths are assumed. The model has no undefined lists.
- The scorer's cap is the 100 of the code (`Scoring.MaxDifference`).
- The game schema has no `status` path, yet the controllers read and write a status. The model gives games a `status` field, because the controllers depend on it.
- The prediction schema (models/prediction.module.js:3-27) has no `status` path either. As written, `prediction.status` is undefined on every stored prediction and an assignment to it is not saved. The Pending test of submitPrediction (controllers/prediction.controllers.js:95) then refuses every prediction, and the status filters of updatePredictions (helpers/prediction.helpers.js:15) and getLeaderboard (helpers/league.helpers.js:122) ask for a path no document holds. The model gives predictions a `status` field, as the controllers and helpers evidently intend.
- PredictionControllers.SubmitPrediction: tests the intended prediction status, not the undefined one of the schema as written.
- PredictionHelpers.UpdatePredictions: settles the predictions whose intended status is Submitted, not those of the filter on the missing path.
- LeagueHelpers.GetLeaderboard: totals the predictions whose intended status is Complete, not those of the filter on the missing path.
- `submitPrediction` tests each score with `!`, so a score of 0 is refused as missing. The model keeps this behaviour (`PredictionControllers.Given`).
- A document is validated path by path in schema order. Mongoose's aggregation of several validation errors into one response is left out: the model reports the first.
- The `team` path of a league is required through a function that returns nothing; `createLeague`'s own check is the only one modelled.
- `createLeague` spreads the request body over the new league. Fields in the body that would override `owner` or `join_code` are not modelled.
- A team-mode league stored without a team is not excluded by the model's league invariant, as the schema does not exclude it either. When such a league is the caller's and a game is shown, `league.team.toString()` at controllers/prediction.controllers.js:32 throws; `PredictionControllers.GetPredictions` reports that 500.
- PlayerModel.PlayerTable.Save: covers only edits that keep the friend code, which are the only ones the controllers make; a changed code meeting the unique index (models/player.module.js:13) is not modelled.
- PlayerModel.GenerateFriendId: models one draw. The retry until the code is unused (models/player.module.js:94-101) is not modelled, since no controller of this model creates players; `PlayerModel.PlayerTable.Insert` refuses a code already stored.
- Every `catch` around a database call is left out, since the in-memory collections cannot fail, except where the code turns a thrown value into a response on purpose. Examples are `updateGames`' failure without a response, and `acceptFriend`'s second save.
- Object identity (`includes` on ObjectIds, `toString` comparisons) is modelled as equality of ids.
- removePlayer's owner check (controllers/league.controllers.js:102-104) builds its message from `leagueId`, which is not bound in that function. The ReferenceError reaches the catch at lines 123-126, so a caller who is not the owner gets the 500 "Server Error", which is what `LeagueControllers.RemovePlayer` reports.
- The owner tests of removePlayer and verifyLeagueAndPlayers (controllers/league.controllers.js:102 and 146) compare two ObjectId objects with `!==`, which compares references and holds even for the owner. As written, addPlayers refuses every request as not the owner's and removePlayer answers 500 to every caller with a player. The model compares the ids, as evidently intended.
- LeagueControllers.VerifyLeagueAndPlayers: tests ownership by id equality, not by the reference comparison as written.
- LeagueControllers.AddPlayers: relies on the owner test by id equality, which as written refuses every caller.
- LeagueControllers.RemovePlayer: lets the owner through by id equality, where the reference comparison as written answers 500.
- LeagueControllers.CreateLeague: the name check at controllers/league.controllers.js:31-34 is inverted as written. It refuses every name that is not yet taken, and it lets a taken name through to the save, which then fails on the unique index, so no league can ever be created. The model checks that the name is free, as evidently intended. Its contract therefore describes the intended controller, not the one as written.
- LeagueControllers.CreateLeague: the draws of `generateJoinCode` are a finite list assumed to reach a free code; a run whose draws never do loops forever in the source and is not modelled.
- PredictionModel.PredictionTable.Create: stores a Pending prediction without scores, as getPredictions evidently intends. As written, the required scores (models/prediction.module.js:14-21) refuse that save, so getPredictions answers 500 for any shown game the caller has no prediction for and creates nothing (see Findings).
- PredictionControllers.CreatedStep: follows the intended creation of `PredictionModel.PredictionTable.Create`, not the save the schema refuses as written.
- PredictionControllers.ViewGame: creates the missing prediction as intended; as written its save is refused.
- PredictionControllers.VisitListed: relies on the intended creation; as written the first shown game without a prediction ends the loop with a 500.
- PredictionControllers.CollectViews: relies on the intended creation; as written the first shown game without a prediction ends the loop with a 500.
- PredictionControllers.GetPredictions: returns the views with the created predictions as intended; as written it answers 500 whenever a shown game has no prediction of the caller's.

## Findings

| source | as written | input that shows it | evidently intended | confidence | as-written member | corrected member |
|---|---|---|---|---|---|---|
| controllers/prediction.controllers.js:33-38 | `new Prediction({ player, game }).save()` saves a prediction without `away_team_score` and `home_team_score`, which models/prediction.module.js:14-21 declares required, so validation refuses it | an existing player viewing an upcoming game they have no prediction for | a Pending prediction without scores is stored and listed | not executed; high, from the schema as written | PredictionModel.CheckScorelessAsWritten, PredictionModel.ScorelessSaveRefusedAsWritten | PredictionModel.PredictionTable.Create |
