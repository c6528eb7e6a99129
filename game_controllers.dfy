/** controllers/game.controllers.js: the reconciliation of stored games with
    the provider (`updateGames`), the batched retrieval with its
    de-duplication (`retrieveGames`) and the final ordering of `getGames`.
    Provider answers are parameters; timestamps are milliseconds. */
module GameControllers {
  import opened Ids
  import opened Wrappers
  import opened Lists
  import StableSort
  import opened GameModel
  import opened PredictionModel
  import opened PredictionHelpers
  import opened LeagueModel
  import opened PlayerModel

  /** A game as the provider sends it. */
  datatype ProviderGame = ProviderGame(id: int, date: int, status: string, visitorScore: int, homeScore: int)

  /** The provider's answer to `GET /games/{id}`: the game, a 404 whose
      statusText is "Not Found", another HTTP error, or no response at all. */
  datatype Lookup = Found(game: ProviderGame) | NotFound | HttpError(code: int) | NoResponse

  // ---------------------------------------------------------------------
  // retrieveGames: de-duplication

  function ProviderKey(g: ProviderGame): int {
    g.id
  }

  /** The position of the entry with that id. */
  function FindProviderId(entries: seq<ProviderGame>, id: int): (r: Option<nat>)
    ensures r.Some? ==> r.value < |entries| && entries[r.value].id == id
    ensures r.None? ==> forall k :: 0 <= k < |entries| ==> entries[k].id != id
  {
    if entries == [] then None
    else if entries[0].id == id then Some(0)
    else match FindProviderId(entries[1..], id)
      case None => None
      case Some(k) => Some(k + 1)
  }

  /** `Map.prototype.set`: a known key keeps its place and takes the new
      value; a new key goes last. */
  function Put(entries: seq<ProviderGame>, g: ProviderGame): seq<ProviderGame> {
    match FindProviderId(entries, g.id)
    case Some(k) => entries[k := g]
    case None => entries + [g]
  }

  /** `[...new Map(games.map(game => [game.id, game])).values()]`. */
  function DedupeById(s: seq<ProviderGame>): seq<ProviderGame> {
    if s == [] then [] else Put(DedupeById(s[..|s| - 1]), s[|s| - 1])
  }

  /** One entry per id, the ids in order of first appearance. */
  lemma {:induction false} DedupeIds(s: seq<ProviderGame>)
    ensures Map(DedupeById(s), ProviderKey) == Distinct(Map(s, ProviderKey))
  {
    if s != [] {
      var init, g := s[..|s| - 1], s[|s| - 1];
      DedupeIds(init);
      var d := DedupeById(init);
      var m := Map(s, ProviderKey);
      MapPrefix(s, |s| - 1, ProviderKey);
      assert m[..|m| - 1] == Map(init, ProviderKey);
      match FindProviderId(d, g.id)
      case Some(k) =>
        assert Map(d, ProviderKey)[k] == g.id;
        assert Map(d[k := g], ProviderKey) == Map(d, ProviderKey);
      case None =>
        assert g.id !in Map(d, ProviderKey);
        MapAppend(d, [g], ProviderKey);
    }
  }

  /** `x` is the last game in `s` with its id. */
  predicate LastWithId(s: seq<ProviderGame>, x: ProviderGame) {
    exists i :: 0 <= i < |s| && s[i] == x && forall j :: i < j < |s| ==> s[j].id != x.id
  }

  lemma LastWithIdSnoc(s: seq<ProviderGame>, g: ProviderGame, x: ProviderGame)
    ensures LastWithId(s + [g], g)
    ensures LastWithId(s, x) && x.id != g.id ==> LastWithId(s + [g], x)
  {
    assert (s + [g])[|s|] == g;
    if LastWithId(s, x) && x.id != g.id {
      var i :| 0 <= i < |s| && s[i] == x && forall j :: i < j < |s| ==> s[j].id != x.id;
      assert (s + [g])[i] == x;
    }
  }

  /** Each entry is the last game in the input with its id. */
  lemma {:induction false} DedupeKeepsLast(s: seq<ProviderGame>)
    ensures forall k :: 0 <= k < |DedupeById(s)| ==> LastWithId(s, DedupeById(s)[k])
  {
    if s != [] {
      var init, g := s[..|s| - 1], s[|s| - 1];
      assert s == init + [g];
      DedupeKeepsLast(init);
      DedupeIds(init);
      DistinctMeaning(Map(init, ProviderKey));
      var d := DedupeById(init);
      var r := DedupeById(s);
      var at := FindProviderId(d, g.id);
      forall k | 0 <= k < |r| ensures LastWithId(s, r[k]) {
        if (at.Some? && k == at.value) || (at.None? && k == |d|) {
          assert r[k] == g;
          LastWithIdSnoc(init, g, g);
        } else {
          assert r[k] == d[k];
          assert d[k].id != g.id by {
            if at.Some? {
              var m := Map(d, ProviderKey);
              assert NoDuplicates(m);
              assert m[k] != m[at.value];
            }
          }
          LastWithIdSnoc(init, g, d[k]);
        }
      }
    }
  }

  /** The de-duplicated games carry no id twice and every id of the input. */
  lemma DedupeDistinct(s: seq<ProviderGame>)
    ensures NoDuplicates(Map(DedupeById(s), ProviderKey))
    ensures forall id :: id in Map(DedupeById(s), ProviderKey) <==> id in Map(s, ProviderKey)
  {
    DedupeIds(s);
    DistinctMeaning(Map(s, ProviderKey));
  }

  // ---------------------------------------------------------------------
  // retrieveGames: the batches

  datatype RetrieveError =
    | NotDates            // `{ success: false }` for arguments that are not Dates
    | NoGameToContinue    // `games[games.length - 1].date` on an empty list throws

  const MaxRequests := 5

  /** How the loop of `retrieveGames` ends: the games received in order, the
      number of requests made, and whether it stopped at an empty list. */
  datatype Rounds = Rounds(received: seq<ProviderGame>, requests: nat, stuck: bool)

  /** The games a failed request adds: none. */
  function BatchOf(batch: Option<seq<ProviderGame>>): seq<ProviderGame> {
    match batch
    case Some(b) => b
    case None => []
  }

  /** The loop from `day` with `games` received and `done` requests made:
      while `day < end` and fewer than five requests were made, one request
      for [day, end), then the next day is the start of the last game's day.
      With no game at all, `lastGame.date` throws. */
  function RoundsFrom(day: int, end: int, games: seq<ProviderGame>, done: nat,
                      fetch: (int, int) -> Option<seq<ProviderGame>>, dayStart: int -> int): Rounds
    requires done <= MaxRequests
    decreases MaxRequests - done
  {
    if !(day < end && done < MaxRequests) then Rounds(games, done, false)
    else
      var games' := games + BatchOf(fetch(day, end));
      if games' == [] then Rounds(games', done + 1, true)
      else RoundsFrom(dayStart(games'[|games'| - 1].date), end, games', done + 1, fetch, dayStart)
  }

  /** The rounds only add games, make at most five requests, and stop at an
      empty list only when nothing was received before. */
  lemma {:induction false} RoundsGrow(day: int, end: int, games: seq<ProviderGame>, done: nat,
                                      fetch: (int, int) -> Option<seq<ProviderGame>>, dayStart: int -> int)
    requires done <= MaxRequests
    ensures var rs := RoundsFrom(day, end, games, done, fetch, dayStart);
      && games <= rs.received
      && done <= rs.requests <= MaxRequests
      && (rs.stuck ==> games == [] && rs.received == [])
      && (day < end && done < MaxRequests ==> done < rs.requests)
    decreases MaxRequests - done
  {
    if day < end && done < MaxRequests {
      var games' := games + BatchOf(fetch(day, end));
      if games' != [] {
        RoundsGrow(dayStart(games'[|games'| - 1].date), end, games', done + 1, fetch, dayStart);
      }
    }
  }

  /** `retrieveGames(start, end)`.  `fetch(from, end)` stands for one request
      (None when it fails, which the loop ignores) and `dayStart` for the
      midnight of a timestamp's day; `None` for an argument that is not a
      Date.  Each round asks from the day of the last game received. */
  method RetrieveGames(start: Option<int>, end: Option<int>,
                       fetch: (int, int) -> Option<seq<ProviderGame>>, dayStart: int -> int)
    returns (r: Result<seq<ProviderGame>, RetrieveError>, requests: nat)
    ensures start.None? || end.None? ==> r == Err(NotDates) && requests == 0
    ensures requests <= MaxRequests
    ensures start.Some? && end.Some? && start.value < end.value ==> requests >= 1
    ensures start.Some? && end.Some? ==>
      var rs := RoundsFrom(start.value, end.value, [], 0, fetch, dayStart);
      && requests == rs.requests
      && (r == Err(NoGameToContinue) <==> rs.stuck)
      && (r.Ok? <==> !rs.stuck)
      && (r.Ok? ==> r.value == DedupeById(rs.received))
    ensures r.Ok? ==> NoDuplicates(Map(r.value, ProviderKey))
  {
    if start.None? || end.None? {
      return Err(NotDates), 0;
    }
    ghost var rs := RoundsFrom(start.value, end.value, [], 0, fetch, dayStart);
    RoundsGrow(start.value, end.value, [], 0, fetch, dayStart);
    var games: seq<ProviderGame> := [];
    var currentDay := start.value;
    requests := 0;
    while currentDay < end.value && requests < MaxRequests
      invariant requests <= MaxRequests
      invariant RoundsFrom(currentDay, end.value, games, requests, fetch, dayStart) == rs
      decreases MaxRequests - requests
    {
      var batch := fetch(currentDay, end.value);
      games := games + BatchOf(batch);
      if games == [] {
        return Err(NoGameToContinue), requests + 1;
      }
      var lastGame := games[|games| - 1];
      currentDay := dayStart(lastGame.date);
      requests := requests + 1;
    }
    DedupeDistinct(games);
    r := Ok(DedupeById(games));
  }

  // ---------------------------------------------------------------------
  // updateGames

  /** The state the reconciliation works on: the two collections, the number
      of games updated, and whether the run has failed. */
  datatype Run = Run(games: seq<Game>, preds: seq<Prediction>, updated: nat, failed: bool)

  /** The stored game after the provider reported it Final. */
  function Finished(g: Game, pg: ProviderGame): Game {
    g.(status := Final, awayScore := pg.visitorScore, homeScore := pg.homeScore)
  }

  /** One retrieved game in the first pass (lines 100-111): a Final report
      finishes the first stored game with that provider id unless it is
      already Final, and settles its predictions. */
  function FirstStep(s: Run, pg: ProviderGame): Run {
    if pg.status != "Final" then s
    else match IndexOfProviderGame(s.games, pg.id)
      case None => s
      case Some(j) =>
        if s.games[j].status == Final then s
        else Run(s.games[j := Finished(s.games[j], pg)],
                 SettleAll(s.preds, s.games[j].id, pg.visitorScore, pg.homeScore),
                 s.updated + 1, s.failed)
  }

  function FirstPass(s: Run, retrieved: seq<ProviderGame>): Run {
    if retrieved == [] then s else FirstStep(FirstPass(s, retrieved[..|retrieved| - 1]), retrieved[|retrieved| - 1])
  }

  function ProviderIdOf(g: Game): int {
    g.providerId
  }

  function IdOf(g: Game): GameId {
    g.id
  }

  /** First-pass invariants: the games keep their positions, ids and provider
      ids; a Final game stays as it is; any other game stays or is finished by
      a retrieved Final report for its provider id. */
  lemma {:induction false} FirstPassShape(s: Run, retrieved: seq<ProviderGame>)
    ensures var t := FirstPass(s, retrieved);
      && |t.games| == |s.games| && t.failed == s.failed
      && Map(t.games, ProviderIdOf) == Map(s.games, ProviderIdOf)
      && Map(t.games, IdOf) == Map(s.games, IdOf)
      && (forall i :: 0 <= i < |s.games| && s.games[i].status == Final ==> t.games[i] == s.games[i])
      && (forall i :: 0 <= i < |s.games| ==>
            || t.games[i] == s.games[i]
            || exists k :: 0 <= k < |retrieved| && retrieved[k].status == "Final"
                 && retrieved[k].id == s.games[i].providerId && t.games[i] == Finished(s.games[i], retrieved[k]))
  {
    if retrieved != [] {
      var init, pg := retrieved[..|retrieved| - 1], retrieved[|retrieved| - 1];
      FirstPassShape(s, init);
      var u := FirstPass(s, init);
      var t := FirstStep(u, pg);
      assert forall k :: 0 <= k < |init| ==> retrieved[k] == init[k];
      assert Map(t.games, ProviderIdOf) == Map(u.games, ProviderIdOf);
      assert Map(t.games, IdOf) == Map(u.games, IdOf);
      forall i | 0 <= i < |s.games|
        ensures || t.games[i] == s.games[i]
                || exists k :: 0 <= k < |retrieved| && retrieved[k].status == "Final"
                     && retrieved[k].id == s.games[i].providerId && t.games[i] == Finished(s.games[i], retrieved[k])
      {
        if t.games[i] != u.games[i] {
          assert u.games[i].providerId == s.games[i].providerId;
          assert u.games[i] == s.games[i];
          assert t.games[i] == Finished(s.games[i], retrieved[|retrieved| - 1]);
        } else if u.games[i] != s.games[i] {
          var k :| 0 <= k < |init| && init[k].status == "Final"
                   && init[k].id == s.games[i].providerId && u.games[i] == Finished(s.games[i], init[k]);
          assert retrieved[k] == init[k];
        }
      }
    }
  }

  /** Lookups by provider id depend only on the provider ids. */
  lemma {:induction false} ProviderLookupSame(a: seq<Game>, b: seq<Game>, id: int)
    requires Map(a, ProviderIdOf) == Map(b, ProviderIdOf)
    ensures IndexOfProviderGame(a, id) == IndexOfProviderGame(b, id)
  {
    if a != [] {
      assert |a| == |Map(a, ProviderIdOf)| == |b|;
      assert a[0].providerId == Map(a, ProviderIdOf)[0] == b[0].providerId;
      assert Map(a[1..], ProviderIdOf) == Map(a, ProviderIdOf)[1..];
      assert Map(b[1..], ProviderIdOf) == Map(b, ProviderIdOf)[1..];
      ProviderLookupSame(a[1..], b[1..], id);
    }
  }

  /** Every Final report has met its game: the first stored game with that
      provider id, if any, is Final. */
  predicate Settled(games: seq<Game>, retrieved: seq<ProviderGame>) {
    forall k :: 0 <= k < |retrieved| && retrieved[k].status == "Final" && IndexOfProviderGame(games, retrieved[k].id).Some? ==>
      games[IndexOfProviderGame(games, retrieved[k].id).value].status == Final
  }

  lemma {:induction false} FirstPassSettles(s: Run, retrieved: seq<ProviderGame>)
    ensures Settled(FirstPass(s, retrieved).games, retrieved)
  {
    if retrieved != [] {
      var init, pg := retrieved[..|retrieved| - 1], retrieved[|retrieved| - 1];
      FirstPassSettles(s, init);
      var u := FirstPass(s, init);
      var t := FirstStep(u, pg);
      assert Map(t.games, ProviderIdOf) == Map(u.games, ProviderIdOf);
      forall k | 0 <= k < |retrieved| && retrieved[k].status == "Final" && IndexOfProviderGame(t.games, retrieved[k].id).Some?
        ensures t.games[IndexOfProviderGame(t.games, retrieved[k].id).value].status == Final
      {
        ProviderLookupSame(t.games, u.games, retrieved[k].id);
        if k < |init| {
          assert retrieved[k] == init[k];
        }
      }
    }
  }

  /** On settled games a first pass changes nothing. */
  lemma {:induction false} SettledPassIsNoop(s: Run, retrieved: seq<ProviderGame>)
    requires Settled(s.games, retrieved)
    ensures FirstPass(s, retrieved) == s
  {
    if retrieved != [] {
      var init := retrieved[..|retrieved| - 1];
      assert Settled(s.games, init) by {
        assert forall k :: 0 <= k < |init| ==> init[k] == retrieved[k];
      }
      SettledPassIsNoop(s, init);
    }
  }

  /** Running the first pass again with the same reports is a no-op: no game
      and no prediction changes and nothing is counted. */
  lemma FirstPassIdempotent(s: Run, retrieved: seq<ProviderGame>)
    ensures var t := FirstPass(s, retrieved);
      FirstPass(t.(updated := 0), retrieved) == t.(updated := 0)
  {
    FirstPassSettles(s, retrieved);
    SettledPassIsNoop(FirstPass(s, retrieved).(updated := 0), retrieved);
  }

  /** The indices of the games a pass moved to Final. */
  function NewlyFinal(before: seq<Game>, after: seq<Game>): set<nat>
    requires |before| == |after|
  {
    set i | 0 <= i < |before| && before[i].status != Final && after[i].status == Final
  }

  /** The counter grows by exactly one per game the first pass finished. */
  lemma {:induction false} FirstPassCounts(s: Run, retrieved: seq<ProviderGame>)
    ensures |FirstPass(s, retrieved).games| == |s.games|
    ensures FirstPass(s, retrieved).updated == s.updated + |NewlyFinal(s.games, FirstPass(s, retrieved).games)|
  {
    if retrieved == [] {
      assert NewlyFinal(s.games, s.games) == {};
    } else {
      var init, pg := retrieved[..|retrieved| - 1], retrieved[|retrieved| - 1];
      FirstPassCounts(s, init);
      FirstPassKeepsFinal(s, init);
      var u := FirstPass(s, init);
      var found := IndexOfProviderGame(u.games, pg.id);
      if pg.status == "Final" && found.Some? && u.games[found.value].status != Final {
        var j := found.value;
        NewlyFinalStep(s.games, u.games, j, Finished(u.games[j], pg));
      }
    }
  }

  /** Lengths stay and Final games are left alone by the first pass. */
  lemma {:induction false} FirstPassKeepsFinal(s: Run, retrieved: seq<ProviderGame>)
    ensures |FirstPass(s, retrieved).games| == |s.games|
    ensures forall i :: 0 <= i < |s.games| && s.games[i].status == Final ==> FirstPass(s, retrieved).games[i] == s.games[i]
  {
    if retrieved != [] {
      FirstPassKeepsFinal(s, retrieved[..|retrieved| - 1]);
    }
  }

  lemma NewlyFinalStep(before: seq<Game>, mid: seq<Game>, j: nat, g: Game)
    requires |before| == |mid| && j < |mid|
    requires before[j].status != Final && mid[j].status != Final && g.status == Final
    ensures |NewlyFinal(before, mid[j := g])| == |NewlyFinal(before, mid)| + 1
  {
    assert NewlyFinal(before, mid[j := g]) == NewlyFinal(before, mid) + {j};
    assert j !in NewlyFinal(before, mid);
  }

  /** `Game.find({ status: { $ne: 'Final' }, date: { $lt: now } })`. */
  function Stale(now: int): Game -> bool {
    (g: Game) => g.status != Final && g.date < now
  }

  function NotForGame(id: GameId): Prediction -> bool {
    (p: Prediction) => p.game != id
  }

  /** `pendingGame.save()` after the Final report: the stored game with that
      id takes the status and the two scores. */
  function FinishedById(games: seq<Game>, id: GameId, pg: ProviderGame): (r: seq<Game>)
    ensures |r| == |games|
    ensures forall i :: 0 <= i < |games| ==> r[i] == if games[i].id == id then Finished(games[i], pg) else games[i]
  {
    seq(|games|, i requires 0 <= i < |games| => if games[i].id == id then Finished(games[i], pg) else games[i])
  }

  function IsGame(id: GameId): Game -> bool {
    (g: Game) => g.id != id
  }

  /** One stale game in the second pass (lines 122-139). */
  function SecondStep(s: Run, g: Game, answer: Lookup): Run {
    if s.failed then s
    else match answer
      case NoResponse => s.(failed := true)
      case NotFound => s.(games := Filter(s.games, IsGame(g.id)), preds := Filter(s.preds, NotForGame(g.id)))
      case HttpError(_) => s
      case Found(pg) =>
        if pg.status != "Final" then s
        else s.(games := FinishedById(s.games, g.id, pg),
                preds := SettleAll(s.preds, g.id, pg.visitorScore, pg.homeScore),
                updated := s.updated + 1)
  }

  function SecondPass(s: Run, stale: seq<Game>, lookup: int -> Lookup): Run {
    if stale == [] then s
    else SecondStep(SecondPass(s, stale[..|stale| - 1], lookup), stale[|stale| - 1], lookup(stale[|stale| - 1].providerId))
  }

  /** The whole run: the first pass over the retrieved games, then the second
      over the games still stale after it. */
  function Reconcile(games: seq<Game>, preds: seq<Prediction>, retrieved: seq<ProviderGame>,
                     lookup: int -> Lookup, now: int): Run {
    var first := FirstPass(Run(games, preds, 0, false), retrieved);
    SecondPass(first, Filter(first.games, Stale(now)), lookup)
  }

  function FinalAtProvider(lookup: int -> Lookup): Game -> bool {
    (g: Game) => lookup(g.providerId).Found? && lookup(g.providerId).game.status == "Final"
  }

  /** Without a failure, the counter grows by one per stale game the provider
      reports Final. */
  lemma {:induction false} SecondPassCounts(s: Run, stale: seq<Game>, lookup: int -> Lookup)
    requires !s.failed
    ensures !SecondPass(s, stale, lookup).failed ==>
      SecondPass(s, stale, lookup).updated == s.updated + |Filter(stale, FinalAtProvider(lookup))|
  {
    if stale != [] {
      var init, g := stale[..|stale| - 1], stale[|stale| - 1];
      SecondPassCounts(s, init, lookup);
      FilterSnoc(init, g, FinalAtProvider(lookup));
      assert stale == init + [g];
    }
  }

  /** A failure is final: once the run has failed, later games change nothing. */
  lemma {:induction false} SecondPassFailureSticks(s: Run, stale: seq<Game>, lookup: int -> Lookup)
    requires s.failed
    ensures SecondPass(s, stale, lookup) == s
  {
    if stale != [] {
      SecondPassFailureSticks(s, stale[..|stale| - 1], lookup);
    }
  }

  /** Steps never bring back a game id or a prediction of a game. */
  lemma {:induction false} SecondPassAddsNoGame(s: Run, stale: seq<Game>, lookup: int -> Lookup, id: GameId)
    requires forall i :: 0 <= i < |s.games| ==> s.games[i].id != id
    requires forall i :: 0 <= i < |s.preds| ==> s.preds[i].game != id
    ensures forall i :: 0 <= i < |SecondPass(s, stale, lookup).games| ==> SecondPass(s, stale, lookup).games[i].id != id
    ensures forall i :: 0 <= i < |SecondPass(s, stale, lookup).preds| ==> SecondPass(s, stale, lookup).preds[i].game != id
  {
    if stale != [] {
      SecondPassAddsNoGame(s, stale[..|stale| - 1], lookup, id);
    }
  }

  /** A stale game the provider no longer knows is deleted with all its
      predictions, unless the run failed. */
  lemma {:induction false} SecondPassDeletes(s: Run, stale: seq<Game>, lookup: int -> Lookup, k: nat)
    requires k < |stale| && lookup(stale[k].providerId) == NotFound
    ensures !SecondPass(s, stale, lookup).failed ==>
      && (forall i :: 0 <= i < |SecondPass(s, stale, lookup).games| ==> SecondPass(s, stale, lookup).games[i].id != stale[k].id)
      && (forall i :: 0 <= i < |SecondPass(s, stale, lookup).preds| ==> SecondPass(s, stale, lookup).preds[i].game != stale[k].id)
  {
    var prefix := stale[..k + 1];
    var rest := stale[k + 1..];
    SecondPassSplit(s, stale, lookup, k + 1);
    var t := SecondPass(s, prefix, lookup);
    if !t.failed {
      assert prefix[..k] == stale[..k];
      var u := SecondPass(s, stale[..k], lookup);
      assert !u.failed;
      assert t.games == Filter(u.games, IsGame(stale[k].id));
      assert t.preds == Filter(u.preds, NotForGame(stale[k].id));
      SecondPassAddsNoGame(t, rest, lookup, stale[k].id);
    } else {
      SecondPassFailureSticks(t, rest, lookup);
    }
  }

  /** A pass over one more game of a prefix is one more step. */
  lemma SecondPassPrefixStep(s: Run, stale: seq<Game>, lookup: int -> Lookup, i: nat)
    requires i < |stale|
    ensures SecondPass(s, stale[..i + 1], lookup)
         == SecondStep(SecondPass(s, stale[..i], lookup), stale[i], lookup(stale[i].providerId))
  {
    assert stale[..i + 1][..i] == stale[..i];
  }

  /** A request with no response ends the whole pass as failed, with what the
      earlier games did. */
  lemma SecondPassStops(s: Run, stale: seq<Game>, lookup: int -> Lookup, i: nat)
    requires i < |stale| && lookup(stale[i].providerId) == NoResponse
    requires !SecondPass(s, stale[..i], lookup).failed
    ensures SecondPass(s, stale, lookup) == SecondPass(s, stale[..i], lookup).(failed := true)
  {
    var t := SecondPass(s, stale[..i], lookup).(failed := true);
    SecondPassPrefixStep(s, stale, lookup, i);
    SecondPassFailureSticks(t, stale[i + 1..], lookup);
    SecondPassSplit(s, stale, lookup, i + 1);
  }

  /** A pass over a prefix, then over the rest, is a pass over the whole. */
  lemma {:induction false} SecondPassSplit(s: Run, stale: seq<Game>, lookup: int -> Lookup, n: nat)
    requires n <= |stale|
    ensures SecondPass(s, stale, lookup) == SecondPass(SecondPass(s, stale[..n], lookup), stale[n..], lookup)
    decreases |stale| - n
  {
    if n < |stale| {
      var init := stale[..|stale| - 1];
      SecondPassSplit(s, init, lookup, n);
      assert init[..n] == stale[..n];
      assert stale[n..][..|stale[n..]| - 1] == init[n..];
    } else {
      assert stale[..n] == stale;
    }
  }

  /** The games hold a Final game with that id and those scores. */
  predicate FinishedIn(games: seq<Game>, id: GameId, pg: ProviderGame) {
    exists x :: x in games && x.id == id && x.status == Final && x.awayScore == pg.visitorScore && x.homeScore == pg.homeScore
  }

  /** A stale game the provider reports Final ends Final with the reported
      scores, unless the run failed; distinct ids in the pass are needed, as
      otherwise a later game of the same id could delete it. */
  lemma {:induction false} SecondPassFinishes(s: Run, stale: seq<Game>, lookup: int -> Lookup, k: nat)
    requires k < |stale| && NoDuplicates(Map(stale, IdOf))
    requires lookup(stale[k].providerId).Found? && lookup(stale[k].providerId).game.status == "Final"
    requires stale[k].id in GameIds(s.games)
    ensures !SecondPass(s, stale, lookup).failed ==>
      FinishedIn(SecondPass(s, stale, lookup).games, stale[k].id, lookup(stale[k].providerId).game)
  {
    var pg := lookup(stale[k].providerId).game;
    var id := stale[k].id;
    var before, later := stale[..k], stale[k + 1..];
    OtherIdsDiffer(stale, k, before, later);
    SecondPassKeepsOther(s, before, lookup, id);
    var u := SecondPass(s, before, lookup);
    var t := SecondStep(u, stale[k], lookup(stale[k].providerId));
    SecondPassSplit(s, stale, lookup, k + 1);
    SecondPassPrefixStep(s, stale, lookup, k);
    assert SecondPass(s, stale, lookup) == SecondPass(t, later, lookup);
    if u.failed {
      SecondPassFailureSticks(t, later, lookup);
    } else {
      assert lookup(stale[k].providerId) == Found(pg);
      SecondStepFinishes(u, stale[k], pg);
      var x :| x in t.games && x.id == id && x.status == Final && x.awayScore == pg.visitorScore && x.homeScore == pg.homeScore;
      SecondPassKeepsFinished(t, later, lookup, x);
    }
  }

  /** With distinct ids, no game before or after the k-th has its id. */
  lemma OtherIdsDiffer(stale: seq<Game>, k: nat, before: seq<Game>, later: seq<Game>)
    requires k < |stale| && NoDuplicates(Map(stale, IdOf))
    requires before == stale[..k] && later == stale[k + 1..]
    ensures forall i :: 0 <= i < |before| ==> before[i].id != stale[k].id
    ensures forall i :: 0 <= i < |later| ==> later[i].id != stale[k].id
  {
    var m := Map(stale, IdOf);
    forall i | 0 <= i < |stale| && i != k ensures stale[i].id != stale[k].id {
      assert m[i] != m[k];
    }
    forall i | 0 <= i < |later| ensures later[i].id != stale[k].id {
      assert later[i] == stale[k + 1 + i];
    }
  }

  /** A stored game reported Final is finished by its step. */
  lemma SecondStepFinishes(u: Run, g: Game, pg: ProviderGame)
    requires !u.failed && pg.status == "Final" && g.id in GameIds(u.games)
    ensures FinishedIn(SecondStep(u, g, Found(pg)).games, g.id, pg)
  {
    var j :| 0 <= j < |u.games| && u.games[j].id == g.id;
    assert SecondStep(u, g, Found(pg)).games[j] == Finished(u.games[j], pg);
  }

  lemma InGameIds(rows: seq<Game>, x: Game)
    requires x in rows
    ensures x.id in GameIds(rows)
  {
    var i :| 0 <= i < |rows| && rows[i] == x;
  }

  /** Games whose id no step handles keep being there. */
  lemma {:induction false} SecondPassKeepsOther(s: Run, stale: seq<Game>, lookup: int -> Lookup, id: GameId)
    requires id in GameIds(s.games)
    requires forall i :: 0 <= i < |stale| ==> stale[i].id != id
    ensures id in GameIds(SecondPass(s, stale, lookup).games)
  {
    if stale != [] {
      var init, g := stale[..|stale| - 1], stale[|stale| - 1];
      SecondPassKeepsOther(s, init, lookup, id);
      var u := SecondPass(s, init, lookup);
      var t := SecondStep(u, g, lookup(g.providerId));
      assert SecondPass(s, stale, lookup) == t;
      var j :| 0 <= j < |u.games| && u.games[j].id == id;
      if !u.failed && lookup(g.providerId) == NotFound {
        assert IsGame(g.id)(u.games[j]);
        InGameIds(t.games, u.games[j]);
      } else if !u.failed && lookup(g.providerId).Found? && lookup(g.providerId).game.status == "Final" {
        assert t.games[j].id == id;
      }
    }
  }

  /** A game stays as it is when no step handles its id. */
  lemma {:induction false} SecondPassKeepsFinished(s: Run, stale: seq<Game>, lookup: int -> Lookup, x: Game)
    requires x in s.games
    requires forall i :: 0 <= i < |stale| ==> stale[i].id != x.id
    ensures x in SecondPass(s, stale, lookup).games
  {
    if stale != [] {
      var init, g := stale[..|stale| - 1], stale[|stale| - 1];
      SecondPassKeepsFinished(s, init, lookup, x);
      var u := SecondPass(s, init, lookup);
      var t := SecondStep(u, g, lookup(g.providerId));
      assert SecondPass(s, stale, lookup) == t;
      if !u.failed && lookup(g.providerId) == NotFound {
        assert IsGame(g.id)(x);
      } else if !u.failed && lookup(g.providerId).Found? && lookup(g.providerId).game.status == "Final" {
        var i :| 0 <= i < |u.games| && u.games[i] == x;
        assert t.games[i] == x;
      }
    }
  }

  /** A game Final at position i of rows with the same ids as unique `games`
      shares its id with no stale game. */
  lemma StaleIdsAvoidFinal(games: seq<Game>, rows: seq<Game>, now: int, i: nat)
    requires UniqueGameIds(games) && |rows| == |games|
    requires forall j :: 0 <= j < |rows| ==> rows[j].id == games[j].id
    requires i < |rows| && rows[i].status == Final
    ensures forall k :: 0 <= k < |Filter(rows, Stale(now))| ==> Filter(rows, Stale(now))[k].id != rows[i].id
  {
    var stale := Filter(rows, Stale(now));
    forall k | 0 <= k < |stale| ensures stale[k].id != rows[i].id {
      var i' :| 0 <= i' < |rows| && rows[i'] == stale[k];
      assert i' != i by {
        assert rows[i'].status != Final;
      }
    }
  }

  /** A game that was Final before the run is still there, unchanged,
      whatever the provider answers. */
  lemma ReconcileKeepsFinal(games: seq<Game>, preds: seq<Prediction>, retrieved: seq<ProviderGame>,
                            lookup: int -> Lookup, now: int, x: Game)
    requires UniqueGameIds(games) && x in games && x.status == Final
    ensures x in Reconcile(games, preds, retrieved, lookup, now).games
  {
    var start := Run(games, preds, 0, false);
    var first := FirstPass(start, retrieved);
    FirstPassKeepsFinal(start, retrieved);
    FirstPassShape(start, retrieved);
    var i :| 0 <= i < |games| && games[i] == x;
    assert first.games[i] == x;
    var stale := Filter(first.games, Stale(now));
    forall j | 0 <= j < |games| ensures first.games[j].id == games[j].id {
      assert Map(first.games, IdOf)[j] == Map(games, IdOf)[j];
    }
    StaleIdsAvoidFinal(games, first.games, now, i);
    SecondPassKeepsFinished(first, stale, lookup, x);
  }

  /** A run that did not fail counts the games the first pass finished plus
      the stale games the provider reported Final. */
  lemma ReconcileCounts(games: seq<Game>, preds: seq<Prediction>, retrieved: seq<ProviderGame>,
                        lookup: int -> Lookup, now: int)
    ensures var first := FirstPass(Run(games, preds, 0, false), retrieved);
      var run := Reconcile(games, preds, retrieved, lookup, now);
      && |first.games| == |games|
      && (!run.failed ==> run.updated == |NewlyFinal(games, first.games)| + |Filter(Filter(first.games, Stale(now)), FinalAtProvider(lookup))|)
  {
    var start := Run(games, preds, 0, false);
    FirstPassCounts(start, retrieved);
    FirstPassShape(start, retrieved);
    var first := FirstPass(start, retrieved);
    SecondPassCounts(first, Filter(first.games, Stale(now)), lookup);
  }

  /** A game still stale after the first pass, which the provider no longer
      knows, is gone after a run that did not fail, and so are its
      predictions. */
  lemma ReconcileDeletes(games: seq<Game>, preds: seq<Prediction>, retrieved: seq<ProviderGame>,
                         lookup: int -> Lookup, now: int, x: Game)
    requires x in Filter(FirstPass(Run(games, preds, 0, false), retrieved).games, Stale(now))
    requires lookup(x.providerId) == NotFound
    ensures var run := Reconcile(games, preds, retrieved, lookup, now);
      !run.failed ==> x.id !in GameIds(run.games) && forall p :: p in run.preds ==> p.game != x.id
  {
    var first := FirstPass(Run(games, preds, 0, false), retrieved);
    var stale := Filter(first.games, Stale(now));
    var k :| 0 <= k < |stale| && stale[k] == x;
    SecondPassDeletes(first, stale, lookup, k);
  }

  /** A game still stale after the first pass, which the provider reports
      Final, ends Final with the reported scores after a run that did not
      fail. */
  lemma ReconcileFinishes(games: seq<Game>, preds: seq<Prediction>, retrieved: seq<ProviderGame>,
                          lookup: int -> Lookup, now: int, x: Game)
    requires UniqueGameIds(games)
    requires x in Filter(FirstPass(Run(games, preds, 0, false), retrieved).games, Stale(now))
    requires lookup(x.providerId).Found? && lookup(x.providerId).game.status == "Final"
    ensures var run := Reconcile(games, preds, retrieved, lookup, now);
      !run.failed ==> FinishedIn(run.games, x.id, lookup(x.providerId).game)
  {
    var start := Run(games, preds, 0, false);
    var first := FirstPass(start, retrieved);
    FirstPassShape(start, retrieved);
    assert UniqueGameIds(first.games) by {
      assert forall i :: 0 <= i < |games| ==> Map(first.games, IdOf)[i] == Map(games, IdOf)[i];
    }
    var stale := Filter(first.games, Stale(now));
    FilterOfUniqueIds(first.games, Stale(now));
    var k :| 0 <= k < |stale| && stale[k] == x;
    InGameIds(first.games, x);
    SecondPassFinishes(first, stale, lookup, k);
  }

  datatype UpdateGamesError = ServerError

  /** `updateGames`, with the result of `retrieveGames` for the past week,
      the provider's answers by provider id and the clock as parameters.  The
      changes made before a failure stay, as the collections have no
      transactions. */
  method UpdateGames(games: GameTable, preds: PredictionTable, retrieved: Result<seq<ProviderGame>, RetrieveError>,
                     lookup: int -> Lookup, now: int)
    returns (r: Result<nat, UpdateGamesError>)
    requires games.Valid() && preds.Valid()
    modifies games, preds
    ensures games.Valid() && preds.Valid()
    ensures retrieved.Err? ==> r.Err? && games.rows == old(games.rows) && preds.rows == old(preds.rows)
    ensures retrieved.Ok? ==>
      var run := Reconcile(old(games.rows), old(preds.rows), retrieved.value, lookup, now);
      && games.rows == run.games && preds.rows == run.preds
      && (r.Ok? <==> !run.failed)
      && (r.Ok? ==> r.value == run.updated)
  {
    if retrieved.Err? {
      return Err(ServerError);
    }
    var numberUpdated := ApplyReports(games, preds, retrieved.value);
    var stale := Filter(games.rows, Stale(now));
    StaleIdsDistinct(games.rows, now);
    var failed;
    numberUpdated, failed := CheckStale(games, preds, stale, lookup, numberUpdated);
    if failed {
      return Err(ServerError);
    }
    r := Ok(numberUpdated);
  }

  /** The first pass over the retrieved games (lines 100-112). */
  method ApplyReports(games: GameTable, preds: PredictionTable, reports: seq<ProviderGame>) returns (numberUpdated: nat)
    requires games.Valid() && preds.Valid()
    modifies games, preds
    ensures games.Valid() && preds.Valid()
    ensures Run(games.rows, preds.rows, numberUpdated, false) == FirstPass(Run(old(games.rows), old(preds.rows), 0, false), reports)
  {
    numberUpdated := 0;
    ghost var start := Run(games.rows, preds.rows, 0, false);
    for i := 0 to |reports|
      invariant games.Valid() && preds.Valid()
      invariant FirstPass(start, reports[..i]) == Run(games.rows, preds.rows, numberUpdated, false)
    {
      var report := reports[i];
      assert reports[..i + 1][..i] == reports[..i];
      assert FirstPass(start, reports[..i + 1]) == FirstStep(FirstPass(start, reports[..i]), report);
      if report.status == "Final" {
        var found := IndexOfProviderGame(games.rows, report.id);
        if found.Some? && games.rows[found.value].status != Final {
          FinishAt(games, preds, found.value, report);
          numberUpdated := numberUpdated + 1;
        }
      }
    }
    assert reports[..|reports|] == reports;
  }

  /** `game.save()` on the stored game at `j`, then `updatePredictions`. */
  method FinishAt(games: GameTable, preds: PredictionTable, j: nat, report: ProviderGame)
    requires games.Valid() && preds.Valid() && j < |games.rows|
    modifies games, preds
    ensures games.Valid() && preds.Valid()
    ensures games.rows == old(games.rows)[j := Finished(old(games.rows)[j], report)]
    ensures preds.rows == SettleAll(old(preds.rows), old(games.rows)[j].id, report.visitorScore, report.homeScore)
  {
    var game := games.rows[j];
    FinishKeepsIds(games.rows, j, report);
    games.rows := games.rows[j := Finished(game, report)];
    FinishedFound(games.rows, j, game.id);
    var settled := UpdatePredictions(preds, games, game.id, report.visitorScore, report.homeScore);
  }

  /** The second pass over the stale games (lines 114-140); `failed` when a
      request got no response, which ends the run. */
  method CheckStale(games: GameTable, preds: PredictionTable, stale: seq<Game>, lookup: int -> Lookup, updated: nat)
    returns (numberUpdated: nat, failed: bool)
    requires games.Valid() && preds.Valid()
    requires forall k, k' :: 0 <= k < k' < |stale| ==> stale[k].id != stale[k'].id
    requires forall k :: 0 <= k < |stale| ==> stale[k].id in GameIds(games.rows)
    modifies games, preds
    ensures games.Valid() && preds.Valid()
    ensures Run(games.rows, preds.rows, numberUpdated, failed)
         == SecondPass(Run(old(games.rows), old(preds.rows), updated, false), stale, lookup)
  {
    ghost var first := Run(games.rows, preds.rows, updated, false);
    numberUpdated := updated;
    for i := 0 to |stale|
      invariant games.Valid() && preds.Valid()
      invariant SecondPass(first, stale[..i], lookup) == Run(games.rows, preds.rows, numberUpdated, false)
      invariant forall k :: i <= k < |stale| ==> stale[k].id in GameIds(games.rows)
    {
      var pendingGame := stale[i];
      SecondPassPrefixStep(first, stale, lookup, i);
      var answer := lookup(pendingGame.providerId);
      if answer.NoResponse? {
        SecondPassStops(first, stale, lookup, i);
        return numberUpdated, true;
      }
      numberUpdated := CheckStaleGame(games, preds, stale, i, answer, numberUpdated);
    }
    assert stale[..|stale|] == stale;
    failed := false;
  }

  /** One stale game of the second pass (lines 122-139) given a response:
      finished when reported Final, deleted with its predictions on a 404. */
  method CheckStaleGame(games: GameTable, preds: PredictionTable, stale: seq<Game>, i: nat,
                        answer: Lookup, updated: nat) returns (numberUpdated: nat)
    requires games.Valid() && preds.Valid() && i < |stale| && !answer.NoResponse?
    requires forall k, k' :: 0 <= k < k' < |stale| ==> stale[k].id != stale[k'].id
    requires forall k :: i <= k < |stale| ==> stale[k].id in GameIds(games.rows)
    modifies games, preds
    ensures games.Valid() && preds.Valid()
    ensures Run(games.rows, preds.rows, numberUpdated, false)
         == SecondStep(Run(old(games.rows), old(preds.rows), updated, false), stale[i], answer)
    ensures forall k :: i + 1 <= k < |stale| ==> stale[k].id in GameIds(games.rows)
  {
    var pendingGame := stale[i];
    numberUpdated := updated;
    match answer
    case NotFound =>
      DeleteKeepsOthers(games.rows, stale, i);
      games.rows := Filter(games.rows, IsGame(pendingGame.id));
      FilterKeepsPredictionTable(preds.rows, preds.nextId, NotForGame(pendingGame.id));
      preds.rows := Filter(preds.rows, NotForGame(pendingGame.id));
    case HttpError(_) =>
    case Found(pg) =>
      if pg.status == "Final" {
        FinishById(games, preds, pendingGame.id, pg);
        numberUpdated := numberUpdated + 1;
      }
  }

  /** `pendingGame.save()` with the reported result, then `updatePredictions`. */
  method FinishById(games: GameTable, preds: PredictionTable, id: GameId, pg: ProviderGame)
    requires games.Valid() && preds.Valid() && id in GameIds(games.rows)
    modifies games, preds
    ensures games.Valid() && preds.Valid()
    ensures games.rows == FinishedById(old(games.rows), id, pg)
    ensures preds.rows == SettleAll(old(preds.rows), id, pg.visitorScore, pg.homeScore)
  {
    FinishByIdKeepsIds(games.rows, id, pg);
    games.rows := FinishedById(games.rows, id, pg);
    FinishedByIdFound(games.rows, id);
    var settled := UpdatePredictions(preds, games, id, pg.visitorScore, pg.homeScore);
  }

  lemma FinishKeepsIds(rows: seq<Game>, j: nat, pg: ProviderGame)
    requires j < |rows| && UniqueGameIds(rows)
    ensures UniqueGameIds(rows[j := Finished(rows[j], pg)])
  {
    var r := rows[j := Finished(rows[j], pg)];
    assert forall i :: 0 <= i < |rows| ==> r[i].id == rows[i].id;
  }

  lemma FinishedFound(rows: seq<Game>, j: nat, id: GameId)
    requires j < |rows| && UniqueGameIds(rows) && rows[j].id == id
    ensures IndexOfGame(rows, id) == Some(j)
  {
  }

  lemma FinishByIdKeepsIds(rows: seq<Game>, id: GameId, pg: ProviderGame)
    requires UniqueGameIds(rows)
    ensures UniqueGameIds(FinishedById(rows, id, pg))
  {
    var r := FinishedById(rows, id, pg);
    assert forall i :: 0 <= i < |rows| ==> r[i].id == rows[i].id;
  }

  lemma FinishedByIdFound(rows: seq<Game>, id: GameId)
    requires exists i :: 0 <= i < |rows| && rows[i].id == id
    requires forall i :: 0 <= i < |rows| && rows[i].id == id ==> rows[i].status == Final
    ensures IndexOfGame(rows, id).Some? && rows[IndexOfGame(rows, id).value].status == Final
  {
  }

  lemma StaleIdsDistinct(rows: seq<Game>, now: int)
    requires UniqueGameIds(rows)
    ensures forall k, k' :: 0 <= k < k' < |Filter(rows, Stale(now))| ==> Filter(rows, Stale(now))[k].id != Filter(rows, Stale(now))[k'].id
    ensures forall k :: 0 <= k < |Filter(rows, Stale(now))| ==> Filter(rows, Stale(now))[k].id in GameIds(rows)
  {
    FilterOfUniqueIds(rows, Stale(now));
  }

  lemma FilterOfUniqueIds(rows: seq<Game>, f: Game -> bool)
    requires UniqueGameIds(rows)
    ensures UniqueGameIds(Filter(rows, f))
  {
    FilterKeepsPairwise(rows, f, (a: Game, b: Game) => a.id != b.id);
  }

  lemma DeleteKeepsOthers(rows: seq<Game>, stale: seq<Game>, i: nat)
    requires i < |stale| && UniqueGameIds(rows)
    requires forall k, k' :: 0 <= k < k' < |stale| ==> stale[k].id != stale[k'].id
    requires forall k :: i <= k < |stale| ==> stale[k].id in GameIds(rows)
    ensures UniqueGameIds(Filter(rows, IsGame(stale[i].id)))
    ensures forall k :: i + 1 <= k < |stale| ==> stale[k].id in GameIds(Filter(rows, IsGame(stale[i].id)))
  {
    FilterOfUniqueIds(rows, IsGame(stale[i].id));
    forall k | i + 1 <= k < |stale| ensures stale[k].id in GameIds(Filter(rows, IsGame(stale[i].id))) {
      var j :| 0 <= j < |rows| && rows[j].id == stale[k].id;
      assert rows[j] in Filter(rows, IsGame(stale[i].id));
    }
  }

  /** Deleting predictions keeps the collection's invariant. */
  lemma FilterKeepsPredictionTable(rows: seq<Prediction>, nextId: nat, f: Prediction -> bool)
    requires UniquePredictionIds(rows) && UniquePlayerGame(rows)
    requires forall i :: 0 <= i < |rows| ==> rows[i].id.n < nextId && GuessMatchesStatus(rows[i])
    ensures UniquePredictionIds(Filter(rows, f)) && UniquePlayerGame(Filter(rows, f))
    ensures forall i :: 0 <= i < |Filter(rows, f)| ==> Filter(rows, f)[i].id.n < nextId && GuessMatchesStatus(Filter(rows, f)[i])
  {
    FilterKeepsPairwise(rows, f, (a: Prediction, b: Prediction) => a.id != b.id);
    FilterKeepsPairwise(rows, f, (a: Prediction, b: Prediction) => a.player != b.player || a.game != b.game);
  }

  // ---------------------------------------------------------------------
  // getGames: the final ordering

  /** A formatted game of the answer; `None` where formatting failed and the
      mapping callback returned `undefined`. */
  datatype Card = Card(id: GameId, date: int)

  datatype LeagueGames = LeagueGames(upcoming: seq<Option<Card>>, recent: seq<Option<Card>>)

  function IsDefined(c: Option<Card>): bool {
    c.Some?
  }

  function CardDate(c: Option<Card>): int {
    if c.Some? then c.value.date else 0
  }

  function LaterFirst(c: Option<Card>): int {
    -CardDate(c)
  }

  /** `Array.prototype.sort` with a comparator: the defined entries in
      comparator order (stably), every `undefined` after them. */
  function SortCards(cards: seq<Option<Card>>, key: Option<Card> -> int): seq<Option<Card>> {
    StableSort.SortBy(Filter(cards, IsDefined), key) + Filter(cards, Not(IsDefined))
  }

  /** Both orders hold: defined cards first, ordered by the key, then the
      undefined ones, and nothing lost or invented. */
  lemma SortCardsMeaning(cards: seq<Option<Card>>, key: Option<Card> -> int)
    ensures multiset(SortCards(cards, key)) == multiset(cards)
    ensures var r := SortCards(cards, key); var n := |Filter(cards, IsDefined)|;
      && (forall i :: 0 <= i < n ==> r[i].Some?)
      && (forall i :: n <= i < |r| ==> r[i].None?)
      && (forall i, j :: 0 <= i < j < n ==> key(r[i]) <= key(r[j]))
  {
    FilterPartition(cards, IsDefined);
    var sorted := StableSort.SortBy(Filter(cards, IsDefined), key);
    forall i | 0 <= i < |sorted| ensures sorted[i].Some? {
      assert sorted[i] in multiset(Filter(cards, IsDefined));
    }
    assert StableSort.SortedBy(sorted, key);
  }

  function AllUpcoming(ls: seq<League>, cardsFor: League -> LeagueGames): seq<Option<Card>> {
    if ls == [] then [] else AllUpcoming(ls[..|ls| - 1], cardsFor) + cardsFor(ls[|ls| - 1]).upcoming
  }

  function AllRecent(ls: seq<League>, cardsFor: League -> LeagueGames): seq<Option<Card>> {
    if ls == [] then [] else AllRecent(ls[..|ls| - 1], cardsFor) + cardsFor(ls[|ls| - 1]).recent
  }

  datatype GamesView = GamesView(upcoming: seq<Option<Card>>, recent: seq<Option<Card>>)

  /** `getGames`.  `cardsFor(league)` stands for the two queries of a league
      and the formatting of their games; the model states how the per-league
      lists are combined and ordered. */
  method GetGames(players: seq<Player>, leagues: seq<League>, user: UserId, cardsFor: League -> LeagueGames)
    returns (r: Result<GamesView, UpdateGamesError>)
    ensures r.Err? <==> IndexOfUser(players, user).None?
    ensures r.Ok? ==>
      var mine := Filter(leagues, (l: League) => players[IndexOfUser(players, user).value].id in l.members);
      && r.value.upcoming == SortCards(AllUpcoming(mine, cardsFor), CardDate)
      && r.value.recent == SortCards(AllRecent(mine, cardsFor), LaterFirst)
  {
    var me := IndexOfUser(players, user);
    if me.None? {
      return Err(ServerError);
    }
    var player := players[me.value].id;
    var mine := Filter(leagues, (l: League) => player in l.members);
    var upcoming: seq<Option<Card>> := [];
    var recent: seq<Option<Card>> := [];
    for i := 0 to |mine|
      invariant upcoming == AllUpcoming(mine[..i], cardsFor)
      invariant recent == AllRecent(mine[..i], cardsFor)
    {
      var league := cardsFor(mine[i]);
      assert mine[..i + 1][..i] == mine[..i];
      upcoming := upcoming + league.upcoming;
      recent := recent + league.recent;
    }
    assert mine[..|mine|] == mine;
    r := Ok(GamesView(SortCards(upcoming, CardDate), SortCards(recent, LaterFirst)));
  }
}
