/** The League collection (models/league.module.js): the `mode` enum, the
    `join_code` validator and generator, and the pre-validate hook that keeps
    the member, invited and requesting lists duplicate-free and disjoint. */
module LeagueModel {
  import opened Ids
  import opened Wrappers
  import opened Lists
  import opened Text

  datatype Mode = Classic | Team

  /** The enum values as stored. */
  function ModeName(m: Mode): string {
    match m
    case Classic => "classic"
    case Team => "team"
  }

  /** Casting a string to the enum: only the two listed values are accepted. */
  function ParseMode(s: string): (r: Option<Mode>)
    ensures r.Some? <==> s == "classic" || s == "team"
    ensures r.Some? ==> ModeName(r.value) == s
  {
    if s == "classic" then Some(Classic)
    else if s == "team" then Some(Team)
    else None
  }

  lemma ParseModeName(m: Mode)
    ensures ParseMode(ModeName(m)) == Some(m)
  {
  }

  datatype League = League(
    id: LeagueId,
    name: string,
    owner: PlayerId,
    joinCode: string,
    mode: Mode,
    team: Option<TeamId>,
    games: seq<GameId>,
    members: seq<PlayerId>,
    invited: seq<PlayerId>,
    requesting: seq<PlayerId>)

  /** Every id the league knows about, in the order of the three lists. */
  function AllPlayers(l: League): seq<PlayerId> {
    l.members + l.invited + l.requesting
  }

  // ---------------------------------------------------------------------
  // join_code

  /** Exactly eight characters, each a decimal digit. */
  predicate IsEightDigitCode(s: string) {
    |s| == 8 && AllDigits(s)
  }

  /** The `join_code` validator: a length check, then a scan of the eight
      characters that gives up at the first non-digit. */
  method ValidateJoinCode(code: string) returns (ok: bool)
    ensures ok <==> IsEightDigitCode(code)
  {
    if |code| != 8 {
      return false;
    }
    var i := 0;
    while i < 8
      invariant 0 <= i <= 8
      invariant forall k :: 0 <= k < i ==> IsDigit(code[k])
    {
      if code[i] < '0' || code[i] > '9' {
        return false;
      }
      i := i + 1;
    }
    return true;
  }

  /** One draw of `generateJoinCode` for `0 <= random < 1`: the eight-digit
      number as a string, which always passes the validator. */
  function GenerateJoinCode(random: real): (code: string)
    requires 0.0 <= random < 1.0
    ensures IsEightDigitCode(code)
    ensures ParseDigits(code) == DrawEightDigits(random)
  {
    EightDigitsString(DrawEightDigits(random));
    ParseNatToString(DrawEightDigits(random));
    NatToString(DrawEightDigits(random))
  }

  /** Some stored league has that join code (`League.findOne({ join_code })`). */
  predicate JoinCodeTaken(rows: seq<League>, code: string) {
    exists i :: 0 <= i < |rows| && rows[i].joinCode == code
  }

  /** A list of draws of `Math.random()`. */
  predicate AreDraws(draws: seq<real>) {
    forall k :: 0 <= k < |draws| ==> 0.0 <= draws[k] < 1.0
  }

  /** Where the retry loop of `generateJoinCode` stops: the first draw whose
      code no stored league has, or None when every draw gives a taken code. */
  function FirstFreeCode(rows: seq<League>, draws: seq<real>): (k: Option<nat>)
    requires AreDraws(draws)
    ensures k.Some? ==> k.value < |draws| && !JoinCodeTaken(rows, GenerateJoinCode(draws[k.value]))
    ensures k.Some? ==> forall j :: 0 <= j < k.value ==> JoinCodeTaken(rows, GenerateJoinCode(draws[j]))
    ensures k.None? ==> forall j :: 0 <= j < |draws| ==> JoinCodeTaken(rows, GenerateJoinCode(draws[j]))
  {
    if draws == [] then None
    else if !JoinCodeTaken(rows, GenerateJoinCode(draws[0])) then Some(0)
    else
      assert AreDraws(draws[1..]) by {
        forall k | 0 <= k < |draws[1..]| ensures 0.0 <= draws[1..][k] < 1.0 {
          assert draws[1..][k] == draws[k + 1];
        }
      }
      match FirstFreeCode(rows, draws[1..])
      case None =>
        assert forall j :: 1 <= j < |draws| ==> draws[j] == draws[1..][j - 1];
        None
      case Some(k) =>
        assert forall j :: 1 <= j < k + 1 ==> draws[j] == draws[1..][j - 1];
        Some(k + 1)
  }

  /** `generateJoinCode`: draw until the code is unused.  The draws are the
      successive values of `Math.random()`; they are assumed to reach a free
      code, since the loop otherwise never ends. */
  method FreshJoinCode(rows: seq<League>, draws: seq<real>) returns (code: string)
    requires AreDraws(draws) && FirstFreeCode(rows, draws).Some?
    ensures code == GenerateJoinCode(draws[FirstFreeCode(rows, draws).value])
    ensures IsEightDigitCode(code) && !JoinCodeTaken(rows, code)
  {
    var i := 0;
    while JoinCodeTaken(rows, GenerateJoinCode(draws[i]))
      invariant i <= FirstFreeCode(rows, draws).value
      decreases FirstFreeCode(rows, draws).value - i
    {
      i := i + 1;
    }
    code := GenerateJoinCode(draws[i]);
  }

  // ---------------------------------------------------------------------
  // pre-validate hook

  datatype ListError = DuplicateMembers | DuplicateInvited | DuplicateRequesting | ListsOverlap

  /** The three lists are duplicate-free and pairwise disjoint. */
  predicate ListsWellFormed(members: seq<PlayerId>, invited: seq<PlayerId>, requesting: seq<PlayerId>) {
    && NoDuplicates(members) && NoDuplicates(invited) && NoDuplicates(requesting)
    && Disjoint(members, invited) && Disjoint(members, requesting) && Disjoint(invited, requesting)
  }

  /** The hook as written: `new Set(list).size !== list.length` for each list in
      turn, then the same size test on the concatenation of all three. */
  function ValidateLists(members: seq<PlayerId>, invited: seq<PlayerId>, requesting: seq<PlayerId>): Option<ListError> {
    if |Elements(members)| != |members| then Some(DuplicateMembers)
    else if |Elements(invited)| != |invited| then Some(DuplicateInvited)
    else if |Elements(requesting)| != |requesting| then Some(DuplicateRequesting)
    else if |Elements(members + invited + requesting)| != |members| + |invited| + |requesting| then Some(ListsOverlap)
    else None
  }

  /** The errors of the hook, in its order, and the case where it passes:
      exactly the duplicate-free, pairwise disjoint lists. */
  lemma ValidateListsMeaning(members: seq<PlayerId>, invited: seq<PlayerId>, requesting: seq<PlayerId>)
    ensures ValidateLists(members, invited, requesting) == Some(DuplicateMembers) <==> !NoDuplicates(members)
    ensures ValidateLists(members, invited, requesting) == Some(DuplicateInvited) <==>
      NoDuplicates(members) && !NoDuplicates(invited)
    ensures ValidateLists(members, invited, requesting) == Some(DuplicateRequesting) <==>
      NoDuplicates(members) && NoDuplicates(invited) && !NoDuplicates(requesting)
    ensures ValidateLists(members, invited, requesting) == Some(ListsOverlap) <==>
      NoDuplicates(members) && NoDuplicates(invited) && NoDuplicates(requesting)
      && !(Disjoint(members, invited) && Disjoint(members, requesting) && Disjoint(invited, requesting))
    ensures ValidateLists(members, invited, requesting).None? <==> ListsWellFormed(members, invited, requesting)
  {
    DistinctIffCardinality(members);
    DistinctIffCardinality(invited);
    DistinctIffCardinality(requesting);
    var all := members + invited + requesting;
    DistinctIffCardinality(all);
    assert |all| == |members| + |invited| + |requesting|;
    NoDuplicatesAppend(members + invited, requesting);
    NoDuplicatesAppend(members, invited);
    DisjointAppend(members, invited, requesting);
  }

  function ValidateLeague(l: League): Option<ListError> {
    ValidateLists(l.members, l.invited, l.requesting)
  }

  /** Why saving a new league fails: the pre-validate hook, or the unique
      index on `name` or on `join_code`. */
  datatype InsertError = HookFailed(error: ListError) | NameInUse | JoinCodeInUse

  /** The collection: ids, names and join codes distinct (the unique indexes
      on `name` and `join_code`), every join code valid, every league passing
      the pre-validate hook. */
  class LeagueTable {
    var rows: seq<League>

    ghost predicate Valid()
      reads this
    {
      && (forall i, j :: 0 <= i < j < |rows| ==> rows[i].id != rows[j].id)
      && (forall i, j :: 0 <= i < j < |rows| ==> rows[i].name != rows[j].name)
      && (forall i, j :: 0 <= i < j < |rows| ==> rows[i].joinCode != rows[j].joinCode)
      && (forall i :: 0 <= i < |rows| ==> IsEightDigitCode(rows[i].joinCode))
      && (forall i :: 0 <= i < |rows| ==> ValidateLeague(rows[i]).None?)
    }

    constructor ()
      ensures Valid() && rows == []
    {
      rows := [];
    }

    /** `newLeague.save()` of a new league with a fresh id and a generated join
        code: the pre-validate hook first, then the unique indexes on `name`
        and on `join_code`. */
    method Insert(l: League) returns (r: Option<InsertError>)
      requires Valid() && IsEightDigitCode(l.joinCode)
      requires forall i :: 0 <= i < |rows| ==> rows[i].id != l.id
      modifies this
      ensures Valid()
      ensures ValidateLeague(l).Some? ==> r == Some(HookFailed(ValidateLeague(l).value))
      ensures ValidateLeague(l).None? ==> (r == Some(NameInUse) <==> NameTaken(old(rows), l.name))
      ensures ValidateLeague(l).None? && !NameTaken(old(rows), l.name) ==>
        (r == Some(JoinCodeInUse) <==> JoinCodeTaken(old(rows), l.joinCode))
      ensures r.None? <==> ValidateLeague(l).None? && !NameTaken(old(rows), l.name) && !JoinCodeTaken(old(rows), l.joinCode)
      ensures r.None? ==> rows == old(rows) + [l]
      ensures r.Some? ==> rows == old(rows)
    {
      var hook := ValidateLeague(l);
      if hook.Some? {
        return Some(HookFailed(hook.value));
      }
      if exists i :: 0 <= i < |rows| && rows[i].name == l.name {
        return Some(NameInUse);
      }
      if exists i :: 0 <= i < |rows| && rows[i].joinCode == l.joinCode {
        return Some(JoinCodeInUse);
      }
      rows := rows + [l];
      return None;
    }

    /** `league.save()` of an edited stored league (its id, name and immutable
        join code kept): the pre-validate hook decides; a refused league
        changes nothing. */
    method Save(i: nat, l: League) returns (r: Option<ListError>)
      requires Valid() && i < |rows|
      requires l.id == rows[i].id && l.name == rows[i].name && l.joinCode == rows[i].joinCode
      modifies this
      ensures Valid()
      ensures r == ValidateLeague(l)
      ensures r.None? ==> rows == old(rows)[i := l]
      ensures r.Some? ==> rows == old(rows)
    {
      r := ValidateLeague(l);
      if r.None? {
        rows := rows[i := l];
      }
    }
  }

  /** The position of the league with that id (`League.findById`). */
  function IndexOfLeague(rows: seq<League>, id: LeagueId): (r: Option<nat>)
    ensures r.Some? ==> r.value < |rows| && rows[r.value].id == id
    ensures r.None? ==> forall i :: 0 <= i < |rows| ==> rows[i].id != id
  {
    if rows == [] then None
    else if rows[0].id == id then Some(0)
    else match IndexOfLeague(rows[1..], id)
      case None => None
      case Some(k) => Some(k + 1)
  }

  /** `League.exists({ name })`. */
  predicate NameTaken(rows: seq<League>, name: string) {
    exists i :: 0 <= i < |rows| && rows[i].name == name
  }
}
