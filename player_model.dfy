/** The Player collection (models/player.module.js): the friendId length rule
    and generator, the validators of the friends, sent_requests and leagues
    lists, and the pre-save rule of one player per user. */
module PlayerModel {
  import opened Ids
  import opened Wrappers
  import opened Lists
  import opened Text

  datatype Player = Player(
    id: PlayerId,
    user: UserId,
    friendId: string,
    friends: seq<PlayerId>,
    sent: seq<PlayerId>,
    leagues: seq<LeagueId>)

  datatype PlayerError =
    | BadFriendId
    | FriendsSelf | FriendsDuplicate | FriendsOverlap
    | SentSelf | SentDuplicate | SentOverlap
    | LeaguesDuplicate
    | UserHasPlayer
    | FriendIdInUse

  /** The friendId validator returns `false` for a length other than 8 and
      nothing otherwise, which Mongoose counts as a pass. */
  function ValidateFriendId(v: string): (r: Option<PlayerError>)
    ensures r.None? <==> |v| == 8
  {
    if |v| != 8 then Some(BadFriendId) else None
  }

  /** `generateFriendId` for a draw `0 <= random < 1`: the number is stored in
      the String path, as its eight digits.  The retry until unused is not
      modelled. */
  function GenerateFriendId(random: real): (v: string)
    requires 0.0 <= random < 1.0
    ensures ValidateFriendId(v).None? && AllDigits(v)
    ensures ParseDigits(v) == DrawEightDigits(random)
  {
    EightDigitsString(DrawEightDigits(random));
    ParseNatToString(DrawEightDigits(random));
    NatToString(DrawEightDigits(random))
  }

  /** The friends validator, in its order: the player itself, a `Set`-size
      duplicate test, a shared entry with sent_requests.  (The overlap branch
      calls an undefined `next`; the exception fails validation all the same.) */
  function ValidateFriends(p: Player): Option<PlayerError> {
    if p.id in p.friends then Some(FriendsSelf)
    else if |Elements(p.friends)| != |p.friends| then Some(FriendsDuplicate)
    else if exists i :: 0 <= i < |p.friends| && p.friends[i] in Elements(p.sent) then Some(FriendsOverlap)
    else None
  }

  /** The sent_requests validator: the same three tests from the other side. */
  function ValidateSent(p: Player): Option<PlayerError> {
    if p.id in p.sent then Some(SentSelf)
    else if |Elements(p.sent)| != |p.sent| then Some(SentDuplicate)
    else if exists i :: 0 <= i < |p.sent| && p.sent[i] in Elements(p.friends) then Some(SentOverlap)
    else None
  }

  function ValidateLeagues(p: Player): Option<PlayerError> {
    if |Elements(p.leagues)| != |p.leagues| then Some(LeaguesDuplicate) else None
  }

  /** Validation of a whole document, path by path in schema order; the first
      failing path is reported. */
  function ValidatePlayer(p: Player): Option<PlayerError> {
    if ValidateFriendId(p.friendId).Some? then ValidateFriendId(p.friendId)
    else if ValidateFriends(p).Some? then ValidateFriends(p)
    else if ValidateSent(p).Some? then ValidateSent(p)
    else ValidateLeagues(p)
  }

  /** What a stored player satisfies. */
  predicate PlayerInvariant(p: Player) {
    && |p.friendId| == 8
    && p.id !in p.friends && NoDuplicates(p.friends)
    && p.id !in p.sent && NoDuplicates(p.sent)
    && Disjoint(p.friends, p.sent)
    && NoDuplicates(p.leagues)
  }

  lemma FriendsValidatorMeaning(p: Player)
    ensures ValidateFriends(p).None? <==> p.id !in p.friends && NoDuplicates(p.friends) && Disjoint(p.friends, p.sent)
  {
    DistinctIffCardinality(p.friends);
    assert forall x :: x in Elements(p.sent) <==> x in p.sent;
  }

  lemma SentValidatorMeaning(p: Player)
    ensures ValidateSent(p).None? <==> p.id !in p.sent && NoDuplicates(p.sent) && Disjoint(p.friends, p.sent)
  {
    DistinctIffCardinality(p.sent);
    assert forall x :: x in Elements(p.friends) <==> x in p.friends;
    DisjointSymmetric(p.friends, p.sent);
  }

  /** A document passes validation exactly when it satisfies the invariant. */
  lemma ValidatePlayerMeaning(p: Player)
    ensures ValidatePlayer(p).None? <==> PlayerInvariant(p)
  {
    FriendsValidatorMeaning(p);
    SentValidatorMeaning(p);
    DistinctIffCardinality(p.leagues);
  }

  /** A first friend request that is neither to oneself nor to a friend keeps a
      valid player valid exactly when it was not already sent. */
  lemma SendRequestKeepsInvariant(p: Player, f: PlayerId)
    requires PlayerInvariant(p) && f != p.id && f !in p.friends
    ensures PlayerInvariant(p.(sent := p.sent + [f])) <==> f !in p.sent
  {
    var sent' := p.sent + [f];
    NoDuplicatesAppend(p.sent, [f]);
    DisjointSymmetric(p.friends, sent');
    DisjointSymmetric(p.friends, p.sent);
    DisjointAppend(p.sent, [f], p.friends);
  }

  /** Adding a friend keeps a valid player valid exactly when the newcomer is
      neither the player, nor a friend already, nor a pending request. */
  lemma AddFriendKeepsInvariant(p: Player, f: PlayerId)
    requires PlayerInvariant(p)
    ensures PlayerInvariant(p.(friends := p.friends + [f])) <==> f != p.id && f !in p.friends && f !in p.sent
  {
    var friends' := p.friends + [f];
    NoDuplicatesAppend(p.friends, [f]);
    DisjointAppend(p.friends, [f], p.sent);
    assert f in friends';
  }

  /** Removing every occurrence of an id from either list keeps a valid player
      valid. */
  lemma RemovalKeepsInvariant(p: Player, x: PlayerId)
    requires PlayerInvariant(p)
    ensures PlayerInvariant(p.(friends := RemoveAll(p.friends, x)))
    ensures PlayerInvariant(p.(sent := RemoveAll(p.sent, x)))
  {
    RemoveAllKeepsDistinct(p.friends, x);
    RemoveAllKeepsDistinct(p.sent, x);
  }

  /** `Player.findOne({ user })`. */
  function IndexOfUser(rows: seq<Player>, user: UserId): (r: Option<nat>)
    ensures r.Some? ==> r.value < |rows| && rows[r.value].user == user
    ensures r.None? ==> forall i :: 0 <= i < |rows| ==> rows[i].user != user
  {
    if rows == [] then None
    else if rows[0].user == user then Some(0)
    else match IndexOfUser(rows[1..], user)
      case None => None
      case Some(k) => Some(k + 1)
  }

  /** `Player.findById(id)`. */
  function IndexOfPlayer(rows: seq<Player>, id: PlayerId): (r: Option<nat>)
    ensures r.Some? ==> r.value < |rows| && rows[r.value].id == id
    ensures r.None? ==> forall i :: 0 <= i < |rows| ==> rows[i].id != id
  {
    if rows == [] then None
    else if rows[0].id == id then Some(0)
    else match IndexOfPlayer(rows[1..], id)
      case None => None
      case Some(k) => Some(k + 1)
  }

  /** `Player.findOne({ friendId })`. */
  function IndexOfFriendCode(rows: seq<Player>, code: string): (r: Option<nat>)
    ensures r.Some? ==> r.value < |rows| && rows[r.value].friendId == code
    ensures r.None? ==> forall i :: 0 <= i < |rows| ==> rows[i].friendId != code
  {
    if rows == [] then None
    else if rows[0].friendId == code then Some(0)
    else match IndexOfFriendCode(rows[1..], code)
      case None => None
      case Some(k) => Some(k + 1)
  }

  function PlayerIds(rows: seq<Player>): set<PlayerId> {
    set i | 0 <= i < |rows| :: rows[i].id
  }

  /** The collection: distinct ids, one player per user (the unique index on
      `user`), distinct friend codes (the unique index on `friendId`), every
      player valid. */
  class PlayerTable {
    var rows: seq<Player>

    ghost predicate Valid()
      reads this
    {
      && (forall i, j :: 0 <= i < j < |rows| ==> rows[i].id != rows[j].id)
      && (forall i, j :: 0 <= i < j < |rows| ==> rows[i].user != rows[j].user)
      && (forall i, j :: 0 <= i < j < |rows| ==> rows[i].friendId != rows[j].friendId)
      && (forall i :: 0 <= i < |rows| ==> PlayerInvariant(rows[i]))
    }

    constructor ()
      ensures Valid() && rows == []
    {
      rows := [];
    }

    /** Saving a new player with a fresh id: validation first, then the
        pre-save hook, which refuses a second player for the same user, then
        the unique index on `friendId`. */
    method Insert(p: Player) returns (r: Option<PlayerError>)
      requires Valid()
      requires forall i :: 0 <= i < |rows| ==> rows[i].id != p.id
      modifies this
      ensures Valid()
      ensures ValidatePlayer(p).Some? ==> r == ValidatePlayer(p)
      ensures ValidatePlayer(p).None? ==> (r == Some(UserHasPlayer) <==> IndexOfUser(old(rows), p.user).Some?)
      ensures ValidatePlayer(p).None? && IndexOfUser(old(rows), p.user).None? ==>
        (r == Some(FriendIdInUse) <==> IndexOfFriendCode(old(rows), p.friendId).Some?)
      ensures r.None? <==>
        ValidatePlayer(p).None? && IndexOfUser(old(rows), p.user).None? && IndexOfFriendCode(old(rows), p.friendId).None?
      ensures r.None? ==> rows == old(rows) + [p]
      ensures r.Some? ==> rows == old(rows)
    {
      r := ValidatePlayer(p);
      if r.Some? {
        return;
      }
      if IndexOfUser(rows, p.user).Some? {
        return Some(UserHasPlayer);
      }
      if IndexOfFriendCode(rows, p.friendId).Some? {
        return Some(FriendIdInUse);
      }
      ValidatePlayerMeaning(p);
      rows := rows + [p];
    }

    /** `player.save()` of an edited stored player (its id, its immutable user
        and its friend code kept): validation decides, and a refused document
        changes nothing. */
    method Save(i: nat, p: Player) returns (r: Option<PlayerError>)
      requires Valid() && i < |rows| && p.id == rows[i].id && p.user == rows[i].user && p.friendId == rows[i].friendId
      modifies this
      ensures Valid()
      ensures r == ValidatePlayer(p)
      ensures r.None? <==> PlayerInvariant(p)
      ensures r.None? ==> rows == old(rows)[i := p]
      ensures r.Some? ==> rows == old(rows)
    {
      ValidatePlayerMeaning(p);
      r := ValidatePlayer(p);
      if r.None? {
        rows := rows[i := p];
      }
    }
  }
}
