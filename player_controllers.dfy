/** The friend list transitions of controllers/player.controllers.js:
    `addFriend`, `acceptFriend`, `cancelFriendRequest` and `deleteFriend`, each
    over the player collection, with the caller identified by user id. */
module PlayerControllers {
  import opened Ids
  import opened Wrappers
  import opened Lists
  import opened PlayerModel

  datatype FriendOutcome =
    | Done
    | MissingField          // 400: no friendId in the body
    | UserPlayerNotFound    // 404: the caller has no player
    | PlayerNotFound        // 404: no player with the given id or code
    | CannotFriendSelf      // 400
    | AlreadyFriend         // 400
    | NotInReceived         // 404: the other player sent no request to the caller
    | NotInSent             // 400: no such pending request
    | NotAFriend            // 400
    | ServerError           // 500: an exception, here a refused save

  /** `!req.body.friendId`: absent or the empty string. */
  predicate Missing(field: Option<string>) {
    field.None? || field.value == ""
  }

  /** `addFriend`: the friend is looked up by their friend code; on success the
      friend's id is appended to the caller's sent_requests and nothing else
      changes.  Sending the same request twice is refused by validation. */
  method AddFriend(players: PlayerTable, user: UserId, friendCode: Option<string>) returns (r: FriendOutcome)
    requires players.Valid()
    modifies players
    ensures players.Valid()
    ensures Missing(friendCode) ==> r == MissingField
    ensures !Missing(friendCode) && IndexOfUser(old(players.rows), user).None? ==> r == UserPlayerNotFound
    ensures (!Missing(friendCode) && IndexOfUser(old(players.rows), user).Some?
             && IndexOfFriendCode(old(players.rows), friendCode.value).None?) ==> r == PlayerNotFound
    ensures r == Done <==>
      && !Missing(friendCode)
      && IndexOfUser(old(players.rows), user).Some?
      && IndexOfFriendCode(old(players.rows), friendCode.value).Some?
      && var me := old(players.rows)[IndexOfUser(old(players.rows), user).value];
         var friend := old(players.rows)[IndexOfFriendCode(old(players.rows), friendCode.value).value];
         friend.id != me.id && friend.id !in me.friends && friend.id !in me.sent
    ensures r == Done ==>
      var u := IndexOfUser(old(players.rows), user).value;
      var friend := old(players.rows)[IndexOfFriendCode(old(players.rows), friendCode.value).value];
      players.rows == old(players.rows)[u := old(players.rows)[u].(sent := old(players.rows)[u].sent + [friend.id])]
    ensures r != Done ==> players.rows == old(players.rows)
  {
    if Missing(friendCode) {
      return MissingField;
    }
    var u := IndexOfUser(players.rows, user);
    var f := IndexOfFriendCode(players.rows, friendCode.value);
    if u.None? {
      return UserPlayerNotFound;
    }
    if f.None? {
      return PlayerNotFound;
    }
    var me := players.rows[u.value];
    var friend := players.rows[f.value];
    if me.id == friend.id {
      return CannotFriendSelf;
    }
    if friend.id in me.friends {
      return AlreadyFriend;
    }
    SendRequestKeepsInvariant(me, friend.id);
    var saved := players.Save(u.value, me.(sent := me.sent + [friend.id]));
    if saved.Some? {
      return ServerError;
    }
    return Done;
  }

  /** The players whose sent_requests contain `id` (`Player.find({ sent_requests:
      { $in: [id] } })`). */
  predicate SentRequestTo(rows: seq<Player>, from: PlayerId, to: PlayerId) {
    exists i :: 0 <= i < |rows| && rows[i].id == from && to in rows[i].sent
  }

  /** The two documents `acceptFriend` writes: the caller gains the friend; the
      friend gains the caller and loses the request. */
  function Accepted(me: Player, friend: Player): (r: (Player, Player))
    ensures friend.id in r.0.friends && me.id in r.1.friends && me.id !in r.1.sent
  {
    (me.(friends := me.friends + [friend.id]),
     friend.(friends := friend.friends + [me.id], sent := RemoveAll(friend.sent, me.id)))
  }

  /** The friend's half of an acceptance is valid exactly when the caller was
      not already among the friend's friends. */
  lemma AcceptedFriendSide(me: Player, friend: Player)
    requires PlayerInvariant(friend) && me.id != friend.id
    ensures PlayerInvariant(Accepted(me, friend).1) <==> me.id !in friend.friends
  {
    var f0 := friend.(sent := RemoveAll(friend.sent, me.id));
    RemovalKeepsInvariant(friend, me.id);
    AddFriendKeepsInvariant(f0, me.id);
  }

  /** Two players who sent each other requests cannot accept either one: the
      caller's new friend is still in the caller's sent_requests, so the
      caller's save is refused. */
  lemma MutualRequestsCannotBeAccepted(me: Player, friend: Player)
    requires PlayerInvariant(me) && friend.id in me.sent
    ensures !PlayerInvariant(Accepted(me, friend).0)
  {
    AddFriendKeepsInvariant(me, friend.id);
  }

  /** Both saves of an acceptance pass exactly when the two were not friends
      on either side and the caller had no request of its own pending to the
      friend. */
  lemma AcceptSucceedsExactly(me: Player, friend: Player)
    requires PlayerInvariant(me) && PlayerInvariant(friend) && me.id != friend.id
    ensures PlayerInvariant(Accepted(me, friend).0) && PlayerInvariant(Accepted(me, friend).1) <==>
      friend.id !in me.friends && friend.id !in me.sent && me.id !in friend.friends
  {
    AddFriendKeepsInvariant(me, friend.id);
    AcceptedFriendSide(me, friend);
  }

  /** `acceptFriend`: the given id must belong to a player whose sent_requests
      contain the caller.  The caller's document is saved first, then the
      friend's; when only the second save is refused the first stays written. */
  method AcceptFriend(players: PlayerTable, user: UserId, friendId: Option<string>) returns (r: FriendOutcome)
    requires players.Valid()
    modifies players
    ensures players.Valid()
    ensures Missing(friendId) ==> r == MissingField
    ensures !Missing(friendId) && IndexOfUser(old(players.rows), user).None? ==> r == ServerError
    ensures (!Missing(friendId) && IndexOfUser(old(players.rows), user).Some?
             && !SentRequestTo(old(players.rows), PlayerId(friendId.value), old(players.rows)[IndexOfUser(old(players.rows), user).value].id))
            ==> r == NotInReceived
    ensures r == Done <==>
      && !Missing(friendId)
      && IndexOfUser(old(players.rows), user).Some?
      && IndexOfPlayer(old(players.rows), PlayerId(friendId.value)).Some?
      && var me := old(players.rows)[IndexOfUser(old(players.rows), user).value];
         var friend := old(players.rows)[IndexOfPlayer(old(players.rows), PlayerId(friendId.value)).value];
         && me.id in friend.sent
         && friend.id !in me.friends && friend.id !in me.sent && me.id !in friend.friends
    ensures r == Done ==>
      && !Missing(friendId)
      && IndexOfUser(old(players.rows), user).Some?
      && IndexOfPlayer(old(players.rows), PlayerId(friendId.value)).Some?
      && var u := IndexOfUser(old(players.rows), user).value;
         var f := IndexOfPlayer(old(players.rows), PlayerId(friendId.value)).value;
         var (me', friend') := Accepted(old(players.rows)[u], old(players.rows)[f]);
         && u != f
         && old(players.rows)[u].id in old(players.rows)[f].sent
         && players.rows == old(players.rows)[u := me'][f := friend']
    ensures r == Done ==>
      var me := players.rows[IndexOfUser(old(players.rows), user).value];
      var friend := players.rows[IndexOfPlayer(old(players.rows), PlayerId(friendId.value)).value];
      friend.id in me.friends && me.id in friend.friends && me.id !in friend.sent
    ensures r == ServerError && IndexOfUser(old(players.rows), user).Some?
            && IndexOfPlayer(old(players.rows), PlayerId(friendId.value)).Some? ==>
      var u := IndexOfUser(old(players.rows), user).value;
      var f := IndexOfPlayer(old(players.rows), PlayerId(friendId.value)).value;
      players.rows == old(players.rows)
      || players.rows == old(players.rows)[u := Accepted(old(players.rows)[u], old(players.rows)[f]).0]
    ensures r != Done && r != ServerError ==> players.rows == old(players.rows)
    ensures r == ServerError && IndexOfUser(old(players.rows), user).None? ==> players.rows == old(players.rows)
  {
    if Missing(friendId) {
      return MissingField;
    }
    var u := IndexOfUser(players.rows, user);
    if u.None? {
      // `userPlayer._id` on a missing player throws
      return ServerError;
    }
    var me := players.rows[u.value];
    var fid := PlayerId(friendId.value);
    var f := IndexOfPlayer(players.rows, fid);
    if f.None? || me.id !in players.rows[f.value].sent {
      assert !SentRequestTo(players.rows, fid, me.id) by {
        if f.Some? {
          assert forall i :: 0 <= i < |players.rows| && players.rows[i].id == fid ==> i == f.value;
        }
      }
      return NotInReceived;
    }
    var friend := players.rows[f.value];
    assert u.value != f.value;
    AcceptSucceedsExactly(me, friend);
    var (me', friend') := Accepted(me, friend);
    var saved := players.Save(u.value, me');
    if saved.Some? {
      return ServerError;
    }
    saved := players.Save(f.value, friend');
    if saved.Some? {
      return ServerError;
    }
    return Done;
  }

  /** `cancelFriendRequest`: removes every occurrence of the id from the
      caller's sent_requests; nothing else changes. */
  method CancelFriendRequest(players: PlayerTable, user: UserId, friendId: Option<string>) returns (r: FriendOutcome)
    requires players.Valid()
    modifies players
    ensures players.Valid()
    ensures Missing(friendId) ==> r == MissingField
    ensures !Missing(friendId) && IndexOfUser(old(players.rows), user).None? ==> r == UserPlayerNotFound
    ensures r == Done <==>
      && !Missing(friendId)
      && IndexOfUser(old(players.rows), user).Some?
      && IndexOfPlayer(old(players.rows), PlayerId(friendId.value)).Some?
      && PlayerId(friendId.value) in old(players.rows)[IndexOfUser(old(players.rows), user).value].sent
    ensures r == Done ==>
      var u := IndexOfUser(old(players.rows), user).value;
      var me := old(players.rows)[u];
      players.rows == old(players.rows)[u := me.(sent := RemoveAll(me.sent, PlayerId(friendId.value)))]
    ensures r != Done ==> players.rows == old(players.rows)
  {
    if Missing(friendId) {
      return MissingField;
    }
    var fid := PlayerId(friendId.value);
    var u := IndexOfUser(players.rows, user);
    var f := IndexOfPlayer(players.rows, fid);
    if u.None? {
      return UserPlayerNotFound;
    }
    if f.None? {
      return PlayerNotFound;
    }
    var me := players.rows[u.value];
    if fid !in me.sent {
      return NotInSent;
    }
    RemovalKeepsInvariant(me, fid);
    var saved := players.Save(u.value, me.(sent := RemoveAll(me.sent, fid)));
    assert saved.None?;
    return Done;
  }

  /** `deleteFriend`: each of the two players is removed from the other's
      friends list; nothing else changes. */
  method DeleteFriend(players: PlayerTable, user: UserId, friendId: Option<string>) returns (r: FriendOutcome)
    requires players.Valid()
    modifies players
    ensures players.Valid()
    ensures Missing(friendId) ==> r == MissingField
    ensures !Missing(friendId) && IndexOfUser(old(players.rows), user).None? ==> r == UserPlayerNotFound
    ensures r == Done <==>
      && !Missing(friendId)
      && IndexOfUser(old(players.rows), user).Some?
      && IndexOfPlayer(old(players.rows), PlayerId(friendId.value)).Some?
      && PlayerId(friendId.value) in old(players.rows)[IndexOfUser(old(players.rows), user).value].friends
    ensures r == Done ==>
      var u := IndexOfUser(old(players.rows), user).value;
      var f := IndexOfPlayer(old(players.rows), PlayerId(friendId.value)).value;
      var me := old(players.rows)[u];
      var friend := old(players.rows)[f];
      && u != f
      && players.rows == old(players.rows)[u := me.(friends := RemoveAll(me.friends, friend.id))]
                                          [f := friend.(friends := RemoveAll(friend.friends, me.id))]
      && friend.id !in players.rows[u].friends && me.id !in players.rows[f].friends
    ensures r != Done ==> players.rows == old(players.rows)
  {
    if Missing(friendId) {
      return MissingField;
    }
    var fid := PlayerId(friendId.value);
    var u := IndexOfUser(players.rows, user);
    var f := IndexOfPlayer(players.rows, fid);
    if u.None? {
      return UserPlayerNotFound;
    }
    if f.None? {
      return PlayerNotFound;
    }
    var me := players.rows[u.value];
    var friend := players.rows[f.value];
    if fid !in me.friends {
      return NotAFriend;
    }
    assert u.value != f.value;
    RemovalKeepsInvariant(me, fid);
    RemovalKeepsInvariant(friend, me.id);
    var saved := players.Save(u.value, me.(friends := RemoveAll(me.friends, fid)));
    assert saved.None?;
    saved := players.Save(f.value, friend.(friends := RemoveAll(friend.friends, me.id)));
    assert saved.None?;
    return Done;
  }
}
