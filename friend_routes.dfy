/** The friendship route handlers (backend/routes/friends.js): each one checks
    its guards in order, answers the first that fails and changes nothing
    then; a handler whose guards pass changes exactly one edge (or, for a
    block, replaces one) and notifies the other user where the source does.

    The authenticated user is `actor`. The read-only views (`GET /status`,
    `GET /`, `GET /requests`) are the lookups of FriendModel. */
module FriendRoutes {
  import opened Common
  import opened Users
  import opened FriendModel
  import opened NotificationModel
  import opened PushSubscriptionModel
  import opened PushService

  /** The notification records after `sendPushNotification(userId, ...)`: the
      record is saved unless the schema rejects its title or body. */
  function Recorded(records: seq<Notification>, id: nat, userId: UserId, title: string, body: string,
                    kind: NotificationType, data: map<string, Value>, now: int): (r: seq<Notification>)
    ensures ValidContent(title, body) ==> |r| == |records| + 1 && r[|records|].userId == userId
    ensures !ValidContent(title, body) ==> r == records
  {
    if ValidContent(title, body) then records + [NewNotification(id, userId, title, body, kind, data, now)]
    else records
  }

  /** The data a friendship notification carries. */
  function FriendshipData(id: nat): map<string, Value> {
    map["friendshipId" := Num(id)]
  }

  /** The notification a friendship route sends; of its outcome the route
      keeps only the record it stores. */
  method Notify(notes: NotificationStore, subs: SubscriptionStore, vapidConfigured: bool,
                userId: UserId, title: string, body: string, kind: NotificationType,
                data: map<string, Value>, now: int, deliver: (PushSubscription, Payload) -> Delivery)
    requires notes.Valid() && subs.Valid()
    modifies notes, subs
    ensures notes.Valid() && subs.Valid()
    ensures notes.records == Recorded(old(notes.records), old(notes.nextId), userId, title, body, kind, data, now)
  {
    var sent := SendPushNotification(notes, subs, vapidConfigured, userId, title, body, kind, data, now, deliver);
  }

  /** `POST /request/:userId`. */
  method Request(friends: FriendStore, users: UserStore, notes: NotificationStore, subs: SubscriptionStore,
                 vapidConfigured: bool, actor: User, recipientId: UserId, now: int,
                 deliver: (PushSubscription, Payload) -> Delivery)
    returns (reply: Reply, friendship: Option<Edge>)
    requires friends.Valid() && notes.Valid() && subs.Valid()
    modifies friends, notes, subs
    ensures friends.Valid() && notes.Valid() && subs.Valid()
    ensures FindById(users.users, recipientId).None? ==>
      reply == NotFound("User not found")
    ensures FindById(users.users, recipientId).Some? && actor.id == recipientId ==>
      reply == BadRequest("Cannot send friend request to yourself")
    ensures FindById(users.users, recipientId).Some? && actor.id != recipientId
            && HasEdgeBetween(old(friends.edges), actor.id, recipientId) ==>
      reply == BadRequest("Friendship already exists")
    ensures !reply.IsSuccess() ==> friendship.None? && unchanged(friends, notes, subs)
    ensures reply.IsSuccess() <==>
      FindById(users.users, recipientId).Some? && actor.id != recipientId
      && !HasEdgeBetween(old(friends.edges), actor.id, recipientId)
    ensures reply.IsSuccess() ==>
      var e := Edge(old(friends.nextId), actor.id, recipientId, Pending, None);
      && reply == Created && friendship == Some(e)
      && friends.edges == old(friends.edges) + [e]
      && GetFriendshipStatus(friends.edges, actor.id, recipientId) == FriendshipStatus(HasStatus(Pending), Some(e), true)
      && GetFriendshipStatus(friends.edges, recipientId, actor.id) == FriendshipStatus(HasStatus(Pending), Some(e), false)
      && notes.records == Recorded(old(notes.records), old(notes.nextId), recipientId, "Friend Request",
                                   actor.username + " sent you a friend request", FriendRequest,
                                   FriendshipData(e.id), now)
  {
    if FindById(users.users, recipientId).None? {
      return NotFound("User not found"), None;
    }
    if actor.id == recipientId {
      return BadRequest("Cannot send friend request to yourself"), None;
    }
    if IndexBetween(friends.edges, actor.id, recipientId).Some? {
      return BadRequest("Friendship already exists"), None;
    }
    var e := InsertPending(friends, actor.id, recipientId);
    Notify(notes, subs, vapidConfigured, recipientId, "Friend Request",
           actor.username + " sent you a friend request", FriendRequest,
           FriendshipData(e.id), now, deliver);
    return Created, Some(e);
  }

  /** The request saved: a pending edge from `requester`, after every other edge. */
  method InsertPending(friends: FriendStore, requester: UserId, recipient: UserId) returns (e: Edge)
    requires friends.Valid() && requester != recipient && !HasEdgeBetween(friends.edges, requester, recipient)
    modifies friends
    ensures friends.Valid()
    ensures e == Edge(old(friends.nextId), requester, recipient, Pending, None)
    ensures friends.edges == old(friends.edges) + [e]
    ensures GetFriendshipStatus(friends.edges, requester, recipient) == FriendshipStatus(HasStatus(Pending), Some(e), true)
    ensures GetFriendshipStatus(friends.edges, recipient, requester) == FriendshipStatus(HasStatus(Pending), Some(e), false)
  {
    var err;
    err, e := friends.Insert(requester, recipient, Pending);
    assert err.None?;
  }

  /** `POST /accept/:friendshipId`. The edge is read with both users
      populated: a recipient missing from the users collection fails the route
      at once, a missing requester only when the notification is addressed,
      after the edge was saved. */
  method Accept(friends: FriendStore, users: UserStore, notes: NotificationStore, subs: SubscriptionStore,
                vapidConfigured: bool, actor: User, friendshipId: nat, now: int,
                deliver: (PushSubscription, Payload) -> Delivery)
    returns (reply: Reply, friendship: Option<Edge>)
    requires friends.Valid() && notes.Valid() && subs.Valid()
    modifies friends, notes, subs
    ensures friends.Valid() && notes.Valid() && subs.Valid()
    ensures IndexOfId(old(friends.edges), friendshipId).None? ==>
      reply == NotFound("Friend request not found") && unchanged(friends, notes, subs)
    ensures IndexOfId(old(friends.edges), friendshipId).Some? ==>
      var k := IndexOfId(old(friends.edges), friendshipId).value;
      var e := old(friends.edges)[k];
      && (FindById(users.users, e.recipient).None? ==>
            reply == ServerError && unchanged(friends, notes, subs))
      && (FindById(users.users, e.recipient).Some? && e.recipient != actor.id ==>
            reply == Forbidden("Not authorized to accept this request") && unchanged(friends, notes, subs))
      && (FindById(users.users, e.recipient).Some? && e.recipient == actor.id && e.status != Pending ==>
            reply == BadRequest("Friend request is not pending") && unchanged(friends, notes, subs))
      && (FindById(users.users, e.recipient).Some? && e.recipient == actor.id && e.status == Pending ==>
            var accepted := e.(status := Accepted, acceptedAt := Some(now));
            && friends.edges == old(friends.edges)[k := accepted]
            && e.requester in GetFriends(friends.edges, actor.id, Accepted)
            && actor.id in GetFriends(friends.edges, e.requester, Accepted)
            && (FindById(users.users, e.requester).None? ==>
                  reply == ServerError && unchanged(notes, subs))
            && (FindById(users.users, e.requester).Some? ==>
                  && reply == Ok && friendship == Some(accepted)
                  && notes.records == Recorded(old(notes.records), old(notes.nextId), e.requester,
                                               "Friend Request Accepted",
                                               actor.username + " accepted your friend request",
                                               FriendAccepted, FriendshipData(friendshipId), now)))
  {
    var found := IndexOfId(friends.edges, friendshipId);
    if found.None? {
      return NotFound("Friend request not found"), None;
    }
    var k := found.value;
    var e := friends.edges[k];
    if FindById(users.users, e.recipient).None? {
      return ServerError, None;
    }
    if e.recipient != actor.id {
      return Forbidden("Not authorized to accept this request"), None;
    }
    if e.status != Pending {
      return BadRequest("Friend request is not pending"), None;
    }
    reply, friendship := AcceptPending(friends, users, notes, subs, vapidConfigured, actor, k, now, deliver);
  }

  /** The accepting part of `accept`, once the request is known to be the
      actor's and pending: the edge is saved as accepted, and the requester
      is notified when they still exist. */
  method AcceptPending(friends: FriendStore, users: UserStore, notes: NotificationStore, subs: SubscriptionStore,
                       vapidConfigured: bool, actor: User, k: nat, now: int,
                       deliver: (PushSubscription, Payload) -> Delivery)
    returns (reply: Reply, friendship: Option<Edge>)
    requires friends.Valid() && notes.Valid() && subs.Valid()
    requires k < |friends.edges| && friends.edges[k].recipient == actor.id && friends.edges[k].status == Pending
    modifies friends, notes, subs
    ensures friends.Valid() && notes.Valid() && subs.Valid()
    ensures
      var e := old(friends.edges)[k];
      var accepted := e.(status := Accepted, acceptedAt := Some(now));
      && friends.edges == old(friends.edges)[k := accepted]
      && e.requester in GetFriends(friends.edges, actor.id, Accepted)
      && actor.id in GetFriends(friends.edges, e.requester, Accepted)
      && (FindById(users.users, e.requester).None? ==>
            reply == ServerError && unchanged(notes, subs))
      && (FindById(users.users, e.requester).Some? ==>
            && reply == Ok && friendship == Some(accepted)
            && notes.records == Recorded(old(notes.records), old(notes.nextId), e.requester,
                                         "Friend Request Accepted",
                                         actor.username + " accepted your friend request",
                                         FriendAccepted, FriendshipData(e.id), now))
  {
    var e := friends.edges[k];
    var accepted := MarkAccepted(friends, k, now);
    if FindById(users.users, e.requester).None? {
      return ServerError, None;
    }
    Notify(notes, subs, vapidConfigured, e.requester, "Friend Request Accepted",
           actor.username + " accepted your friend request", FriendAccepted,
           FriendshipData(e.id), now, deliver);
    return Ok, Some(accepted);
  }

  /** The pending edge at `k` saved as accepted at `now`; its two users become friends. */
  method MarkAccepted(friends: FriendStore, k: nat, now: int) returns (accepted: Edge)
    requires friends.Valid() && k < |friends.edges|
    modifies friends
    ensures friends.Valid()
    ensures accepted == old(friends.edges)[k].(status := Accepted, acceptedAt := Some(now))
    ensures friends.edges == old(friends.edges)[k := accepted]
    ensures accepted.requester in GetFriends(friends.edges, accepted.recipient, Accepted)
    ensures accepted.recipient in GetFriends(friends.edges, accepted.requester, Accepted)
  {
    accepted := friends.edges[k].(status := Accepted, acceptedAt := Some(now));
    friends.Update(k, accepted);
    AcceptedFriends(friends.edges, k);
  }

  /** The two parties of an accepted edge are each in the other's friends list. */
  lemma AcceptedFriends(s: seq<Edge>, k: nat)
    requires ValidEdges(s) && k < |s| && s[k].status == Accepted
    ensures s[k].requester in GetFriends(s, s[k].recipient, Accepted)
    ensures s[k].recipient in GetFriends(s, s[k].requester, Accepted)
  {
    assert FriendModel.PreSave(s[k]).None?;
    assert Other(s[k], s[k].recipient) == s[k].requester;
    assert Other(s[k], s[k].requester) == s[k].recipient;
  }

  /** `POST /decline/:friendshipId`. */
  method Decline(friends: FriendStore, actor: UserId, friendshipId: nat) returns (reply: Reply, friendship: Option<Edge>)
    requires friends.Valid()
    modifies friends
    ensures friends.Valid()
    ensures IndexOfId(old(friends.edges), friendshipId).None? ==>
      reply == NotFound("Friend request not found") && unchanged(friends)
    ensures IndexOfId(old(friends.edges), friendshipId).Some? ==>
      var k := IndexOfId(old(friends.edges), friendshipId).value;
      var e := old(friends.edges)[k];
      && (e.recipient != actor ==>
            reply == Forbidden("Not authorized to decline this request") && unchanged(friends))
      && (e.recipient == actor && e.status != Pending ==>
            reply == BadRequest("Friend request is not pending") && unchanged(friends))
      && (e.recipient == actor && e.status == Pending ==>
            && reply == Ok && friendship == Some(e.(status := Declined))
            && friends.edges == old(friends.edges)[k := e.(status := Declined)]
            && GetFriendshipStatus(friends.edges, actor, e.requester).status == HasStatus(Declined))
  {
    var found := IndexOfId(friends.edges, friendshipId);
    if found.None? {
      return NotFound("Friend request not found"), None;
    }
    var k := found.value;
    var e := friends.edges[k];
    if e.recipient != actor {
      return Forbidden("Not authorized to decline this request"), None;
    }
    if e.status != Pending {
      return BadRequest("Friend request is not pending"), None;
    }
    friends.Update(k, e.(status := Declined));
    return Ok, Some(e.(status := Declined));
  }

  /** `DELETE /cancel/:friendshipId`. */
  method Cancel(friends: FriendStore, actor: UserId, friendshipId: nat) returns (reply: Reply)
    requires friends.Valid()
    modifies friends
    ensures friends.Valid()
    ensures IndexOfId(old(friends.edges), friendshipId).None? ==>
      reply == NotFound("Friend request not found") && unchanged(friends)
    ensures IndexOfId(old(friends.edges), friendshipId).Some? ==>
      var k := IndexOfId(old(friends.edges), friendshipId).value;
      var e := old(friends.edges)[k];
      && (e.requester != actor ==>
            reply == Forbidden("Not authorized to cancel this request") && unchanged(friends))
      && (e.requester == actor && e.status != Pending ==>
            reply == BadRequest("Cannot cancel non-pending request") && unchanged(friends))
      && (e.requester == actor && e.status == Pending ==>
            && reply == Ok && friends.edges == RemoveAt(old(friends.edges), k)
            && GetFriendshipStatus(friends.edges, actor, e.recipient).status == NoEdge)
  {
    var found := IndexOfId(friends.edges, friendshipId);
    if found.None? {
      return NotFound("Friend request not found");
    }
    var k := found.value;
    var e := friends.edges[k];
    if e.requester != actor {
      return Forbidden("Not authorized to cancel this request");
    }
    if e.status != Pending {
      return BadRequest("Cannot cancel non-pending request");
    }
    friends.DeleteAt(k);
    return Ok;
  }

  /** `DELETE /remove/:friendshipId`: either party removes the edge, whatever its status. */
  method Remove(friends: FriendStore, actor: UserId, friendshipId: nat) returns (reply: Reply)
    requires friends.Valid()
    modifies friends
    ensures friends.Valid()
    ensures IndexOfId(old(friends.edges), friendshipId).None? ==>
      reply == NotFound("Friendship not found") && unchanged(friends)
    ensures IndexOfId(old(friends.edges), friendshipId).Some? ==>
      var k := IndexOfId(old(friends.edges), friendshipId).value;
      var e := old(friends.edges)[k];
      && (!Touches(e, actor) ==>
            reply == Forbidden("Not authorized to remove this friendship") && unchanged(friends))
      && (Touches(e, actor) ==>
            && reply == Ok && friends.edges == RemoveAt(old(friends.edges), k)
            && GetFriendshipStatus(friends.edges, e.requester, e.recipient).status == NoEdge)
  {
    var found := IndexOfId(friends.edges, friendshipId);
    if found.None? {
      return NotFound("Friendship not found");
    }
    var k := found.value;
    var e := friends.edges[k];
    if e.requester != actor && e.recipient != actor {
      return Forbidden("Not authorized to remove this friendship");
    }
    friends.DeleteAt(k);
    return Ok;
  }

  /** The collection after a block of `blocked` by `blocker`: the edge between
      them, if any, is gone and the block edge is added last. */
  function AfterBlock(s: seq<Edge>, blocker: UserId, blocked: UserId, id: nat): (r: seq<Edge>) {
    var kept := match IndexBetween(s, blocker, blocked)
                case None => s
                case Some(k) => RemoveAt(s, k);
    kept + [Edge(id, blocker, blocked, Blocked, None)]
  }

  /** `POST /block/:userId`. */
  method Block(friends: FriendStore, users: UserStore, actor: UserId, blockedId: UserId)
    returns (reply: Reply, friendship: Option<Edge>)
    requires friends.Valid()
    modifies friends
    ensures friends.Valid()
    ensures FindById(users.users, blockedId).None? ==>
      reply == NotFound("User not found") && friendship.None? && unchanged(friends)
    ensures FindById(users.users, blockedId).Some? && actor == blockedId ==>
      reply == BadRequest("Cannot block yourself") && friendship.None? && unchanged(friends)
    ensures FindById(users.users, blockedId).Some? && actor != blockedId ==>
      var e := Edge(old(friends.nextId), actor, blockedId, Blocked, None);
      && reply == Ok && friendship == Some(e)
      && friends.edges == AfterBlock(old(friends.edges), actor, blockedId, old(friends.nextId))
      && (forall i :: 0 <= i < |friends.edges| && Between(friends.edges[i], actor, blockedId) ==>
            i == |friends.edges| - 1)
      && GetFriendshipStatus(friends.edges, actor, blockedId) == FriendshipStatus(HasStatus(Blocked), Some(e), true)
      && blockedId in BlockedBy(friends.edges, actor)
  {
    if FindById(users.users, blockedId).None? {
      return NotFound("User not found"), None;
    }
    if actor == blockedId {
      return BadRequest("Cannot block yourself"), None;
    }
    var e := ReplaceWithBlock(friends, actor, blockedId);
    return Ok, Some(e);
  }

  /** The part of `block` that writes: whatever edge joined the pair is
      deleted and a blocked edge from `actor` is saved in its place. */
  method ReplaceWithBlock(friends: FriendStore, actor: UserId, blockedId: UserId) returns (e: Edge)
    requires friends.Valid() && actor != blockedId
    modifies friends
    ensures friends.Valid()
    ensures e == Edge(old(friends.nextId), actor, blockedId, Blocked, None)
    ensures friends.edges == AfterBlock(old(friends.edges), actor, blockedId, old(friends.nextId))
    ensures forall i :: 0 <= i < |friends.edges| && Between(friends.edges[i], actor, blockedId) ==>
      i == |friends.edges| - 1
    ensures GetFriendshipStatus(friends.edges, actor, blockedId) == FriendshipStatus(HasStatus(Blocked), Some(e), true)
    ensures blockedId in BlockedBy(friends.edges, actor)
  {
    var removed := friends.FindOneAndDelete((e: Edge) => Between(e, actor, blockedId));
    assert !HasEdgeBetween(friends.edges, actor, blockedId) by {
      if removed.Some? {
        assert Between(removed.value, actor, blockedId);
      }
    }
    var err;
    err, e := friends.Insert(actor, blockedId, Blocked);
    assert err.None?;
    BlockIsOnlyEdge(friends.edges, actor, blockedId);
  }

  /** The block edge, added last, is the only edge between the two users and
      lists the blocked user among the blocker's blocked users. */
  lemma BlockIsOnlyEdge(s: seq<Edge>, blocker: UserId, blocked: UserId)
    requires ValidEdges(s) && |s| > 0 && EdgeWith(s[|s| - 1], blocker, blocked, Blocked)
    ensures forall i :: 0 <= i < |s| && Between(s[i], blocker, blocked) ==> i == |s| - 1
    ensures blocked in BlockedBy(s, blocker)
  {
    OnlyEdgeBetween(s, |s| - 1, blocker, blocked);
  }

  /** `POST /unblock/:userId`: only a block the actor made is lifted. */
  method Unblock(friends: FriendStore, actor: UserId, unblockedId: UserId) returns (reply: Reply)
    requires friends.Valid()
    modifies friends
    ensures friends.Valid()
    ensures (forall i :: 0 <= i < |old(friends.edges)| ==>
               !EdgeWith(old(friends.edges)[i], actor, unblockedId, Blocked)) ==>
      reply == NotFound("Block relationship not found")
      && friends.edges == old(friends.edges) && friends.nextId == old(friends.nextId)
    ensures (exists i :: 0 <= i < |old(friends.edges)| &&
               EdgeWith(old(friends.edges)[i], actor, unblockedId, Blocked)) ==>
      var k := FindFirst(old(friends.edges), (e: Edge) => EdgeWith(e, actor, unblockedId, Blocked)).value;
      && reply == Ok && friends.edges == RemoveAt(old(friends.edges), k)
      && GetFriendshipStatus(friends.edges, actor, unblockedId).status == NoEdge
  {
    var removed := friends.FindOneAndDelete((e: Edge) => EdgeWith(e, actor, unblockedId, Blocked));
    if removed.None? {
      return NotFound("Block relationship not found");
    }
    return Ok;
  }
}
