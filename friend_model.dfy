/** The friendship collection (backend/models/Friend.js): one edge per pair of
    users that have interacted, directed from the user who asked to the user who
    was asked, with the lookups the routes build on. */
module FriendModel {
  import opened Common

  /** The status of an edge; a new edge is `Pending` unless told otherwise. */
  datatype Status = Pending | Accepted | Declined | Blocked

  const DefaultStatus: Status := Pending

  datatype Edge = Edge(
    id: nat,
    requester: UserId,
    recipient: UserId,
    status: Status,
    acceptedAt: Option<int>)

  /** `e` joins `a` and `b`, in either direction. */
  predicate Between(e: Edge, a: UserId, b: UserId) {
    (e.requester == a && e.recipient == b) || (e.requester == b && e.recipient == a)
  }

  /** `u` is one of the two parties of `e`. */
  predicate Touches(e: Edge, u: UserId) {
    e.requester == u || e.recipient == u
  }

  /** Two edges join the same two users. */
  predicate SamePair(e: Edge, f: Edge) {
    Between(f, e.requester, e.recipient)
  }

  ghost predicate HasEdgeBetween(s: seq<Edge>, a: UserId, b: UserId) {
    exists i :: 0 <= i < |s| && Between(s[i], a, b)
  }

  /** The pre-save hook: saving an edge from a user to themself fails with an error. */
  function PreSave(e: Edge): (err: Option<string>)
    ensures err.Some? <==> e.requester == e.recipient
  {
    if e.requester == e.recipient then Some("Cannot create friendship with yourself") else None
  }

  /** What the collection keeps true: identifiers are unique, no edge joins a
      user to themself (the pre-save hook), and at most one edge exists per
      pair of users in either direction (the unique index covers one direction;
      every path that inserts an edge first looks for one in both). */
  ghost predicate ValidEdges(s: seq<Edge>) {
    && (forall i, j :: 0 <= i < j < |s| ==> s[i].id != s[j].id)
    && (forall i :: 0 <= i < |s| ==> PreSave(s[i]).None?)
    && (forall i, j :: 0 <= i < j < |s| ==> !SamePair(s[i], s[j]))
  }

  /** The unique index over (requester, recipient) holds in every valid collection. */
  lemma OrderedPairUnique(s: seq<Edge>, i: nat, j: nat)
    requires ValidEdges(s)
    requires i < |s| && j < |s|
    requires s[i].requester == s[j].requester && s[i].recipient == s[j].recipient
    ensures i == j
  {
    if i < j {
      assert SamePair(s[i], s[j]);
    } else if j < i {
      assert SamePair(s[j], s[i]);
    }
  }

  /** The edge `findById` returns. */
  function IndexOfId(s: seq<Edge>, id: nat): (r: Option<nat>)
    ensures r.Some? ==> r.value < |s| && s[r.value].id == id
    ensures r.None? <==> forall i :: 0 <= i < |s| ==> s[i].id != id
  {
    FindFirst(s, (e: Edge) => e.id == id)
  }

  /** The edge the `$or` query over both directions finds first. */
  function IndexBetween(s: seq<Edge>, a: UserId, b: UserId): (r: Option<nat>)
    ensures r.Some? ==> r.value < |s| && Between(s[r.value], a, b)
    ensures r.None? <==> !HasEdgeBetween(s, a, b)
  {
    FindFirst(s, (e: Edge) => Between(e, a, b))
  }

  /** In a valid collection an edge between two users is the only one. */
  lemma {:induction false} EdgeBetweenUnique(s: seq<Edge>, a: UserId, b: UserId, i: nat, j: nat)
    requires ValidEdges(s)
    requires i < |s| && j < |s|
    requires Between(s[i], a, b) && Between(s[j], a, b)
    ensures i == j
  {
    if i < j {
      assert SamePair(s[i], s[j]);
    } else if j < i {
      assert SamePair(s[j], s[i]);
    }
  }

  /** `none` when no edge exists, else the status of the edge. */
  datatype LookupStatus = NoEdge | HasStatus(status: Status)

  datatype FriendshipStatus = FriendshipStatus(
    status: LookupStatus,
    friendship: Option<Edge>,
    isRequester: bool)

  /** `getFriendshipStatus(user1, user2)`. */
  function GetFriendshipStatus(s: seq<Edge>, u1: UserId, u2: UserId): (r: FriendshipStatus)
    ensures r.friendship.None? <==> !HasEdgeBetween(s, u1, u2)
    ensures r.friendship.None? ==> r.status == NoEdge && !r.isRequester
    ensures r.friendship.Some? ==>
      && r.friendship.value in s
      && Between(r.friendship.value, u1, u2)
      && r.status == HasStatus(r.friendship.value.status)
      && (r.isRequester <==> r.friendship.value.requester == u1)
  {
    match IndexBetween(s, u1, u2)
    case None => FriendshipStatus(NoEdge, None, false)
    case Some(i) => FriendshipStatus(HasStatus(s[i].status), Some(s[i]), s[i].requester == u1)
  }

  /** In a valid collection the lookup reports THE edge between the two users. */
  lemma {:induction false} LookupFindsTheEdge(s: seq<Edge>, u1: UserId, u2: UserId, i: nat)
    requires ValidEdges(s)
    requires i < |s| && Between(s[i], u1, u2)
    ensures GetFriendshipStatus(s, u1, u2).friendship == Some(s[i])
    ensures GetFriendshipStatus(s, u1, u2).status == HasStatus(s[i].status)
  {
    var j := IndexBetween(s, u1, u2).value;
    EdgeBetweenUnique(s, u1, u2, i, j);
  }

  /** Both users see the same edge and status, and exactly one of them is its
      requester. */
  lemma {:induction false} LookupSymmetric(s: seq<Edge>, u1: UserId, u2: UserId)
    requires ValidEdges(s)
    ensures GetFriendshipStatus(s, u1, u2).friendship == GetFriendshipStatus(s, u2, u1).friendship
    ensures GetFriendshipStatus(s, u1, u2).status == GetFriendshipStatus(s, u2, u1).status
    ensures u1 != u2 && GetFriendshipStatus(s, u1, u2).friendship.Some? ==>
      GetFriendshipStatus(s, u1, u2).isRequester != GetFriendshipStatus(s, u2, u1).isRequester
  {
    var r := GetFriendshipStatus(s, u1, u2);
    if r.friendship.Some? {
      var i := IndexBetween(s, u1, u2).value;
      assert Between(s[i], u2, u1);
      LookupFindsTheEdge(s, u2, u1, i);
    }
  }

  /** The party of `e` that is not `u` (the requester when `u` is the recipient). */
  function Other(e: Edge, u: UserId): UserId {
    if e.requester == u then e.recipient else e.requester
  }

  /** `getFriends(user, status)`: for every edge with that status touching the
      user, in store order, the other party. */
  function GetFriends(s: seq<Edge>, u: UserId, st: Status): (r: seq<UserId>)
    ensures |r| <= |s|
    ensures forall v :: v in r <==>
      exists i :: 0 <= i < |s| && s[i].status == st && Touches(s[i], u) && Other(s[i], u) == v
  {
    if s == [] then []
    else
      var rest := GetFriends(s[1..], u, st);
      assert forall i :: 1 <= i < |s| ==> s[i] == s[1..][i - 1];
      if s[0].status == st && Touches(s[0], u) then [Other(s[0], u)] + rest else rest
  }

  /** No user occurs twice in `r`. */
  predicate NoDuplicates<T(==)>(r: seq<T>) {
    forall i, j :: 0 <= i < j < |r| ==> r[i] != r[j]
  }

  /** In a valid collection each friend is listed exactly once. */
  lemma {:induction false} FriendsListedOnce(s: seq<Edge>, u: UserId, st: Status)
    requires ValidEdges(s)
    ensures NoDuplicates(GetFriends(s, u, st))
    ensures u !in GetFriends(s, u, st)
  {
    if s != [] {
      var t := s[1..];
      assert ValidEdges(t) by {
        assert forall i :: 0 <= i < |t| ==> t[i] == s[i + 1];
      }
      FriendsListedOnce(t, u, st);
      var rest := GetFriends(t, u, st);
      if s[0].status == st && Touches(s[0], u) {
        var v := Other(s[0], u);
        if v in rest {
          var i :| 0 <= i < |t| && t[i].status == st && Touches(t[i], u) && Other(t[i], u) == v;
          assert t[i] == s[i + 1];
          assert SamePair(s[0], s[i + 1]);
        }
        assert PreSave(s[0]).None?;
      }
    }
  }

  /** The users `u` has blocked: recipients of `blocked` edges `u` requested. */
  function BlockedBy(s: seq<Edge>, u: UserId): (r: seq<UserId>)
    ensures |r| <= |s|
    ensures forall v :: v in r <==>
      exists i :: 0 <= i < |s| && s[i].status == Blocked && s[i].requester == u && s[i].recipient == v
  {
    if s == [] then []
    else
      var rest := BlockedBy(s[1..], u);
      assert forall i :: 1 <= i < |s| ==> s[i] == s[1..][i - 1];
      if s[0].status == Blocked && s[0].requester == u then [s[0].recipient] + rest else rest
  }

  /** Pending edges `u` received. */
  function ReceivedRequests(s: seq<Edge>, u: UserId): (r: seq<Edge>)
    ensures forall i :: 0 <= i < |r| ==> r[i] in s && r[i].status == Pending && r[i].recipient == u
    ensures forall i :: 0 <= i < |s| && s[i].status == Pending && s[i].recipient == u ==> s[i] in r
  {
    Filter(s, (e: Edge) => e.status == Pending && e.recipient == u)
  }

  /** Pending edges `u` sent. */
  function SentRequests(s: seq<Edge>, u: UserId): (r: seq<Edge>)
    ensures forall i :: 0 <= i < |r| ==> r[i] in s && r[i].status == Pending && r[i].requester == u
    ensures forall i :: 0 <= i < |s| && s[i].status == Pending && s[i].requester == u ==> s[i] in r
  {
    Filter(s, (e: Edge) => e.status == Pending && e.requester == u)
  }

  /** Pending edges touching `u`: the `both` query before it is split. */
  function PendingTouching(s: seq<Edge>, u: UserId): seq<Edge> {
    Filter(s, (e: Edge) => e.status == Pending && Touches(e, u))
  }

  /** The `type` argument: `received`, `sent`, `both` (also what a missing
      argument defaults to), or any other value. */
  datatype RequestKind = Received | Sent | Both | Unrecognised

  datatype PendingRequests =
    | Listed(requests: seq<Edge>)
    | Split(received: seq<Edge>, sent: seq<Edge>)

  /** `getPendingRequests(user, type)`: one list for `received` or `sent`, both
      halves of the pending edges touching the user for `both`, and those
      edges as one unsplit list for any other type, which runs the `both`
      query without the split. */
  function GetPendingRequests(s: seq<Edge>, u: UserId, kind: RequestKind): (r: PendingRequests)
    ensures r.Split? <==> kind == Both
    ensures kind == Received ==> r.requests == ReceivedRequests(s, u)
    ensures kind == Sent ==> r.requests == SentRequests(s, u)
    ensures kind == Both ==> r.received == ReceivedRequests(s, u) && r.sent == SentRequests(s, u)
    ensures kind == Unrecognised ==>
      && (forall i :: 0 <= i < |r.requests| ==> r.requests[i] in s && r.requests[i].status == Pending
                                                && Touches(r.requests[i], u))
      && (forall i :: 0 <= i < |s| && s[i].status == Pending && Touches(s[i], u) ==> s[i] in r.requests)
  {
    match kind
    case Received => Listed(ReceivedRequests(s, u))
    case Sent => Listed(SentRequests(s, u))
    case Unrecognised => Listed(PendingTouching(s, u))
    case Both =>
      var requests := PendingTouching(s, u);
      var received := Filter(requests, (e: Edge) => e.recipient == u);
      var sent := Filter(requests, (e: Edge) => e.requester == u);
      FilterFilter(s, (e: Edge) => e.status == Pending && Touches(e, u), (e: Edge) => e.recipient == u,
                   (e: Edge) => e.status == Pending && e.recipient == u);
      FilterFilter(s, (e: Edge) => e.status == Pending && Touches(e, u), (e: Edge) => e.requester == u,
                   (e: Edge) => e.status == Pending && e.requester == u);
      Split(received, sent)
  }

  /** With `both`, every pending edge touching the user lands in exactly one of
      the two lists: received ones have the user as recipient, sent ones as
      requester, and together they are all of them. */
  lemma PendingRequestsPartition(s: seq<Edge>, u: UserId)
    requires ValidEdges(s)
    ensures multiset(ReceivedRequests(s, u)) + multiset(SentRequests(s, u)) == multiset(PendingTouching(s, u))
  {
    assert forall i :: 0 <= i < |s| ==> s[i].requester != s[i].recipient by {
      forall i | 0 <= i < |s| ensures s[i].requester != s[i].recipient {
        assert PreSave(s[i]).None?;
      }
    }
    PartitionWithoutSelfEdges(s, u);
  }

  /** The partition holds as soon as no edge joins a user to themself. */
  lemma {:induction false} PartitionWithoutSelfEdges(s: seq<Edge>, u: UserId)
    requires forall i :: 0 <= i < |s| ==> s[i].requester != s[i].recipient
    ensures multiset(ReceivedRequests(s, u)) + multiset(SentRequests(s, u)) == multiset(PendingTouching(s, u))
  {
    if s != [] {
      var t := s[1..];
      assert forall i :: 0 <= i < |t| ==> t[i] == s[i + 1];
      PartitionWithoutSelfEdges(t, u);
      assert s[0].requester != s[0].recipient;
    }
  }

  // ------------------------------------------------- changing the collection

  /** In a valid collection no edge but the `k`-th joins the users it joins. */
  lemma OnlyEdgeBetween(s: seq<Edge>, k: nat, a: UserId, b: UserId)
    requires ValidEdges(s) && k < |s| && Between(s[k], a, b)
    ensures forall j :: 0 <= j < |s| && j != k ==> !Between(s[j], a, b)
  {
    forall j | 0 <= j < |s| && j != k ensures !Between(s[j], a, b) {
      if j < k {
        assert !SamePair(s[j], s[k]);
      } else {
        assert !SamePair(s[k], s[j]);
      }
    }
  }

  /** Adding an edge between two different users that had none, under a fresh
      identifier, keeps the collection valid, and the status lookup then
      reports the new edge from both sides. */
  lemma InsertKeepsValid(s: seq<Edge>, e: Edge)
    requires ValidEdges(s)
    requires forall i :: 0 <= i < |s| ==> s[i].id != e.id
    requires e.requester != e.recipient && !HasEdgeBetween(s, e.requester, e.recipient)
    ensures ValidEdges(s + [e])
    ensures GetFriendshipStatus(s + [e], e.requester, e.recipient) == FriendshipStatus(HasStatus(e.status), Some(e), true)
    ensures GetFriendshipStatus(s + [e], e.recipient, e.requester) == FriendshipStatus(HasStatus(e.status), Some(e), false)
  {
    var t := s + [e];
    forall i, j | 0 <= i < j < |t| ensures t[i].id != t[j].id && !SamePair(t[i], t[j]) {
      if j < |s| {
        assert t[i] == s[i] && t[j] == s[j];
      } else {
        assert t[i] == s[i] && t[j] == e;
        assert !Between(s[i], e.requester, e.recipient);
      }
    }
    assert PreSave(e).None?;
    assert ValidEdges(t);
    LookupFindsTheEdge(t, e.requester, e.recipient, |s|);
    assert Between(t[|s|], e.recipient, e.requester);
    LookupFindsTheEdge(t, e.recipient, e.requester, |s|);
  }

  /** Replacing an edge by one joining the same users the same way keeps the
      collection valid, and the lookup then reports the new status. */
  lemma UpdateKeepsValid(s: seq<Edge>, k: nat, e: Edge)
    requires ValidEdges(s) && k < |s|
    requires e.id == s[k].id && e.requester == s[k].requester && e.recipient == s[k].recipient
    ensures ValidEdges(s[k := e])
    ensures GetFriendshipStatus(s[k := e], e.requester, e.recipient).friendship == Some(e)
    ensures GetFriendshipStatus(s[k := e], e.recipient, e.requester).friendship == Some(e)
  {
    var t := s[k := e];
    forall i, j | 0 <= i < j < |t| ensures t[i].id != t[j].id && !SamePair(t[i], t[j]) {
      assert s[i].id != s[j].id && !SamePair(s[i], s[j]);
    }
    assert forall i :: 0 <= i < |t| ==> PreSave(t[i]) == PreSave(s[i]);
    assert ValidEdges(t);
    LookupFindsTheEdge(t, e.requester, e.recipient, k);
    assert Between(t[k], e.recipient, e.requester);
    LookupFindsTheEdge(t, e.recipient, e.requester, k);
  }

  /** Deleting the `k`-th edge keeps the collection valid and leaves its two
      users with no edge between them. */
  lemma RemoveKeepsValid(s: seq<Edge>, k: nat)
    requires ValidEdges(s) && k < |s|
    ensures ValidEdges(RemoveAt(s, k))
    ensures !HasEdgeBetween(RemoveAt(s, k), s[k].requester, s[k].recipient)
    ensures GetFriendshipStatus(RemoveAt(s, k), s[k].requester, s[k].recipient).status == NoEdge
  {
    var t := RemoveAt(s, k);
    forall i, j | 0 <= i < j < |t| ensures t[i].id != t[j].id && !SamePair(t[i], t[j]) {
      var i', j' := if i < k then i else i + 1, if j < k then j else j + 1;
      assert t[i] == s[i'] && t[j] == s[j'];
    }
    forall i | 0 <= i < |t| ensures PreSave(t[i]).None? {
      var i' := if i < k then i else i + 1;
      assert t[i] == s[i'];
    }
    assert ValidEdges(t);
    OnlyEdgeBetween(s, k, s[k].requester, s[k].recipient);
    forall j | 0 <= j < |t| ensures !Between(t[j], s[k].requester, s[k].recipient) {
      var j' := if j < k then j else j + 1;
      assert t[j] == s[j'];
    }
  }

  /** An edge between two users, up to and including its status. */
  predicate EdgeWith(e: Edge, requester: UserId, recipient: UserId, status: Status) {
    e.requester == requester && e.recipient == recipient && e.status == status
  }

  /** The friendship collection. */
  class FriendStore {
    var edges: seq<Edge>
    var nextId: nat

    ghost predicate Valid()
      reads this
    {
      ValidEdges(edges) && forall i :: 0 <= i < |edges| ==> edges[i].id < nextId
    }

    constructor ()
      ensures Valid() && edges == []
    {
      edges := [];
      nextId := 0;
    }

    /** `new Friend({requester, recipient, status}).save()` for a pair with no
        edge in either direction: the pre-save hook refuses a self-edge and
        nothing is stored; otherwise the edge is stored under a fresh identifier. */
    method Insert(requester: UserId, recipient: UserId, status: Status) returns (err: Option<string>, e: Edge)
      requires Valid() && !HasEdgeBetween(edges, requester, recipient)
      modifies this
      ensures Valid()
      ensures e == Edge(old(nextId), requester, recipient, status, None)
      ensures err == PreSave(e)
      ensures err.Some? ==> edges == old(edges)
      ensures err.None? ==> edges == old(edges) + [e]
      ensures err.None? ==>
        && GetFriendshipStatus(edges, requester, recipient) == FriendshipStatus(HasStatus(status), Some(e), true)
        && GetFriendshipStatus(edges, recipient, requester) == FriendshipStatus(HasStatus(status), Some(e), false)
    {
      e := Edge(nextId, requester, recipient, status, None);
      err := PreSave(e);
      if err.Some? {
        return;
      }
      InsertKeepsValid(edges, e);
      edges := edges + [e];
      nextId := nextId + 1;
    }

    /** `friendship.save()` after changing the status fields of the `k`-th edge. */
    method Update(k: nat, e: Edge)
      requires Valid() && k < |edges|
      requires e.id == edges[k].id && e.requester == edges[k].requester && e.recipient == edges[k].recipient
      modifies this
      ensures Valid() && edges == old(edges)[k := e] && nextId == old(nextId)
      ensures GetFriendshipStatus(edges, e.requester, e.recipient).friendship == Some(e)
      ensures GetFriendshipStatus(edges, e.recipient, e.requester).friendship == Some(e)
    {
      UpdateKeepsValid(edges, k, e);
      edges := edges[k := e];
    }

    /** `findByIdAndDelete` of the `k`-th edge. */
    method DeleteAt(k: nat)
      requires Valid() && k < |edges|
      modifies this
      ensures Valid() && edges == RemoveAt(old(edges), k) && nextId == old(nextId)
      ensures GetFriendshipStatus(edges, old(edges)[k].requester, old(edges)[k].recipient).status == NoEdge
    {
      RemoveKeepsValid(edges, k);
      edges := RemoveAt(edges, k);
    }

    /** `findOneAndDelete(query)`: the first edge the query matches is deleted
        and answered; with no match nothing changes. */
    method FindOneAndDelete(query: Edge -> bool) returns (deleted: Option<Edge>)
      requires Valid()
      modifies this
      ensures Valid() && nextId == old(nextId)
      ensures deleted.None? <==> forall i :: 0 <= i < |old(edges)| ==> !query(old(edges)[i])
      ensures deleted.None? ==> edges == old(edges)
      ensures deleted.Some? ==>
        var k := FindFirst(old(edges), query).value;
        && deleted.value == old(edges)[k] && query(deleted.value)
        && edges == RemoveAt(old(edges), k)
        && GetFriendshipStatus(edges, deleted.value.requester, deleted.value.recipient).status == NoEdge
    {
      var k := FindFirst(edges, query);
      if k.None? {
        return None;
      }
      deleted := Some(edges[k.value]);
      DeleteAt(k.value);
    }
  }
}
