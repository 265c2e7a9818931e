/** The in-app notification collection (backend/models/Notification.js): the
    record every push attempt leaves behind, with its queries and the updates
    that mark records read or clear old ones away. */
module NotificationModel {
  import opened Common

  datatype NotificationType =
    | General
    | FriendRequest
    | FriendAccepted
    | GameInvitation
    | AvailabilityMatch
    | System
    | Test

  datatype Priority = Low | Normal | High

  /** A value in the opaque `data` payload. */
  datatype Value = Num(n: int) | Flag(b: bool) | Str(s: string)

  datatype Notification = Notification(
    id: nat,
    userId: UserId,
    title: string,
    body: string,
    kind: NotificationType,
    data: map<string, Value>,
    isRead: bool,
    readAt: Option<int>,
    priority: Priority,
    createdAt: int,
    expiresAt: int)

  /** How long a record lives by default. */
  const ExpiryMs: int := 30 * DayMs

  /** The schema's checks: a title and a body are required and bounded. */
  predicate ValidContent(title: string, body: string) {
    1 <= |title| <= 100 && 1 <= |body| <= 500
  }

  /** The record `new Notification({...})` builds at instant `now`. */
  function NewNotification(
    id: nat, userId: UserId, title: string, body: string,
    kind: NotificationType, data: map<string, Value>, now: int): (n: Notification)
    ensures !n.isRead && n.readAt.None? && n.priority == Normal
    ensures n.createdAt == now && n.expiresAt == now + ExpiryMs
  {
    Notification(id, userId, title, body, kind, data, false, None, Normal, now, now + ExpiryMs)
  }

  /** The `isExpired` virtual. */
  predicate IsExpired(n: Notification, now: int) {
    n.expiresAt < now
  }

  /** A fresh record is expired exactly when more than 30 days have passed. */
  lemma NewNotificationExpiry(
    id: nat, userId: UserId, title: string, body: string,
    kind: NotificationType, data: map<string, Value>, created: int, now: int)
    ensures IsExpired(NewNotification(id, userId, title, body, kind, data, created), now)
        <==> now > created + 30 * DayMs
  {
  }

  /** Sort key for "newest first". */
  function NewestKey(n: Notification): int {
    -n.createdAt
  }

  predicate NewestFirst(s: seq<Notification>) {
    forall i, j :: 0 <= i < j < |s| ==> s[i].createdAt >= s[j].createdAt
  }

  lemma SortedByNewestKey(s: seq<Notification>)
    requires SortedBy(s, NewestKey)
    ensures NewestFirst(s)
  {
    forall i, j | 0 <= i < j < |s| ensures s[i].createdAt >= s[j].createdAt {
      assert NewestKey(s[i]) <= NewestKey(s[j]);
    }
  }

  function UnreadOf(s: seq<Notification>, u: UserId): seq<Notification> {
    Filter(s, (n: Notification) => n.userId == u && !n.isRead)
  }

  lemma InUnreadOf(s: seq<Notification>, u: UserId, x: Notification)
    requires x in multiset(UnreadOf(s, u))
    ensures x in s && x.userId == u && !x.isRead
  {
    var r := UnreadOf(s, u);
    var k :| 0 <= k < |r| && r[k] == x;
  }

  /** `getUnreadForUser(user, limit)`: the user's unread records, newest first,
      at most `limit` of them (0 is no limit, as for the store). */
  function GetUnreadForUser(s: seq<Notification>, u: UserId, limit: nat): (r: seq<Notification>)
    ensures forall i :: 0 <= i < |r| ==> r[i] in s && r[i].userId == u && !r[i].isRead
    ensures NewestFirst(r)
    ensures limit > 0 ==> |r| <= limit
    ensures |r| == (if limit == 0 || |UnreadOf(s, u)| <= limit then |UnreadOf(s, u)| else limit)
    ensures limit == 0 || |UnreadOf(s, u)| <= limit ==> multiset(r) == multiset(UnreadOf(s, u))
    ensures multiset(r) <= multiset(UnreadOf(s, u))
    ensures forall x, i :: x in multiset(UnreadOf(s, u)) - multiset(r) && 0 <= i < |r| ==>
      x.createdAt <= r[i].createdAt
  {
    var sorted := SortBy(UnreadOf(s, u), NewestKey);
    var r := Limit(sorted, limit);
    UnreadPrefix(s, u, sorted, r);
    r
  }

  lemma UnreadPrefix(s: seq<Notification>, u: UserId, sorted: seq<Notification>, r: seq<Notification>)
    requires sorted == SortBy(UnreadOf(s, u), NewestKey) && r <= sorted
    ensures forall i :: 0 <= i < |r| ==> r[i] in s && r[i].userId == u && !r[i].isRead
    ensures NewestFirst(r)
    ensures multiset(r) <= multiset(UnreadOf(s, u))
    ensures forall x, i :: x in multiset(UnreadOf(s, u)) - multiset(r) && 0 <= i < |r| ==>
      x.createdAt <= r[i].createdAt
  {
    SortedByNewestKey(sorted);
    assert r == sorted[..|r|];
    NewestPrefix(sorted, r);
    forall i | 0 <= i < |r| ensures r[i] in s && r[i].userId == u && !r[i].isRead {
      assert r[i] == sorted[i];
      assert sorted[i] in multiset(sorted);
      InUnreadOf(s, u, r[i]);
    }
  }

  lemma NewestBefore(sorted: seq<Notification>, i: nat, j: nat)
    requires SortedBy(sorted, NewestKey) && i <= j < |sorted|
    ensures sorted[j].createdAt <= sorted[i].createdAt
  {
    if i < j {
      assert NewestKey(sorted[i]) <= NewestKey(sorted[j]);
    }
  }

  /** A prefix of a newest-first ordering keeps the newest records: each one
      left behind is no newer than any kept. */
  lemma NewestPrefix(sorted: seq<Notification>, r: seq<Notification>)
    requires SortedBy(sorted, NewestKey) && r <= sorted
    ensures multiset(r) <= multiset(sorted)
    ensures forall x, i :: x in multiset(sorted) - multiset(r) && 0 <= i < |r| ==>
      x.createdAt <= r[i].createdAt
  {
    var rest := sorted[|r|..];
    assert sorted == r + rest;
    assert multiset(sorted) == multiset(r) + multiset(rest);
    assert multiset(sorted) - multiset(r) == multiset(rest);
    forall x, i | x in multiset(sorted) - multiset(r) && 0 <= i < |r|
      ensures x.createdAt <= r[i].createdAt
    {
      assert x in rest;
      var k :| 0 <= k < |rest| && rest[k] == x;
      NewestBefore(sorted, i, |r| + k);
    }
  }

  /** The `getForUser` query: the user's records, of one type when one is given. */
  function OfUser(s: seq<Notification>, u: UserId, kind: Option<NotificationType>): seq<Notification> {
    Filter(s, (n: Notification) => n.userId == u && (kind.None? || n.kind == kind.value))
  }

  lemma InOfUser(s: seq<Notification>, u: UserId, kind: Option<NotificationType>, x: Notification)
    requires x in multiset(OfUser(s, u, kind))
    ensures x in s && x.userId == u && (kind.None? || x.kind == kind.value)
  {
    var r := OfUser(s, u, kind);
    var k :| 0 <= k < |r| && r[k] == x;
  }

  /** `getForUser(user, page, limit, type)`: newest first, the page that starts
      after `(page - 1) * limit` records. */
  function GetForUser(s: seq<Notification>, u: UserId, page: nat, limit: nat, kind: Option<NotificationType>)
    : (r: seq<Notification>)
    requires page >= 1
    ensures forall i :: 0 <= i < |r| ==> r[i] in s && r[i].userId == u
    ensures kind.Some? ==> forall i :: 0 <= i < |r| ==> r[i].kind == kind.value
    ensures NewestFirst(r)
    ensures limit > 0 ==> |r| <= limit
    ensures |r| == (var m, off := |OfUser(s, u, kind)|, PageStart(page, limit);
                    if m <= off then 0 else if limit == 0 || m - off <= limit then m - off else limit)
    ensures forall i :: 0 <= i < |r| ==>
      && PageStart(page, limit) + i < |OfUser(s, u, kind)|
      && r[i] == SortBy(OfUser(s, u, kind), NewestKey)[PageStart(page, limit) + i]
  {
    var sorted := SortBy(OfUser(s, u, kind), NewestKey);
    var off := PageStart(page, limit);
    var r := Page(sorted, off, limit);
    PageOfNewest(s, u, kind, sorted, off, r);
    assert |sorted| == |OfUser(s, u, kind)|;
    r
  }

  lemma PageOfNewest(s: seq<Notification>, u: UserId, kind: Option<NotificationType>,
                     sorted: seq<Notification>, off: nat, r: seq<Notification>)
    requires sorted == SortBy(OfUser(s, u, kind), NewestKey)
    requires forall i :: 0 <= i < |r| ==> off + i < |sorted| && r[i] == sorted[off + i]
    ensures forall i :: 0 <= i < |r| ==> r[i] in s && r[i].userId == u && (kind.None? || r[i].kind == kind.value)
    ensures NewestFirst(r)
  {
    assert SortedBy(sorted, NewestKey);
    forall i | 0 <= i < |r| ensures r[i] in s && r[i].userId == u && (kind.None? || r[i].kind == kind.value) {
      var x := r[i];
      assert sorted[off + i] in multiset(OfUser(s, u, kind));
      InOfUser(s, u, kind, x);
    }
    forall i, j | 0 <= i < j < |r| ensures r[i].createdAt >= r[j].createdAt {
      var x, y := r[i], r[j];
      assert NewestKey(sorted[off + i]) <= NewestKey(sorted[off + j]);
    }
  }

  /** Per-type totals of one `$group` row. */
  datatype TypeCount = TypeCount(total: nat, unread: nat)

  /** Selects the records of user `u` with type `t`. */
  function OfKind(u: UserId, t: NotificationType): Notification -> bool {
    (n: Notification) => n.userId == u && n.kind == t
  }

  /** Selects the unread records of user `u` with type `t`. */
  function UnreadOfKind(u: UserId, t: NotificationType): Notification -> bool {
    (n: Notification) => n.userId == u && n.kind == t && !n.isRead
  }

  /** The records of user `u` with type `t`, counted, and the unread ones among them. */
  function Tally(s: seq<Notification>, u: UserId, t: NotificationType): (c: TypeCount)
    ensures c.unread <= c.total <= |s|
  {
    if s == [] then TypeCount(0, 0)
    else
      var c := Tally(s[1..], u, t);
      if s[0].userId == u && s[0].kind == t then
        TypeCount(c.total + 1, if s[0].isRead then c.unread else c.unread + 1)
      else c
  }

  /** The tally counts the user's records of the type and the unread ones among them. */
  lemma {:induction false} TallyCounts(s: seq<Notification>, u: UserId, t: NotificationType)
    ensures Tally(s, u, t).total == |Filter(s, OfKind(u, t))|
    ensures Tally(s, u, t).unread == |Filter(s, UnreadOfKind(u, t))|
  {
    if s != [] {
      TallyCounts(s[1..], u, t);
    }
  }

  /** A record of the user with that type is counted. */
  lemma {:induction false} TallyCountsEach(s: seq<Notification>, u: UserId, t: NotificationType, i: nat)
    requires i < |s| && s[i].userId == u && s[i].kind == t
    ensures Tally(s, u, t).total > 0
  {
    if i > 0 {
      assert s[1..][i - 1] == s[i];
      TallyCountsEach(s[1..], u, t, i - 1);
    }
  }

  /** And a positive total has a record behind it: `i` is one. */
  lemma {:induction false} TallyHasWitness(s: seq<Notification>, u: UserId, t: NotificationType)
    returns (i: nat)
    requires Tally(s, u, t).total > 0
    ensures i < |s| && s[i].userId == u && s[i].kind == t
  {
    assert s != [];
    if s[0].userId == u && s[0].kind == t {
      i := 0;
    } else {
      assert Tally(s, u, t).total == Tally(s[1..], u, t).total;
      var k := TallyHasWitness(s[1..], u, t);
      assert s[k + 1] == s[1..][k];
      i := k + 1;
    }
  }

  /** The types user `u` has records of. */
  function KindsOf(s: seq<Notification>, u: UserId): set<NotificationType> {
    set i | 0 <= i < |s| && s[i].userId == u :: s[i].kind
  }

  lemma KindsCounted(s: seq<Notification>, u: UserId)
    ensures forall t :: t in KindsOf(s, u) ==> Tally(s, u, t).total >= 1
    ensures forall t :: t in KindsOf(s, u) ==>
      && Tally(s, u, t).total == |Filter(s, OfKind(u, t))|
      && Tally(s, u, t).unread == |Filter(s, UnreadOfKind(u, t))|
  {
    forall t | t in KindsOf(s, u)
      ensures Tally(s, u, t).total >= 1
      ensures Tally(s, u, t).total == |Filter(s, OfKind(u, t))|
      ensures Tally(s, u, t).unread == |Filter(s, UnreadOfKind(u, t))|
    {
      var i :| 0 <= i < |s| && s[i].userId == u && s[i].kind == t;
      TallyCountsEach(s, u, t, i);
      TallyCounts(s, u, t);
    }
  }

  /** `getCountsByType(user)`: one entry per type the user has records of. */
  function GetCountsByType(s: seq<Notification>, u: UserId): (r: map<NotificationType, TypeCount>)
    ensures forall t :: t in r <==> exists i :: 0 <= i < |s| && s[i].userId == u && s[i].kind == t
    ensures forall t :: t in r ==> 1 <= r[t].total && r[t].unread <= r[t].total
    ensures forall t :: t in r ==>
      r[t].total == |Filter(s, OfKind(u, t))|
    ensures forall t :: t in r ==>
      r[t].unread == |Filter(s, UnreadOfKind(u, t))|
  {
    KindsCounted(s, u);
    map t | t in KindsOf(s, u) :: Tally(s, u, t)
  }

  /** The records the static `markAsRead(user, ids)` touches: the user's unread
      ones, restricted to `ids` when an array is given. */
  predicate MarkSelects(n: Notification, u: UserId, ids: Option<seq<nat>>) {
    n.userId == u && !n.isRead && (ids.None? || n.id in ids.value)
  }

  /** The collection after the static `markAsRead` at instant `now`. */
  function MarkRead(s: seq<Notification>, u: UserId, ids: Option<seq<nat>>, now: int): (r: seq<Notification>)
    ensures |r| == |s|
    ensures forall i :: 0 <= i < |s| ==>
      r[i] == if MarkSelects(s[i], u, ids) then s[i].(isRead := true, readAt := Some(now)) else s[i]
  {
    seq(|s|, i requires 0 <= i < |s| =>
      if MarkSelects(s[i], u, ids) then s[i].(isRead := true, readAt := Some(now)) else s[i])
  }

  /** After every unread record of a user is marked, the user has none unread. */
  lemma {:induction false} MarkAllLeavesNoneUnread(s: seq<Notification>, u: UserId, now: int, limit: nat)
    ensures GetUnreadForUser(MarkRead(s, u, None, now), u, limit) == []
  {
    NoUnreadAfterMark(s, u, now);
  }

  lemma {:induction false} NoUnreadAfterMark(s: seq<Notification>, u: UserId, now: int)
    ensures UnreadOf(MarkRead(s, u, None, now), u) == []
  {
    if s != [] {
      NoUnreadAfterMark(s[1..], u, now);
      assert MarkRead(s, u, None, now)[1..] == MarkRead(s[1..], u, None, now);
    }
  }

  /** Marking one user's records read leaves every other user's unread records as they were. */
  lemma {:induction false} MarkLeavesOthersUnread(s: seq<Notification>, u: UserId, ids: Option<seq<nat>>,
                                                   now: int, v: UserId)
    requires v != u
    ensures UnreadOf(MarkRead(s, u, ids, now), v) == UnreadOf(s, v)
  {
    if s != [] {
      var m := MarkRead(s, u, ids, now);
      MarkLeavesOthersUnread(s[1..], u, ids, now, v);
      assert m[1..] == MarkRead(s[1..], u, ids, now);
      assert m[0].userId == s[0].userId;
      assert s[0].userId == v ==> m[0] == s[0];
    }
  }

  /** The records `cleanup` keeps: everything except read records created before the cutoff. */
  function Survivors(s: seq<Notification>, cutoff: int): (r: seq<Notification>)
    ensures forall i :: 0 <= i < |r| ==> r[i] in s && !(r[i].isRead && r[i].createdAt < cutoff)
    ensures forall i :: 0 <= i < |s| && !(s[i].isRead && s[i].createdAt < cutoff) ==> s[i] in r
  {
    Filter(s, (n: Notification) => !(n.isRead && n.createdAt < cutoff))
  }

  /** The cutoff `cleanup(olderThanDays)` computes at instant `now`. */
  function CleanupCutoff(olderThanDays: int, now: int): int {
    now - olderThanDays * DayMs
  }

  /** Cleanup never removes an unread record, however old, and keeps the order
      of what it keeps. */
  lemma {:induction false} CleanupKeepsUnread(s: seq<Notification>, cutoff: int)
    ensures forall u :: UnreadOf(Survivors(s, cutoff), u) == UnreadOf(s, u)
  {
    forall u ensures UnreadOf(Survivors(s, cutoff), u) == UnreadOf(s, u) {
      FilterFilter(s, (n: Notification) => !(n.isRead && n.createdAt < cutoff),
                   (n: Notification) => n.userId == u && !n.isRead,
                   (n: Notification) => n.userId == u && !n.isRead);
    }
  }

  function NotificationId(n: Notification): nat {
    n.id
  }

  /** The notifications collection. */
  class NotificationStore {
    var records: seq<Notification>
    var nextId: nat

    ghost predicate Valid()
      reads this
    {
      UniqueBy(records, NotificationId) && forall i :: 0 <= i < |records| ==> records[i].id < nextId
    }

    constructor ()
      ensures Valid() && records == []
    {
      records := [];
      nextId := 0;
    }

    /** `new Notification({...}).save()`: the record is stored unless the
        schema rejects its title or body. */
    method Save(userId: UserId, title: string, body: string, kind: NotificationType,
                data: map<string, Value>, now: int) returns (id: Option<nat>)
      requires Valid()
      modifies this
      ensures Valid()
      ensures ValidContent(title, body) ==>
        && id == Some(old(nextId))
        && records == old(records) + [NewNotification(old(nextId), userId, title, body, kind, data, now)]
      ensures !ValidContent(title, body) ==> id.None? && records == old(records)
      ensures nextId == if ValidContent(title, body) then old(nextId) + 1 else old(nextId)
    {
      if !ValidContent(title, body) {
        return None;
      }
      records := records + [NewNotification(nextId, userId, title, body, kind, data, now)];
      id := Some(nextId);
      nextId := nextId + 1;
    }

    /** The static `markAsRead(user, ids)`: marks the selected records read at
        `now` and reports how many it changed. */
    method MarkAsRead(userId: UserId, ids: Option<seq<nat>>, now: int) returns (modified: nat)
      requires Valid()
      modifies this
      ensures Valid() && nextId == old(nextId)
      ensures records == MarkRead(old(records), userId, ids, now)
      ensures modified == |Filter(old(records), (n: Notification) => MarkSelects(n, userId, ids))|
    {
      modified := |Filter(records, (n: Notification) => MarkSelects(n, userId, ids))|;
      records := MarkRead(records, userId, ids, now);
    }

    /** The instance `markAsRead()` on the record with identifier `id`. */
    method MarkOneAsRead(id: nat, now: int)
      requires Valid()
      requires exists i :: 0 <= i < |records| && records[i].id == id
      modifies this
      ensures Valid() && nextId == old(nextId) && |records| == |old(records)|
      ensures forall i :: 0 <= i < |records| ==>
        records[i] == if old(records)[i].id == id
                      then old(records)[i].(isRead := true, readAt := Some(now))
                      else old(records)[i]
    {
      var k := FindFirst(records, (n: Notification) => n.id == id).value;
      records := records[k := records[k].(isRead := true, readAt := Some(now))];
    }

    /** `cleanup(olderThanDays)`: deletes the read records created before the cutoff. */
    method Cleanup(olderThanDays: int, now: int) returns (deleted: nat)
      requires Valid()
      modifies this
      ensures Valid() && nextId == old(nextId)
      ensures records == Survivors(old(records), CleanupCutoff(olderThanDays, now))
      ensures deleted == |old(records)| - |records|
    {
      var kept := Survivors(records, CleanupCutoff(olderThanDays, now));
      FilterUniqueBy(records, (n: Notification) => !(n.isRead && n.createdAt < CleanupCutoff(olderThanDays, now)),
                     NotificationId);
      deleted := |records| - |kept|;
      records := kept;
    }
  }
}
