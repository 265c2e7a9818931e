/** The in-memory scaffolds of the stand-alone push notification service
    (push-notifications-app/src): a map from users to the notification
    identifiers they subscribed to, and an append-only log of notifications
    sent. */
module PushApp {
  import opened Common

  // ------------------------------------------------------- subscriptions

  /** `get(userId) || []`: a user never seen has no subscriptions. */
  function Lookup(m: map<string, seq<string>>, userId: string): (r: seq<string>)
    ensures userId !in m ==> r == []
    ensures userId in m ==> r == m[userId]
  {
    if userId in m then m[userId] else []
  }

  /** The identifiers of `s` other than `id`, in their order: `filter(x => x !== id)`. */
  function Without(s: seq<string>, id: string): (r: seq<string>)
    ensures id !in r
    ensures forall i :: 0 <= i < |s| && s[i] != id ==> s[i] in r
    ensures |r| <= |s|
  {
    Filter(s, (x: string) => x != id)
  }

  /** Every other identifier keeps its number of occurrences; `id` loses all of them. */
  lemma {:induction false} WithoutCounts(s: seq<string>, id: string)
    ensures multiset(Without(s, id)) == multiset(s)[id := 0]
  {
    if s != [] {
      var t := s[1..];
      WithoutCounts(t, id);
      assert s == [s[0]] + t;
      if s[0] != id {
        assert Without(s, id) == [s[0]] + Without(t, id);
        assert multiset(Without(s, id)) == multiset{s[0]} + multiset(Without(t, id));
      } else {
        assert Without(s, id) == Without(t, id);
      }
      assert multiset(s) == multiset{s[0]} + multiset(t);
    }
  }

  /** Removing twice is removing once. */
  lemma WithoutIdempotent(s: seq<string>, id: string)
    ensures Without(Without(s, id), id) == Without(s, id)
  {
    var p := (x: string) => x != id;
    FilterFilter(s, p, p, p);
  }

  /** The map after `addSubscription(userId, id)`: the user's list, created
      empty if missing, gains `id` at its end. */
  function Added(m: map<string, seq<string>>, userId: string, id: string): (r: map<string, seq<string>>)
    ensures userId in r && Lookup(r, userId) == Lookup(m, userId) + [id]
    ensures forall u :: u != userId ==> (u in r <==> u in m) && Lookup(r, u) == Lookup(m, u)
  {
    m[userId := Lookup(m, userId) + [id]]
  }

  /** The map after `removeSubscription(userId, id)`: a known user's list loses
      every `id`; an unknown user gets no entry. */
  function Removed(m: map<string, seq<string>>, userId: string, id: string): (r: map<string, seq<string>>)
    ensures r.Keys == m.Keys
    ensures Lookup(r, userId) == Without(Lookup(m, userId), id)
    ensures forall u :: u != userId ==> Lookup(r, u) == Lookup(m, u)
  {
    if userId in m then m[userId := Without(m[userId], id)] else m
  }

  /** Subscribing and then unsubscribing the same identifier leaves the user
      without it, and with every other identifier as before. */
  lemma RemoveAfterAdd(m: map<string, seq<string>>, userId: string, id: string)
    ensures Lookup(Removed(Added(m, userId, id), userId, id), userId) == Without(Lookup(m, userId), id)
  {
    var p := (x: string) => x != id;
    FilterConcat(Lookup(m, userId), [id], p);
    assert Filter([id], p) == [];
  }

  /** `SubscriptionService`. */
  class SubscriptionService {
    var subscriptions: map<string, seq<string>>

    constructor ()
      ensures subscriptions == map[]
    {
      subscriptions := map[];
    }

    /** `addSubscription`: duplicates are kept. */
    method AddSubscription(userId: string, id: string)
      modifies this
      ensures subscriptions == Added(old(subscriptions), userId, id)
      ensures id in GetSubscriptions(userId)
    {
      if userId !in subscriptions {
        subscriptions := subscriptions[userId := []];
      }
      subscriptions := subscriptions[userId := subscriptions[userId] + [id]];
    }

    /** `removeSubscription`. */
    method RemoveSubscription(userId: string, id: string)
      modifies this
      ensures subscriptions == Removed(old(subscriptions), userId, id)
      ensures id !in GetSubscriptions(userId)
    {
      if userId in subscriptions {
        subscriptions := subscriptions[userId := Without(subscriptions[userId], id)];
      }
    }

    /** `getSubscriptions`. */
    function GetSubscriptions(userId: string): (r: seq<string>)
      reads this
      ensures r == Lookup(subscriptions, userId)
    {
      if userId in subscriptions then subscriptions[userId] else []
    }
  }

  // ------------------------------------------------------- notifications

  /** A notification sent, stamped with the instant it was sent. */
  datatype Sent = Sent(title: string, message: string, timestamp: int)

  /** `NotificationController`: the notifications sent, oldest first. */
  class NotificationController {
    var notifications: seq<Sent>

    constructor ()
      ensures notifications == []
    {
      notifications := [];
    }

    /** `sendNotification` at instant `now`: one more record, at the end. */
    method SendNotification(title: string, message: string, now: int)
      modifies this
      ensures notifications == old(notifications) + [Sent(title, message, now)]
      ensures |notifications| == |old(notifications)| + 1
      ensures notifications[|notifications| - 1].title == title
      ensures notifications[|notifications| - 1].message == message
    {
      notifications := notifications + [Sent(title, message, now)];
    }

    /** `getNotifications`: every record, in the order sent. */
    method GetNotifications() returns (r: seq<Sent>)
      ensures r == notifications
    {
      r := notifications;
    }
  }
}
