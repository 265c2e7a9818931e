/** The push notification service (backend/services/pushNotificationService.js):
    every send leaves exactly one notification record behind, then delivers the
    payload to each of the user's active subscriptions and switches off those
    the push service reports gone.

    The push service itself is a parameter: `deliver(subscription, payload)`
    is what it answers for that subscription. */
module PushService {
  import opened Common
  import opened NotificationModel
  import opened PushSubscriptionModel

  /** What the push service answers for one subscription. */
  datatype Delivery = Delivered | Rejected(statusCode: int, message: string)

  /** A status that means the endpoint no longer exists. */
  predicate Gone(d: Delivery) {
    d.Rejected? && (d.statusCode == 410 || d.statusCode == 404)
  }

  datatype Action = Action(action: string, title: string, icon: string)

  /** The buttons shown with a notification of type `t`: at most two, no
      action offered twice, a declining button always the last one, and
      each with a title and an icon served from the site root. */
  function GetNotificationActions(t: NotificationType): (r: seq<Action>)
    ensures |r| <= 2
    ensures forall i, j :: 0 <= i < j < |r| ==> r[i].action != r[j].action
    ensures forall i :: 0 <= i < |r| && r[i].action == "decline" ==> i == |r| - 1
    ensures forall i :: 0 <= i < |r| ==> r[i].title != "" && |r[i].icon| > 0 && r[i].icon[0] == '/'
    ensures forall i :: 0 <= i < |r| ==> r[i].action in ["accept", "decline", "join", "view"]
  {
    match t
    case FriendRequest =>
      [Action("accept", "Accept", "/icon-check.png"), Action("decline", "Decline", "/icon-close.png")]
    case GameInvitation =>
      [Action("join", "Join", "/icon-play.png"), Action("decline", "Decline", "/icon-close.png")]
    case AvailabilityMatch =>
      [Action("view", "View Match", "/icon-calendar.png")]
    case _ => []
  }

  /** Types whose notification stays on screen until the user acts on it. */
  predicate RequiresInteraction(t: NotificationType) {
    t == FriendRequest || t == GameInvitation
  }

  /** A notification stays on screen exactly when it offers a way to decline,
      and every type with buttons is one of the three that the app handles. */
  lemma DeclineOfferedIffInteraction(t: NotificationType)
    ensures RequiresInteraction(t) <==>
      exists i :: 0 <= i < |GetNotificationActions(t)| && GetNotificationActions(t)[i].action == "decline"
    ensures GetNotificationActions(t) != [] <==>
      t == FriendRequest || t == GameInvitation || t == AvailabilityMatch
  {
    if RequiresInteraction(t) {
      assert GetNotificationActions(t)[1].action == "decline";
    } else if t == AvailabilityMatch {
      assert GetNotificationActions(t)[0].action == "view";
    }
  }

  datatype Payload = Payload(
    title: string,
    body: string,
    kind: NotificationType,
    data: map<string, Value>,
    badge: string,
    icon: string,
    tag: NotificationType,
    requireInteraction: bool,
    actions: seq<Action>)

  /** The payload pushed for record `notificationId` at instant `now`: the
      caller's data with the record's identifier and the time added. */
  function PayloadFor(title: string, body: string, kind: NotificationType,
                      data: map<string, Value>, notificationId: nat, now: int): (p: Payload)
    ensures p.data.Keys == data.Keys + {"notificationId", "timestamp"}
    ensures p.data["notificationId"] == Num(notificationId) && p.data["timestamp"] == Num(now)
    ensures forall k :: k in data && k != "notificationId" && k != "timestamp" ==> p.data[k] == data[k]
    ensures p.tag == kind && (p.requireInteraction <==> RequiresInteraction(kind))
    ensures p.actions == GetNotificationActions(kind)
  {
    Payload(title, body, kind, data["notificationId" := Num(notificationId)]["timestamp" := Num(now)],
            "/icon-badge.png", "/icon-192x192.png", kind, RequiresInteraction(kind),
            GetNotificationActions(kind))
  }

  /** What one delivery attempt reports. */
  datatype DeliveryResult = DeliveryResult(subscriptionId: nat, success: bool, error: Option<string>)

  function ResultOf(p: PushSubscription, d: Delivery): DeliveryResult {
    if d.Delivered? then DeliveryResult(p.id, true, None)
    else DeliveryResult(p.id, false, Some(d.message))
  }

  function Succeeded(results: seq<DeliveryResult>): nat {
    |Filter(results, (d: DeliveryResult) => d.success)|
  }

  /** The answer of `sendPushNotification`. */
  datatype SendResult =
    | Disabled(notificationId: nat)
    | NoSubscriptions(notificationId: nat)
    | Sent(notificationId: nat, sentTo: nat, total: nat, results: seq<DeliveryResult>)
    | Failed
  {
    /** The `success` field. */
    predicate Success() {
      Sent? && sentTo > 0
    }
  }

  /** A subscription after a send to user `u` whose push service answered `deliver`. */
  function AfterDelivery(p: PushSubscription, u: UserId, payload: Payload,
                         deliver: (PushSubscription, Payload) -> Delivery): (r: PushSubscription)
    ensures r != p ==> p.userId == u && p.isActive && Gone(deliver(p, payload))
  {
    if p.userId == u && p.isActive && Gone(deliver(p, payload))
    then Deactivated(p, deliver(p, payload).message)
    else p
  }

  /** An answer together with the subscriptions as they are left. */
  datatype Outcome<R> = Outcome(result: R, subs: seq<PushSubscription>)

  /** What `sendPushNotification` answers, and the subscriptions it leaves, as
      a function of the subscriptions and the next record identifier before
      the call. */
  function SendOutcome(subs: seq<PushSubscription>, nextId: nat, vapidConfigured: bool, userId: UserId,
                       title: string, body: string, kind: NotificationType, data: map<string, Value>,
                       now: int, deliver: (PushSubscription, Payload) -> Delivery): (o: Outcome<SendResult>)
    ensures |o.subs| == |subs|
    ensures o.result.Failed? <==> !ValidContent(title, body)
    ensures !o.result.Failed? ==> o.result.notificationId == nextId
    ensures o.result.Sent? ==>
      && o.result.total == |FindActiveByUserId(subs, userId)| > 0
      && o.result.sentTo <= o.result.total && |o.result.results| == o.result.total
  {
    if !ValidContent(title, body) then Outcome(Failed, subs)
    else if !vapidConfigured then Outcome(Disabled(nextId), subs)
    else
      var active := FindActiveByUserId(subs, userId);
      if active == [] then Outcome(NoSubscriptions(nextId), subs)
      else
        var payload := PayloadFor(title, body, kind, data, nextId, now);
        var results := seq(|active|, k requires 0 <= k < |active| => ResultOf(active[k], deliver(active[k], payload)));
        Outcome(Sent(nextId, Succeeded(results), |active|, results),
                seq(|subs|, i requires 0 <= i < |subs| => AfterDelivery(subs[i], userId, payload, deliver)))
  }

  /** `sendPushNotification(userId, title, body, type, data)` at instant `now`,
      where `vapidConfigured` says whether push delivery is set up at all. */
  method SendPushNotification(
    notes: NotificationStore, subs: SubscriptionStore, vapidConfigured: bool,
    userId: UserId, title: string, body: string, kind: NotificationType,
    data: map<string, Value>, now: int, deliver: (PushSubscription, Payload) -> Delivery)
    returns (r: SendResult)
    requires notes.Valid() && subs.Valid()
    modifies notes, subs
    ensures notes.Valid() && subs.Valid() && |subs.subs| == |old(subs.subs)|
    // A record is saved on every path, unless the schema rejects it.
    ensures !ValidContent(title, body) ==>
      r.Failed? && notes.records == old(notes.records) && subs.subs == old(subs.subs)
    ensures ValidContent(title, body) ==>
      notes.records == old(notes.records) + [NewNotification(old(notes.nextId), userId, title, body, kind, data, now)]
    ensures ValidContent(title, body) && !vapidConfigured ==>
      r == Disabled(old(notes.nextId)) && subs.subs == old(subs.subs)
    ensures ValidContent(title, body) && vapidConfigured && FindActiveByUserId(old(subs.subs), userId) == [] ==>
      r == NoSubscriptions(old(notes.nextId)) && subs.subs == old(subs.subs)
    ensures ValidContent(title, body) && vapidConfigured && FindActiveByUserId(old(subs.subs), userId) != [] ==>
      var active := FindActiveByUserId(old(subs.subs), userId);
      var payload := PayloadFor(title, body, kind, data, old(notes.nextId), now);
      && r.Sent? && r.notificationId == old(notes.nextId)
      && r.total == |active| && |r.results| == |active| && r.sentTo == Succeeded(r.results)
      && (forall k :: 0 <= k < |active| ==> r.results[k] == ResultOf(active[k], deliver(active[k], payload)))
      && (forall i :: 0 <= i < |subs.subs| ==>
            subs.subs[i] == AfterDelivery(old(subs.subs)[i], userId, payload, deliver))
    ensures notes.nextId == old(notes.nextId) + (if ValidContent(title, body) then 1 else 0)
    ensures Outcome(r, subs.subs) ==
      SendOutcome(old(subs.subs), old(notes.nextId), vapidConfigured, userId, title, body, kind, data, now, deliver)
  {
    if !vapidConfigured {
      var id := notes.Save(userId, title, body, kind, data, now);
      if id.None? {
        return Failed;
      }
      return Disabled(id.value);
    }
    var active := FindActiveByUserId(subs.subs, userId);
    if |active| == 0 {
      var id := notes.Save(userId, title, body, kind, data, now);
      if id.None? {
        return Failed;
      }
      return NoSubscriptions(id.value);
    }
    r := SendToActive(notes, subs, active, userId, title, body, kind, data, now, deliver);
  }

  /** The last path of `sendPushNotification`: push delivery is set up and the
      user has active subscriptions, so the record is saved and each of them
      is tried. */
  method SendToActive(
    notes: NotificationStore, subs: SubscriptionStore, active: seq<PushSubscription>,
    userId: UserId, title: string, body: string, kind: NotificationType,
    data: map<string, Value>, now: int, deliver: (PushSubscription, Payload) -> Delivery)
    returns (r: SendResult)
    requires notes.Valid() && subs.Valid()
    requires active == FindActiveByUserId(subs.subs, userId) && active != []
    modifies notes, subs
    ensures notes.Valid() && subs.Valid() && |subs.subs| == |old(subs.subs)|
    ensures !ValidContent(title, body) ==>
      r.Failed? && notes.records == old(notes.records) && subs.subs == old(subs.subs)
    ensures ValidContent(title, body) ==>
      notes.records == old(notes.records) + [NewNotification(old(notes.nextId), userId, title, body, kind, data, now)]
    ensures ValidContent(title, body) ==>
      var payload := PayloadFor(title, body, kind, data, old(notes.nextId), now);
      && r.Sent? && r.notificationId == old(notes.nextId)
      && r.total == |active| && |r.results| == |active| && r.sentTo == Succeeded(r.results)
      && (forall k :: 0 <= k < |active| ==> r.results[k] == ResultOf(active[k], deliver(active[k], payload)))
      && (forall i :: 0 <= i < |subs.subs| ==>
            subs.subs[i] == AfterDelivery(old(subs.subs)[i], userId, payload, deliver))
    ensures notes.nextId == old(notes.nextId) + (if ValidContent(title, body) then 1 else 0)
    ensures Outcome(r, subs.subs) ==
      SendOutcome(old(subs.subs), old(notes.nextId), true, userId, title, body, kind, data, now, deliver)
  {
    var id := notes.Save(userId, title, body, kind, data, now);
    if id.None? {
      return Failed;
    }
    var payload := PayloadFor(title, body, kind, data, id.value, now);
    ghost var start := subs.subs;
    var results := DeliverAll(subs, active, userId, payload, deliver);
    r := Sent(id.value, Succeeded(results), |active|, results);
    SentOutcome(start, subs.subs, id.value, userId, title, body, kind, data, now, deliver, results);
  }

  /** The deliveries `DeliverAll` makes are the ones `SendOutcome` describes. */
  lemma SentOutcome(start: seq<PushSubscription>, cur: seq<PushSubscription>, nextId: nat, userId: UserId,
                    title: string, body: string, kind: NotificationType, data: map<string, Value>,
                    now: int, deliver: (PushSubscription, Payload) -> Delivery, results: seq<DeliveryResult>)
    requires ValidContent(title, body) && FindActiveByUserId(start, userId) != []
    requires var active := FindActiveByUserId(start, userId);
      var payload := PayloadFor(title, body, kind, data, nextId, now);
      && |results| == |active| && |cur| == |start|
      && (forall k :: 0 <= k < |active| ==> results[k] == ResultOf(active[k], deliver(active[k], payload)))
      && (forall i :: 0 <= i < |cur| ==> cur[i] == AfterDelivery(start[i], userId, payload, deliver))
    ensures Outcome(Sent(nextId, Succeeded(results), |results|, results), cur) ==
      SendOutcome(start, nextId, true, userId, title, body, kind, data, now, deliver)
  {
    var o := SendOutcome(start, nextId, true, userId, title, body, kind, data, now, deliver);
    assert results == o.result.results;
    assert cur == o.subs;
  }

  /** `cur` is `start` after the deliveries to the subscriptions in `done`. */
  ghost predicate Processed(cur: seq<PushSubscription>, start: seq<PushSubscription>, done: seq<PushSubscription>,
                            payload: Payload, deliver: (PushSubscription, Payload) -> Delivery)
  {
    && |cur| == |start|
    && forall i :: 0 <= i < |start| ==>
         cur[i] == if start[i] in done && Gone(deliver(start[i], payload))
                   then Deactivated(start[i], deliver(start[i], payload).message)
                   else start[i]
  }

  /** One delivery attempt per subscription in `active` (a snapshot of the
      user's active subscriptions), switching off each one the push service
      reports gone. */
  method DeliverAll(subs: SubscriptionStore, active: seq<PushSubscription>, userId: UserId,
                    payload: Payload, deliver: (PushSubscription, Payload) -> Delivery)
    returns (results: seq<DeliveryResult>)
    requires subs.Valid() && active == FindActiveByUserId(subs.subs, userId)
    modifies subs
    ensures subs.Valid() && |subs.subs| == |old(subs.subs)|
    ensures |results| == |active|
    ensures forall k :: 0 <= k < |active| ==> results[k] == ResultOf(active[k], deliver(active[k], payload))
    ensures forall i :: 0 <= i < |subs.subs| ==>
      subs.subs[i] == AfterDelivery(old(subs.subs)[i], userId, payload, deliver)
  {
    ghost var start := subs.subs;
    results := DeliverEach(subs, start, active, payload, deliver);
    AllDelivered(subs.subs, start, active, userId, payload, deliver);
  }

  /** The loop of `DeliverAll`: one delivery per subscription of `active`, in order. */
  method DeliverEach(subs: SubscriptionStore, ghost start: seq<PushSubscription>, active: seq<PushSubscription>,
                     payload: Payload, deliver: (PushSubscription, Payload) -> Delivery)
    returns (results: seq<DeliveryResult>)
    requires subs.Valid() && subs.subs == start
    requires forall j :: 0 <= j < |active| ==> active[j] in start
    modifies subs
    ensures subs.Valid() && Processed(subs.subs, start, active, payload, deliver)
    ensures |results| == |active|
    ensures forall k :: 0 <= k < |active| ==> results[k] == ResultOf(active[k], deliver(active[k], payload))
  {
    results := [];
    var k := 0;
    while k < |active|
      invariant 0 <= k <= |active|
      invariant subs.Valid()
      invariant |results| == k
      invariant forall j :: 0 <= j < k ==> results[j] == ResultOf(active[j], deliver(active[j], payload))
      invariant Processed(subs.subs, start, active[..k], payload, deliver)
    {
      var res := DeliverOne(subs, start, active, k, payload, deliver);
      results := results + [res];
      k := k + 1;
    }
    assert active[..k] == active;
  }

  /** Once every active subscription of the user has been tried, the documents
      are what `AfterDelivery` says. */
  lemma AllDelivered(cur: seq<PushSubscription>, start: seq<PushSubscription>, active: seq<PushSubscription>,
                     userId: UserId, payload: Payload, deliver: (PushSubscription, Payload) -> Delivery)
    requires active == FindActiveByUserId(start, userId)
    requires Processed(cur, start, active, payload, deliver)
    ensures |cur| == |start|
    ensures forall i :: 0 <= i < |cur| ==> cur[i] == AfterDelivery(start[i], userId, payload, deliver)
  {
    forall i | 0 <= i < |start|
      ensures cur[i] == AfterDelivery(start[i], userId, payload, deliver)
    {
      assert start[i] in active <==> start[i].userId == userId && start[i].isActive;
    }
  }

  /** The attempt for `active[k]`. */
  method DeliverOne(subs: SubscriptionStore, ghost start: seq<PushSubscription>, active: seq<PushSubscription>,
                    k: nat, payload: Payload, deliver: (PushSubscription, Payload) -> Delivery)
    returns (res: DeliveryResult)
    requires k < |active| && ValidSubscriptions(start)
    requires forall j :: 0 <= j < |active| ==> active[j] in start
    requires subs.Valid() && Processed(subs.subs, start, active[..k], payload, deliver)
    modifies subs
    ensures subs.Valid() && Processed(subs.subs, start, active[..k + 1], payload, deliver)
    ensures res == ResultOf(active[k], deliver(active[k], payload))
  {
    var p := active[k];
    var d := deliver(p, payload);
    ghost var cur := subs.subs;
    assert active[..k + 1] == active[..k] + [p];
    if Gone(d) {
      subs.Deactivate(p.id, d.message);
      GoneStep(cur, subs.subs, start, active[..k], p, payload, deliver);
    } else {
      KeptStep(cur, start, active[..k], p, payload, deliver);
    }
    res := ResultOf(p, d);
  }

  /** A delivery that is not reported gone changes nothing. */
  lemma KeptStep(cur: seq<PushSubscription>, start: seq<PushSubscription>, done: seq<PushSubscription>,
                 p: PushSubscription, payload: Payload, deliver: (PushSubscription, Payload) -> Delivery)
    requires Processed(cur, start, done, payload, deliver) && !Gone(deliver(p, payload))
    ensures Processed(cur, start, done + [p], payload, deliver)
  {
    forall i | 0 <= i < |start|
      ensures (start[i] in done + [p] && Gone(deliver(start[i], payload))) ==
              (start[i] in done && Gone(deliver(start[i], payload)))
    {
      assert start[i] in done + [p] <==> start[i] in done || start[i] == p;
    }
  }

  /** Two documents of `start` with the same identifier are the same document. */
  lemma SameIdSameDocument(start: seq<PushSubscription>, i: nat, j: nat)
    requires UniqueBy(start, SubscriptionId) && i < |start| && j < |start|
    requires SubscriptionId(start[i]) == SubscriptionId(start[j])
    ensures i == j
  {
  }

  /** Switching off the document whose identifier is that of the snapshot `p`
      changes exactly that document: identifiers are unique, and deactivating
      again with the same reason changes nothing. */
  lemma GoneStep(cur: seq<PushSubscription>, next: seq<PushSubscription>, start: seq<PushSubscription>,
                 done: seq<PushSubscription>, p: PushSubscription, payload: Payload,
                 deliver: (PushSubscription, Payload) -> Delivery)
    requires ValidSubscriptions(start) && p in start && Gone(deliver(p, payload))
    requires Processed(cur, start, done, payload, deliver)
    requires |next| == |cur|
    requires forall i :: 0 <= i < |cur| ==>
      next[i] == if cur[i].id == p.id then Deactivated(cur[i], deliver(p, payload).message) else cur[i]
    ensures Processed(next, start, done + [p], payload, deliver)
  {
    var j :| 0 <= j < |start| && start[j] == p;
    forall i | 0 <= i < |start|
      ensures next[i] == if start[i] in done + [p] && Gone(deliver(start[i], payload))
                         then Deactivated(start[i], deliver(start[i], payload).message)
                         else start[i]
    {
      assert start[i] in done + [p] <==> start[i] in done || start[i] == p;
      assert cur[i].id == start[i].id;
      if start[i].id == p.id {
        SameIdSameDocument(start, i, j);
        DeactivatedIdempotent(p, deliver(p, payload).message);
      }
    }
  }

  /** The answer of `sendBulkPushNotification`. */
  datatype BulkResult = BulkResult(success: bool, sent: nat, total: nat, results: seq<SendResult>)

  function SucceededSends(results: seq<SendResult>): nat {
    |Filter(results, (r: SendResult) => r.Success())|
  }

  /** From position `from` on, `records` holds one unread record for each of
      the first `count` users of `userIds`, in order, each with the given
      title, body and type. */
  predicate RecordsFor(records: seq<Notification>, from: nat, userIds: seq<UserId>, count: nat,
                       title: string, body: string, kind: NotificationType)
  {
    forall i :: from <= i < from + count ==>
      && i < |records| && i - from < |userIds|
      && records[i].userId == userIds[i - from]
      && records[i].title == title && records[i].body == body
      && records[i].kind == kind && !records[i].isRead
  }

  lemma RecordsForSnoc(records: seq<Notification>, n: Notification, from: nat, userIds: seq<UserId>, k: nat,
                       title: string, body: string, kind: NotificationType)
    requires k < |userIds| && |records| == from + k
    requires RecordsFor(records, from, userIds, k, title, body, kind)
    requires n.userId == userIds[k] && n.title == title && n.body == body && n.kind == kind && !n.isRead
    ensures RecordsFor(records + [n], from, userIds, k + 1, title, body, kind)
  {
    var r := records + [n];
    assert r[from + k] == n;
    forall i | from <= i < from + k ensures r[i] == records[i] { }
  }

  /** The next record identifier after a send: one more when a record was saved. */
  function NextAfter(nextId: nat, title: string, body: string): nat {
    if ValidContent(title, body) then nextId + 1 else nextId
  }

  /** The sends of `sendBulkPushNotification` as a fold over `userIds`: each
      send starts from the subscriptions and the identifier the earlier ones
      left. */
  function BulkOutcome(subs: seq<PushSubscription>, nextId: nat, vapidConfigured: bool, userIds: seq<UserId>,
                       title: string, body: string, kind: NotificationType, data: map<string, Value>,
                       now: int, deliver: (PushSubscription, Payload) -> Delivery): (o: Outcome<seq<SendResult>>)
    ensures |o.result| == |userIds| && |o.subs| == |subs|
    decreases |userIds|
  {
    if userIds == [] then Outcome([], subs)
    else
      var first := SendOutcome(subs, nextId, vapidConfigured, userIds[0], title, body, kind, data, now, deliver);
      var rest := BulkOutcome(first.subs, NextAfter(nextId, title, body), vapidConfigured, userIds[1..],
                              title, body, kind, data, now, deliver);
      Outcome([first.result] + rest.result, rest.subs)
  }

  /** The `k`-th send of a bulk answers for `userIds[k]` with record
      `nextId + k`, and fails exactly when the content is invalid. */
  lemma {:induction false} BulkResultsNumbered(subs: seq<PushSubscription>, nextId: nat, vapidConfigured: bool,
                                               userIds: seq<UserId>, title: string, body: string,
                                               kind: NotificationType, data: map<string, Value>, now: int,
                                               deliver: (PushSubscription, Payload) -> Delivery, k: nat)
    requires k < |userIds|
    ensures var x := BulkOutcome(subs, nextId, vapidConfigured, userIds, title, body, kind, data, now, deliver).result[k];
      && (x.Failed? <==> !ValidContent(title, body))
      && (!x.Failed? ==> x.notificationId == nextId + k)
    decreases |userIds|
  {
    if k > 0 {
      var first := SendOutcome(subs, nextId, vapidConfigured, userIds[0], title, body, kind, data, now, deliver);
      BulkResultsNumbered(first.subs, NextAfter(nextId, title, body), vapidConfigured, userIds[1..],
                          title, body, kind, data, now, deliver, k - 1);
    }
  }

  /** Without push delivery set up, every send of a valid bulk is recorded
      and answers `Disabled`, and no subscription changes. */
  lemma {:induction false} BulkWithoutPush(subs: seq<PushSubscription>, nextId: nat, userIds: seq<UserId>,
                                           title: string, body: string, kind: NotificationType,
                                           data: map<string, Value>, now: int,
                                           deliver: (PushSubscription, Payload) -> Delivery)
    requires ValidContent(title, body)
    ensures var o := BulkOutcome(subs, nextId, false, userIds, title, body, kind, data, now, deliver);
      && o.subs == subs
      && (forall k :: 0 <= k < |userIds| ==> o.result[k] == Disabled(nextId + k))
    decreases |userIds|
  {
    if userIds != [] {
      BulkWithoutPush(subs, nextId + 1, userIds[1..], title, body, kind, data, now, deliver);
    }
  }

  /** Sends none of which succeeded count no success. */
  lemma {:induction false} NoneSucceeded(results: seq<SendResult>)
    requires forall k :: 0 <= k < |results| ==> !results[k].Success()
    ensures SucceededSends(results) == 0
  {
    if results != [] {
      NoneSucceeded(results[1..]);
    }
  }

  /** So a valid bulk without push delivery reports no success. */
  lemma BulkWithoutPushSendsNothing(subs: seq<PushSubscription>, nextId: nat, userIds: seq<UserId>,
                                    title: string, body: string, kind: NotificationType,
                                    data: map<string, Value>, now: int,
                                    deliver: (PushSubscription, Payload) -> Delivery)
    requires ValidContent(title, body)
    ensures SucceededSends(BulkOutcome(subs, nextId, false, userIds, title, body, kind, data, now, deliver).result) == 0
  {
    BulkWithoutPush(subs, nextId, userIds, title, body, kind, data, now, deliver);
    NoneSucceeded(BulkOutcome(subs, nextId, false, userIds, title, body, kind, data, now, deliver).result);
  }

  /** What a bulk promises in the caller's terms: send `k` has record
      `nextId + k`, and without push delivery nothing is sent and no
      subscription changes. */
  lemma BulkNumbering(subs: seq<PushSubscription>, nextId: nat, vapidConfigured: bool, userIds: seq<UserId>,
                      title: string, body: string, kind: NotificationType, data: map<string, Value>,
                      now: int, deliver: (PushSubscription, Payload) -> Delivery, o: Outcome<seq<SendResult>>)
    requires o == BulkOutcome(subs, nextId, vapidConfigured, userIds, title, body, kind, data, now, deliver)
    ensures ValidContent(title, body) ==>
      forall k :: 0 <= k < |userIds| ==> !o.result[k].Failed? && o.result[k].notificationId == nextId + k
    ensures ValidContent(title, body) && !vapidConfigured ==>
      && SucceededSends(o.result) == 0 && o.subs == subs
      && forall k :: 0 <= k < |userIds| ==> o.result[k] == Disabled(nextId + k)
  {
    forall k | 0 <= k < |userIds|
      ensures ValidContent(title, body) ==> !o.result[k].Failed? && o.result[k].notificationId == nextId + k
    {
      BulkResultsNumbered(subs, nextId, vapidConfigured, userIds, title, body, kind, data, now, deliver, k);
    }
    if ValidContent(title, body) && !vapidConfigured {
      BulkWithoutPush(subs, nextId, userIds, title, body, kind, data, now, deliver);
      BulkWithoutPushSendsNothing(subs, nextId, userIds, title, body, kind, data, now, deliver);
    }
  }

  /** After the first `k` sends of a bulk answered `results` and left `subs`
      and `nextId`, the sends still to come complete the fold `all`. */
  ghost predicate BulkSoFar(all: Outcome<seq<SendResult>>, results: seq<SendResult>,
                            subs: seq<PushSubscription>, nextId: nat, vapidConfigured: bool,
                            userIds: seq<UserId>, k: nat, title: string, body: string, kind: NotificationType,
                            data: map<string, Value>, now: int, deliver: (PushSubscription, Payload) -> Delivery)
  {
    && k <= |userIds|
    && var rest := BulkOutcome(subs, nextId, vapidConfigured, userIds[k..], title, body, kind, data, now, deliver);
       all == Outcome(results + rest.result, rest.subs)
  }

  lemma BulkSoFarStart(subs: seq<PushSubscription>, nextId: nat, vapidConfigured: bool, userIds: seq<UserId>,
                       title: string, body: string, kind: NotificationType, data: map<string, Value>,
                       now: int, deliver: (PushSubscription, Payload) -> Delivery)
    ensures BulkSoFar(BulkOutcome(subs, nextId, vapidConfigured, userIds, title, body, kind, data, now, deliver),
                      [], subs, nextId, vapidConfigured, userIds, 0, title, body, kind, data, now, deliver)
  {
    assert userIds[0..] == userIds;
    var all := BulkOutcome(subs, nextId, vapidConfigured, userIds, title, body, kind, data, now, deliver);
    assert [] + all.result == all.result;
  }

  /** One step of the fold: the send to `userIds[k]` moves the bulk one user on. */
  lemma BulkSoFarStep(all: Outcome<seq<SendResult>>, results: seq<SendResult>,
                      subs: seq<PushSubscription>, nextId: nat, vapidConfigured: bool,
                      userIds: seq<UserId>, k: nat, title: string, body: string, kind: NotificationType,
                      data: map<string, Value>, now: int, deliver: (PushSubscription, Payload) -> Delivery,
                      one: SendResult, next: seq<PushSubscription>)
    requires BulkSoFar(all, results, subs, nextId, vapidConfigured, userIds, k, title, body, kind, data, now, deliver)
    requires k < |userIds|
    requires Outcome(one, next) ==
      SendOutcome(subs, nextId, vapidConfigured, userIds[k], title, body, kind, data, now, deliver)
    ensures BulkSoFar(all, results + [one], next, NextAfter(nextId, title, body), vapidConfigured,
                      userIds, k + 1, title, body, kind, data, now, deliver)
  {
    assert userIds[k..][0] == userIds[k] && userIds[k..][1..] == userIds[k + 1..];
    var rest := BulkOutcome(next, NextAfter(nextId, title, body), vapidConfigured, userIds[k + 1..],
                            title, body, kind, data, now, deliver);
    assert results + ([one] + rest.result) == (results + [one]) + rest.result;
  }

  lemma BulkSoFarEnd(all: Outcome<seq<SendResult>>, results: seq<SendResult>,
                     subs: seq<PushSubscription>, nextId: nat, vapidConfigured: bool,
                     userIds: seq<UserId>, title: string, body: string, kind: NotificationType,
                     data: map<string, Value>, now: int, deliver: (PushSubscription, Payload) -> Delivery)
    requires BulkSoFar(all, results, subs, nextId, vapidConfigured, userIds, |userIds|,
                       title, body, kind, data, now, deliver)
    ensures all == Outcome(results, subs)
  {
    assert userIds[|userIds|..] == [];
    assert results + [] == results;
  }

  /** `sendBulkPushNotification(userIds, ...)`: one send per user, in order. */
  method SendBulkPushNotification(
    notes: NotificationStore, subs: SubscriptionStore, vapidConfigured: bool,
    userIds: seq<UserId>, title: string, body: string, kind: NotificationType,
    data: map<string, Value>, now: int, deliver: (PushSubscription, Payload) -> Delivery)
    returns (r: BulkResult)
    requires notes.Valid() && subs.Valid()
    modifies notes, subs
    ensures notes.Valid() && subs.Valid()
    ensures r.total == |userIds| && |r.results| == |userIds|
    ensures r.sent == SucceededSends(r.results) && (r.success <==> r.sent > 0) && r.sent <= r.total
    ensures forall k :: 0 <= k < |userIds| ==> (r.results[k].Failed? <==> !ValidContent(title, body))
    ensures |notes.records| == |old(notes.records)| + (if ValidContent(title, body) then |userIds| else 0)
    ensures notes.records[..|old(notes.records)|] == old(notes.records)
    ensures ValidContent(title, body) ==> RecordsFor(notes.records, |old(notes.records)|, userIds, |userIds|, title, body, kind)
    ensures Outcome(r.results, subs.subs) ==
      BulkOutcome(old(subs.subs), old(notes.nextId), vapidConfigured, userIds, title, body, kind, data, now, deliver)
    ensures ValidContent(title, body) ==>
      forall k :: 0 <= k < |userIds| ==> !r.results[k].Failed? && r.results[k].notificationId == old(notes.nextId) + k
    ensures ValidContent(title, body) && !vapidConfigured ==>
      && !r.success && subs.subs == old(subs.subs)
      && forall k :: 0 <= k < |userIds| ==> r.results[k] == Disabled(old(notes.nextId) + k)
  {
    ghost var start, first := subs.subs, notes.nextId;
    var results := SendEach(notes, subs, vapidConfigured, userIds, title, body, kind, data, now, deliver);
    BulkNumbering(start, first, vapidConfigured, userIds, title, body, kind, data, now, deliver,
                  Outcome(results, subs.subs));
    var sent := SucceededSends(results);
    r := BulkResult(sent > 0, sent, |userIds|, results);
  }

  /** The loop of `sendBulkPushNotification`: the sends, in order, with the
      records they add. */
  method SendEach(
    notes: NotificationStore, subs: SubscriptionStore, vapidConfigured: bool,
    userIds: seq<UserId>, title: string, body: string, kind: NotificationType,
    data: map<string, Value>, now: int, deliver: (PushSubscription, Payload) -> Delivery)
    returns (results: seq<SendResult>)
    requires notes.Valid() && subs.Valid()
    modifies notes, subs
    ensures notes.Valid() && subs.Valid()
    ensures |results| == |userIds|
    ensures forall k :: 0 <= k < |userIds| ==> (results[k].Failed? <==> !ValidContent(title, body))
    ensures |notes.records| == |old(notes.records)| + (if ValidContent(title, body) then |userIds| else 0)
    ensures notes.records[..|old(notes.records)|] == old(notes.records)
    ensures ValidContent(title, body) ==> RecordsFor(notes.records, |old(notes.records)|, userIds, |userIds|, title, body, kind)
    ensures Outcome(results, subs.subs) ==
      BulkOutcome(old(subs.subs), old(notes.nextId), vapidConfigured, userIds, title, body, kind, data, now, deliver)
  {
    ghost var before := notes.records;
    ghost var all := BulkOutcome(subs.subs, notes.nextId, vapidConfigured, userIds, title, body, kind, data, now, deliver);
    BulkSoFarStart(subs.subs, notes.nextId, vapidConfigured, userIds, title, body, kind, data, now, deliver);
    results := [];
    var k := 0;
    while k < |userIds|
      invariant 0 <= k <= |userIds| && |results| == k
      invariant notes.Valid() && subs.Valid()
      invariant forall j :: 0 <= j < k ==> (results[j].Failed? <==> !ValidContent(title, body))
      invariant |notes.records| == |before| + (if ValidContent(title, body) then k else 0)
      invariant notes.records[..|before|] == before
      invariant ValidContent(title, body) ==> RecordsFor(notes.records, |before|, userIds, k, title, body, kind)
      invariant BulkSoFar(all, results, subs.subs, notes.nextId, vapidConfigured, userIds, k,
                          title, body, kind, data, now, deliver)
    {
      ghost var cur, n := subs.subs, notes.nextId;
      var one := BulkStep(notes, subs, vapidConfigured, before, userIds, k, title, body, kind, data, now, deliver);
      BulkSoFarStep(all, results, cur, n, vapidConfigured, userIds, k, title, body, kind, data, now, deliver,
                    one, subs.subs);
      results := results + [one];
      k := k + 1;
    }
    BulkSoFarEnd(all, results, subs.subs, notes.nextId, vapidConfigured, userIds, title, body, kind, data, now, deliver);
  }

  /** One round of `sendBulkPushNotification`'s loop: the send to `userIds[k]`
      adds its record after the ones of the earlier rounds. */
  method BulkStep(
    notes: NotificationStore, subs: SubscriptionStore, vapidConfigured: bool, ghost before: seq<Notification>,
    userIds: seq<UserId>, k: nat, title: string, body: string, kind: NotificationType,
    data: map<string, Value>, now: int, deliver: (PushSubscription, Payload) -> Delivery)
    returns (one: SendResult)
    requires k < |userIds| && notes.Valid() && subs.Valid()
    requires |notes.records| == |before| + (if ValidContent(title, body) then k else 0)
    requires notes.records[..|before|] == before
    requires ValidContent(title, body) ==> RecordsFor(notes.records, |before|, userIds, k, title, body, kind)
    modifies notes, subs
    ensures notes.Valid() && subs.Valid()
    ensures one.Failed? <==> !ValidContent(title, body)
    ensures |notes.records| == |before| + (if ValidContent(title, body) then k + 1 else 0)
    ensures notes.records[..|before|] == before
    ensures ValidContent(title, body) ==> RecordsFor(notes.records, |before|, userIds, k + 1, title, body, kind)
    ensures notes.nextId == NextAfter(old(notes.nextId), title, body)
    ensures Outcome(one, subs.subs) ==
      SendOutcome(old(subs.subs), old(notes.nextId), vapidConfigured, userIds[k], title, body, kind, data, now, deliver)
  {
    ghost var mid := notes.records;
    one := SendPushNotification(notes, subs, vapidConfigured, userIds[k], title, body, kind, data, now, deliver);
    assert notes.records[..|before|] == mid[..|before|];
    if ValidContent(title, body) {
      RecordsForSnoc(mid, notes.records[|mid|], |before|, userIds, k, title, body, kind);
    }
  }

  /** `testPushNotification(userId)`: a fixed test message, always recorded. */
  method TestPushNotification(
    notes: NotificationStore, subs: SubscriptionStore, vapidConfigured: bool,
    userId: UserId, now: int, deliver: (PushSubscription, Payload) -> Delivery)
    returns (r: SendResult)
    requires notes.Valid() && subs.Valid()
    modifies notes, subs
    ensures notes.Valid() && subs.Valid()
    ensures !r.Failed?
    ensures notes.records == old(notes.records) + [NewNotification(old(notes.nextId), userId,
      "Test Notification", "This is a test notification from freefor.games", Test,
      map["test" := Flag(true)], now)]
    ensures Outcome(r, subs.subs) ==
      SendOutcome(old(subs.subs), old(notes.nextId), vapidConfigured, userId, "Test Notification",
                  "This is a test notification from freefor.games", Test, map["test" := Flag(true)], now, deliver)
    ensures !vapidConfigured ==> r == Disabled(old(notes.nextId)) && subs.subs == old(subs.subs)
    ensures vapidConfigured && FindActiveByUserId(old(subs.subs), userId) == [] ==>
      r == NoSubscriptions(old(notes.nextId)) && subs.subs == old(subs.subs)
    ensures vapidConfigured && FindActiveByUserId(old(subs.subs), userId) != [] ==>
      r.Sent? && r.notificationId == old(notes.nextId) && r.total == |FindActiveByUserId(old(subs.subs), userId)|
  {
    r := SendPushNotification(notes, subs, vapidConfigured, userId, "Test Notification",
                              "This is a test notification from freefor.games", Test,
                              map["test" := Flag(true)], now, deliver);
  }
}
