/** The browser push subscriptions collection (backend/models/PushSubscription.js):
    one document per endpoint a user's browser registered, with the updates
    that record a subscription's use and failure. */
module PushSubscriptionModel {
  import opened Common
  import opened Text

  datatype Keys = Keys(p256dh: string, auth: string)

  datatype PushSubscription = PushSubscription(
    id: nat,
    userId: UserId,
    endpoint: string,
    keys: Keys,
    userAgent: string,
    isActive: bool,
    lastUsed: int,
    lastError: Option<string>)

  function SubscriptionId(p: PushSubscription): nat {
    p.id
  }

  function Endpoint(p: PushSubscription): string {
    p.endpoint
  }

  /** The collection's indexes: identifiers and endpoints are unique. */
  predicate ValidSubscriptions(s: seq<PushSubscription>) {
    UniqueBy(s, SubscriptionId) && UniqueBy(s, Endpoint)
  }

  /** `findActiveByUserId(user)`: the user's active subscriptions in store order. */
  function FindActiveByUserId(s: seq<PushSubscription>, u: UserId): (r: seq<PushSubscription>)
    ensures forall i :: 0 <= i < |r| ==> r[i] in s && r[i].userId == u && r[i].isActive
    ensures forall i :: 0 <= i < |s| && s[i].userId == u && s[i].isActive ==> s[i] in r
    ensures multiset(r) <= multiset(s)
  {
    Filter(s, (p: PushSubscription) => p.userId == u && p.isActive)
  }

  /** The message `deactivateByEndpoint` records. */
  const NoLongerValid: string := "Subscription no longer valid"

  /** A subscription switched off with the reason `message`. */
  function Deactivated(p: PushSubscription, message: string): (r: PushSubscription)
    ensures !r.isActive && r.lastError == Some(message)
    ensures r.(isActive := p.isActive, lastError := p.lastError) == p
  {
    p.(isActive := false, lastError := Some(message))
  }

  /** Deactivating twice with the same reason is deactivating once. */
  lemma DeactivatedIdempotent(p: PushSubscription, message: string)
    ensures Deactivated(Deactivated(p, message), message) == Deactivated(p, message)
  {
  }

  /** An error message that means the push service has forgotten the endpoint. */
  predicate MeansGone(error: string) {
    Contains(error, "410") || Contains(error, "404")
  }

  /** `markAsFailed(error)` on one subscription: the error is recorded, and the
      subscription is switched off exactly when the error mentions 410 or 404. */
  function MarkedFailed(p: PushSubscription, error: Option<string>): (r: PushSubscription)
    ensures r.lastError == error
    ensures r.isActive <==> p.isActive && !(error.Some? && MeansGone(error.value))
    ensures r.(isActive := p.isActive, lastError := p.lastError) == p
  {
    if error.Some? && MeansGone(error.value) then p.(lastError := error, isActive := false)
    else p.(lastError := error)
  }

  /** `markAsUsed()` on one subscription at instant `now`: the last error is cleared. */
  function MarkedUsed(p: PushSubscription, now: int): (r: PushSubscription)
    ensures r.lastUsed == now && r.lastError.None?
    ensures r.(lastUsed := p.lastUsed, lastError := p.lastError) == p
  {
    p.(lastUsed := now, lastError := None)
  }

  /** The push subscriptions collection. */
  class SubscriptionStore {
    var subs: seq<PushSubscription>

    ghost predicate Valid()
      reads this
    {
      ValidSubscriptions(subs)
    }

    constructor ()
      ensures Valid() && subs == []
    {
      subs := [];
    }

    /** Replaces the document with identifier `id` by `f` of it; the other documents stay. */
    method UpdateById(id: nat, f: PushSubscription -> PushSubscription)
      requires Valid()
      requires forall p :: f(p).id == p.id && f(p).endpoint == p.endpoint
      modifies this
      ensures Valid() && |subs| == |old(subs)|
      ensures forall i :: 0 <= i < |subs| ==>
        subs[i] == if old(subs)[i].id == id then f(old(subs)[i]) else old(subs)[i]
    {
      var k := FindFirst(subs, (p: PushSubscription) => p.id == id);
      if k.Some? {
        var i := k.value;
        subs := subs[i := f(subs[i])];
      }
    }

    /** `findByIdAndUpdate(id, {isActive: false, lastError: message})`. */
    method Deactivate(id: nat, message: string)
      requires Valid()
      modifies this
      ensures Valid() && |subs| == |old(subs)|
      ensures forall i :: 0 <= i < |subs| ==>
        subs[i] == if old(subs)[i].id == id then Deactivated(old(subs)[i], message) else old(subs)[i]
    {
      UpdateById(id, (p: PushSubscription) => Deactivated(p, message));
    }

    /** `deactivateByEndpoint(endpoint)`: switches the subscription for
        `endpoint` off and answers the document as it was before the update. */
    method DeactivateByEndpoint(endpoint: string) returns (before: Option<PushSubscription>)
      requires Valid()
      modifies this
      ensures Valid() && |subs| == |old(subs)|
      ensures before.None? <==> forall i :: 0 <= i < |old(subs)| ==> old(subs)[i].endpoint != endpoint
      ensures before.Some? ==> before.value in old(subs) && before.value.endpoint == endpoint
      ensures forall i :: 0 <= i < |subs| ==>
        subs[i] == if old(subs)[i].endpoint == endpoint
                   then Deactivated(old(subs)[i], NoLongerValid)
                   else old(subs)[i]
    {
      var k := FindFirst(subs, (p: PushSubscription) => p.endpoint == endpoint);
      if k.None? {
        return None;
      }
      var i := k.value;
      before := Some(subs[i]);
      subs := subs[i := Deactivated(subs[i], NoLongerValid)];
    }

    /** The instance `markAsUsed()` on document `id`. */
    method MarkAsUsed(id: nat, now: int)
      requires Valid()
      modifies this
      ensures Valid() && |subs| == |old(subs)|
      ensures forall i :: 0 <= i < |subs| ==>
        subs[i] == if old(subs)[i].id == id then MarkedUsed(old(subs)[i], now) else old(subs)[i]
    {
      UpdateById(id, (p: PushSubscription) => MarkedUsed(p, now));
    }

    /** The instance `markAsFailed(error)` on document `id`. */
    method MarkAsFailed(id: nat, error: Option<string>)
      requires Valid()
      modifies this
      ensures Valid() && |subs| == |old(subs)|
      ensures forall i :: 0 <= i < |subs| ==>
        subs[i] == if old(subs)[i].id == id then MarkedFailed(old(subs)[i], error) else old(subs)[i]
    {
      UpdateById(id, (p: PushSubscription) => MarkedFailed(p, error));
    }
  }
}
