/** The availability collection (backend/models/Availability.js): time ranges
    users publish as free or busy, entered by hand or copied from an external
    calendar, with the window and overlap queries the routes build on. All
    ranges are half-open: an entry covers the instants `startTime <= t < endTime`. */
module AvailabilityModel {
  import opened Common

  /** `type`: 'available', 'busy' or 'override'. */
  datatype Kind = Available | Busy | Override

  /** `source`: 'manual', 'google_calendar' or 'outlook'. */
  datatype Source = Manual | Google | Outlook

  /** `recurrenceRule.frequency`: 'daily', 'weekly' or 'monthly'. */
  datatype Frequency = Daily | Weekly | Monthly

  datatype RecurrenceRule = RecurrenceRule(
    frequency: Frequency,
    interval: int,
    daysOfWeek: seq<int>,
    endDate: Option<int>)

  /** The nested rule's defaults, which a document gets whenever no rule is
      given: weekly, every 1, no days, no end date. */
  const DefaultRule: RecurrenceRule := RecurrenceRule(Weekly, 1, [], None)

  /** The schema's validation of a rule: every day of the week is in 0..6 (0 is Sunday). */
  predicate ValidRule(r: RecurrenceRule) {
    forall i :: 0 <= i < |r.daysOfWeek| ==> 0 <= r.daysOfWeek[i] <= 6
  }

  datatype Entry = Entry(
    id: nat,
    userId: UserId,
    kind: Kind,
    title: string,
    startTime: int,
    endTime: int,
    isRecurring: bool,
    recurrenceRule: RecurrenceRule,
    source: Source,
    externalEventId: string,
    isVisible: bool)

  /** A document holding only the required fields, completed by the schema's
      defaults: empty title, not recurring, the default rule, entered by hand,
      no external identifier, visible. */
  function NewEntry(id: nat, userId: UserId, kind: Kind, startTime: int, endTime: int): (e: Entry)
    ensures e.id == id && e.userId == userId && e.kind == kind
    ensures e.startTime == startTime && e.endTime == endTime
    ensures e.title == "" && !e.isRecurring && e.recurrenceRule == DefaultRule
    ensures e.source == Manual && e.externalEventId == "" && e.isVisible
    ensures ValidRule(e.recurrenceRule)
  {
    Entry(id, userId, kind, "", startTime, endTime, false, DefaultRule, Manual, "", true)
  }

  // ------------------------------------------------------------- conflicts

  /** `conflictsWith(other)`. */
  predicate ConflictsWith(a: Entry, b: Entry) {
    a.startTime < b.endTime && a.endTime > b.startTime
  }

  /** Instant `t` is covered by `e`. */
  predicate Covers(e: Entry, t: int) {
    e.startTime <= t < e.endTime
  }

  /** Conflict is symmetric. */
  lemma ConflictsSymmetric(a: Entry, b: Entry)
    ensures ConflictsWith(a, b) <==> ConflictsWith(b, a)
  {
  }

  /** Ranges that only touch, one ending where the other starts, do not conflict. */
  lemma TouchingDoNotConflict(a: Entry, b: Entry)
    requires a.endTime == b.startTime
    ensures !ConflictsWith(a, b) && !ConflictsWith(b, a)
  {
  }

  /** For non-empty ranges, a conflict is exactly a shared instant. */
  lemma ConflictIffSharedInstant(a: Entry, b: Entry)
    requires a.startTime < a.endTime && b.startTime < b.endTime
    ensures ConflictsWith(a, b) <==> exists t :: Covers(a, t) && Covers(b, t)
  {
    if ConflictsWith(a, b) {
      var t := if a.startTime <= b.startTime then b.startTime else a.startTime;
      assert Covers(a, t) && Covers(b, t);
    }
  }

  // ----------------------------------------------------------- window query

  /** The entry overlaps the window `[from, to)`. */
  predicate Overlaps(e: Entry, from: int, to: int) {
    e.startTime < to && e.endTime > from
  }

  /** Overlapping a window is conflicting with an entry spanning it. */
  lemma OverlapsIsConflict(e: Entry, w: Entry)
    ensures Overlaps(e, w.startTime, w.endTime) <==> ConflictsWith(e, w)
  {
  }

  /** What `findUserAvailability(user, from, to)` matches. */
  predicate InWindowOf(e: Entry, u: UserId, from: int, to: int) {
    e.userId == u && Overlaps(e, from, to) && e.isVisible
  }

  function StartKey(e: Entry): int {
    e.startTime
  }

  /** `findUserAvailability(user, from, to)`: the user's visible entries
      overlapping the window, earliest start first. */
  function FindUserAvailability(s: seq<Entry>, u: UserId, from: int, to: int): (r: seq<Entry>)
    ensures forall i :: 0 <= i < |r| ==> r[i] in s && InWindowOf(r[i], u, from, to)
    ensures forall i :: 0 <= i < |s| && InWindowOf(s[i], u, from, to) ==> s[i] in r
    ensures forall i, j :: 0 <= i < j < |r| ==> r[i].startTime <= r[j].startTime
    ensures multiset(r) == multiset(Filter(s, (e: Entry) => InWindowOf(e, u, from, to)))
  {
    var f := Filter(s, (e: Entry) => InWindowOf(e, u, from, to));
    var r := SortBy(f, StartKey);
    SameMembers(r, f);
    forall i | 0 <= i < |r| ensures r[i] in s && InWindowOf(r[i], u, from, to) {
      assert r[i] in f;
    }
    forall i, j | 0 <= i < j < |r| ensures r[i].startTime <= r[j].startTime {
      assert StartKey(r[i]) <= StartKey(r[j]);
    }
    r
  }

  // ---------------------------------------------------------- overlap query

  /** What `findOverlappingAvailability(userIds, from, to)` matches. */
  predicate Selected(e: Entry, userIds: seq<UserId>, from: int, to: int) {
    e.userId in userIds && e.kind == Available && Overlaps(e, from, to) && e.isVisible
  }

  function OverlapCandidates(s: seq<Entry>, userIds: seq<UserId>, from: int, to: int): (r: seq<Entry>)
    ensures forall i :: 0 <= i < |r| ==> r[i] in s && Selected(r[i], userIds, from, to)
    ensures forall i :: 0 <= i < |s| && Selected(s[i], userIds, from, to) ==> s[i] in r
  {
    Filter(s, (e: Entry) => Selected(e, userIds, from, to))
  }

  /** The buckets after pushing every entry of `s`, in order, into its user's list. */
  function Grouped(s: seq<Entry>): map<UserId, seq<Entry>>
    decreases |s|
  {
    if s == [] then map[]
    else
      var g := Grouped(s[..|s| - 1]);
      var e := s[|s| - 1];
      g[e.userId := (if e.userId in g then g[e.userId] else []) + [e]]
  }

  /** The entries of `s` belonging to `u`, in order. */
  function OwnedBy(s: seq<Entry>, u: UserId): seq<Entry> {
    Filter(s, (e: Entry) => e.userId == u)
  }

  /** The grouping puts every entry in its user's bucket, in order: a
      user's bucket is exactly that user's entries, and a user with none has
      no bucket. */
  lemma {:induction false} GroupedBucket(s: seq<Entry>, u: UserId)
    ensures (if u in Grouped(s) then Grouped(s)[u] else []) == OwnedBy(s, u)
    decreases |s|
  {
    if s != [] {
      var t := s[..|s| - 1];
      var e := s[|s| - 1];
      assert s == t + [e];
      GroupedBucket(t, u);
      FilterSnoc(t, e, (x: Entry) => x.userId == u);
    }
  }

  /** The buckets are keyed by exactly the users that own an entry. */
  lemma {:induction false} GroupedKeys(s: seq<Entry>, u: UserId)
    ensures u in Grouped(s) <==> exists i :: 0 <= i < |s| && s[i].userId == u
    decreases |s|
  {
    if s != [] {
      var t := s[..|s| - 1];
      var e := s[|s| - 1];
      GroupedKeys(t, u);
      if u in Grouped(t) {
        var i :| 0 <= i < |t| && t[i].userId == u;
        assert s[i] == t[i];
      }
      if e.userId == u {
        assert s[|s| - 1].userId == u;
      }
      if exists i :: 0 <= i < |s| && s[i].userId == u {
        var i :| 0 <= i < |s| && s[i].userId == u;
        if i < |s| - 1 {
          assert t[i].userId == u;
        }
      }
    }
  }

  /** The grouping loop of `findOverlappingAvailability`. */
  method GroupByUser(selected: seq<Entry>) returns (groups: map<UserId, seq<Entry>>)
    ensures groups == Grouped(selected)
  {
    groups := map[];
    var i := 0;
    while i < |selected|
      invariant 0 <= i <= |selected|
      invariant groups == Grouped(selected[..i])
    {
      var e := selected[i];
      assert selected[..i + 1][..i] == selected[..i];
      if e.userId !in groups {
        groups := groups[e.userId := []];
      }
      groups := groups[e.userId := groups[e.userId] + [e]];
      i := i + 1;
    }
    assert selected[..i] == selected;
  }

  /** `findOverlappingAvailability(userIds, from, to)`: for each listed user
      with a selected entry, that user's visible `available` entries
      overlapping the window, in store order. */
  method FindOverlappingAvailability(s: seq<Entry>, userIds: seq<UserId>, from: int, to: int)
    returns (groups: map<UserId, seq<Entry>>)
    ensures forall u :: u in groups <==>
      exists i :: 0 <= i < |s| && Selected(s[i], userIds, from, to) && s[i].userId == u
    ensures forall u :: u in groups ==> u in userIds
    ensures forall u :: u in groups ==>
      groups[u] == Filter(s, (e: Entry) => Selected(e, userIds, from, to) && e.userId == u)
  {
    var selected := OverlapCandidates(s, userIds, from, to);
    groups := GroupByUser(selected);
    forall u ensures (u in groups <==>
                        exists i :: 0 <= i < |s| && Selected(s[i], userIds, from, to) && s[i].userId == u)
                     && (u in groups ==>
                           groups[u] == Filter(s, (e: Entry) => Selected(e, userIds, from, to) && e.userId == u)) {
      CandidatesGrouped(s, userIds, from, to, u);
    }
  }

  /** One user's bucket of the overlap grouping. */
  lemma CandidatesGrouped(s: seq<Entry>, userIds: seq<UserId>, from: int, to: int, u: UserId)
    ensures var g := Grouped(OverlapCandidates(s, userIds, from, to));
      && (u in g <==> exists i :: 0 <= i < |s| && Selected(s[i], userIds, from, to) && s[i].userId == u)
      && (u in g ==> g[u] == Filter(s, (e: Entry) => Selected(e, userIds, from, to) && e.userId == u))
  {
    CandidateKeys(s, userIds, from, to, u);
    var selected := OverlapCandidates(s, userIds, from, to);
    GroupedBucket(selected, u);
    FilterFilter(s, (e: Entry) => Selected(e, userIds, from, to), (e: Entry) => e.userId == u,
                 (e: Entry) => Selected(e, userIds, from, to) && e.userId == u);
  }

  lemma CandidateKeys(s: seq<Entry>, userIds: seq<UserId>, from: int, to: int, u: UserId)
    ensures u in Grouped(OverlapCandidates(s, userIds, from, to)) <==>
      exists i :: 0 <= i < |s| && Selected(s[i], userIds, from, to) && s[i].userId == u
  {
    var selected := OverlapCandidates(s, userIds, from, to);
    GroupedKeys(selected, u);
    if exists i :: 0 <= i < |selected| && selected[i].userId == u {
      var i :| 0 <= i < |selected| && selected[i].userId == u;
      var k :| 0 <= k < |s| && s[k] == selected[i];
    }
    if exists i :: 0 <= i < |s| && Selected(s[i], userIds, from, to) && s[i].userId == u {
      var i :| 0 <= i < |s| && Selected(s[i], userIds, from, to) && s[i].userId == u;
      var k :| 0 <= k < |selected| && selected[k] == s[i];
    }
  }

  // ------------------------------------------------------------ the store

  /** The user already has an entry copied from the Google calendar event `ext`. */
  predicate HasGoogleEntry(s: seq<Entry>, u: UserId, ext: string) {
    exists i :: 0 <= i < |s| && s[i].source == Google && s[i].userId == u && s[i].externalEventId == ext
  }

  /** Two entries may be stored side by side: different identifiers, and not
      the same calendar event copied twice for the same user. */
  predicate Compatible(a: Entry, b: Entry) {
    && a.id != b.id
    && !(a.source == Google && b.source == Google && a.userId == b.userId && a.externalEventId == b.externalEventId)
  }

  /** What each stored entry satisfies: a rule the schema accepts, and a range
      that ends after it starts when the entry was made by hand. */
  predicate WellFormed(e: Entry) {
    ValidRule(e.recurrenceRule) && (e.source == Manual ==> e.startTime < e.endTime)
  }

  /** What the collection keeps true. */
  predicate ValidEntries(s: seq<Entry>) {
    Pairwise(s, Compatible) && forall i :: 0 <= i < |s| ==> WellFormed(s[i])
  }

  /** Deleting entries keeps the collection valid. */
  lemma FilterKeepsValid(s: seq<Entry>, p: Entry -> bool)
    requires ValidEntries(s)
    ensures ValidEntries(Filter(s, p))
  {
    FilterPairwise(s, p, Compatible);
  }

  /** Adding an entry under an identifier above every stored one keeps the
      collection valid, provided the entry is well formed and, when copied
      from the Google calendar, not copied already. */
  lemma AppendKeepsValid(s: seq<Entry>, e: Entry)
    requires ValidEntries(s) && WellFormed(e)
    requires forall i :: 0 <= i < |s| ==> s[i].id < e.id
    requires e.source == Google ==> !HasGoogleEntry(s, e.userId, e.externalEventId)
    ensures ValidEntries(s + [e])
  {
    var t := s + [e];
    forall i, j | 0 <= i < j < |t| ensures Compatible(t[i], t[j]) {
      if j < |s| {
        assert t[i] == s[i] && t[j] == s[j];
      } else {
        assert t[i] == s[i] && t[j] == e;
      }
    }
  }

  /** Replacing an entry made by hand by another one, under the same
      identifier, keeps the collection valid. */
  lemma ReplaceKeepsValid(s: seq<Entry>, k: nat, e: Entry)
    requires ValidEntries(s) && k < |s| && WellFormed(e)
    requires e.id == s[k].id && e.source == Manual
    ensures ValidEntries(s[k := e])
  {
    var t := s[k := e];
    forall i, j | 0 <= i < j < |t| ensures Compatible(t[i], t[j]) {
      assert Compatible(s[i], s[j]);
    }
  }

  /** Deleting the `k`-th entry keeps the collection valid. */
  lemma RemoveKeepsValid(s: seq<Entry>, k: nat)
    requires ValidEntries(s) && k < |s|
    ensures ValidEntries(RemoveAt(s, k))
  {
    var t := RemoveAt(s, k);
    forall i, j | 0 <= i < j < |t| ensures Compatible(t[i], t[j]) {
      var i', j' := if i < k then i else i + 1, if j < k then j else j + 1;
      assert t[i] == s[i'] && t[j] == s[j'];
    }
    forall i | 0 <= i < |t| ensures WellFormed(t[i]) {
      var i' := if i < k then i else i + 1;
      assert t[i] == s[i'];
    }
  }

  /** The availability collection. */
  class AvailabilityStore {
    var entries: seq<Entry>
    var nextId: nat

    ghost predicate Valid()
      reads this
    {
      ValidEntries(entries) && forall i :: 0 <= i < |entries| ==> entries[i].id < nextId
    }

    constructor ()
      ensures Valid() && entries == []
    {
      entries := [];
      nextId := 0;
    }

    /** `save()` of a new document `e`: schema validation rejects a rule
        with a day outside 0..6 and nothing is stored; otherwise `e` is
        stored under a fresh identifier. */
    method Insert(e: Entry) returns (id: Option<nat>)
      requires Valid()
      requires e.source == Manual ==> e.startTime < e.endTime
      requires e.source == Google ==> !HasGoogleEntry(entries, e.userId, e.externalEventId)
      modifies this
      ensures Valid()
      ensures !ValidRule(e.recurrenceRule) ==> id.None? && entries == old(entries) && nextId == old(nextId)
      ensures ValidRule(e.recurrenceRule) ==>
        && id == Some(old(nextId)) && nextId == old(nextId) + 1
        && entries == old(entries) + [e.(id := old(nextId))]
    {
      if !ValidRule(e.recurrenceRule) {
        return None;
      }
      AppendKeepsValid(entries, e.(id := nextId));
      entries := entries + [e.(id := nextId)];
      id := Some(nextId);
      nextId := nextId + 1;
    }

    /** `save()` of the `k`-th entry, made by hand, after changing it to `e`:
        a rule the schema rejects leaves the stored entry as it was. */
    method Replace(k: nat, e: Entry) returns (saved: bool)
      requires Valid() && k < |entries|
      requires e.id == entries[k].id && e.source == Manual && e.startTime < e.endTime
      modifies this
      ensures Valid() && nextId == old(nextId)
      ensures saved <==> ValidRule(e.recurrenceRule)
      ensures entries == if saved then old(entries)[k := e] else old(entries)
    {
      if !ValidRule(e.recurrenceRule) {
        return false;
      }
      ReplaceKeepsValid(entries, k, e);
      entries := entries[k := e];
      return true;
    }

    /** `findByIdAndDelete` of the `k`-th entry. */
    method DeleteAt(k: nat)
      requires Valid() && k < |entries|
      modifies this
      ensures Valid() && nextId == old(nextId)
      ensures entries == RemoveAt(old(entries), k)
    {
      RemoveKeepsValid(entries, k);
      entries := RemoveAt(entries, k);
    }

    /** `deleteMany(query)`: every entry the query matches is deleted; the
        others stay, in order. */
    method DeleteMany(query: Entry -> bool) returns (deleted: nat)
      requires Valid()
      modifies this
      ensures Valid() && nextId == old(nextId)
      ensures entries == Filter(old(entries), (e: Entry) => !query(e))
      ensures deleted == |old(entries)| - |entries|
    {
      var kept := Filter(entries, (e: Entry) => !query(e));
      FilterKeepsValid(entries, (e: Entry) => !query(e));
      deleted := |entries| - |kept|;
      entries := kept;
    }
  }
}
