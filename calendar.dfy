/** The Google Calendar routes (backend/routes/calendar.js): connecting and
    disconnecting the integration stored on the user, listing the user's
    calendars, and copying the events of the coming 30 days into busy
    availability entries. The calendar API is a parameter: a function from
    the request to what the API answers. */
module Calendar {
  import opened Common
  import opened Users
  import opened AvailabilityModel

  /** How far ahead a sync looks: 30 days. */
  const SyncWindowMs: int := 30 * DayMs

  /** The user behind an authenticated request. */
  function Actor(s: seq<User>, actorId: UserId): User
    requires exists i :: 0 <= i < |s| && s[i].id == actorId
  {
    s[FindById(s, actorId).value]
  }

  /** After a save of `u`, the collection holds `u` in place of the document
      with its identifier, and every other document as before. */
  predicate SavedAs(now: seq<User>, before: seq<User>, u: User) {
    |now| == |before| && forall i :: 0 <= i < |now| ==> now[i] == if before[i].id == u.id then u else before[i]
  }

  // --------------------------------------------------- connect, disconnect

  /** `POST /google/connect`: a missing or empty access token is refused;
      otherwise the integration is replaced by a connected one holding the
      tokens and no calendars. */
  method Connect(users: UserStore, actorId: UserId, accessToken: Option<string>, refreshToken: Option<string>)
    returns (reply: Reply)
    requires users.Valid()
    requires exists i :: 0 <= i < |users.users| && users.users[i].id == actorId
    modifies users
    ensures users.Valid()
    ensures accessToken.None? || accessToken.value == "" ==>
      reply == BadRequest("Access token required") && users.users == old(users.users)
    ensures accessToken.Some? && accessToken.value != "" ==>
      var u := Actor(old(users.users), actorId);
      && reply == Ok
      && SavedAs(users.users, old(users.users),
                 u.(googleCalendar := GoogleCalendar(true, accessToken.value, Or(refreshToken, ""), [])))
  {
    if accessToken.None? || accessToken.value == "" {
      return BadRequest("Access token required");
    }
    var u := Actor(users.users, actorId);
    users.Save(u.(googleCalendar := GoogleCalendar(true, accessToken.value, Or(refreshToken, ""), [])));
    reply := Ok;
  }

  /** The entries a disconnect deletes: the actor's copies of calendar events. */
  predicate SyncedBy(e: Entry, actorId: UserId) {
    e.userId == actorId && e.source == Google
  }

  /** `DELETE /google/disconnect`: the integration is reset and every entry
      copied from the actor's calendar deleted; every other entry, the
      actor's own hand-made ones included, stays. */
  method Disconnect(users: UserStore, store: AvailabilityStore, actorId: UserId) returns (reply: Reply)
    requires users.Valid() && store.Valid()
    requires exists i :: 0 <= i < |users.users| && users.users[i].id == actorId
    modifies users, store
    ensures users.Valid() && store.Valid()
    ensures reply == Ok
    ensures SavedAs(users.users, old(users.users),
                    Actor(old(users.users), actorId).(googleCalendar := DefaultGoogleCalendar))
    ensures store.entries == Filter(old(store.entries), (e: Entry) => !SyncedBy(e, actorId))
  {
    var u := Actor(users.users, actorId);
    users.Save(u.(googleCalendar := DefaultGoogleCalendar));
    var query := (e: Entry) => SyncedBy(e, actorId);
    ghost var before := store.entries;
    var deleted := store.DeleteMany(query);
    FilterCongruent(before, (e: Entry) => !query(e), (e: Entry) => !SyncedBy(e, actorId));
    reply := Ok;
  }

  /** What a disconnect leaves: no copy of any of the actor's calendar events,
      and every entry that was not one. */
  lemma DisconnectLeavesNoCopies(s: seq<Entry>, actorId: UserId)
    ensures var kept := Filter(s, (e: Entry) => !SyncedBy(e, actorId));
      && (forall ext :: !HasGoogleEntry(kept, actorId, ext))
      && (forall i :: 0 <= i < |s| && !SyncedBy(s[i], actorId) ==> s[i] in kept)
  {
    var kept := Filter(s, (e: Entry) => !SyncedBy(e, actorId));
    forall ext ensures !HasGoogleEntry(kept, actorId, ext) {
      forall i | 0 <= i < |kept| ensures !(kept[i].source == Google && kept[i].userId == actorId) {
        assert !SyncedBy(kept[i], actorId);
      }
    }
  }

  // --------------------------------------------------------- calendar list

  /** What the calendar API answers: the data, or the status of its failure. */
  datatype ApiResult<T> = Success(value: T) | Failed(status: int)

  /** An entry of the API's calendar list. */
  datatype CalendarListItem = CalendarListItem(id: string, summary: string, primary: Option<bool>, accessRole: string)

  /** A calendar as the route reports it. */
  datatype CalendarInfo = CalendarInfo(id: string, name: string, primary: bool, accessRole: string)

  function Describe(c: CalendarListItem): (r: CalendarInfo)
    ensures r.id == c.id && r.name == c.summary && r.accessRole == c.accessRole
    ensures r.primary <==> c.primary == Some(true)
  {
    CalendarInfo(c.id, c.summary, Or(c.primary, false), c.accessRole)
  }

  /** `GET /google/calendars`. A 401 from the API means the token expired: the
      integration is marked disconnected, its tokens kept. */
  method ListCalendars(users: UserStore, actorId: UserId, api: string -> ApiResult<seq<CalendarListItem>>)
    returns (reply: Reply, calendars: seq<CalendarInfo>)
    requires users.Valid()
    requires exists i :: 0 <= i < |users.users| && users.users[i].id == actorId
    modifies users
    ensures users.Valid()
    ensures var g := Actor(old(users.users), actorId).googleCalendar;
      && (g.accessToken == "" ==>
            reply == BadRequest("Google Calendar not connected") && users.users == old(users.users))
      && (g.accessToken != "" && api(g.accessToken).Success? ==>
            && reply == Ok && users.users == old(users.users)
            && |calendars| == |api(g.accessToken).value|
            && forall i :: 0 <= i < |calendars| ==> calendars[i] == Describe(api(g.accessToken).value[i]))
      && (g.accessToken != "" && api(g.accessToken) == Failed(401) ==>
            && reply == Unauthorized("Google Calendar token expired. Please reconnect.")
            && SavedAs(users.users, old(users.users),
                       Actor(old(users.users), actorId).(googleCalendar := g.(connected := false))))
      && (g.accessToken != "" && api(g.accessToken).Failed? && api(g.accessToken).status != 401 ==>
            reply == ServerError && users.users == old(users.users))
  {
    var u := Actor(users.users, actorId);
    var token := u.googleCalendar.accessToken;
    if token == "" {
      return BadRequest("Google Calendar not connected"), [];
    }
    match api(token)
    case Success(items) =>
      calendars := seq(|items|, i requires 0 <= i < |items| => Describe(items[i]));
      reply := Ok;
    case Failed(status) =>
      if status == 401 {
        users.Save(u.(googleCalendar := u.googleCalendar.(connected := false)));
        return Unauthorized("Google Calendar token expired. Please reconnect."), [];
      }
      return ServerError, [];
  }

  // ------------------------------------------------------------------ sync

  /** An event as the API lists it; an all-day event has no start or end instant. */
  datatype Event = Event(id: string, summary: Option<string>, start: Option<int>, end: Option<int>)

  predicate Timed(ev: Event) {
    ev.start.Some? && ev.end.Some?
  }

  /** The busy entry an event becomes, titled by its summary or 'Busy'. */
  function SyncedEntry(id: nat, actorId: UserId, ev: Event): (e: Entry)
    requires Timed(ev)
    ensures e.id == id && e.externalEventId == ev.id
    ensures e.startTime == ev.start.value && e.endTime == ev.end.value
    ensures e.title == if ev.summary.Some? && ev.summary.value != "" then ev.summary.value else "Busy"
    ensures FromCalendar(e, actorId)
  {
    var title := if ev.summary.Some? && ev.summary.value != "" then ev.summary.value else "Busy";
    Entry(id, actorId, Busy, title, ev.start.value, ev.end.value, false, DefaultRule, Google, ev.id, true)
  }

  /** What every entry a sync creates looks like. */
  predicate FromCalendar(e: Entry, actorId: UserId) {
    && e.userId == actorId && e.source == Google && e.kind == Busy
    && !e.isRecurring && e.recurrenceRule == DefaultRule && e.isVisible
  }

  /** The collection as a sync proceeds, and the events it has counted. */
  datatype SyncState = SyncState(entries: seq<Entry>, nextId: nat, count: nat)

  /** A sync step only appends: the count grows by the number of entries
      added, each of them a busy calendar entry of the actor, under the
      next free identifiers. */
  predicate Extends(st: SyncState, r: SyncState, actorId: UserId) {
    && r.count >= st.count
    && r.nextId == st.nextId + (r.count - st.count)
    && |r.entries| == |st.entries| + (r.count - st.count)
    && r.entries[..|st.entries|] == st.entries
    && forall i :: |st.entries| <= i < |r.entries| ==> FromCalendar(r.entries[i], actorId)
  }

  lemma ExtendsTransitive(a: SyncState, b: SyncState, c: SyncState, actorId: UserId)
    requires Extends(a, b, actorId) && Extends(b, c, actorId)
    ensures Extends(a, c, actorId)
  {
    assert c.entries[..|a.entries|] == c.entries[..|b.entries|][..|a.entries|];
  }

  /** One event: skipped when untimed or already copied, else copied and counted. */
  function SyncEvent(st: SyncState, actorId: UserId, ev: Event): (r: SyncState)
    ensures Extends(st, r, actorId)
    ensures r.count <= st.count + 1
  {
    if !Timed(ev) || HasGoogleEntry(st.entries, actorId, ev.id) then st
    else
      var r := SyncState(st.entries + [SyncedEntry(st.nextId, actorId, ev)], st.nextId + 1, st.count + 1);
      assert r.entries[..|st.entries|] == st.entries;
      r
  }

  /** The events of one calendar, in the order listed. */
  function SyncEvents(st: SyncState, actorId: UserId, evs: seq<Event>): (r: SyncState)
    ensures Extends(st, r, actorId)
    ensures r.count <= st.count + |evs|
    decreases |evs|
  {
    if evs == [] then st
    else
      var mid := SyncEvents(st, actorId, evs[..|evs| - 1]);
      var r := SyncEvent(mid, actorId, evs[|evs| - 1]);
      ExtendsTransitive(st, mid, r, actorId);
      r
  }

  /** One calendar: its events of the window, or nothing when the API fails. */
  function SyncCalendar(st: SyncState, actorId: UserId, calendarId: string,
                        fetch: (string, int, int) -> Option<seq<Event>>, now: int): (r: SyncState)
    ensures Extends(st, r, actorId)
  {
    match fetch(calendarId, now, now + SyncWindowMs)
    case None => st
    case Some(evs) => SyncEvents(st, actorId, evs)
  }

  /** All the requested calendars, in the order requested. */
  function SyncCalendars(st: SyncState, actorId: UserId, ids: seq<string>,
                         fetch: (string, int, int) -> Option<seq<Event>>, now: int): (r: SyncState)
    ensures Extends(st, r, actorId)
    decreases |ids|
  {
    if ids == [] then st
    else
      var mid := SyncCalendars(st, actorId, ids[..|ids| - 1], fetch, now);
      var r := SyncCalendar(mid, actorId, ids[|ids| - 1], fetch, now);
      ExtendsTransitive(st, mid, r, actorId);
      r
  }

  /** Every timed event of `evs` already has its copy among `s`. */
  predicate Covered(s: seq<Entry>, actorId: UserId, evs: seq<Event>) {
    forall i :: 0 <= i < |evs| && Timed(evs[i]) ==> HasGoogleEntry(s, actorId, evs[i].id)
  }

  /** Appending entries keeps every copy found before. */
  lemma CoveredExtends(st: SyncState, r: SyncState, actorId: UserId, evs: seq<Event>)
    requires Extends(st, r, actorId) && Covered(st.entries, actorId, evs)
    ensures Covered(r.entries, actorId, evs)
  {
    forall i | 0 <= i < |evs| && Timed(evs[i]) ensures HasGoogleEntry(r.entries, actorId, evs[i].id) {
      var k :| 0 <= k < |st.entries| && st.entries[k].source == Google && st.entries[k].userId == actorId
               && st.entries[k].externalEventId == evs[i].id;
      assert r.entries[k] == r.entries[..|st.entries|][k];
    }
  }

  /** After a calendar's events are synced, every timed one has its copy. */
  lemma {:induction false} SyncEventsCovers(st: SyncState, actorId: UserId, evs: seq<Event>)
    ensures Covered(SyncEvents(st, actorId, evs).entries, actorId, evs)
  {
    if evs != [] {
      var init := evs[..|evs| - 1];
      var ev := evs[|evs| - 1];
      var mid := SyncEvents(st, actorId, init);
      var r := SyncEvent(mid, actorId, ev);
      SyncEventsCovers(st, actorId, init);
      CoveredExtends(mid, r, actorId, init);
      if Timed(ev) && !HasGoogleEntry(mid.entries, actorId, ev.id) {
        assert r.entries[|mid.entries|] == SyncedEntry(mid.nextId, actorId, ev);
      }
      forall i | 0 <= i < |evs| && Timed(evs[i]) ensures HasGoogleEntry(r.entries, actorId, evs[i].id) {
        if i < |init| {
          assert evs[i] == init[i];
        }
      }
    }
  }

  /** Events that all have their copies create nothing. */
  lemma {:induction false} CoveredSyncIsIdle(st: SyncState, actorId: UserId, evs: seq<Event>)
    requires Covered(st.entries, actorId, evs)
    ensures SyncEvents(st, actorId, evs) == st
  {
    if evs != [] {
      var init := evs[..|evs| - 1];
      assert Covered(st.entries, actorId, init) by {
        forall i | 0 <= i < |init| && Timed(init[i]) ensures HasGoogleEntry(st.entries, actorId, init[i].id) {
          assert init[i] == evs[i];
        }
      }
      CoveredSyncIsIdle(st, actorId, init);
    }
  }

  /** Every calendar of `ids` the API answers for has all its timed events copied. */
  predicate AllCovered(s: seq<Entry>, actorId: UserId, ids: seq<string>,
                       fetch: (string, int, int) -> Option<seq<Event>>, now: int) {
    forall i :: 0 <= i < |ids| && fetch(ids[i], now, now + SyncWindowMs).Some? ==>
      Covered(s, actorId, fetch(ids[i], now, now + SyncWindowMs).value)
  }

  lemma AllCoveredExtends(st: SyncState, r: SyncState, actorId: UserId, ids: seq<string>,
                          fetch: (string, int, int) -> Option<seq<Event>>, now: int)
    requires Extends(st, r, actorId) && AllCovered(st.entries, actorId, ids, fetch, now)
    ensures AllCovered(r.entries, actorId, ids, fetch, now)
  {
    forall i | 0 <= i < |ids| && fetch(ids[i], now, now + SyncWindowMs).Some?
      ensures Covered(r.entries, actorId, fetch(ids[i], now, now + SyncWindowMs).value) {
      CoveredExtends(st, r, actorId, fetch(ids[i], now, now + SyncWindowMs).value);
    }
  }

  /** After a sync, every event the API listed for the window has its copy. */
  lemma {:induction false} SyncCalendarsCovers(st: SyncState, actorId: UserId, ids: seq<string>,
                                               fetch: (string, int, int) -> Option<seq<Event>>, now: int)
    ensures AllCovered(SyncCalendars(st, actorId, ids, fetch, now).entries, actorId, ids, fetch, now)
  {
    if ids != [] {
      var init := ids[..|ids| - 1];
      var id := ids[|ids| - 1];
      var mid := SyncCalendars(st, actorId, init, fetch, now);
      var r := SyncCalendar(mid, actorId, id, fetch, now);
      SyncCalendarsCovers(st, actorId, init, fetch, now);
      AllCoveredExtends(mid, r, actorId, init, fetch, now);
      if fetch(id, now, now + SyncWindowMs).Some? {
        SyncEventsCovers(mid, actorId, fetch(id, now, now + SyncWindowMs).value);
      }
      forall i | 0 <= i < |ids| && fetch(ids[i], now, now + SyncWindowMs).Some?
        ensures Covered(r.entries, actorId, fetch(ids[i], now, now + SyncWindowMs).value) {
        if i < |init| {
          assert ids[i] == init[i];
        }
      }
    }
  }

  lemma {:induction false} CoveredCalendarsIdle(st: SyncState, actorId: UserId, ids: seq<string>,
                                                fetch: (string, int, int) -> Option<seq<Event>>, now: int)
    requires AllCovered(st.entries, actorId, ids, fetch, now)
    ensures SyncCalendars(st, actorId, ids, fetch, now) == st
  {
    if ids != [] {
      var init := ids[..|ids| - 1];
      var id := ids[|ids| - 1];
      assert AllCovered(st.entries, actorId, init, fetch, now) by {
        forall i | 0 <= i < |init| && fetch(init[i], now, now + SyncWindowMs).Some?
          ensures Covered(st.entries, actorId, fetch(init[i], now, now + SyncWindowMs).value) {
          assert init[i] == ids[i];
        }
      }
      CoveredCalendarsIdle(st, actorId, init, fetch, now);
      if fetch(id, now, now + SyncWindowMs).Some? {
        CoveredSyncIsIdle(st, actorId, fetch(id, now, now + SyncWindowMs).value);
      }
    }
  }

  /** Syncing the same calendars again, while the API answers the same, copies
      no event twice: the second sync reports 0 and leaves the entries alone. */
  lemma ResyncCreatesNothing(entries: seq<Entry>, nextId: nat, actorId: UserId, ids: seq<string>,
                             fetch: (string, int, int) -> Option<seq<Event>>, now: int)
    ensures var first := SyncCalendars(SyncState(entries, nextId, 0), actorId, ids, fetch, now);
            var again := SyncCalendars(SyncState(first.entries, first.nextId, 0), actorId, ids, fetch, now);
            again.count == 0 && again.entries == first.entries
  {
    var first := SyncCalendars(SyncState(entries, nextId, 0), actorId, ids, fetch, now);
    SyncCalendarsCovers(SyncState(entries, nextId, 0), actorId, ids, fetch, now);
    CoveredCalendarsIdle(SyncState(first.entries, first.nextId, 0), actorId, ids, fetch, now);
  }

  /** The inner loop of a sync: the events of one calendar, each copied into
      the collection unless untimed or copied before. */
  method SyncEventsInto(store: AvailabilityStore, actorId: UserId, evs: seq<Event>, count: nat) returns (synced: nat)
    requires store.Valid()
    modifies store
    ensures store.Valid()
    ensures SyncState(store.entries, store.nextId, synced)
         == SyncEvents(SyncState(old(store.entries), old(store.nextId), count), actorId, evs)
  {
    ghost var start := SyncState(store.entries, store.nextId, count);
    synced := count;
    var j := 0;
    while j < |evs|
      invariant 0 <= j <= |evs| && store.Valid()
      invariant SyncState(store.entries, store.nextId, synced) == SyncEvents(start, actorId, evs[..j])
    {
      assert evs[..j + 1][..j] == evs[..j];
      synced := SyncOne(store, actorId, evs[j], synced);
      j := j + 1;
    }
    assert evs[..|evs|] == evs;
  }

  /** One round of the event loop, as `SyncEvent` describes it. */
  method SyncOne(store: AvailabilityStore, actorId: UserId, ev: Event, count: nat) returns (synced: nat)
    requires store.Valid()
    modifies store
    ensures store.Valid()
    ensures SyncState(store.entries, store.nextId, synced)
         == SyncEvent(SyncState(old(store.entries), old(store.nextId), count), actorId, ev)
  {
    synced := count;
    if Timed(ev) && !HasGoogleEntry(store.entries, actorId, ev.id) {
      var id := store.Insert(SyncedEntry(store.nextId, actorId, ev));
      synced := synced + 1;
    }
  }

  /** The outer loop of a sync: the requested calendars, in order. */
  method SyncCalendarsInto(store: AvailabilityStore, actorId: UserId, ids: seq<string>,
                           now: int, fetch: (string, int, int) -> Option<seq<Event>>) returns (synced: nat)
    requires store.Valid()
    modifies store
    ensures store.Valid()
    ensures SyncState(store.entries, store.nextId, synced)
         == SyncCalendars(SyncState(old(store.entries), old(store.nextId), 0), actorId, ids, fetch, now)
  {
    ghost var start := SyncState(store.entries, store.nextId, 0);
    synced := 0;
    var c := 0;
    while c < |ids|
      invariant 0 <= c <= |ids| && store.Valid()
      invariant SyncState(store.entries, store.nextId, synced) == SyncCalendars(start, actorId, ids[..c], fetch, now)
    {
      assert ids[..c + 1][..c] == ids[..c];
      var got := fetch(ids[c], now, now + SyncWindowMs);
      if got.Some? {
        synced := SyncEventsInto(store, actorId, got.value, synced);
      }
      c := c + 1;
    }
    assert ids[..|ids|] == ids;
  }

  /** `POST /google/sync`: stores the requested calendar identifiers on the
      user, then copies the timed events of the coming 30 days of each
      calendar, skipping a calendar whose request fails and an event already
      copied, and answers the number of entries created. */
  method Sync(users: UserStore, store: AvailabilityStore, actorId: UserId, calendarIds: Option<seq<string>>,
              now: int, fetch: (string, int, int) -> Option<seq<Event>>)
    returns (reply: Reply, synced: nat)
    requires users.Valid() && store.Valid()
    requires exists i :: 0 <= i < |users.users| && users.users[i].id == actorId
    modifies users, store
    ensures users.Valid() && store.Valid()
    ensures var u := Actor(old(users.users), actorId);
      && (u.googleCalendar.accessToken == "" ==>
            && reply == BadRequest("Google Calendar not connected")
            && users.users == old(users.users) && store.entries == old(store.entries))
      && (u.googleCalendar.accessToken != "" && calendarIds.None? ==>
            && reply == BadRequest("Calendar IDs required")
            && users.users == old(users.users) && store.entries == old(store.entries))
      && (u.googleCalendar.accessToken != "" && calendarIds.Some? ==>
            var r := SyncCalendars(SyncState(old(store.entries), old(store.nextId), 0), actorId, calendarIds.value, fetch, now);
            && reply == Ok && synced == r.count
            && store.entries == r.entries && store.nextId == r.nextId
            && SavedAs(users.users, old(users.users),
                       u.(googleCalendar := u.googleCalendar.(calendarIds := calendarIds.value))))
  {
    var u := Actor(users.users, actorId);
    if u.googleCalendar.accessToken == "" {
      return BadRequest("Google Calendar not connected"), 0;
    }
    if calendarIds.None? {
      return BadRequest("Calendar IDs required"), 0;
    }
    var ids := calendarIds.value;
    users.Save(u.(googleCalendar := u.googleCalendar.(calendarIds := ids)));
    synced := SyncCalendarsInto(store, actorId, ids, now, fetch);
    reply := Ok;
  }
}
