/** The availability route handlers (backend/routes/availability.js): the
    window queries, the create, update and delete handlers with their
    validation and ownership guards, and the overlap search over several
    users. Request bodies arrive already parsed: instants are integers. */
module AvailabilityRoutes {
  import opened Common
  import opened Text
  import opened Users
  import opened AvailabilityModel

  /** A week in milliseconds: the length of the default query window. */
  const WeekMs: int := 7 * DayMs

  // --------------------------------------------------------------- queries

  /** The window a query asks for: from `start`, or now, to `end`, or a week from now. */
  function Window(start: Option<int>, end: Option<int>, now: int): (int, int) {
    (Or(start, now), Or(end, now + WeekMs))
  }

  /** Without `start` and `end` the window is the coming week. */
  lemma DefaultWindowIsNextWeek(now: int)
    ensures Window(None, None, now) == (now, now + 7 * 24 * 60 * 60 * 1000)
  {
  }

  datatype WindowAnswer = WindowAnswer(reply: Reply, availability: seq<Entry>, from: int, to: int)

  /** `GET /me`: the actor's visible entries overlapping the window, earliest first. */
  function GetMyAvailability(s: seq<Entry>, actor: UserId, start: Option<int>, end: Option<int>, now: int)
    : (r: WindowAnswer)
    ensures r.reply == Ok && (r.from, r.to) == Window(start, end, now)
    ensures forall i :: 0 <= i < |r.availability| ==>
      r.availability[i] in s && InWindowOf(r.availability[i], actor, r.from, r.to)
    ensures forall i :: 0 <= i < |s| && InWindowOf(s[i], actor, r.from, r.to) ==> s[i] in r.availability
    ensures forall i, j :: 0 <= i < j < |r.availability| ==>
      r.availability[i].startTime <= r.availability[j].startTime
  {
    var (from, to) := Window(start, end, now);
    WindowAnswer(Ok, FindUserAvailability(s, actor, from, to), from, to)
  }

  /** `GET /user/:username`: the same for a public user found by the
      lower-cased name, or 404. */
  function GetUserAvailability(users: seq<User>, s: seq<Entry>, username: string,
                               start: Option<int>, end: Option<int>, now: int): (r: WindowAnswer)
    ensures FindPublicByUsername(users, ToLower(username)).None? ==>
      r.reply == NotFound("User not found") && r.availability == []
    ensures FindPublicByUsername(users, ToLower(username)).Some? ==>
      var u := users[FindPublicByUsername(users, ToLower(username)).value];
      && u.username == ToLower(username) && u.profile.isPublic
      && r == GetMyAvailability(s, u.id, start, end, now)
  {
    match FindPublicByUsername(users, ToLower(username))
    case None => WindowAnswer(NotFound("User not found"), [], 0, 0)
    case Some(k) => GetMyAvailability(s, users[k].id, start, end, now)
  }

  // ---------------------------------------------------------------- create

  function KindName(k: Kind): string {
    match k
    case Available => "available"
    case Busy => "busy"
    case Override => "override"
  }

  /** The `type` validator: one of the three kinds. */
  function ParseKind(s: string): (k: Option<Kind>)
    ensures k.Some? ==> KindName(k.value) == s
    ensures k.None? ==> forall x: Kind :: KindName(x) != s
  {
    if s == "available" then Some(Available)
    else if s == "busy" then Some(Busy)
    else if s == "override" then Some(Override)
    else None
  }

  function FrequencyName(f: Frequency): string {
    match f
    case Daily => "daily"
    case Weekly => "weekly"
    case Monthly => "monthly"
  }

  /** The schema's cast of a frequency: one of the three enum values. */
  function ParseFrequency(s: string): (f: Option<Frequency>)
    ensures f.Some? ==> FrequencyName(f.value) == s
    ensures f.None? ==> forall x: Frequency :: FrequencyName(x) != s
  {
    if s == "daily" then Some(Daily)
    else if s == "weekly" then Some(Weekly)
    else if s == "monthly" then Some(Monthly)
    else None
  }

  /** A recurrence rule as a request body gives it: any field may be missing. */
  datatype RuleInput = RuleInput(frequency: Option<string>, interval: Option<int>, daysOfWeek: seq<int>, endDate: Option<int>)

  datatype CreateRequest = CreateRequest(
    kind: string,
    title: Option<string>,
    startTime: int,
    endTime: int,
    isRecurring: Option<bool>,
    recurrenceRule: Option<RuleInput>)

  /** The body validators of `POST /`. */
  predicate CreateValid(req: CreateRequest) {
    ParseKind(req.kind).Some? && (req.title.Some? ==> |req.title.value| <= 100)
  }

  /** `title || default`: a missing or empty title becomes 'Available for
      games' for an `available` entry and 'Busy' for any other. */
  function TitleOf(title: Option<string>, k: Kind): (t: string)
    ensures title.Some? && title.value != "" ==> t == title.value
    ensures title.None? || title.value == "" ==> t == (if k == Available then "Available for games" else "Busy")
  {
    if title.Some? && title.value != "" then title.value
    else if k == Available then "Available for games"
    else "Busy"
  }

  /** The rule stored for a new entry: the requested one, completed by the
      defaults, only when the entry recurs; the defaults alone otherwise. A
      frequency outside the enum fails the schema's cast. */
  function RequestedRule(isRecurring: Option<bool>, input: Option<RuleInput>): (r: Option<RecurrenceRule>)
    ensures isRecurring != Some(true) ==> r == Some(DefaultRule)
    ensures isRecurring == Some(true) && input.None? ==> r == Some(DefaultRule)
    ensures isRecurring == Some(true) && input.Some? ==>
      (r.None? <==> input.value.frequency.Some? && ParseFrequency(input.value.frequency.value).None?)
    ensures r.Some? && isRecurring == Some(true) && input.Some? ==>
      && r.value.daysOfWeek == input.value.daysOfWeek && r.value.endDate == input.value.endDate
      && r.value.interval == Or(input.value.interval, 1)
      && (input.value.frequency.None? ==> r.value.frequency == Weekly)
  {
    if isRecurring != Some(true) || input.None? then Some(DefaultRule)
    else
      var i := input.value;
      var f := if i.frequency.None? then Some(Weekly) else ParseFrequency(i.frequency.value);
      if f.None? then None
      else Some(RecurrenceRule(f.value, Or(i.interval, 1), i.daysOfWeek, i.endDate))
  }

  /** The entry `POST /` stores for `actor`, under identifier `id`. */
  function CreatedEntry(id: nat, actor: UserId, k: Kind, req: CreateRequest, rule: RecurrenceRule): (e: Entry)
    ensures e.source == Manual && e.isVisible && e.externalEventId == ""
    ensures e.isRecurring <==> req.isRecurring == Some(true)
  {
    Entry(id, actor, k, TitleOf(req.title, k), req.startTime, req.endTime,
          req.isRecurring == Some(true), rule, Manual, "", true)
  }

  /** `POST /`. */
  method Create(store: AvailabilityStore, actor: UserId, req: CreateRequest) returns (reply: Reply, created: Option<Entry>)
    requires store.Valid()
    modifies store
    ensures store.Valid()
    ensures !CreateValid(req) ==>
      reply == BadRequest("Validation failed") && unchanged(store)
    ensures CreateValid(req) && req.startTime >= req.endTime ==>
      reply == BadRequest("End time must be after start time") && unchanged(store)
    ensures CreateValid(req) && req.startTime < req.endTime ==>
      var rule := RequestedRule(req.isRecurring, req.recurrenceRule);
      && (rule.None? || !ValidRule(rule.value) ==>
            reply == ServerError && store.entries == old(store.entries))
      && (rule.Some? && ValidRule(rule.value) ==>
            var e := CreatedEntry(old(store.nextId), actor, ParseKind(req.kind).value, req, rule.value);
            && reply == Created && created == Some(e)
            && store.entries == old(store.entries) + [e])
  {
    if !CreateValid(req) {
      return BadRequest("Validation failed"), None;
    }
    if req.startTime >= req.endTime {
      return BadRequest("End time must be after start time"), None;
    }
    var rule := RequestedRule(req.isRecurring, req.recurrenceRule);
    if rule.None? {
      return ServerError, None;
    }
    var e := CreatedEntry(0, actor, ParseKind(req.kind).value, req, rule.value);
    var id := store.Insert(e);
    if id.None? {
      return ServerError, None;
    }
    return Created, Some(e.(id := id.value));
  }

  // ---------------------------------------------------------------- update

  /** An update body: every field is optional. The schema has more fields than
      the validators look at, and a body may carry any of them. */
  datatype Patch = Patch(
    kind: Option<string>,
    title: Option<string>,
    startTime: Option<int>,
    endTime: Option<int>,
    isRecurring: Option<bool>,
    recurrenceRule: Option<RecurrenceRule>,
    isVisible: Option<bool>,
    userId: Option<UserId>,
    source: Option<Source>,
    externalEventId: Option<string>)

  const NoChange: Patch := Patch(None, None, None, None, None, None, None, None, None, None)

  /** The body validators of `PUT /:id`. */
  predicate PatchValid(p: Patch) {
    (p.kind.Some? ==> ParseKind(p.kind.value).Some?) && (p.title.Some? ==> |p.title.value| <= 100)
  }

  function KindOr(s: Option<string>, k: Kind): Kind {
    if s.Some? && ParseKind(s.value).Some? then ParseKind(s.value).value else k
  }

  /** `Object.assign(entry, body)` as written: every field the body carries
      overwrites the entry's, the owner, the source and the external event
      included. */
  function ApplyPatchAsWritten(e: Entry, p: Patch): Entry {
    Entry(e.id, Or(p.userId, e.userId), KindOr(p.kind, e.kind), Or(p.title, e.title),
          Or(p.startTime, e.startTime), Or(p.endTime, e.endTime), Or(p.isRecurring, e.isRecurring),
          Or(p.recurrenceRule, e.recurrenceRule), Or(p.source, e.source),
          Or(p.externalEventId, e.externalEventId), Or(p.isVisible, e.isVisible))
  }

  /** The range check as written: only when the body gives both instants. */
  predicate RangeRejectedAsWritten(p: Patch) {
    p.startTime.Some? && p.endTime.Some? && p.startTime.value >= p.endTime.value
  }

  /** With only a new end before the old start, the check as written passes
      and the saved entry ends before it starts. */
  lemma AsWrittenSavesInvertedRange()
    ensures var e := NewEntry(0, 1, Available, 10, 20);
            var p := NoChange.(endTime := Some(5));
            && !RangeRejectedAsWritten(p)
            && ApplyPatchAsWritten(e, p).startTime >= ApplyPatchAsWritten(e, p).endTime
  {
  }

  /** A body naming another owner and the calendar source hands the entry to
      another user and makes it uneditable by hand. */
  lemma AsWrittenRewritesOwnerAndSource()
    ensures var e := NewEntry(0, 1, Available, 10, 20);
            var p := NoChange.(userId := Some(2), source := Some(Google));
            && !RangeRejectedAsWritten(p)
            && ApplyPatchAsWritten(e, p).userId == 2 && ApplyPatchAsWritten(e, p).source == Google
  {
  }

  /** The update as intended: the body changes only the fields a user edits
      by hand; identifier, owner, source and external event stay. */
  function ApplyPatch(e: Entry, p: Patch): (r: Entry)
    ensures r.id == e.id && r.userId == e.userId && r.source == e.source && r.externalEventId == e.externalEventId
    ensures r.kind == KindOr(p.kind, e.kind) && r.title == Or(p.title, e.title)
    ensures r.startTime == Or(p.startTime, e.startTime) && r.endTime == Or(p.endTime, e.endTime)
    ensures r.isRecurring == Or(p.isRecurring, e.isRecurring)
    ensures r.recurrenceRule == Or(p.recurrenceRule, e.recurrenceRule)
    ensures r.isVisible == Or(p.isVisible, e.isVisible)
  {
    e.(kind := KindOr(p.kind, e.kind), title := Or(p.title, e.title),
       startTime := Or(p.startTime, e.startTime), endTime := Or(p.endTime, e.endTime),
       isRecurring := Or(p.isRecurring, e.isRecurring), recurrenceRule := Or(p.recurrenceRule, e.recurrenceRule),
       isVisible := Or(p.isVisible, e.isVisible))
  }

  /** The range check as intended: on the entry as it would be saved. */
  predicate RangeRejected(e: Entry, p: Patch) {
    ApplyPatch(e, p).startTime >= ApplyPatch(e, p).endTime
  }

  /** An empty body changes nothing, and applying a body twice is applying it once. */
  lemma ApplyPatchIdempotent(e: Entry, p: Patch)
    ensures ApplyPatch(e, NoChange) == e
    ensures ApplyPatch(ApplyPatch(e, p), p) == ApplyPatch(e, p)
  {
  }

  /** The two checks agree whenever the body gives both instants. */
  lemma RangeChecksAgree(e: Entry, p: Patch)
    requires p.startTime.Some? && p.endTime.Some?
    ensures RangeRejected(e, p) <==> RangeRejectedAsWritten(p)
  {
  }

  /** The entry of `id` owned by `actor`: `findOne({_id: id, userId: actor})`. */
  function FindOwned(s: seq<Entry>, id: nat, actor: UserId): (r: Option<nat>)
    ensures r.Some? ==> r.value < |s| && s[r.value].id == id && s[r.value].userId == actor
    ensures r.None? <==> forall i :: 0 <= i < |s| ==> !(s[i].id == id && s[i].userId == actor)
  {
    FindFirst(s, (e: Entry) => e.id == id && e.userId == actor)
  }

  /** `PUT /:id`, with the corrected range check and field set. */
  method Update(store: AvailabilityStore, actor: UserId, id: nat, p: Patch) returns (reply: Reply, updated: Option<Entry>)
    requires store.Valid()
    modifies store
    ensures store.Valid()
    ensures !PatchValid(p) ==> reply == BadRequest("Validation failed") && unchanged(store)
    ensures PatchValid(p) && FindOwned(old(store.entries), id, actor).None? ==>
      reply == NotFound("Availability entry not found") && unchanged(store)
    ensures PatchValid(p) && FindOwned(old(store.entries), id, actor).Some? ==>
      var k := FindOwned(old(store.entries), id, actor).value;
      var e := old(store.entries)[k];
      && (e.source != Manual ==>
            reply == BadRequest("Cannot edit calendar sync entries. Use override instead.") && unchanged(store))
      && (e.source == Manual && RangeRejected(e, p) ==>
            reply == BadRequest("End time must be after start time") && unchanged(store))
      && (e.source == Manual && !RangeRejected(e, p) && !ValidRule(ApplyPatch(e, p).recurrenceRule) ==>
            reply == ServerError && store.entries == old(store.entries))
      && (e.source == Manual && !RangeRejected(e, p) && ValidRule(ApplyPatch(e, p).recurrenceRule) ==>
            && reply == Ok && updated == Some(ApplyPatch(e, p))
            && store.entries == old(store.entries)[k := ApplyPatch(e, p)])
  {
    if !PatchValid(p) {
      return BadRequest("Validation failed"), None;
    }
    var found := FindOwned(store.entries, id, actor);
    if found.None? {
      return NotFound("Availability entry not found"), None;
    }
    var k := found.value;
    var e := store.entries[k];
    if e.source != Manual {
      return BadRequest("Cannot edit calendar sync entries. Use override instead."), None;
    }
    if RangeRejected(e, p) {
      return BadRequest("End time must be after start time"), None;
    }
    var saved := store.Replace(k, ApplyPatch(e, p));
    if !saved {
      return ServerError, None;
    }
    return Ok, Some(ApplyPatch(e, p));
  }

  // ---------------------------------------------------------------- delete

  /** `DELETE /:id`. */
  method Delete(store: AvailabilityStore, actor: UserId, id: nat) returns (reply: Reply)
    requires store.Valid()
    modifies store
    ensures store.Valid()
    ensures FindOwned(old(store.entries), id, actor).None? ==>
      reply == NotFound("Availability entry not found") && unchanged(store)
    ensures FindOwned(old(store.entries), id, actor).Some? ==>
      var k := FindOwned(old(store.entries), id, actor).value;
      && (old(store.entries)[k].source != Manual ==>
            reply == BadRequest("Cannot delete calendar sync entries. Use override instead.") && unchanged(store))
      && (old(store.entries)[k].source == Manual ==>
            reply == Ok && store.entries == RemoveAt(old(store.entries), k))
  {
    var found := FindOwned(store.entries, id, actor);
    if found.None? {
      return NotFound("Availability entry not found");
    }
    var k := found.value;
    if store.entries[k].source != Manual {
      return BadRequest("Cannot delete calendar sync entries. Use override instead.");
    }
    store.DeleteAt(k);
    return Ok;
  }

  // ---------------------------------------------------------- find overlap

  /** The names the overlap search looks up: each lower-cased. */
  function Lowered(names: seq<string>): (r: seq<string>)
    ensures |r| == |names| && forall i :: 0 <= i < |r| ==> r[i] == ToLower(names[i])
  {
    seq(|names|, i requires 0 <= i < |names| => ToLower(names[i]))
  }

  /** `User.find({username: {$in: lowered}, 'profile.isPublic': true})`. */
  function OverlapUsers(users: seq<User>, names: seq<string>): seq<User> {
    Filter(users, (u: User) => u.username in Lowered(names) && u.profile.isPublic)
  }

  function SameName(n: string): string {
    n
  }

  /** With unique usernames, the search finds as many users as names were
      asked for exactly when the lower-cased names are pairwise distinct and
      each belongs to a public user. So the 404 also answers a list that repeats
      a name, even when that user exists. */
  lemma FoundAllIff(users: seq<User>, names: seq<string>)
    requires ValidUsers(users)
    ensures |OverlapUsers(users, names)| == |names| <==>
      && (forall i, j :: 0 <= i < j < |names| ==> ToLower(names[i]) != ToLower(names[j]))
      && (forall i :: 0 <= i < |names| ==> HasPublicUser(users, ToLower(names[i])))
  {
    var f := OverlapUsers(users, names);
    var low := Lowered(names);
    FilterUniqueBy(users, (u: User) => u.username in low && u.profile.isPublic, UsernameOf);
    KeySetSize(f, UsernameOf);
    KeySetSize(low, SameName);
    FoundNamesAsked(users, names);
    SubsetSize(KeySet(f, UsernameOf), KeySet(low, SameName));
    LoweredDistinct(names);
    FoundNamesAll(users, names);
  }

  predicate HasPublicUser(users: seq<User>, name: string) {
    exists k :: 0 <= k < |users| && users[k].username == name && users[k].profile.isPublic
  }

  lemma FoundNamesAsked(users: seq<User>, names: seq<string>)
    ensures KeySet(OverlapUsers(users, names), UsernameOf) <= KeySet(Lowered(names), SameName)
  {
    var f := OverlapUsers(users, names);
    var low := Lowered(names);
    forall x | x in KeySet(f, UsernameOf) ensures x in KeySet(low, SameName) {
      var i :| 0 <= i < |f| && UsernameOf(f[i]) == x;
      assert f[i].username in low;
      var j :| 0 <= j < |low| && low[j] == x;
      assert SameName(low[j]) == x;
    }
  }

  lemma LoweredDistinct(names: seq<string>)
    ensures UniqueBy(Lowered(names), SameName) <==>
      forall i, j :: 0 <= i < j < |names| ==> ToLower(names[i]) != ToLower(names[j])
  {
    var low := Lowered(names);
    forall i, j | 0 <= i < j < |names| ensures SameName(low[i]) == ToLower(names[i]) && SameName(low[j]) == ToLower(names[j]) {
    }
  }

  lemma FoundNamesAll(users: seq<User>, names: seq<string>)
    ensures KeySet(OverlapUsers(users, names), UsernameOf) == KeySet(Lowered(names), SameName) <==>
      forall i :: 0 <= i < |names| ==> HasPublicUser(users, ToLower(names[i]))
  {
    FoundNamesAsked(users, names);
    if KeySet(OverlapUsers(users, names), UsernameOf) == KeySet(Lowered(names), SameName) {
      FoundMeansPublic(users, names);
    }
    if forall i :: 0 <= i < |names| ==> HasPublicUser(users, ToLower(names[i])) {
      PublicMeansFound(users, names);
    }
  }

  /** Every name asked for whose user was found belongs to a public user. */
  lemma FoundMeansPublic(users: seq<User>, names: seq<string>)
    requires KeySet(Lowered(names), SameName) <= KeySet(OverlapUsers(users, names), UsernameOf)
    ensures forall i :: 0 <= i < |names| ==> HasPublicUser(users, ToLower(names[i]))
  {
    var f := OverlapUsers(users, names);
    var low := Lowered(names);
    forall i | 0 <= i < |names| ensures HasPublicUser(users, ToLower(names[i])) {
      assert SameName(low[i]) in KeySet(low, SameName);
      var m :| 0 <= m < |f| && UsernameOf(f[m]) == low[i];
      assert f[m] in users && f[m].profile.isPublic;
      var k :| 0 <= k < |users| && users[k] == f[m];
    }
  }

  /** A name asked for that belongs to a public user is found. */
  lemma PublicMeansFound(users: seq<User>, names: seq<string>)
    requires forall i :: 0 <= i < |names| ==> HasPublicUser(users, ToLower(names[i]))
    ensures KeySet(Lowered(names), SameName) <= KeySet(OverlapUsers(users, names), UsernameOf)
  {
    var low := Lowered(names);
    forall x | x in KeySet(low, SameName) ensures x in KeySet(OverlapUsers(users, names), UsernameOf) {
      var i :| 0 <= i < |low| && SameName(low[i]) == x;
      PublicNameFound(users, names, i);
    }
  }

  /** One name asked for that belongs to a public user is found. */
  lemma PublicNameFound(users: seq<User>, names: seq<string>, i: nat)
    requires i < |names| && HasPublicUser(users, ToLower(names[i]))
    ensures ToLower(names[i]) in KeySet(OverlapUsers(users, names), UsernameOf)
  {
    var f := OverlapUsers(users, names);
    var low := Lowered(names);
    var k :| 0 <= k < |users| && users[k].username == ToLower(names[i]) && users[k].profile.isPublic;
    assert low[i] == ToLower(names[i]);
    assert users[k] in f;
    var m :| 0 <= m < |f| && f[m] == users[k];
    assert UsernameOf(f[m]) == ToLower(names[i]);
  }

  /** An empty list of names finds nobody. */
  lemma {:induction false} NoNamesNoUsers(users: seq<User>)
    ensures OverlapUsers(users, []) == []
  {
    if users != [] {
      assert Lowered([]) == [];
      NoNamesNoUsers(users[1..]);
    }
  }

  /** What the search reports of each user found. */
  datatype UserSummary = UserSummary(username: string, displayName: string, timezone: string)

  function Summary(u: User): UserSummary {
    UserSummary(u.username, u.profile.displayName, u.profile.timezone)
  }

  function Ids(us: seq<User>): (r: seq<UserId>)
    ensures |r| == |us| && forall i :: 0 <= i < |r| ==> r[i] == us[i].id
  {
    seq(|us|, i requires 0 <= i < |us| => us[i].id)
  }

  /** The `usernames` validator: express-validator applies `isLength` to each
      element of an array, so every name must have 2 to 10 characters, while
      the number of names is not bounded. */
  predicate NamesValid(usernames: seq<string>) {
    forall n :: n in usernames ==> 2 <= |n| <= 10
  }

  /** `POST /find-overlap`: every name has 2 to 10 characters; every one must be
      a public user; the answer groups, per user found, their visible entries
      that overlap the window. */
  method FindOverlap(users: seq<User>, s: seq<Entry>, usernames: seq<string>, from: int, to: int)
    returns (reply: Reply, found: seq<UserSummary>, overlaps: map<UserId, seq<Entry>>)
    ensures !NamesValid(usernames) ==> reply == BadRequest("Validation failed")
    ensures NamesValid(usernames) && |OverlapUsers(users, usernames)| != |usernames| ==>
      reply == NotFound("One or more users not found")
    ensures NamesValid(usernames) && |OverlapUsers(users, usernames)| == |usernames| ==>
      var us := OverlapUsers(users, usernames);
      && reply == Ok
      && |found| == |us| && (forall i :: 0 <= i < |us| ==> found[i] == Summary(us[i]))
      && (forall u :: u in overlaps <==>
            exists i :: 0 <= i < |s| && Selected(s[i], Ids(us), from, to) && s[i].userId == u)
      && (forall u :: u in overlaps ==> u in Ids(us))
      && (forall u :: u in overlaps ==>
            overlaps[u] == Filter(s, (e: Entry) => Selected(e, Ids(us), from, to) && e.userId == u))
    ensures usernames == [] ==> reply == Ok && found == [] && overlaps == map[]
  {
    if !NamesValid(usernames) {
      return BadRequest("Validation failed"), [], map[];
    }
    var us := OverlapUsers(users, usernames);
    if usernames == [] {
      NoNamesNoUsers(users);
    }
    if |us| != |usernames| {
      return NotFound("One or more users not found"), [], map[];
    }
    overlaps := FindOverlappingAvailability(s, Ids(us), from, to);
    found := seq(|us|, i requires 0 <= i < |us| => Summary(us[i]));
    reply := Ok;
  }
}
