/** The profile routes (backend/routes/profiles.js): fetching a public profile,
    updating one's own profile and avatar, the paginated explore listing, and
    the username availability check. */
module Profiles {
  import opened Common
  import opened Text
  import opened Users
  import opened Cloudinary

  // ---------------------------------------------------------------- fetch

  /** The body of `GET /:username`: the public profile, with the e-mail added
      when the viewer is the owner. */
  datatype ProfileView = ProfileView(publicProfile: PublicProfile, isOwner: bool, email: Option<string>)

  /** `GET /:username` by `viewer` (none when the request is anonymous). */
  function GetProfile(s: seq<User>, username: string, viewer: Option<UserId>): (r: (Reply, Option<ProfileView>))
    ensures FindPublicByUsername(s, ToLower(username)).None? ==>
      r == (NotFound("Profile not found"), None)
    ensures FindPublicByUsername(s, ToLower(username)).Some? ==>
      var u := s[FindPublicByUsername(s, ToLower(username)).value];
      && r.0 == Ok && r.1.Some?
      && r.1.value.publicProfile == GetPublicProfile(u)
      && (r.1.value.isOwner <==> viewer == Some(u.id))
      && r.1.value.email == (if viewer == Some(u.id) then Some(u.email) else None)
  {
    match FindPublicByUsername(s, ToLower(username))
    case None => (NotFound("Profile not found"), None)
    case Some(k) =>
      var owner := viewer == Some(s[k].id);
      (Ok, Some(ProfileView(GetPublicProfile(s[k]), owner, if owner then Some(s[k].email) else None)))
  }

  /** Only the owner ever sees an e-mail address, and it is their own. */
  lemma EmailOnlyForOwner(s: seq<User>, username: string, viewer: Option<UserId>)
    requires GetProfile(s, username, viewer).1.Some?
    requires GetProfile(s, username, viewer).1.value.email.Some?
    ensures viewer.Some?
    ensures exists i :: 0 <= i < |s| && s[i].id == viewer.value
                        && GetProfile(s, username, viewer).1.value.email.value == s[i].email
  {
    var k := FindPublicByUsername(s, ToLower(username)).value;
    assert s[k].id == viewer.value;
  }

  // --------------------------------------------------------------- update

  /** The body of `PUT /me`: each field is optional. */
  datatype ProfilePatch = ProfilePatch(
    displayName: Option<string>,
    bio: Option<string>,
    preferredGames: Option<seq<string>>,
    platforms: Option<seq<string>>,
    timezone: Option<string>,
    region: Option<string>,
    isPublic: Option<bool>)

  /** The request validators: a display name of 1 to 50 characters, a bio
      of at most 500. */
  predicate PatchValid(patch: ProfilePatch) {
    && (patch.displayName.Some? ==> 1 <= |patch.displayName.value| <= 50)
    && (patch.bio.Some? ==> |patch.bio.value| <= 500)
  }

  /** The platform strings cast to the enum, or nothing when one is not a platform. */
  function ParsePlatforms(names: seq<string>): (r: Option<seq<Platform>>)
    ensures r.Some? <==> forall i :: 0 <= i < |names| ==> ParsePlatform(names[i]).Some?
    ensures r.Some? ==> |r.value| == |names|
    ensures r.Some? ==> forall i :: 0 <= i < |names| ==> PlatformName(r.value[i]) == names[i]
  {
    if names == [] then Some([])
    else match (ParsePlatform(names[0]), ParsePlatforms(names[1..]))
      case (Some(p), Some(rest)) =>
        assert forall i :: 1 <= i < |names| ==> names[i] == names[1..][i - 1];
        Some([p] + rest)
      case _ =>
        assert forall i :: 1 <= i < |names| ==> names[i] == names[1..][i - 1];
        None
  }

  /** The schema trims each preferred game. */
  function TrimAll(games: seq<string>): (r: seq<string>)
    ensures |r| == |games| && forall i :: 0 <= i < |games| ==> r[i] == Trim(games[i])
  {
    seq(|games|, i requires 0 <= i < |games| => Trim(games[i]))
  }

  function Min(a: int, b: int): int {
    if a <= b then a else b
  }

  /** The profile after `patch` is assigned field by field, as the save casts
      it: nothing when a platform is not one of the enum values, otherwise
      every given field replaced and every other field kept. */
  function ApplyProfilePatch(p: Profile, patch: ProfilePatch): (r: Option<Profile>)
    ensures r.None? <==> patch.platforms.Some? && ParsePlatforms(patch.platforms.value).None?
    ensures r.Some? ==>
      && r.value.displayName == Or(patch.displayName, p.displayName)
      && r.value.bio == Or(patch.bio, p.bio)
      && r.value.preferredGames == (if patch.preferredGames.Some? then TrimAll(patch.preferredGames.value)
                                    else p.preferredGames)
      && r.value.timezone == Or(patch.timezone, p.timezone)
      && r.value.region == Or(patch.region, p.region)
      && r.value.isPublic == Or(patch.isPublic, p.isPublic)
      && r.value.avatar == p.avatar
      && (patch.platforms.None? ==> r.value.platforms == p.platforms)
      && (patch.platforms.Some? ==> r.value.platforms == ParsePlatforms(patch.platforms.value).value)
  {
    var platforms := if patch.platforms.Some? then ParsePlatforms(patch.platforms.value) else Some(p.platforms);
    if platforms.None? then None
    else
      Some(Profile(
        Or(patch.displayName, p.displayName),
        Or(patch.bio, p.bio),
        p.avatar,
        if patch.preferredGames.Some? then TrimAll(patch.preferredGames.value) else p.preferredGames,
        platforms.value,
        Or(patch.timezone, p.timezone),
        Or(patch.region, p.region),
        Or(patch.isPublic, p.isPublic)))
  }

  const EmptyPatch: ProfilePatch := ProfilePatch(None, None, None, None, None, None, None)

  /** An empty patch changes nothing. */
  lemma EmptyPatchKeepsProfile(p: Profile)
    ensures ApplyProfilePatch(p, EmptyPatch) == Some(p)
  {
  }

  /** Sending the same update twice leaves the profile as sending it once. */
  lemma ApplyProfilePatchIdempotent(p: Profile, patch: ProfilePatch)
    requires ApplyProfilePatch(p, patch).Some?
    ensures ApplyProfilePatch(ApplyProfilePatch(p, patch).value, patch) == ApplyProfilePatch(p, patch)
  {
    var q := ApplyProfilePatch(p, patch).value;
    if patch.preferredGames.Some? {
      var g := patch.preferredGames.value;
      forall i | 0 <= i < |g| ensures Trim(TrimAll(g)[i]) == TrimAll(g)[i] {
        TrimIdempotent(g[i]);
      }
      assert TrimAll(TrimAll(g)) == TrimAll(g);
    }
  }

  /** `PUT /me` by the signed-in user `uid`. */
  method UpdateMe(store: UserStore, uid: UserId, patch: ProfilePatch) returns (reply: Reply, profile: Option<Profile>)
    requires store.Valid()
    requires exists i :: 0 <= i < |store.users| && store.users[i].id == uid
    modifies store
    ensures store.Valid() && |store.users| == |old(store.users)|
    ensures !PatchValid(patch) ==>
      reply == BadRequest("Validation failed") && profile.None? && store.users == old(store.users)
    ensures PatchValid(patch) ==>
      var u := old(store.users)[FindById(old(store.users), uid).value];
      match ApplyProfilePatch(u.profile, patch)
      case None => reply == ServerError && profile.None? && store.users == old(store.users)
      case Some(q) =>
        && reply == Ok && profile == Some(q)
        && forall i :: 0 <= i < |store.users| ==>
             store.users[i] == if old(store.users)[i].id == uid then u.(profile := q) else old(store.users)[i]
  {
    if !PatchValid(patch) {
      return BadRequest("Validation failed"), None;
    }
    var k := FindById(store.users, uid).value;
    var u := store.users[k];
    var q := ApplyProfilePatch(u.profile, patch);
    if q.None? {
      return ServerError, None;
    }
    store.Save(u.(profile := q.value));
    reply, profile := Ok, q;
  }

  // --------------------------------------------------------------- avatar

  /** `POST /avatar`: the upload middleware has already stored an accepted
      file (or none was sent). Answers the public identifier of the replaced
      image the host was asked to destroy. */
  method UploadAvatar(store: UserStore, uid: UserId, file: Option<UploadedFile>)
    returns (reply: Reply, destroyed: Option<string>)
    requires store.Valid()
    requires exists i :: 0 <= i < |store.users| && store.users[i].id == uid
    requires file.Some? ==> Accepted(file.value)
    modifies store
    ensures store.Valid() && |store.users| == |old(store.users)|
    ensures file.None? ==>
      reply == BadRequest("No image file provided") && destroyed.None? && store.users == old(store.users)
    ensures file.Some? ==>
      var u := old(store.users)[FindById(old(store.users), uid).value];
      && reply == Ok
      && destroyed == (if u.profile.avatar != "" then DeleteOldAvatar(u.profile.avatar) else None)
      && forall i :: 0 <= i < |store.users| ==>
           store.users[i] == if old(store.users)[i].id == uid
                             then u.(profile := u.profile.(avatar := file.value.path))
                             else old(store.users)[i]
  {
    if file.None? {
      return BadRequest("No image file provided"), None;
    }
    var k := FindById(store.users, uid).value;
    var u := store.users[k];
    destroyed := None;
    if u.profile.avatar != "" {
      destroyed := DeleteOldAvatar(u.profile.avatar);
    }
    store.Save(u.(profile := u.profile.(avatar := file.value.path)));
    reply := Ok;
  }

  /** `DELETE /avatar`. */
  method DeleteAvatar(store: UserStore, uid: UserId) returns (reply: Reply, destroyed: Option<string>)
    requires store.Valid()
    requires exists i :: 0 <= i < |store.users| && store.users[i].id == uid
    modifies store
    ensures store.Valid() && |store.users| == |old(store.users)|
    ensures
      var u := old(store.users)[FindById(old(store.users), uid).value];
      && reply == Ok
      && destroyed == DeleteOldAvatar(u.profile.avatar)
      && forall i :: 0 <= i < |store.users| ==>
           store.users[i] == if old(store.users)[i].id == uid
                             then u.(profile := u.profile.(avatar := ""))
                             else old(store.users)[i]
  {
    var k := FindById(store.users, uid).value;
    var u := store.users[k];
    destroyed := None;
    if u.profile.avatar != "" {
      destroyed := DeleteOldAvatar(u.profile.avatar);
    }
    store.Save(u.(profile := u.profile.(avatar := "")));
    reply := Ok;
  }

  // -------------------------------------------------------------- explore

  /** The explore filters; an empty string is a filter not given. */
  datatype ExploreQuery = ExploreQuery(game: string, platform: string, region: string, timezone: string, search: string)

  /** `matches(pattern, text)` is the store's case-insensitive `$regex` test. */
  predicate AnyGameMatches(u: User, pattern: string, matches: (string, string) -> bool) {
    exists k :: 0 <= k < |u.profile.preferredGames| && matches(pattern, u.profile.preferredGames[k])
  }

  /** The explore query: public profiles passing every given filter. */
  predicate Matches(u: User, q: ExploreQuery, matches: (string, string) -> bool) {
    && u.profile.isPublic
    && (q.game != "" ==> AnyGameMatches(u, q.game, matches))
    && (q.platform != "" ==> exists k :: 0 <= k < |u.profile.platforms| && PlatformName(u.profile.platforms[k]) == q.platform)
    && (q.region != "" ==> matches(q.region, u.profile.region))
    && (q.timezone != "" ==> u.profile.timezone == q.timezone)
    && (q.search != "" ==>
          matches(q.search, u.username) || matches(q.search, u.profile.displayName)
          || AnyGameMatches(u, q.search, matches))
  }

  /** Sort key for "most recently active first". */
  function ActivityKey(u: User): int {
    -u.lastActive
  }

  /** Every matching user, most recently active first. */
  function Listing(s: seq<User>, q: ExploreQuery, matches: (string, string) -> bool): (r: seq<User>)
    ensures forall i, j :: 0 <= i < j < |r| ==> r[i].lastActive >= r[j].lastActive
    ensures multiset(r) == multiset(Filter(s, (u: User) => Matches(u, q, matches)))
  {
    var r := SortBy(Filter(s, (u: User) => Matches(u, q, matches)), ActivityKey);
    forall i, j | 0 <= i < j < |r| ensures r[i].lastActive >= r[j].lastActive {
      assert ActivityKey(r[i]) <= ActivityKey(r[j]);
    }
    r
  }

  /** A listed user is a stored user that passes the filters. */
  lemma ListedMatches(s: seq<User>, q: ExploreQuery, matches: (string, string) -> bool, i: nat)
    requires i < |Listing(s, q, matches)|
    ensures Listing(s, q, matches)[i] in s && Matches(Listing(s, q, matches)[i], q, matches)
  {
    var f := Filter(s, (u: User) => Matches(u, q, matches));
    var x := Listing(s, q, matches)[i];
    assert x in multiset(Listing(s, q, matches));
    assert x in multiset(f);
    var k :| 0 <= k < |f| && f[k] == x;
  }

  /** `Math.ceil(a / b)` for a positive divisor. */
  function CeilDiv(a: nat, b: nat): nat
    requires b > 0
  {
    (a + b - 1) / b
  }

  lemma CeilDivBounds(a: nat, b: nat)
    requires b > 0
    ensures a <= CeilDiv(a, b) * b
    ensures CeilDiv(a, b) * b < a + b
  {
    var q, r := (a + b - 1) / b, (a + b - 1) % b;
    assert a + b - 1 == q * b + r;
  }

  lemma MulMonotone(x: int, y: int, b: nat)
    requires x <= y
    ensures x * b <= y * b
  {
  }

  /** The pagination block of the explore answer. */
  datatype Pagination = Pagination(currentPage: nat, totalPages: nat, totalProfiles: nat, hasNext: bool, hasPrev: bool)

  datatype ExploreResult = ExploreResult(profiles: seq<PublicProfile>, pagination: Pagination)

  /** The listing holds every matching user once. */
  lemma ListingLength(s: seq<User>, q: ExploreQuery, matches: (string, string) -> bool)
    ensures |Listing(s, q, matches)| == |Filter(s, (u: User) => Matches(u, q, matches))|
  {
    assert |multiset(Listing(s, q, matches))| == |multiset(Filter(s, (u: User) => Matches(u, q, matches)))|;
  }

  /** `GET /` with filters `q`, page `page` of `limit` profiles. */
  function Explore(s: seq<User>, q: ExploreQuery, page: nat, limit: nat, matches: (string, string) -> bool)
    : (r: ExploreResult)
    requires page >= 1 && limit >= 1
    ensures |r.profiles| <= limit
    ensures PageStart(page, limit) < |Listing(s, q, matches)| ==>
      |r.profiles| == Min(limit, |Listing(s, q, matches)| - PageStart(page, limit))
    ensures forall i :: 0 <= i < |r.profiles| ==>
      && PageStart(page, limit) + i < |Listing(s, q, matches)|
      && r.profiles[i] == GetPublicProfile(Listing(s, q, matches)[PageStart(page, limit) + i])
    ensures r.pagination.totalProfiles == |Filter(s, (u: User) => Matches(u, q, matches))|
    ensures r.pagination.currentPage == page
    ensures r.pagination.totalPages == CeilDiv(r.pagination.totalProfiles, limit)
    ensures r.pagination.hasNext <==> page * limit < r.pagination.totalProfiles
    ensures r.pagination.hasPrev <==> page > 1
  {
    ListingLength(s, q, matches);
    ExploreResult(PageProfiles(Listing(s, q, matches), PageStart(page, limit), limit),
                  PaginationOf(page, limit, |Filter(s, (u: User) => Matches(u, q, matches))|))
  }

  /** The public profiles of the `limit` listed users from position `start` on. */
  function PageProfiles(listing: seq<User>, start: nat, limit: nat): (r: seq<PublicProfile>)
    requires limit >= 1
    ensures |r| <= limit
    ensures start < |listing| ==> |r| == Min(limit, |listing| - start)
    ensures forall i :: 0 <= i < |r| ==> start + i < |listing| && r[i] == GetPublicProfile(listing[start + i])
  {
    var shown := Page(listing, start, limit);
    seq(|shown|, i requires 0 <= i < |shown| => GetPublicProfile(shown[i]))
  }

  /** The pagination block for `total` matching users. */
  function PaginationOf(page: nat, limit: nat, total: nat): (r: Pagination)
    requires page >= 1 && limit >= 1
    ensures r.totalProfiles == total && r.currentPage == page
    ensures r.totalPages == CeilDiv(total, limit)
    ensures r.hasNext <==> page * limit < total
    ensures r.hasPrev <==> page > 1
  {
    HasNextIffMoreRemain(page, limit, total);
    Pagination(page, CeilDiv(total, limit), total, page < CeilDiv(total, limit), page > 1)
  }

  /** `hasNext` says exactly that profiles remain after this page. */
  lemma HasNextIffMoreRemain(page: nat, limit: nat, total: nat)
    requires page >= 1 && limit >= 1
    ensures page < CeilDiv(total, limit) <==> page * limit < total
  {
    var c := CeilDiv(total, limit);
    CeilDivBounds(total, limit);
    if page < c {
      MulMonotone(page, c - 1, limit);
      assert (c - 1) * limit == c * limit - limit;
    } else {
      MulMonotone(c, page, limit);
    }
  }

  /** Position `j` is at offset `j % limit` of page `j / limit + 1`. */
  lemma PageOfPosition(j: nat, limit: nat)
    requires limit >= 1
    ensures PageStart(j / limit + 1, limit) + j % limit == j && j % limit < limit
  {
    assert j == (j / limit) * limit + j % limit;
  }

  /** Every listed profile is on exactly the page its position says: the
      profile at position `j` of the listing is shown at offset `off` of page
      `page` whenever `j` is `off` places after that page's start. With
      `PageOfPosition`, the pages of one fixed collection, in one order of
      equal `lastActive` values, together show the whole listing. */
  lemma ExplorePagesCoverListing(s: seq<User>, q: ExploreQuery, limit: nat, matches: (string, string) -> bool,
                                 page: nat, off: nat, j: nat)
    requires page >= 1 && limit >= 1 && off < limit
    requires PageStart(page, limit) + off == j && j < |Listing(s, q, matches)|
    ensures off < |Explore(s, q, page, limit, matches).profiles|
    ensures Explore(s, q, page, limit, matches).profiles[off] == GetPublicProfile(Listing(s, q, matches)[j])
  {
    var r := Explore(s, q, page, limit, matches);
    assert |r.profiles| == Min(limit, |Listing(s, q, matches)| - PageStart(page, limit));
  }

  // ------------------------------------------------------- username check

  const UsernameRule: string :=
    "Username must be 3-30 characters and contain only letters, numbers, hyphens, and underscores"

  /** `GET /check-username/:username`: the answer and whether the name is available. */
  function CheckUsername(s: seq<User>, username: string): (r: (Reply, bool))
    ensures !ValidUsername(username) ==> r == (BadRequest(UsernameRule), false)
    ensures ValidUsername(username) ==>
      r.0 == Ok && (r.1 <==> forall i :: 0 <= i < |s| ==> s[i].username != ToLower(username))
  {
    if !ValidUsername(username) then (BadRequest(UsernameRule), false)
    else (Ok, FindByUsername(s, ToLower(username)).None?)
  }

  lemma AppendKeepsUnique(s: seq<User>, u: User, name: string)
    requires ValidUsers(s) && u.username == name
    requires forall i :: 0 <= i < |s| ==> s[i].id != u.id
    requires forall i :: 0 <= i < |s| ==> s[i].username != name
    ensures ValidUsers(s + [u])
  {
    var t := s + [u];
    forall i, j | 0 <= i < j < |t| ensures UserIdOf(t[i]) != UserIdOf(t[j]) && UsernameOf(t[i]) != UsernameOf(t[j]) {
      if j < |s| {
        assert t[i] == s[i] && t[j] == s[j];
      } else {
        assert t[j] == u && t[i] == s[i];
      }
    }
  }

  /** A name reported available is valid and taken by nobody, in its lower-case form. */
  lemma AvailableMeansUnused(s: seq<User>, username: string)
    requires CheckUsername(s, username) == (Ok, true)
    ensures ValidUsername(username)
    ensures forall i :: 0 <= i < |s| ==> s[i].username != ToLower(username)
  {
  }

  /** The schema accepts a valid username and stores it lower-cased. */
  lemma NewUserKeepsValidName(id: UserId, username: string, email: string, password: string,
                              now: int, hash: string -> string)
    requires ValidUsername(username) && ValidEmail(Normalize(email)) && |password| >= 6
    ensures NewUser(id, username, email, password, now, hash).Some?
    ensures NewUser(id, username, email, password, now, hash).value.id == id
    ensures NewUser(id, username, email, password, now, hash).value.username == ToLower(username)
  {
    NormalizeValidUsername(username);
    var r := NewUser(id, username, email, password, now, hash);
    assert r.Some?;
    assert r.value.username == Normalize(username);
  }

  /** A name reported available can be registered: the new document passes
      the schema and keeps the collection's unique indexes. */
  lemma AvailableNameCanRegister(s: seq<User>, username: string, email: string, password: string,
                                 id: UserId, now: int, hash: string -> string)
    requires ValidUsers(s) && CheckUsername(s, username) == (Ok, true)
    requires ValidEmail(Normalize(email)) && |password| >= 6
    requires forall i :: 0 <= i < |s| ==> s[i].id != id
    ensures NewUser(id, username, email, password, now, hash).Some?
    ensures ValidUsers(s + [NewUser(id, username, email, password, now, hash).value])
  {
    AvailableMeansUnused(s, username);
    NewUserKeepsValidName(id, username, email, password, now, hash);
    var u := NewUser(id, username, email, password, now, hash).value;
    AppendKeepsUnique(s, u, ToLower(username));
  }
}
