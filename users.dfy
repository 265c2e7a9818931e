/** The user document (backend/models/User.js): its validated and normalised
    fields, the defaults a new document gets, the password hook run on save,
    and the public projection of a profile. The users collection is a
    class whose documents the route handlers replace one at a time. */
module Users {
  import opened Common
  import opened Text

  datatype Platform = PC | PlayStation | Xbox | Switch | Mobile | VR

  /** The enum values the schema accepts for a platform. */
  function PlatformName(p: Platform): string {
    match p
    case PC => "PC"
    case PlayStation => "PlayStation"
    case Xbox => "Xbox"
    case Switch => "Switch"
    case Mobile => "Mobile"
    case VR => "VR"
  }

  /** Casting a string to the platform enum: the schema rejects any other string. */
  function ParsePlatform(s: string): (r: Option<Platform>)
    ensures r.Some? ==> PlatformName(r.value) == s
    ensures r.None? ==> forall p: Platform :: PlatformName(p) != s
  {
    if s == "PC" then Some(PC)
    else if s == "PlayStation" then Some(PlayStation)
    else if s == "Xbox" then Some(Xbox)
    else if s == "Switch" then Some(Switch)
    else if s == "Mobile" then Some(Mobile)
    else if s == "VR" then Some(VR)
    else None
  }

  datatype Profile = Profile(
    displayName: string,
    bio: string,
    avatar: string,
    preferredGames: seq<string>,
    platforms: seq<Platform>,
    timezone: string,
    region: string,
    isPublic: bool)

  datatype GoogleCalendar = GoogleCalendar(
    connected: bool,
    accessToken: string,
    refreshToken: string,
    calendarIds: seq<string>)

  datatype EmailVerification = EmailVerification(
    isVerified: bool,
    token: Option<string>,
    tokenExpires: Option<int>)

  datatype User = User(
    id: UserId,
    username: string,
    email: string,
    password: string,
    emailVerification: EmailVerification,
    profile: Profile,
    googleCalendar: GoogleCalendar,
    lastActive: int)

  /** The characters `/^[a-zA-Z0-9_-]+$/` admits. */
  predicate UsernameChar(c: char) {
    IsUpperAscii(c) || IsLowerAscii(c) || IsDigit(c) || c == '_' || c == '-'
  }

  /** The username rule, applied by the schema and by the availability check alike. */
  predicate ValidUsername(s: string) {
    3 <= |s| <= 30 && forall i :: 0 <= i < |s| ==> UsernameChar(s[i])
  }

  /** The schema's setters: lower-cased, then trimmed. */
  function Normalize(s: string): string {
    Trim(ToLower(s))
  }

  /** A valid username is unchanged by trimming, and its normal form is again valid. */
  lemma NormalizeValidUsername(s: string)
    requires ValidUsername(s)
    ensures Normalize(s) == ToLower(s)
    ensures ValidUsername(Normalize(s)) && IsLowerCase(Normalize(s))
  {
    var l := ToLower(s);
    LowerUsernameChars(s);
    TrimWithoutSpace(l);
    assert Normalize(s) == l;
    ToLowerIsLowerCase(s);
  }

  lemma LowerUsernameChars(s: string)
    requires ValidUsername(s)
    ensures ValidUsername(ToLower(s))
    ensures forall i :: 0 <= i < |s| ==> !IsSpace(ToLower(s)[i])
  {
    var l := ToLower(s);
    forall i | 0 <= i < |l| ensures UsernameChar(l[i]) && !IsSpace(l[i]) {
      assert l[i] == LowerChar(s[i]);
    }
  }

  /** The e-mail rule `/^[^\s@]+@[^\s@]+\.[^\s@]+$/`: one `@` with something
      before it, and after it a domain with a dot that is neither first nor last. */
  predicate ValidEmail(s: string) {
    exists at :: 0 <= at < |s| && EmailAt(s, at)
  }

  /** `s` is a valid e-mail whose only `@` is at position `at`. */
  predicate EmailAt(s: string, at: int) {
    && 0 < at < |s| - 1 && s[at] == '@'
    && (forall i :: 0 <= i < |s| ==> !IsSpace(s[i]) && (s[i] == '@' ==> i == at))
    && exists j :: at + 1 < j < |s| - 1 && s[j] == '.'
  }

  const DefaultGoogleCalendar: GoogleCalendar := GoogleCalendar(false, "", "", [])

  /** The profile a new user gets: the display name defaults to the username. */
  function DefaultProfile(username: string): (p: Profile)
    ensures p.displayName == username && p.isPublic && p.timezone == "UTC"
    ensures p.bio == "" && p.avatar == "" && p.region == ""
    ensures p.preferredGames == [] && p.platforms == []
  {
    Profile(username, "", "", [], [], "UTC", "", true)
  }

  /** The password every save stores: re-derived by `hash` only when the
      password was modified since the last save. */
  function PreSave(u: User, passwordModified: bool, hash: string -> string): (r: User)
    ensures r.(password := u.password) == u
    ensures passwordModified ==> r.password == hash(u.password)
    ensures !passwordModified ==> r == u
  {
    if passwordModified then u.(password := hash(u.password)) else u
  }

  /** A new document saved at `now`: the schema validates the normalised
      username and e-mail and the plain password, fills in the defaults, and
      the save hook stores the hash of the password. */
  function NewUser(id: UserId, username: string, email: string, password: string,
                   now: int, hash: string -> string): (r: Option<User>)
    ensures r.Some? <==>
      ValidUsername(Normalize(username)) && ValidEmail(Normalize(email)) && |password| >= 6
    ensures r.Some? ==>
      && r.value.id == id
      && r.value.username == Normalize(username) && r.value.email == Normalize(email)
      && r.value.password == hash(password)
      && r.value.profile == DefaultProfile(Normalize(username))
      && r.value.googleCalendar == DefaultGoogleCalendar
      && !r.value.emailVerification.isVerified
      && r.value.lastActive == now
  {
    var name := Normalize(username);
    var mail := Normalize(email);
    if ValidUsername(name) && ValidEmail(mail) && |password| >= 6 then
      Some(PreSave(User(id, name, mail, password, EmailVerification(false, None, None),
                        DefaultProfile(name), DefaultGoogleCalendar, now), true, hash))
    else None
  }

  datatype PublicFields = PublicFields(
    displayName: string,
    bio: string,
    avatar: string,
    preferredGames: seq<string>,
    platforms: seq<Platform>,
    timezone: string,
    region: string)

  datatype PublicProfile = PublicProfile(username: string, profile: PublicFields, lastActive: int)

  /** `getPublicProfile()`. */
  function GetPublicProfile(u: User): (r: PublicProfile)
    ensures r.username == u.username && r.lastActive == u.lastActive
    ensures && r.profile.displayName == u.profile.displayName && r.profile.bio == u.profile.bio
            && r.profile.avatar == u.profile.avatar
            && r.profile.preferredGames == u.profile.preferredGames
            && r.profile.platforms == u.profile.platforms
            && r.profile.timezone == u.profile.timezone && r.profile.region == u.profile.region
  {
    var p := u.profile;
    PublicProfile(u.username,
                  PublicFields(p.displayName, p.bio, p.avatar, p.preferredGames, p.platforms, p.timezone, p.region),
                  u.lastActive)
  }

  /** The public projection reveals nothing else: two users that agree on the
      username, the seven shown profile fields and the last activity have the
      same public profile whatever their e-mail, password, verification,
      calendar tokens or visibility. */
  lemma PublicProfileHidesPrivateFields(u: User, v: User)
    requires u.username == v.username && u.lastActive == v.lastActive
    requires u.profile.(isPublic := v.profile.isPublic) == v.profile
    ensures GetPublicProfile(u) == GetPublicProfile(v)
  {
  }

  /** And it shows all of what it claims to: equal projections mean equal fields. */
  lemma PublicProfileDetermined(u: User, v: User)
    requires GetPublicProfile(u) == GetPublicProfile(v)
    ensures u.username == v.username && u.lastActive == v.lastActive
    ensures u.profile.(isPublic := v.profile.isPublic) == v.profile
  {
  }

  function UserIdOf(u: User): UserId {
    u.id
  }

  function UsernameOf(u: User): string {
    u.username
  }

  /** The unique indexes of the collection. */
  predicate ValidUsers(s: seq<User>) {
    UniqueBy(s, UserIdOf) && UniqueBy(s, UsernameOf)
  }

  /** `findById(id)`: the position of the document with that identifier. */
  function FindById(s: seq<User>, id: UserId): (r: Option<nat>)
    ensures r.Some? ==> r.value < |s| && s[r.value].id == id
    ensures r.None? <==> forall i :: 0 <= i < |s| ==> s[i].id != id
  {
    FindFirst(s, (u: User) => u.id == id)
  }

  /** `findOne({username})`. */
  function FindByUsername(s: seq<User>, name: string): (r: Option<nat>)
    ensures r.Some? ==> r.value < |s| && s[r.value].username == name
    ensures r.None? <==> forall i :: 0 <= i < |s| ==> s[i].username != name
  {
    FindFirst(s, (u: User) => u.username == name)
  }

  /** `findOne({username, 'profile.isPublic': true})`. */
  function FindPublicByUsername(s: seq<User>, name: string): (r: Option<nat>)
    ensures r.Some? ==> r.value < |s| && s[r.value].username == name && s[r.value].profile.isPublic
    ensures r.None? <==> forall i :: 0 <= i < |s| ==> !(s[i].username == name && s[i].profile.isPublic)
  {
    FindFirst(s, (u: User) => u.username == name && u.profile.isPublic)
  }

  /** The users collection. */
  class UserStore {
    var users: seq<User>

    ghost predicate Valid()
      reads this
    {
      ValidUsers(users)
    }

    constructor ()
      ensures Valid() && users == []
    {
      users := [];
    }

    /** `user.save()` on a document already in the collection, by a route that
        changed neither its username nor its password: it replaces the stored
        document with the same identifier, and the save hook, seeing the
        password unmodified, leaves it alone. */
    method Save(u: User)
      requires Valid()
      requires exists i :: 0 <= i < |users| && users[i].id == u.id && users[i].username == u.username
      modifies this
      ensures Valid() && |users| == |old(users)|
      ensures forall i :: 0 <= i < |users| ==>
        users[i] == if old(users)[i].id == u.id then u else old(users)[i]
    {
      var k := FindById(users, u.id).value;
      users := users[k := u];
      forall i, j | 0 <= i < j < |users| ensures UsernameOf(users[i]) != UsernameOf(users[j]) {
        assert UsernameOf(old(users)[i]) != UsernameOf(old(users)[j]);
      }
    }
  }
}
