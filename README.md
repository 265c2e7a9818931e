# freefor.games — a Dafny model of the backend core

freefor.games lets gamers publish a profile, make friends, publish when they
are free or busy, import busy times from Google Calendar, find times that
several friends share, and receive notifications (stored records plus Web
Push). This project models that backend as Dafny:

- the Mongoose models: users, friendships, availability entries,
  notifications and push subscriptions;
- the Express route handlers for profiles, friends, availability and the
  calendar;
- the push notification service;
- the two in-memory classes of the stand-alone push notification app.

Each MongoDB collection is a class with a `seq` field, which the handlers
change in place. A handler is a method on these stores. Its guards come in
the source's order, each with the source's status code and message. When a
guard fails, nothing changes. When a query only reads, the model uses a
function.

Module layout:

| file | module | models |
|---|---|---|
| common.dfy | Common | HTTP replies, `Option`, filtering, sorting and paging of sequences |
| text.dfy | Text | the JavaScript string operations the core uses (lower-casing, trim, split) |
| users.dfy | Users | `backend/models/User.js` and the users collection |
| cloudinary.dfy | Cloudinary | `backend/config/cloudinary.js` |
| profiles.dfy | Profiles | `backend/routes/profiles.js` |
| friend_model.dfy | FriendModel | `backend/models/Friend.js` and the friendships collection |
| friend_routes.dfy | FriendRoutes | `backend/routes/friends.js` |
| availability_model.dfy | AvailabilityModel | `backend/models/Availability.js` and the availability collection |
| availability_routes.dfy | AvailabilityRoutes | `backend/routes/availability.js` |
| calendar.dfy | Calendar | `backend/routes/calendar.js` |
| notification_model.dfy | NotificationModel | `backend/models/Notification.js` and the notifications collection |
| push_subscription_model.dfy | PushSubscriptionModel | `backend/models/PushSubscription.js` and its collection |
| push_service.dfy | PushService | `backend/services/pushNotificationService.js` |
| push_app.dfy | PushApp | `push-notifications-app/src/services/subscriptionService.ts`, `push-notifications-app/src/controllers/notificationController.ts` |

Conventions:

- Instants are integers counting milliseconds.
- The clock is a parameter, `now`.
- The authenticated user is a parameter, `actor` or `actorId`.
- Every call to an outside service is a function parameter. These are
  bcrypt's hash, web-push's `sendNotification`, the Google Calendar API
  and MongoDB's case-insensitive regex match.
- A `findOne` answers the first match in the order of insertion.

## Model

| member | source | states |
|---|---|---|
| Text.IsSpace | backend/models/User.js:10 | the ECMAScript WhiteSpace and LineTerminator characters, which `trim` removes and `\s` matches |
| Text.TrimStart | backend/models/User.js:10 | the input after its leading white space |
| Text.TrimEnd | backend/models/User.js:10 | the input before its trailing white space |
| Text.Trim | backend/models/User.js:10 | the input with white space removed at both ends |
| Text.LowerChar | backend/models/User.js:9 | upper-case ASCII letters become lower-case; every other character is kept (the ASCII part of `toLowerCase`) |
| Text.ToLower | backend/models/User.js:9 | each character is mapped with LowerChar, position by position |
| Text.ToLowerIsLowerCase | backend/models/User.js:9 | a lowered string has no upper-case letter, and lowering it again changes nothing |
| Text.LeadingSpacesSpec | backend/models/User.js:10 | the characters `trimStart` drops are ECMAScript white space or line terminators, and the first one kept is not |
| Text.TrailingSpacesSpec | backend/models/User.js:10 | the characters `trimEnd` drops are ECMAScript white space or line terminators, and the last one kept is not |
| Text.TrimSpec | backend/models/User.js:10 | `trim` keeps a contiguous piece of the input, drops only ECMAScript white space and line terminators at either end, and keeps neither a leading nor a trailing one |
| Text.TrimmedIsFixed | backend/models/User.js:10 | a string that neither starts nor ends with white space is left as it is |
| Text.TrimWithoutSpace | backend/models/User.js:10-13 | trimming a string without white space changes nothing |
| Text.TrimIdempotent | backend/models/User.js:10 | trimming twice is trimming once |
| Text.AfterLast | backend/config/cloudinary.js:54-55 | the last part after `split('/')`: a suffix without the separator, preceded by the separator when shorter than the input |
| Text.BeforeFirst | backend/config/cloudinary.js:56 | the first part of `split('.')`: a prefix without the separator, followed by the separator when shorter than the input |
| Text.ContainsExtend | backend/config/cloudinary.js:52 | a string that contains a substring still contains it once something is appended |
| Text.AfterLastOfSuffix | backend/config/cloudinary.js:54-55 | for `base + "/" + tail` with no slash in `tail`, the last segment is `tail` |
| Text.BeforeFirstOfPrefix | backend/config/cloudinary.js:56 | for `name + "." + ext` with no dot in `name`, the first part is `name` |
| Users.ValidUsername | backend/models/User.js:11-13 | 3 to 30 characters, each an ASCII letter, a digit, `_` or `-` |
| Users.Normalize | backend/models/User.js:9-10 | the schema setters: lower-cased, then trimmed |
| Users.ValidEmail | backend/models/User.js:21 | one `@`, with something before it, and after it a dot that is neither its first nor the last character; no white space anywhere |
| Users.ParsePlatform | backend/models/User.js:60-64 | a name is accepted exactly when it is one of the six platform names, and it parses to that platform |
| Users.NormalizeValidUsername | backend/models/User.js:5-14 | storing a valid username lower-cases it (trimming removes nothing) and the result is still valid |
| Users.LowerUsernameChars | backend/models/User.js:9-13 | lower-casing keeps a valid username valid and free of white space |
| Users.DefaultProfile | backend/models/User.js:42-76 | the profile defaults: displayName is the username, public, timezone "UTC", every other field empty |
| Users.PreSave | backend/models/User.js:99-109 | the save hook changes only the password; when the password was modified the stored password is its hash, otherwise the document is unchanged |
| Users.NewUser | backend/models/User.js:4-92 | a new document is created exactly when the username, the normalized e-mail and the password length pass the schema; it then carries the lowered username and the defaults |
| Users.GetPublicProfile | backend/models/User.js:117-131 | the public view copies the username, lastActive and each of the seven public profile fields: display name, bio, avatar, preferred games, platforms, time zone and region |
| Users.PublicProfileHidesPrivateFields | backend/models/User.js:117-131 | two users with the same username, lastActive and public fields have the same public view, whatever their e-mail, password, tokens or visibility |
| Users.PublicProfileDetermined | backend/models/User.js:117-131 | equal public views imply equal public fields, the converse of PublicProfileHidesPrivateFields |
| Users.FindById | backend/routes/friends.js:18-21 | `findById`: answers an index holding the id, or None exactly when no user has it |
| Users.FindByUsername | backend/routes/profiles.js:245 | `findOne({ username })`: answers an index holding the name, or None exactly when no user has it |
| Users.FindPublicByUsername | backend/routes/profiles.js:16-19 | `findOne` on the username and `isPublic`: answers a public user with the name, or None exactly when there is none |
| Users.UserStore.constructor | backend/models/User.js:4-92 | the collection starts empty and valid |
| Users.UserStore.Save | backend/routes/profiles.js:83 | `save()` replaces the document with the same id and changes no other document |
| Cloudinary.FileFilter | backend/config/cloudinary.js:31-38 | a file is accepted exactly when its MIME type starts with `image/` |
| Cloudinary.Accepted | backend/config/cloudinary.js:41-47 | upload lets a file through when the file filter accepts it and it is at most 5 MB |
| Cloudinary.DeleteOldAvatar | backend/config/cloudinary.js:50-64 | an image is destroyed exactly when the URL is non-empty and contains `cloudinary.com`; its public id is the avatar folder followed by the last path segment up to its first dot: a prefix of that segment without slash or dot, ending where the segment ends or at a dot |
| Cloudinary.AvatarId | backend/config/cloudinary.js:54-56 | the identifier has neither a slash nor a dot, starts the last path segment, and stops at that segment's end or at a dot |
| Cloudinary.DeleteOldAvatarFindsUpload | backend/config/cloudinary.js:52-56 | an uploaded URL `base/name.ext` destroys exactly `freefor-games/avatars/name` |
| Profiles.GetProfile | backend/routes/profiles.js:12-34 | 404 "Profile not found" exactly when no public user has the lowered name; otherwise the public view, with `isOwner` and the e-mail exactly when the viewer is that user |
| Profiles.EmailOnlyForOwner | backend/routes/profiles.js:29-32 | an e-mail in the answer means the viewer is signed in and is a stored user |
| Profiles.PatchValid | backend/routes/profiles.js:47-48 | a given display name has 1 to 50 characters, a given bio at most 500 |
| Profiles.ParsePlatforms | backend/models/User.js:60-64 | a list parses exactly when every name is a platform name, keeping the length and the order |
| Profiles.TrimAll | backend/models/User.js:56-59 | each preferred game is trimmed, in order |
| Profiles.ApplyProfilePatch | backend/routes/profiles.js:75-81 | each field given in the body replaces the stored one and each field not given is kept; the avatar is never touched; the save fails exactly when a platform is not in the enum |
| Profiles.EmptyPatchKeepsProfile | backend/routes/profiles.js:75-81 | a body without fields leaves the profile as it was |
| Profiles.ApplyProfilePatchIdempotent | backend/routes/profiles.js:75-81 | sending the same update twice gives the same profile as sending it once |
| Profiles.UpdateMe | backend/routes/profiles.js:45-88 | a failed validation gives 400 and no change; an invalid platform gives 500 and no change; otherwise the caller's document gets the patched profile and nothing else changes |
| Profiles.UploadAvatar | backend/routes/profiles.js:172-190 | no file gives 400 "No image file provided" and no change; otherwise the stored URL is the upload's path, and the old avatar is destroyed as DeleteOldAvatar says |
| Profiles.DeleteAvatar | backend/routes/profiles.js:210-223 | the old avatar is destroyed as DeleteOldAvatar says, the stored avatar becomes "", and nothing else changes |
| Profiles.Matches | backend/routes/profiles.js:116-140 | a public profile passing each given filter: game, platform, region, time zone, and a search over username, display name and games |
| Profiles.Listing | backend/routes/profiles.js:115-146 | the matching users, most recently active first, a permutation of the matching subsequence |
| Profiles.ListedMatches | backend/routes/profiles.js:115-140 | every listed user is stored and matches every given filter |
| Profiles.CeilDiv | backend/routes/profiles.js:156 | `Math.ceil(a / b)` for a positive divisor |
| Profiles.CeilDivBounds | backend/routes/profiles.js:156 | `Math.ceil(total / limit)` pages hold all the matches, with less than one page to spare |
| Profiles.Explore | backend/routes/profiles.js:99-161 | at most `limit` profiles, taken from position `(page-1)*limit` of the listing; the total counts all matches; the page count is the ceiling; hasNext iff more matches follow this page; hasPrev iff page > 1 |
| Profiles.HasNextIffMoreRemain | backend/routes/profiles.js:156-158 | `page < totalPages` holds exactly when `page * limit < total` |
| Profiles.PageOfPosition | backend/routes/profiles.js:111-113 | every listing position falls on page `j / limit + 1` at offset `j % limit` |
| Profiles.PageProfiles | backend/routes/profiles.js:145-150 | at most `limit` public profiles, as many as the listing holds from the start position, each that of the listed user at its offset |
| Profiles.PaginationOf | backend/routes/profiles.js:152-160 | the pagination block: the ceiling page count, hasNext iff more matches follow this page, hasPrev iff the page is past the first |
| Profiles.ExplorePagesCoverListing | backend/routes/profiles.js:111-150 | for one fixed collection and one order of equal `lastActive` values, the listed user at position `j` appears as the public profile at its offset on its page |
| Profiles.CheckUsername | backend/routes/profiles.js:234-250 | an invalid name gives 400 and not available; otherwise 200, available exactly when no user holds the lowered name |
| Profiles.AvailableMeansUnused | backend/routes/profiles.js:238-249 | "available" implies a valid name that no user holds in lower-case |
| Profiles.AppendKeepsUnique | backend/models/User.js:8 | adding a user with a fresh id and a fresh name keeps ids and usernames unique |
| Profiles.NewUserKeepsValidName | backend/models/User.js:5-14 | a valid name, e-mail and password give a new user with that id and the lowered name |
| Profiles.AvailableNameCanRegister | backend/routes/profiles.js:245-249 | a name reported available can be registered without breaking the unique index |
| FriendModel.PreSave | backend/models/Friend.js:99-104 | the save hook fails exactly on a self-friendship |
| FriendModel.OrderedPairUnique | backend/models/Friend.js:28 | the unique index: at most one edge per (requester, recipient) |
| FriendModel.IndexOfId | backend/routes/friends.js:76-80 | `findById`: an edge with that id, or None exactly when none has it |
| FriendModel.IndexBetween | backend/models/Friend.js:34-39 | the `$or` lookup: an edge between the two users in either direction, or None exactly when there is none |
| FriendModel.EdgeBetweenUnique | backend/models/Friend.js:28 | in a valid collection, at most one edge joins two users, whichever direction each has |
| FriendModel.GetFriendshipStatus | backend/models/Friend.js:33-51 | "none", no friendship and not requester exactly when no edge joins the users; otherwise that edge's status, with isRequester iff the first user sent it |
| FriendModel.LookupFindsTheEdge | backend/models/Friend.js:33-51 | any edge joining the two users is the one the lookup reports |
| FriendModel.LookupSymmetric | backend/models/Friend.js:33-51 | swapping the two users gives the same edge and status, with isRequester flipped |
| FriendModel.GetFriends | backend/models/Friend.js:54-67 | a user is listed exactly when an edge with the given status joins them to the queried user |
| FriendModel.FriendsListedOnce | backend/models/Friend.js:54-67 | in a valid collection, no friend is listed twice and the user is not their own friend |
| FriendModel.BlockedBy | backend/routes/friends.js:323-358 | a user is listed exactly when the queried user has a block edge against them |
| FriendModel.ReceivedRequests | backend/models/Friend.js:73-74 | exactly the pending edges whose recipient is the user |
| FriendModel.SentRequests | backend/models/Friend.js:75-76 | exactly the pending edges whose requester is the user |
| FriendModel.GetPendingRequests | backend/models/Friend.js:70-96 | "received" and "sent" give that one list; "both" gives the two halves, split by direction; any other type gives one unsplit list holding exactly the pending edges that touch the user |
| FriendModel.PendingRequestsPartition | backend/models/Friend.js:88-93 | received and sent together are exactly the pending edges touching the user, each edge counted once |
| FriendModel.OnlyEdgeBetween | backend/models/Friend.js:28 | the edge at k is the only edge between its two users |
| FriendModel.InsertKeepsValid | backend/routes/friends.js:41-47 | appending an edge for a pair with no edge keeps the invariant, and the lookup then finds it from both sides |
| FriendModel.UpdateKeepsValid | backend/routes/friends.js:92-94 | changing an edge's status or date keeps the invariant and the lookup finds the new edge |
| FriendModel.RemoveKeepsValid | backend/routes/friends.js:189-199 | deleting an edge keeps the invariant, and the two users then have status "none" |
| FriendModel.FriendStore.constructor | backend/models/Friend.js:3-25 | the collection starts empty and valid |
| FriendModel.FriendStore.Insert | backend/models/Friend.js:99-104 | the new edge gets the next id; the save hook's error leaves the collection unchanged; otherwise the edge is appended and the lookup finds it |
| FriendModel.FriendStore.Update | backend/routes/friends.js:92-94 | the edge at k is replaced and nothing else changes |
| FriendModel.FriendStore.DeleteAt | backend/routes/friends.js:199 | the edge at k is removed and its two users then have status "none" |
| FriendModel.FriendStore.FindOneAndDelete | backend/routes/friends.js:229-234 | None and no change exactly when no edge matches; otherwise the first matching edge is removed |
| FriendRoutes.Recorded | backend/services/pushNotificationService.js:34-51 | a notification record is added for the recipient unless the schema rejects its title or body |
| FriendRoutes.Request | backend/routes/friends.js:12-67 | 404 for an unknown recipient, 400 for oneself, 400 for an existing edge in either direction, with no change; otherwise 201, a pending edge from the actor is appended, and the recipient is notified |
| FriendRoutes.Accept | backend/routes/friends.js:72-114 | 404 unknown, 403 unless the actor is the recipient, 400 unless the edge is pending; otherwise the edge becomes accepted with the date set and the requester is notified |
| FriendRoutes.AcceptPending | backend/routes/friends.js:91-108 | the pending edge becomes accepted and each side lists the other; a missing requester is a server error with no notification, otherwise 200 and the requester's record is stored |
| FriendRoutes.MarkAccepted | backend/routes/friends.js:91-93 | the edge gets the accepted status and the date and nothing else changes; its two users become friends |
| FriendRoutes.InsertPending | backend/routes/friends.js:41-47 | a pending edge from the requester is appended under the next identifier and the status query finds it from both sides |
| FriendRoutes.Notify | backend/routes/friends.js:50-56 | the notification a route sends stores its record, as the notification model describes it |
| FriendRoutes.AcceptedFriends | backend/routes/friends.js:92-94 | after an accept, each side lists the other as a friend |
| FriendRoutes.Decline | backend/routes/friends.js:119-149 | the same guards as Accept; otherwise the edge becomes declined |
| FriendRoutes.Cancel | backend/routes/friends.js:154-180 | 404, 403 unless the actor sent the request, 400 unless pending; otherwise the edge is deleted |
| FriendRoutes.Remove | backend/routes/friends.js:185-207 | 404 unknown, 403 unless the actor is on the edge; otherwise the edge is deleted |
| FriendRoutes.Block | backend/routes/friends.js:212-254 | 404 unknown, 400 for oneself; otherwise any edge between the two is deleted and a block edge from the actor is appended |
| FriendRoutes.ReplaceWithBlock | backend/routes/friends.js:228-241 | the edge between the two, if any, is deleted and a block edge from the actor appended; it is then the pair's only edge |
| FriendRoutes.BlockIsOnlyEdge | backend/routes/friends.js:229-243 | after a block, the block edge is the only edge between the two, and the blocked user appears in the blocker's block list |
| FriendRoutes.Unblock | backend/routes/friends.js:259-281 | 404 "Block relationship not found" and no change exactly when the actor has no block edge against the user; otherwise that edge is deleted |
| AvailabilityModel.ValidRule | backend/models/Availability.js:40-44 | every day of the week in the rule lies in 0..6 (0 is Sunday) |
| AvailabilityModel.NewEntry | backend/models/Availability.js:3-64 | a created entry has the schema defaults: empty title, not recurring, weekly every 1, manual source, visible |
| AvailabilityModel.ConflictsWith | backend/models/Availability.js:72-77 | two entries conflict when each starts before the other ends |
| AvailabilityModel.ConflictsSymmetric | backend/models/Availability.js:72-77 | `conflictsWith` is symmetric |
| AvailabilityModel.TouchingDoNotConflict | backend/models/Availability.js:72-77 | entries where one ends when the other starts do not conflict |
| AvailabilityModel.ConflictIffSharedInstant | backend/models/Availability.js:72-77 | for proper intervals, two entries conflict exactly when some instant lies in both |
| AvailabilityModel.Overlaps | backend/models/Availability.js:83-84 | the entry starts before the window ends and ends after it starts |
| AvailabilityModel.OverlapsIsConflict | backend/models/Availability.js:98-100 | the window query of findOverlappingAvailability is conflictsWith against the window |
| AvailabilityModel.InWindowOf | backend/models/Availability.js:81-85 | the user's visible entries that overlap the window |
| AvailabilityModel.FindUserAvailability | backend/models/Availability.js:80-87 | exactly the user's entries overlapping the window, ordered by start time, a permutation of that selection |
| AvailabilityModel.Selected | backend/models/Availability.js:91-96 | the visible `available` entries of the listed users that overlap the window |
| AvailabilityModel.OverlapCandidates | backend/models/Availability.js:92-102 | exactly the visible "available" entries of the listed users overlapping the window; busy and override entries are never picked |
| AvailabilityModel.Grouped | backend/models/Availability.js:100-107 | each entry pushed, in order, onto its user's list |
| AvailabilityModel.GroupedBucket | backend/models/Availability.js:103-108 | each user's bucket holds their entries in the order found |
| AvailabilityModel.GroupedKeys | backend/models/Availability.js:103-108 | a user has a bucket exactly when one of the entries is theirs |
| AvailabilityModel.GroupByUser | backend/models/Availability.js:103-108 | the loop builds the grouping the Grouped function defines |
| AvailabilityModel.FindOverlappingAvailability | backend/models/Availability.js:90-110 | a user is a key exactly when they were asked for and have a visible "available" entry in the window; each bucket is exactly their selected entries, in order |
| AvailabilityModel.CandidatesGrouped | backend/models/Availability.js:90-110 | each bucket of the grouped candidates is the user's selected entries |
| AvailabilityModel.CandidateKeys | backend/models/Availability.js:90-110 | a key of the grouped candidates is an asked-for user with a visible entry in the window |
| AvailabilityModel.FilterKeepsValid | backend/models/Availability.js:3-64 | deleting entries keeps ids unique and rules valid |
| AvailabilityModel.AppendKeepsValid | backend/models/Availability.js:3-64 | appending an entry with a fresh id and a valid rule keeps the collection valid |
| AvailabilityModel.ReplaceKeepsValid | backend/models/Availability.js:3-64 | replacing an entry with one of the same id and a valid rule keeps the collection valid |
| AvailabilityModel.RemoveKeepsValid | backend/models/Availability.js:3-64 | removing one entry keeps the collection valid |
| AvailabilityModel.AvailabilityStore.constructor | backend/models/Availability.js:3-64 | the collection starts empty and valid |
| AvailabilityModel.AvailabilityStore.Insert | backend/models/Availability.js:30-48 | a rule with a day of the week outside 0..6 is rejected with no change; otherwise the entry gets the next id and is appended (the schema puts no bound on the interval, and the frequency enum is checked when the request is parsed, in RequestedRule). The caller must supply a `manual` entry with start before end, and a `google_calendar` entry whose event the user has not imported yet; Create and Sync meet these obligations, and they keep the store invariant |
| AvailabilityModel.AvailabilityStore.Replace | backend/models/Availability.js:31-44 | the save succeeds exactly when the rule is valid; then only the entry at k changes |
| AvailabilityModel.AvailabilityStore.DeleteAt | backend/routes/availability.js:233 | the entry at k is removed |
| AvailabilityModel.AvailabilityStore.DeleteMany | backend/routes/calendar.js:56-60 | `deleteMany` keeps exactly the entries the query does not match, in order, and answers the number removed |
| AvailabilityRoutes.Window | backend/routes/availability.js:28-29 | the query window: from `start`, or now, to `end`, or a week from now |
| AvailabilityRoutes.DefaultWindowIsNextWeek | backend/routes/availability.js:28-29 | with no bounds the window is the next seven days; a bound given is used as is |
| AvailabilityRoutes.GetMyAvailability | backend/routes/availability.js:59-85 | 200 with the window and exactly the caller's entries overlapping it, ordered by start time |
| AvailabilityRoutes.GetUserAvailability | backend/routes/availability.js:11-54 | 404 "User not found" exactly when no public user has the lowered name; otherwise that user's entries as in GetMyAvailability |
| AvailabilityRoutes.KindName | backend/models/Availability.js:9-13 | the three kinds and their names |
| AvailabilityRoutes.ParseKind | backend/routes/availability.js:92 | a kind is accepted exactly when it is "available", "busy" or "override", each named by KindName |
| AvailabilityRoutes.ParseFrequency | backend/models/Availability.js:31-35 | a frequency is accepted exactly when it is one of the three enum names |
| AvailabilityRoutes.CreateValid | backend/routes/availability.js:92-96 | the create validators: a known kind, and a title of at most 100 characters when given |
| AvailabilityRoutes.TitleOf | backend/routes/availability.js:127 | the title when one is given and non-empty; otherwise "Available for games" for an `available` entry and "Busy" for any other |
| AvailabilityRoutes.RequestedRule | backend/routes/availability.js:131 | a non-recurring entry gets the default rule; a recurring one gets the given rule with the schema defaults, or none when its frequency is not in the enum |
| AvailabilityRoutes.CreatedEntry | backend/routes/availability.js:124-134 | the created entry belongs to the caller, is manual, visible and has no external id |
| AvailabilityRoutes.Create | backend/routes/availability.js:90-145 | 400 "Validation failed" or "End time must be after start time" with no change; 500 for a rule the schema rejects; otherwise 201 and the entry appended |
| AvailabilityRoutes.AsWrittenSavesInvertedRange | backend/routes/availability.js:186-196 | as written, a patch giving only a new end before the stored start passes the check and saves an inverted range |
| AvailabilityRoutes.AsWrittenRewritesOwnerAndSource | backend/routes/availability.js:196 | as written, `Object.assign` lets a patch change the owner and the source of an entry |
| AvailabilityRoutes.PatchValid | backend/routes/availability.js:153-156 | the update validators: a known kind when given, and a title of at most 100 characters when given |
| AvailabilityRoutes.ApplyPatch | backend/routes/availability.js:186-196 | the corrected patch: each editable field given replaces the stored one, and id, owner, source and external id are kept |
| AvailabilityRoutes.ApplyPatchIdempotent | backend/routes/availability.js:196 | an empty patch changes nothing, and applying a patch twice is applying it once |
| AvailabilityRoutes.RangeChecksAgree | backend/routes/availability.js:186-193 | whenever the body gives both instants, the corrected check and the as-written one reject the same patches |
| AvailabilityRoutes.FindOwned | backend/routes/availability.js:171-177 | `findOne({ _id, userId })`: an entry with that id owned by the caller, or None exactly when there is none |
| AvailabilityRoutes.Update | backend/routes/availability.js:151-208 | 400 validation; 404 "Availability entry not found"; 400 for calendar entries; 400 for an inverted result; 500 for an invalid rule; otherwise 200 and only that entry changes, to the patched one |
| AvailabilityRoutes.Delete | backend/routes/availability.js:213-241 | 404 not found; 400 for calendar entries with no change; otherwise 200 and the entry removed |
| AvailabilityRoutes.Lowered | backend/routes/availability.js:264-267 | each requested name is lower-cased, in order |
| AvailabilityRoutes.FoundAllIff | backend/routes/availability.js:264-271 | the count check passes exactly when the lowered names are pairwise distinct and each names a public user |
| AvailabilityRoutes.FoundNamesAsked | backend/routes/availability.js:264-267 | every user found was asked for and is public |
| AvailabilityRoutes.LoweredDistinct | backend/routes/availability.js:264-271 | the lowered names are distinct exactly when no two asked names lower to the same name |
| AvailabilityRoutes.FoundMeansPublic | backend/routes/availability.js:264-271 | when every asked name was found, each belongs to a public user |
| AvailabilityRoutes.PublicMeansFound | backend/routes/availability.js:264-271 | when each asked name belongs to a public user, every one of them is found |
| AvailabilityRoutes.FoundNamesAll | backend/routes/availability.js:264-271 | the names found are exactly the lowered asked names iff every asked name names a public user |
| AvailabilityRoutes.Ids | backend/routes/availability.js:273-276 | the ids of the users found, in order |
| AvailabilityRoutes.NoNamesNoUsers | backend/routes/availability.js:264-271 | an empty list of names finds no user, so the 404 count test passes for it |
| AvailabilityRoutes.FindOverlap | backend/routes/availability.js:246-297 | 400 "Validation failed" unless every name has 2 to 10 characters (`isLength` applies to each element of the array, and the number of names is not bounded); 404 "One or more users not found" unless every name is found; otherwise 200 with the user summaries and the grouping of FindOverlappingAvailability for their ids; an empty list answers 200 with no users and no groups |
| Calendar.Connect | backend/routes/calendar.js:11-38 | a missing or empty token gives 400 "Access token required" and no change; otherwise the caller is saved as connected with the tokens and no calendars |
| Calendar.Disconnect | backend/routes/calendar.js:43-70 | the caller's integration is reset to its defaults and exactly their calendar entries are deleted |
| Calendar.SyncedBy | backend/routes/calendar.js:56-59 | the entries a disconnect deletes: the actor's entries copied from Google Calendar |
| Calendar.DisconnectLeavesNoCopies | backend/routes/calendar.js:55-60 | after a disconnect the caller has no calendar entry left, and every other entry is kept |
| Calendar.Describe | backend/routes/calendar.js:90-95 | a calendar is reported with its id, summary and role, primary exactly when the API said true |
| Calendar.ListCalendars | backend/routes/calendar.js:75-113 | no token gives 400; a success gives 200 with the calendars described; a 401 marks the caller disconnected and gives 401; any other failure gives 500 |
| Calendar.Timed | backend/routes/calendar.js:159 | an event with both a start and an end instant; all-day events are skipped |
| Calendar.SyncedEntry | backend/routes/calendar.js:172-181 | the entry for an event: busy, from the calendar, carrying the event id and times, titled by the summary or "Busy" |
| Calendar.ExtendsTransitive | backend/routes/calendar.js:137-190 | one sync step after another still only appends the caller's calendar entries |
| Calendar.SyncEvent | backend/routes/calendar.js:157-183 | an event is imported at most once: it is skipped when untimed or already present, and otherwise appended and counted |
| Calendar.SyncEvents | backend/routes/calendar.js:157-184 | importing a list only appends calendar entries, at most one per event |
| Calendar.SyncCalendar | backend/routes/calendar.js:138-189 | one calendar is read over the next 30 days, and a failed read imports nothing |
| Calendar.SyncCalendars | backend/routes/calendar.js:137-190 | syncing every calendar only appends calendar entries |
| Calendar.CoveredExtends | backend/routes/calendar.js:164-171 | an event already imported stays imported when entries are appended |
| Calendar.SyncEventsCovers | backend/routes/calendar.js:157-184 | after importing a list, every timed event has its entry |
| Calendar.CoveredSyncIsIdle | backend/routes/calendar.js:164-183 | importing events that already have entries creates nothing |
| Calendar.AllCoveredExtends | backend/routes/calendar.js:137-190 | coverage of every calendar survives further appends |
| Calendar.SyncCalendarsCovers | backend/routes/calendar.js:137-190 | after a sync, every timed event of every readable calendar has its entry |
| Calendar.CoveredCalendarsIdle | backend/routes/calendar.js:137-190 | a sync over calendars already imported creates nothing |
| Calendar.ResyncCreatesNothing | backend/routes/calendar.js:164-183 | a second sync with the same answers reports 0 synced events and changes nothing |
| Calendar.SyncEventsInto | backend/routes/calendar.js:157-184 | the inner loop leaves the collection as SyncEvents computes it |
| Calendar.SyncOne | backend/routes/calendar.js:159-183 | one event is copied and counted exactly as SyncEvent says: skipped when untimed or already copied |
| Calendar.SyncCalendarsInto | backend/routes/calendar.js:137-190 | the outer loop leaves the collection as SyncCalendars computes it |
| Calendar.Sync | backend/routes/calendar.js:118-201 | 400 when not connected, or with no calendar ids; otherwise the ids are stored, the calendars synced, and 200 reports the number imported |
| NotificationModel.NewNotification | backend/models/Notification.js:3-62 | a new record is unread with no read date, normal priority, and expires 30 days after creation |
| NotificationModel.IsExpired | backend/models/Notification.js:138-140 | a record is expired once its expiry instant has passed |
| NotificationModel.NewNotificationExpiry | backend/models/Notification.js:52-58 | a new record counts as expired exactly when more than 30 days have passed since its creation |
| NotificationModel.SortedByNewestKey | backend/models/Notification.js:73 | sorting by `createdAt: -1` puts the newest first |
| NotificationModel.UnreadOf | backend/models/Notification.js:71 | the user's unread records, in store order |
| NotificationModel.InUnreadOf | backend/models/Notification.js:71 | every unread record selected belongs to the user and is unread |
| NotificationModel.GetUnreadForUser | backend/models/Notification.js:70-74 | a sub-multiset of the user's unread records, newest first, at most `limit` of them (0 means no limit), all of them when they fit, and every unread record left out is no newer than any returned |
| NotificationModel.NewestPrefix | backend/models/Notification.js:72-73 | a prefix of a newest-first ordering keeps the newest records: each left behind is no newer than any kept |
| NotificationModel.OfUser | backend/models/Notification.js:78-81 | the user's records, of the given type when one is given |
| NotificationModel.InOfUser | backend/models/Notification.js:78-81 | every record selected belongs to the user and, when a type is given, has it |
| NotificationModel.GetForUser | backend/models/Notification.js:77-87 | one page of the user's records of the type, newest first: exactly the records at positions `(page - 1) * limit` onward of that ordering, as many as remain up to `limit` |
| NotificationModel.PageOfNewest | backend/models/Notification.js:83-86 | a skipped and limited page of a newest-first selection is still newest first and from the selection |
| NotificationModel.Tally | backend/models/Notification.js:108-116 | one `$group` row: the unread count never exceeds the total, and the total never exceeds the records |
| NotificationModel.TallyCounts | backend/models/Notification.js:104-119 | the total is the number of the user's records of the type, and the unread count the number of those with `isRead` false |
| NotificationModel.TallyCountsEach | backend/models/Notification.js:104-113 | a record of the user with the type makes its total positive |
| NotificationModel.TallyHasWitness | backend/models/Notification.js:104-113 | a positive total has a record of the user with the type behind it |
| NotificationModel.GetCountsByType | backend/models/Notification.js:104-119 | a type is a key exactly when the user has a record of it; its total counts the user's records of the type and its unread count the unread ones among them |
| NotificationModel.MarkRead | backend/models/Notification.js:90-101 | the selected unread records of the user become read at `now`; every other record is kept |
| NotificationModel.MarkAllLeavesNoneUnread | backend/models/Notification.js:90-101 | after marking all read, the unread query is empty |
| NotificationModel.NoUnreadAfterMark | backend/models/Notification.js:90-101 | after marking all read, the user has no unread record |
| NotificationModel.MarkLeavesOthersUnread | backend/models/Notification.js:90-101 | marking one user's records leaves every other user's unread records as they were |
| NotificationModel.Survivors | backend/models/Notification.js:122-128 | cleanup keeps exactly the records that are unread or created at or after the cutoff |
| NotificationModel.CleanupKeepsUnread | backend/models/Notification.js:122-128 | cleanup never deletes an unread record |
| NotificationModel.NotificationStore.constructor | backend/models/Notification.js:3-62 | the collection starts empty and valid |
| NotificationModel.NotificationStore.Save | backend/models/Notification.js:10-19 | a title and body within the schema limits are appended with the next id, and the id counter moves on by one; otherwise nothing changes |
| NotificationModel.NotificationStore.MarkAsRead | backend/models/Notification.js:90-101 | the collection becomes MarkRead of the old one, and the count of modified records is returned |
| NotificationModel.NotificationStore.MarkOneAsRead | backend/models/Notification.js:131-135 | the record with the id becomes read at `now`; nothing else changes |
| NotificationModel.NotificationStore.Cleanup | backend/models/Notification.js:122-128 | the collection keeps exactly the Survivors of the cutoff `olderThanDays` before now, and the count removed is returned |
| PushSubscriptionModel.FindActiveByUserId | backend/models/PushSubscription.js:52-54 | exactly the user's active subscriptions |
| PushSubscriptionModel.Deactivated | backend/models/PushSubscription.js:57-62 | the subscription becomes inactive with the given error, and nothing else changes |
| PushSubscriptionModel.DeactivatedIdempotent | backend/models/PushSubscription.js:57-62 | deactivating twice is deactivating once |
| PushSubscriptionModel.MeansGone | backend/models/PushSubscription.js:74 | an error message that mentions 410 or 404 |
| PushSubscriptionModel.MarkedFailed | backend/models/PushSubscription.js:72-78 | the error is recorded, and the subscription is deactivated exactly when the error says it is gone |
| PushSubscriptionModel.MarkedUsed | backend/models/PushSubscription.js:65-69 | lastUsed becomes now and the error is cleared; nothing else changes |
| PushSubscriptionModel.SubscriptionStore.constructor | backend/models/PushSubscription.js:49 | the collection starts empty and valid |
| PushSubscriptionModel.SubscriptionStore.UpdateById | backend/models/PushSubscription.js:65-78 | only the subscription with the id changes, by the given update |
| PushSubscriptionModel.SubscriptionStore.Deactivate | backend/models/PushSubscription.js:57-62 | only the subscription with the id is deactivated |
| PushSubscriptionModel.SubscriptionStore.DeactivateByEndpoint | backend/models/PushSubscription.js:57-62 | None and no change exactly when no subscription has the endpoint; otherwise the first one with it is deactivated |
| PushSubscriptionModel.SubscriptionStore.MarkAsUsed | backend/models/PushSubscription.js:65-69 | only the subscription with the id is marked used |
| PushSubscriptionModel.SubscriptionStore.MarkAsFailed | backend/models/PushSubscription.js:72-78 | only the subscription with the id is marked failed |
| PushService.Gone | backend/services/pushNotificationService.js:120 | a rejection with status 410 or 404 |
| PushService.GetNotificationActions | backend/services/pushNotificationService.js:153-172 | at most two buttons, none offered twice, a "decline" button always last, each titled and with an icon under the site root, all among accept, decline, join and view |
| PushService.Succeeded | backend/services/pushNotificationService.js:132 | the number of deliveries that succeeded |
| PushService.RequiresInteraction | backend/services/pushNotificationService.js:106 | friend requests and game invitations stay on screen |
| PushService.DeclineOfferedIffInteraction | backend/services/pushNotificationService.js:101-104 | a notification requires interaction exactly when it offers a decline action; actions are offered exactly for friend requests, game invitations and availability matches |
| PushService.PayloadFor | backend/services/pushNotificationService.js:94-108 | the payload carries the data plus the record id and the timestamp, the type as tag, and the actions of the type |
| PushService.AfterDelivery | backend/services/pushNotificationService.js:111-129 | a subscription changes only when it is the user's active one and the push service said it is gone |
| PushService.SendPushNotification | backend/services/pushNotificationService.js:31-146 | a title or body the schema rejects gives a failure with no record; otherwise the record is saved; without keys or without active subscriptions nothing is sent; otherwise each subscription is tried once, the gone ones are deactivated, and success means at least one delivery; the answer and the new subscriptions are exactly SendOutcome of the old ones, and the id counter moves on by one exactly when a record is saved |
| PushService.DeliverAll | backend/services/pushNotificationService.js:111-129 | one result per active subscription, each the outcome of its delivery, and every stored subscription as AfterDelivery says |
| PushService.DeliverEach | backend/services/pushNotificationService.js:111-131 | the deliveries in order: one result each, and only the subscriptions answered as gone are deactivated |
| PushService.AllDelivered | backend/services/pushNotificationService.js:111-129 | once every active subscription is processed, each stored one is as AfterDelivery says |
| PushService.DeliverOne | backend/services/pushNotificationService.js:111-129 | one delivery: its result, and the subscription deactivated when gone |
| PushService.KeptStep | backend/services/pushNotificationService.js:111-129 | a delivery that is not gone changes no subscription |
| PushService.SameIdSameDocument | backend/models/PushSubscription.js:49 | two positions with the same subscription id are the same position |
| PushService.GoneStep | backend/services/pushNotificationService.js:120-125 | a gone delivery deactivates exactly that subscription |
| PushService.RecordsForSnoc | backend/services/pushNotificationService.js:182-201 | one more user's record extends the run of bulk records by one |
| PushService.BulkStep | backend/services/pushNotificationService.js:184-186 | one more user's send adds its record after those of the earlier users, fails exactly when the content is invalid, and answers and leaves the subscriptions as SendOutcome says for that user |
| PushService.SendBulkPushNotification | backend/services/pushNotificationService.js:182-201 | one result per user, in order, and the results and the new subscriptions are exactly BulkOutcome of the old ones; the counts are right; with valid content send k has record id old counter + k, one record per user is added, and without push keys every send is Disabled, nothing succeeds and no subscription changes; with invalid content every send fails and no record is added |
| PushService.SendEach | backend/services/pushNotificationService.js:184-186 | the sends in order, one per user, adding one record each when the content is valid; results and subscriptions are exactly BulkOutcome of the old ones |
| PushService.SendToActive | backend/services/pushNotificationService.js:81-145 | with push keys and at least one active subscription: invalid content fails with nothing changed; otherwise the record is saved, each active subscription is tried once, the gone ones are deactivated, and answer and subscriptions are SendOutcome of the old ones |
| PushService.SendOutcome | backend/services/pushNotificationService.js:31-146 | one send from given subscriptions and id: failure exactly for invalid content, otherwise the answer carries that id; a Sent answer counts exactly the user's active subscriptions (at least one), with one result each and no more successes than tries; the subscription list keeps its length |
| PushService.SentOutcome | backend/services/pushNotificationService.js:111-145 | the deliveries to every active subscription, with their results and the deactivation of the gone ones, are the Sent case of SendOutcome |
| PushService.BulkOutcome | backend/services/pushNotificationService.js:182-201 | the bulk as a fold of SendOutcome over the users: one result per user, the subscription list keeps its length |
| PushService.BulkResultsNumbered | backend/services/pushNotificationService.js:184-186 | send k of a bulk fails exactly for invalid content, and otherwise carries record id nextId + k |
| PushService.BulkWithoutPush | backend/services/pushNotificationService.js:34-51 | with valid content and no push keys, send k of a bulk is Disabled with id nextId + k and no subscription changes |
| PushService.NoneSucceeded | backend/services/pushNotificationService.js:188 | sends none of which succeeded count no success |
| PushService.BulkWithoutPushSendsNothing | backend/services/pushNotificationService.js:188-193 | a valid bulk without push keys counts no success |
| PushService.BulkNumbering | backend/services/pushNotificationService.js:182-201 | with valid content send k of a bulk carries id nextId + k; without push keys as well, nothing succeeds, no subscription changes and every send is Disabled |
| PushService.BulkSoFarStep | backend/services/pushNotificationService.js:184-186 | the send to the next user moves a partial bulk one user on towards the whole fold |
| PushService.BulkSoFarEnd | backend/services/pushNotificationService.js:184-186 | once every user is sent to, the partial bulk is the whole fold |
| PushService.TestPushNotification | backend/services/pushNotificationService.js:207-215 | never fails, and appends exactly the "Test Notification" record of type "test" for the user; answer and new subscriptions are SendOutcome for that fixed content with data `{ test: true }`; without push keys it answers Disabled with the new record's id and changes no subscription; without active subscriptions it answers NoSubscriptions and changes none; otherwise it is Sent with that id, one try per active subscription |
| PushApp.Lookup | push-notifications-app/src/services/subscriptionService.ts:22-24 | a user's list, or empty for an unknown user |
| PushApp.Without | push-notifications-app/src/services/subscriptionService.ts:18 | the list without the identifier, keeping every other entry |
| PushApp.WithoutCounts | push-notifications-app/src/services/subscriptionService.ts:18 | every other identifier keeps its number of occurrences, and the removed one has none |
| PushApp.WithoutIdempotent | push-notifications-app/src/services/subscriptionService.ts:15-20 | removing twice is removing once |
| PushApp.Added | push-notifications-app/src/services/subscriptionService.ts:8-13 | the user's list gains the identifier at its end, created if missing; other users are unchanged |
| PushApp.Removed | push-notifications-app/src/services/subscriptionService.ts:15-20 | a known user's list loses the identifier, no user is added, and other users are unchanged |
| PushApp.RemoveAfterAdd | push-notifications-app/src/services/subscriptionService.ts:8-20 | subscribing and then unsubscribing leaves the user's list as the old one without the identifier |
| PushApp.SubscriptionService.constructor | push-notifications-app/src/services/subscriptionService.ts:4-6 | the map starts empty |
| PushApp.SubscriptionService.AddSubscription | push-notifications-app/src/services/subscriptionService.ts:8-13 | the map becomes Added of the old one, and the identifier is then listed |
| PushApp.SubscriptionService.RemoveSubscription | push-notifications-app/src/services/subscriptionService.ts:15-20 | the map becomes Removed of the old one, and the identifier is then not listed |
| PushApp.SubscriptionService.GetSubscriptions | push-notifications-app/src/services/subscriptionService.ts:22-24 | the user's list as Lookup defines it |
| PushApp.NotificationController.constructor | push-notifications-app/src/controllers/notificationController.ts:2 | the log starts empty |
| PushApp.NotificationController.SendNotification | push-notifications-app/src/controllers/notificationController.ts:4-12 | one record, with the title, message and time, is appended to the log |
| PushApp.NotificationController.GetNotifications | push-notifications-app/src/controllers/notificationController.ts:14-16 | the whole log, oldest first |

## Left out

- Password hashing, e-mail sending and `backend/routes/users.js`: `backend/routes/users.js` and `backend/services/emailService.js` are not part of this model. The bcrypt hash is a function parameter of `Users.PreSave`, and `comparePassword` is left out with bcrypt.
- Foreign calls become parameters: web-push delivery, the Google Calendar API, Cloudinary's `destroy`, and MongoDB's case-insensitive `$regex`. Destroying an avatar is modelled as the public id that would be destroyed; a failure of `destroy` is already swallowed by the source.
- Express request parsing and express-validator: each route's validation chain is a predicate on the request. ISO-8601 date parsing is left out, and instants are integers.
- AvailabilityRoutes.FindOverlap: the body's `usernames` is always a list of strings here, so the `isArray` failure and non-string elements are not modelled. Each name's length is its number of characters; validator.js does not count the variation selectors U+FE0E and U+FE0F, and the model does.
- Populated projections (`populate('requester recipient', ...)`, `select`) and response bodies beyond the status, message and the data the handler computes are left out. `GET /friends/status`, `GET /friends` and `GET /friends/requests` are the FriendModel lookups.
- Malformed ObjectId strings fail Mongoose casting and answer 500. Ids here are natural numbers, so that path does not exist.
- Concurrency: `Promise.all` and the sequential awaits are modelled one after another, with no interleaving between requests.
- MongoDB's TTL index on `expiresAt` deletes expired notifications in the background. That is left out; `NotificationModel.IsExpired` states when a record counts as expired.
- Recurrence expansion: the model stores recurrence rules but never expands them, as the source does.
- Mongoose sub-document defaults: the `recurrenceRule` defaults apply whenever the rule is absent.
- Profiles.UploadAvatar: requires an accepted file (an image under 5 MB in one of the formats jpg, jpeg, png, gif or webp). Multer rejects other mimetypes and sizes, and the Cloudinary storage refuses other formats, before the handler runs; those middleware answers are not modelled.
- FriendRoutes.Request: does not restate the push delivery's effect on the subscriptions beyond keeping them valid. The handler ignores the push result.
- FriendRoutes.Accept: does not restate the push delivery's effect on the subscriptions beyond keeping them valid, for the same reason.
- FriendRoutes.Remove: the handler deletes an edge of any status, not only accepted ones. The model follows the code.
- PushApp.SubscriptionService.GetSubscriptions returns the list as a value. The source returns the live array, and a caller that mutates it changes the service; that aliasing is not modelled.
- PushApp.NotificationController.GetNotifications returns the log as a value. The source returns the live `notifications` array, so a caller that mutates it changes the controller's log; that aliasing is not modelled.
- Profiles.Explore: requires page and limit to be at least 1. A page of 0, a limit of 0 or a non-numeric value gives the source a negative or `NaN` skip, or a division by zero in `Math.ceil(total / limit)`, and those answers are not modelled.
- Text.ToLower: maps only the ASCII letters A to Z. JavaScript's `toLowerCase` also lower-cases the other Unicode letters, and can change a string's length (`'İ'` becomes two code units). The Kelvin sign U+212A, for one, lower-cases to an ASCII `k` in the source, so the source accepts some usernames and e-mails that the model rejects.
- Text.LowerChar: the ASCII part of `toLowerCase`, for the same reason.
- Strings are sequences of Unicode scalar values, while JavaScript counts UTF-16 code units. Length bounds such as `maxlength: 30` or `isLength({ max: 100 })` count a character outside the Basic Multilingual Plane once here and twice in the source.
- NotificationModel.GetForUser: requires a page of at least 1. The source gives a page of 0 a negative `skip`, which MongoDB refuses, and that error path is not modelled. A limit of 0 is MongoDB's "no limit".
- Sort ties: `Common.SortBy` orders equal keys by their order in the collection. MongoDB leaves the order of equal `lastActive` values (`Profiles.Listing`) and equal `createdAt` values (`NotificationModel.GetUnreadForUser`, `NotificationModel.GetForUser`) unspecified, and it may differ between queries. `lastActive` may also change between requests. So separate page requests can repeat or miss users with equal `lastActive`, or notifications with equal `createdAt`. The paging properties hold for one fixed collection and one tie order.
- JavaScript default arguments are not modelled: callers supply every value. These are `page = 1, limit = 20` of the explore route, `limit = 20` of `getUnreadForUser`, `page = 1, limit = 20, type = null` of `getForUser`, `olderThanDays = 30` of `cleanup`, and `type = 'general', data = {}` of `sendPushNotification` and `sendBulkPushNotification`.
- Calendar.SyncCalendars: one `now` serves every calendar, while the source reads the clock again for each calendar. The window only feeds the fetch, so no stated property depends on it.

## Findings

| source | as written | input that shows it | evidently intended | confidence | as-written member | corrected member |
|---|---|---|---|---|---|---|
| backend/routes/availability.js:186-193 | the start/end check runs only when both times are in the update | an entry from 10 to 20 updated with only `endTime: 5` is saved from 10 to 5 | the check applies to the entry as it will be saved | not executed | AvailabilityRoutes.AsWrittenSavesInvertedRange | AvailabilityRoutes.RangeChecksAgree |
| backend/routes/availability.js:196 | `Object.assign(availability, updates)` copies every body field | an update with `userId: 2, source: "google_calendar"` hands the entry to user 2 as a calendar entry | only the editable fields change; owner, source and external id are kept | not executed | AvailabilityRoutes.AsWrittenRewritesOwnerAndSource | AvailabilityRoutes.ApplyPatch |
