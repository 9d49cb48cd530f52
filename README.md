# Medicare API core in Dafny

This project models the core of the Medicare back end, an Express and Mongoose service. The core has three parts:

- **Outbreak alerts.** Case reports for one location inside a time window are grouped by disease and counted. The groups are sorted with the largest count first. Each disease gets a severity tier (LOW, MODERATE, HIGH, CRITICAL) and the location gets one overall alert level. The whole is returned as an alert summary.
- **User input handling.**
  - registration: the "all fields are required" check, which looks for a field that trims to nothing, then the lower-casing of the stored username;
  - login: the "username or email" check;
  - deleting an uploaded file: extracting the media service's public id from a delivery URL.
- **Collections of records updated in place.**
  - likes on videos, comments and tweets, and subscriptions of a user to a channel, each a toggle: delete the record if present, else create it;
  - playlists: `$addToSet` and `$pull` on a playlist's `videos`, and `$set` of its name and description.

Layout, one module per file:

| file | module | what it holds |
|---|---|---|
| `wrappers.dfy` | `Wrappers` | `Option` and `Result` |
| `sequences.dfy` | `Sequences` | the subsequence relation, shared by the alert filter and the playlist `$pull` |
| `api.dfy` | `Api` | the controllers' `ApiError`, JavaScript falsiness of a request field, the ObjectId guard |
| `decimal.dfy` | `Decimal` | decimal rendering of a number, used in the `Last N hours` text |
| `outbreak.dfy` | `Outbreak` | the alert engine, as pure functions; the aggregation pipeline stage by stage |
| `public_id.dfy` | `PublicId` | extracting the public id in `deleteFile` |
| `registration.dfy` | `Registration` | the registration and login input checks |
| `toggling.dfy` | `Toggling` | "delete if present, else create" on a set of records |
| `likes.dfy` | `Likes` | the class `LikeCollection`, with a `set` field of like records |
| `subscriptions.dfy` | `Subscriptions` | the class `SubscriptionCollection`, with a `set` field of (subscriber, channel) records |
| `playlists.dfy` | `Playlists` | the class `PlaylistCollection`, with a `map` field from playlist id to playlist document |

Conventions:
- A thrown `ApiError(status, message)` becomes `Failure(ApiError(status, message))`.
- A request field that may be missing is an `Option<string>`.
- Mongoose's `isValidObjectId` is a parameter `isValidObjectId: string -> bool` that the model never looks inside. It is only ever asked about a present string.
- The time read for the outbreak cutoff is a parameter `now`, in milliseconds. The separate reading taken as each alert is built is a parameter `clock`, with `clock(i)` for the `i`-th alert.
- Lookups and uploads that the handlers await become parameters holding their outcome.

The model keeps these quirks of the code:
- the typo in `"Subsription toggled successfully"` is kept;
- the subscription toggle replies with HTTP status 200 and an `ApiResponse` whose own status code is 201;
- the comment and tweet toggles reject with the video message;
- the playlist and subscription defects under "## Findings" are kept in the as-written members.

## Model

| member | source | states |
|---|---|---|
| `Outbreak.CalculateSeverity` | src/controllers/outbreak.controller.js:37-42 | CRITICAL iff count >= 15; HIGH iff 10 <= count < 15; MODERATE iff 8 <= count < 10; LOW iff count < 8. All bounds are closed lower bounds. |
| `Outbreak.SeverityMonotone` | src/controllers/outbreak.controller.js:37-42 | A larger count never yields a lower tier. |
| `Outbreak.SomeCountAtLeast` | src/controllers/outbreak.controller.js:45-46 | `alerts.some(a => a.count >= t)` holds iff some alert's count reaches the threshold. |
| `Outbreak.OverallAlertLevel` | src/controllers/outbreak.controller.js:44-49 | CRITICAL iff some count >= 15. HIGH iff none reaches 15 and some reaches 10. MODERATE iff there is an alert and none reaches 10. LOW iff there are no alerts. |
| `Outbreak.WorstTierBounds` | src/controllers/outbreak.controller.js:37-49 | The worst tier bounds every alert's tier and is the tier of one of the alerts. |
| `Outbreak.AlertLevelIsWorstTier` | src/controllers/outbreak.controller.js:44-49 | The overall level is LOW for no alerts; otherwise it is the worst tier of any alert, raised to at least MODERATE. |
| `Outbreak.AlertLevelMonotone` | src/controllers/outbreak.controller.js:44-49 | If every count of one alert list is matched or exceeded in another, the other's level is at least as high. |
| `Outbreak.AlertLevelMonotoneInCount` | src/controllers/outbreak.controller.js:44-49 | Raising one alert's count never lowers the overall level. |
| `Outbreak.AlertLevelMonotoneInAlerts` | src/controllers/outbreak.controller.js:44-49 | Inserting an alert anywhere never lowers the overall level. |
| `Outbreak.Cutoff` | src/controllers/outbreak.controller.js:55-56 | The cutoff is never after now, and lies exactly `hoursBack` hours (in milliseconds) before it. `InWindowIff` gives the window it selects. |
| `Outbreak.HoursBack` | src/controllers/outbreak.controller.js:8 | The window is 24 hours when `hours` is absent, and the given value otherwise. |
| `Outbreak.InWindowIff` | src/controllers/outbreak.controller.js:55-65 | A report passes `$match` iff it is for the location and at most `hoursBack` hours older than now. |
| `Outbreak.Timeframe` | src/controllers/outbreak.controller.js:28 | The text is "Last ", then only digits with no leading zero, then " hours". Those digits read back as `hoursBack`, so they are its canonical numeral. |
| `Decimal.Show` | src/controllers/outbreak.controller.js:28 | A number renders as at least one digit, with no leading zero. |
| `Decimal.ParseShow` | src/controllers/outbreak.controller.js:28 | Reading a rendered number back gives the number. |
| `Decimal.ShowInjective` | src/controllers/outbreak.controller.js:28 | Different numbers render as different texts. |
| `Outbreak.MatchStage` | src/controllers/outbreak.controller.js:60-66 | A report survives `$match` iff it is in the input and for the location and in the window. |
| `Outbreak.CasesInWindow` | src/controllers/outbreak.controller.js:62-71 | The reference count of a disease's reports for the location at or after the cutoff, independent of the pipeline; never more than the number of reports. `CountMatchStage` and `Aggregate` are proved against it. |
| `Outbreak.FindDisease` | src/controllers/outbreak.controller.js:69-73 | Finds the entry of a disease, or reports that no entry has that disease. |
| `Outbreak.CountMatchStage` | src/controllers/outbreak.controller.js:60-71 | Counting a disease after `$match` gives its number of cases in the location and window. |
| `Outbreak.AddToGroup` | src/controllers/outbreak.controller.js:69-73 | One `$group` step: the report's disease has an entry afterwards, at most one entry is added, and the entries of other diseases are unchanged. |
| `Outbreak.GroupStage` | src/controllers/outbreak.controller.js:67-83 | `$group` and `$project` give no more entries than reports; `GroupStageCorrect` states the grouping. |
| `Outbreak.GroupStageCorrect` | src/controllers/outbreak.controller.js:67-83 | `$group`/`$project` yields one entry per disease; each carries the location and the disease's number of matched reports. Every matched disease has an entry, and the counts sum to the number of matched reports. |
| `Outbreak.InsertByCount` | src/controllers/outbreak.controller.js:84-87 | One insertion step of the sort adds exactly one entry, the inserted one; `InsertByCountPermutes` and `InsertByCountSorted` state the rest. |
| `Outbreak.InsertByCountPermutes` | src/controllers/outbreak.controller.js:84-87 | One insertion step of the sort only adds the inserted entry: same multiset plus it, and the sum grows by its count. |
| `Outbreak.InsertByCountSorted` | src/controllers/outbreak.controller.js:84-87 | Inserting into a list sorted by non-increasing count keeps it sorted. |
| `Outbreak.InsertByCountDistinct` | src/controllers/outbreak.controller.js:84-87 | Inserting a new disease keeps diseases distinct. |
| `Outbreak.SortStage` | src/controllers/outbreak.controller.js:84-87 | `$sort: { count: -1 }` keeps the number of entries; `SortStageCorrect` states that it is a sorted permutation. |
| `Outbreak.SortStageCorrect` | src/controllers/outbreak.controller.js:84-87 | `$sort: { count: -1 }` returns a permutation of the groups, with the same sum, in non-increasing count order. |
| `Outbreak.SortStageDistinct` | src/controllers/outbreak.controller.js:84-87 | Sorting keeps the diseases distinct. |
| `Outbreak.Aggregate` | src/controllers/outbreak.controller.js:52-95 | `getOutbreakCasesForLocation`: the pipeline gives distinct diseases, sorted by non-increasing count. Each entry carries the location, a count >= 1 and exactly that disease's cases in the window. Every disease with a case has an entry, and the counts sum to the number of matched reports. |
| `Outbreak.CasesMonotoneInWindow` | src/controllers/outbreak.controller.js:55-65 | Widening the window never lowers any disease's number of cases. |
| `Outbreak.Entries` | src/controllers/outbreak.controller.js:13-22 | An alert list gives back, position by position, the (disease, location, count) entries it was built from. |
| `Outbreak.WithCases` | src/controllers/outbreak.controller.js:14 | `filter(item => item.count >= 1)` keeps every occurrence of an entry with a case and drops every other entry, in the original order (a subsequence). It changes nothing when every count is at least one. |
| `Outbreak.MakeAlerts` | src/controllers/outbreak.controller.js:13-22 | The alerts are exactly the entries with a case, in order. Each has severity `calculateSeverity(count)`, trend STABLE, and as `lastReported` the clock reading taken when that alert was built. |
| `Outbreak.SumWithCases` | src/controllers/outbreak.controller.js:13-14 | Filtering never raises the sum of counts. |
| `Outbreak.TotalCoversAlerts` | src/controllers/outbreak.controller.js:30 | `totalReports`, summed before the filter, is at least the alerts' own sum. |
| `Outbreak.GetAlerts` | src/controllers/outbreak.controller.js:6-35 | Status 200, `success`, message "Alerts fetched successfully", the location and the timeframe text. The alerts' entries form a correct grouping of the reports in the window, each alert with its severity, its trend and its own clock reading. The cutoff uses a separate reading `now`. `totalReports` is the number of matched reports, and `alertLevel` is `getOverallAlertLevel` of the alerts. |
| `PublicId.IndexOfFrom` | src/controllers/user.controller.js:229 | Gives the first occurrence of a pattern at or after a position, or none. |
| `PublicId.SecondPart` | src/controllers/user.controller.js:229-234 | None iff the URL holds no "/upload/". Otherwise `parts[1]`: the text from after the first marker up to the next marker or the end. |
| `PublicId.SecondPartUnique` | src/controllers/user.controller.js:229-234 | A URL has only one such second part. |
| `PublicId.DigitRun` | src/controllers/user.controller.js:237 | Gives the length of the maximal run of digits at a position. |
| `PublicId.StripVersion` | src/controllers/user.controller.js:237 | `^v\d+\/` is removed once, at the start only. A string without that prefix is unchanged. |
| `PublicId.VersionRunLength` | src/controllers/user.controller.js:237 | In a version prefix, the digits are the whole digit run after the `v`. |
| `PublicId.VersionPrefixUnique` | src/controllers/user.controller.js:237 | A string has at most one version prefix. |
| `PublicId.ExtensionOf` | src/controllers/user.controller.js:240 | Gives a listed extension the string ends with, or none when it ends with none of them. |
| `PublicId.OnlyExtension` | src/controllers/user.controller.js:240 | A string ends with at most one listed extension. |
| `PublicId.StripExtension` | src/controllers/user.controller.js:240 | One trailing `.mp4`, `.ogv`, `.webm` or `.jpg` is removed: the result plus that extension is the input. Any other string is unchanged. |
| `PublicId.ExtensionsEndDifferently` | src/controllers/user.controller.js:240 | No string ends with two different listed extensions. |
| `PublicId.ExtractPublicId` | src/controllers/user.controller.js:226-245 | Fails with 500 "Invalid url!!" iff the URL has no "/upload/". Otherwise gives the second part with version and extension removed. |
| `PublicId.StripVersionOnce` | src/controllers/user.controller.js:237 | "v1/v2/clip" becomes "v2/clip": only one version folder goes. |
| `PublicId.StripVersionNeedsDigits` | src/controllers/user.controller.js:237 | "v/clip" and "video/clip" are kept. |
| `PublicId.StripExtensionExamples` | src/controllers/user.controller.js:240 | ".mp4" is removed at the end. ".png", and ".mp4" inside the name, are kept. |
| `Registration.TrimStart` | src/controllers/user.controller.js:14 | The result is a suffix of the input that does not start with white space, and only white space was removed. |
| `Registration.TrimEnd` | src/controllers/user.controller.js:14 | The result is a prefix of the input that does not end with white space, and only white space was removed. |
| `Registration.Trim` | src/controllers/user.controller.js:14 | `.trim()` gives a piece of the input, with only white space around it, that neither starts nor ends with white space. |
| `Registration.TrimEmptyIff` | src/controllers/user.controller.js:14 | `s.trim() === ""` iff `s` is all white space (ECMAScript white space and line terminators). |
| `Registration.BlankIff` | src/controllers/user.controller.js:14 | `field?.trim() === ""` iff the field is present and all white space. |
| `Registration.ValidateRegistration` | src/controllers/user.controller.js:12-18 | Fails with 400 "All fields are required!!" iff some present field among username, fullname, password and email is all white space. Absent fields pass. |
| `Registration.LowerChar` | src/controllers/user.controller.js:47 | Upper-case ASCII letters move to lower case; every other character is kept. |
| `Registration.ToLower` | src/controllers/user.controller.js:47 | Lower-cases the string character by character, keeping its length. |
| `Registration.ToLowerNormalizes` | src/controllers/user.controller.js:47 | The stored username has no upper-case ASCII letter, and lower-casing it again changes nothing. |
| `Registration.RegisterUser` | src/controllers/user.controller.js:9-53 | Validation and then the duplicate check (409) come first. Success needs a user that does not yet exist, an avatar path and an uploaded avatar URL. The record has the lower-cased username, the other fields as given, the avatar URL, and the cover URL or "". An absent username fails. |
| `Registration.CheckLogin` | src/controllers/user.controller.js:84-86 | Fails with 400 "username or email are required!" iff both are missing or empty. |
| `Api.RejectsId` | src/controllers/like.controller.js:10-12 | The guard `!id \|\| !isValidObjectId(id)` lets an id through iff it is present, non-empty and a valid ObjectId. |
| `Toggling.Toggle` | src/controllers/like.controller.js:19-22 | After a toggle the record is present iff it was absent; no other record changes. |
| `Toggling.ToggleTwice` | src/controllers/like.controller.js:19-22 | Toggling the same record twice restores the collection. |
| `Toggling.ToggleCommutes` | src/controllers/like.controller.js:19-22 | Toggles of two records commute. |
| `Toggling.ToggleSize` | src/controllers/like.controller.js:19-22 | A toggle deletes exactly one record or creates exactly one. |
| `Likes.LikedVideosOf` | src/controllers/like.controller.js:89-92 | A video is selected iff the user has a like record for it (`likedBy` the user, `video` set). |
| `Likes.ToggleVideoFlipsLikedVideos` | src/controllers/like.controller.js:14-30 | Toggling a video like flips exactly that video in the user's liked videos. |
| `Likes.ToggleKeepsOtherLikedVideos` | src/controllers/like.controller.js:14-30 | A toggle by another user, or on a comment or tweet, leaves a user's liked videos unchanged. |
| `Likes.LikeCollection.Toggle` | src/controllers/like.controller.js:19-30 | The collection becomes the toggle of the record. The outcome is "unliked" iff the record was there. |
| `Likes.LikeCollection.ToggleTarget` | src/controllers/like.controller.js:7-31 | A missing or invalid id fails with 401 "Invalid videoId!!" and changes nothing. Otherwise the record (target, user) is toggled, with the matching outcome. |
| `Likes.LikeCollection.ToggleVideoLike` | src/controllers/like.controller.js:7-31 | The same, for the record (video, user). |
| `Likes.LikeCollection.ToggleCommentLike` | src/controllers/like.controller.js:33-57 | The same, for the record (comment, user), with the video error message. |
| `Likes.LikeCollection.ToggleTweetLike` | src/controllers/like.controller.js:59-83 | The same, for the record (tweet, user), with the video error message. |
| `Likes.LikeCollection.GetLikedVideos` | src/controllers/like.controller.js:85-93 | A video is returned iff the user likes it. |
| `Likes.ToggleVideoTwice` | src/controllers/like.controller.js:19-28 | Liking and toggling the same video again leaves the collection as it was. |
| `Subscriptions.SubscribersOf` | src/controllers/subscription.controller.js:43-48 | A user is a subscriber iff a record (user, channel) exists. |
| `Subscriptions.ChannelsOf` | src/controllers/subscription.controller.js:98-103 | A channel is listed iff a record (subscriber, channel) exists. |
| `Subscriptions.SubscribersAndChannelsAgree` | src/controllers/subscription.controller.js:43-103 | u subscribes to c by the channel list iff c is among u's channels. |
| `Subscriptions.ToggleChangesOnePair` | src/controllers/subscription.controller.js:17-30 | A toggle flips the user in that channel's subscribers and the channel in that user's channels. Every other list membership stays. |
| `Subscriptions.SubscriptionCollection.ToggleSubscription` | src/controllers/subscription.controller.js:9-34 | A missing or invalid id fails with 400 "Invalid channel id!!" and changes nothing. Otherwise the record (user, channel) is toggled, and the reply is HTTP 200 with body status 201 and "Subsription toggled successfully" in both cases. |
| `Subscriptions.SubscriptionCollection.GetUserChannelSubscribers` | src/controllers/subscription.controller.js:37-48 | Fails with the 400 error iff the channel id is missing or invalid. Otherwise returns exactly the channel's subscribers. |
| `Subscriptions.SubscriptionCollection.GetSubscribedChannels` | src/controllers/subscription.controller.js:92-103 | Corrected. Fails with the 400 error iff the subscriber id is missing or invalid. Otherwise returns exactly the channels it follows. |
| `Subscriptions.GetSubscribedChannelsAsWritten` | src/controllers/subscription.controller.js:92-117 | As written it never succeeds. It fails with the 400 iff the id is missing or invalid; otherwise with the 500 of the undefined `username`. |
| `Subscriptions.ChannelListAsWrittenFails` | src/controllers/subscription.controller.js:110-117 | For a user who follows a channel, the written handler fails with "username is not defined" while the corrected one lists the channel. |
| `Subscriptions.ToggleSubscriptionTwice` | src/controllers/subscription.controller.js:22-30 | Subscribing and toggling again restores the collection. |
| `Playlists.AddToSet` | src/controllers/playlist.controller.js:76 | After the add the video is present. Members are the old ones plus the video, and the old list is kept as a prefix, growing by at most one. No duplicate is introduced. |
| `Playlists.AddToSetIdempotent` | src/controllers/playlist.controller.js:73-79 | Adding a present video changes nothing, so adding twice is adding once. |
| `Playlists.Without` | src/controllers/playlist.controller.js:103 | After the pull the video is gone and each other video keeps its number of occurrences. The length drops by the video's count, and the result is a subsequence of the input, so the order is kept. |
| `Playlists.WithoutAbsent` | src/controllers/playlist.controller.js:100-106 | Removing an absent video changes nothing. |
| `Playlists.WithoutIdempotent` | src/controllers/playlist.controller.js:100-106 | Removing twice is removing once. |
| `Playlists.RemoveUndoesAdd` | src/controllers/playlist.controller.js:73-106 | Removing a video that an add appended gives back the original list. |
| `Playlists.WithoutKeepsNoDuplicates` | src/controllers/playlist.controller.js:103 | A remove introduces no duplicate. |
| `Playlists.CheckIds` | src/controllers/playlist.controller.js:64-71 | Corrected guard. It fails iff the video id or the playlist id is missing or invalid, with "Invalid videoId" checked first, then "Invalid playlistId". On success both ids are valid. |
| `Playlists.GuardAsWritten` | src/controllers/playlist.controller.js:65 | `!id && isValidObjectId(id)` holds iff the id is the empty string and the empty string counts as a valid ObjectId. |
| `Playlists.CheckIdsAsWritten` | src/controllers/playlist.controller.js:64-71 | As written: it fails iff some id is falsy and also a valid ObjectId. |
| `Playlists.CheckIdsAsWrittenNeverFail` | src/controllers/playlist.controller.js:65-71 | When "" is not a valid ObjectId, the written checks pass every input. |
| `Playlists.MalformedIdAdmitted` | src/controllers/playlist.controller.js:65 | The malformed id "abc" passes the written checks but is rejected by the corrected check. |
| `Playlists.CheckFields` | src/controllers/playlist.controller.js:11-13 | Fails with 400 "All fields are required!!" iff the name or the description is missing or empty. |
| `Playlists.CreatePlaylistAsWritten` | src/controllers/playlist.controller.js:8-19 | As written it never succeeds. The error is the 400 iff the fields are missing; any other input hits the undefined `Listing`. |
| `Playlists.CreatePlaylistAsWrittenFails` | src/controllers/playlist.controller.js:15 | Well-formed fields still fail with "Listing is not defined". |
| `Playlists.NewPlaylist` | src/controllers/playlist.controller.js:8-19 | Corrected. It fails exactly when the field check fails. Otherwise it gives a playlist with that name and description, the caller as owner and no videos. |
| `Playlists.NewPlaylistSucceeds` | src/controllers/playlist.controller.js:15-19 | Corrected: any non-empty name and description yield a playlist. |
| `Playlists.PlaylistCollection.CreatePlaylist` | src/controllers/playlist.controller.js:8-26 | Corrected handler: the new playlist is stored under a fresh id and nothing else changes. It keeps the invariant that no playlist lists a video twice. |
| `Playlists.PlaylistCollection.AddVideoToPlaylist` | src/controllers/playlist.controller.js:63-87 | Bad ids fail with the guard's error, and a missing playlist fails with the 500. Both leave the store unchanged. Otherwise only that playlist's `videos` becomes the `$addToSet` result, and the updated document is returned. Keeps the no-duplicates invariant. |
| `Playlists.PlaylistCollection.RemoveVideoFromPlaylist` | src/controllers/playlist.controller.js:89-114 | The same, with `$pull` and the removal 500. |
| `Playlists.PlaylistCollection.UpdatePlaylist` | src/controllers/playlist.controller.js:133-161 | A bad id gives 400 "Invalid playlistId". A missing name or description then gives the 400, and a missing playlist the 500; none changes the store. Otherwise only name and description change, and the updated document is returned. |

## Left out

- I/O is not modelled: MongoDB queries, the media-service upload and delete calls, and HTTP plumbing. The store is a set or map field. Awaited lookups and uploads arrive as parameters.
- Concurrency is not modelled. Two interleaved toggles, or two creates racing, are out of scope. A set holds each record once, so duplicate like or subscription documents cannot arise in the model.
- `asyncHandler` is not part of this model. A thrown error is modelled as its `ApiError` value. For a JavaScript `TypeError` or `ReferenceError`, status 500 and the engine's message are assumed.
- A `create` that returns nothing is left out, since it either returns the document or throws. This covers "Something went wrong while liking!!", "...creating subscription!!" and "...making playlist!!".
- Authentication is left out: `req.user._id` is a given id.
- Ids are compared as strings; ObjectId casting is not modelled.
- Outbreak.Cutoff: the window is now minus `hoursBack` hours, in milliseconds. The local-time and daylight-saving behaviour of `setHours` is not modelled.
- Outbreak.GetAlerts: `hours` is a natural number or absent, and an empty query value counts as absent. A non-numeric query string, which JavaScript coerces differently in the arithmetic and in the text, is left out.
- Outbreak.MakeAlerts: `lastReported` is the clock value as a number, not `toISOString()` text. The clock readings are free parameters: nothing ties them to `now` or orders them.
- Outbreak.SortStage: MongoDB does not fix the order of equal counts. The model breaks ties by first appearance. The properties proved do not depend on the tie order.
- Reports with a missing disease, location or timestamp are not modelled. Neither is the store error re-thrown by `getOutbreakCasesForLocation`.
- Registration.ToLower: only ASCII letters are lower-cased. Full Unicode case mapping is not modelled.
- Registration.RegisterUser: non-string request fields are not modelled. Neither are the `findById(...).select(...)` re-read and the response body.
- Login after the first check is left out, with the rest of the token flows: password comparison, tokens, cookies and refresh.
- PublicId.ExtractPublicId: a URL that is not a string is left out, and so is the media-service `destroy` call and its result. With a second "/upload/" in the URL, the id stops at that marker, as written.
- The `$lookup` joins and projections of `getLikedVideos` and of the two subscription lists are left out. The model gives the set of ids each `$match` selects.
- Lists are sets of ids; the order and shape of the returned documents are not modelled.
- Playlists: `getUserPlaylists`, `getPlaylistById` and `deletePlaylist` are not part of this model. They share the guard defect described below, at lines 32, 49 and 119.
- Playlists: past the guard, the as-written add, remove and update handlers pass a malformed id to `findByIdAndUpdate`. The resulting cast error is not modelled; the collection methods use the corrected guard.
- Playlists: no handler checks that the caller owns the playlist, and the model does not add such a check.
- Playlists.PlaylistCollection.CreatePlaylist: the store assigns the new id. The model takes it as a parameter that is not yet in use.

## Findings

| source | as written | input that shows it | evidently intended | confidence | as-written member | corrected member |
|---|---|---|---|---|---|---|
| src/controllers/playlist.controller.js:65 | `!videoId && isValidObjectId(videoId)` rejects only an id that is empty and also a valid ObjectId. No id is both, so the guard never fires. The same holds at lines 69, 92, 96 and 137. | videoId = playlistId = "abc", not a valid ObjectId | `!id \|\| !isValidObjectId(id)`, as in the like and subscription controllers | high; not executed | `Playlists.MalformedIdAdmitted` | `Playlists.CheckIds` |
| src/controllers/playlist.controller.js:15 | `Listing.create(...)`, where `Listing` is never imported or declared, so every well-formed request throws a ReferenceError | name "Favourites", description "Clips to keep" | `Playlist.create(...)` with the imported playlist model | high; not executed | `Playlists.CreatePlaylistAsWrittenFails` | `Playlists.NewPlaylist` |
| src/controllers/subscription.controller.js:113-114 | The `$lookup` sub-pipeline projects `{ username, avatar }`, shorthand for two identifiers that are never declared, so building the pipeline throws a ReferenceError for every id that passes the guard | subscriberId = a valid ObjectId of a user who follows a channel | `{ username: 1, avatar: 1 }`, as in `getUserChannelSubscribers` | high; not executed | `Subscriptions.ChannelListAsWrittenFails` | `Subscriptions.SubscriptionCollection.GetSubscribedChannels` |
