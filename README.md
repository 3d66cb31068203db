# BvocHUB access guards and page logic, in Dafny

This project models the parts of the BvocHUB learning portal that decide
something exactly: the edge middleware that redirects page requests by
session state, the registration endpoint and its checks over the user
store, the two upload endpoints with their session guard and ordered side
effects on the media host and the document database, the mongoose schemas
behind them, and the small pure helpers of the list and player pages (title
search, time labels, the recommended list, the watch link, the `cn`
class-name joiner). Each API handler is an imperative method over a
`Database` object (users, videos, pdfs); the upload handlers also take a
`Cloud` object (the media host's stored files). Each method is proved
equal to a specification function, and the handler's promises are lemmas
about that function.

The model follows the code as written, including these behaviours a caller
might not expect. The signed-in check on `/login` and `/register` is an exact
match, while the anonymous check is a raw `startsWith`. A caught error in
registration answers status 200. A document upload whose record fails
validation leaves the uploaded file on the media host.

Modules, one per file: `Wrappers` (Option), `Text` (ASCII case mapping,
`includes`, `startsWith`, decimal numerals), `Lists` (`filter`), `Search`
(the shared title search), `Records` (model/User.ts and the store), `Api`
(session, response, media host), `RouteGuard`, `Register`,
`DocumentUpload`, `VideoUpload`, `WatchPage`, `DocumentsPage`,
`VideosPage`, `InputComponent`.

## Model

| member | source | states |
|---|---|---|
| RouteGuard.Middleware | middleware.ts:5-30 | the only redirect targets are `/documents`, given only to signed-in requests, and `/login`, given only to anonymous ones |
| RouteGuard.Matched | middleware.ts:33-35 | the middleware runs only on paths that begin with `/` and do not begin with `/api`, `/_next/static` or `/_next/image` |
| RouteGuard.Route | middleware.ts:33-35 | a path outside the matcher always proceeds |
| RouteGuard.SomePrefixExists | middleware.ts:25 | `protectedRoutes.some(startsWith)` holds iff some listed route is a prefix of the path |
| RouteGuard.EntryPagesUnprotected | middleware.ts:17-23 | neither `/login` nor `/register` starts with a protected route |
| RouteGuard.PagesMatched | middleware.ts:33-35 | `/login`, `/register`, `/documents` and `/` are inside the matcher |
| RouteGuard.SignedInLeavesEntryPages | middleware.ts:12-14 | a signed-in request to exactly `/login` or `/register` is redirected to `/documents` |
| RouteGuard.SignedInRedirectOnlyFromEntryPages | middleware.ts:12 | a signed-in request is redirected iff its path is exactly one of the two entry pages |
| RouteGuard.EntryMatchIsExact | middleware.ts:12 | signed-in requests to `/login/x` and `/register/` pass through |
| RouteGuard.AnonymousLeavesProtectedRoutes | middleware.ts:17-27 | an anonymous request whose path starts with any protected route is redirected to `/login` |
| RouteGuard.RawPrefixMatch | middleware.ts:25 | the test is on raw strings: `/documentsX` and `/videos-old` are protected |
| RouteGuard.RedundantRoutes | middleware.ts:17-23 | the first three routes protect exactly what all five protect, so `/videos/watch` and `/documents/uploader` change no decision |
| RouteGuard.PassThroughExactly | middleware.ts:11-29 | the middleware passes a request iff neither redirect rule fires |
| RouteGuard.RootPasses | middleware.ts:29 | `/` passes in both session states |
| RouteGuard.RedirectTargetsPass | middleware.ts:12-27 | the target of a redirect itself passes for the same session state, so there is no redirect loop |
| RouteGuard.SignedInReachesProtected | middleware.ts:25 | a signed-in request to any protected path passes |
| RouteGuard.ApiRoutesUnguarded | middleware.ts:33-35 | every path beginning `/api`, the upload endpoints among them, passes whatever the session |
| RouteGuard.FaviconWildcard | middleware.ts:34 | the matcher exempts `/favicon.ico` and, through the regex `.`, also `/favicon-ico` |
| Register.Post | app/api/v1/register/route.ts:5-48 | the handler's response and new user list are those of the registration function, the store stays valid, and only `users` changes |
| Register.Registration | app/api/v1/register/route.ts:5-48 | a user is created only from a body with all four fields and matching passwords, with the requested email and the hashed password, under an email no stored user has |
| Register.UnreadableBody | app/api/v1/register/route.ts:41-47 | a body that is not valid JSON, or is JSON `null`, gets "InternalServer Error !" with status 200 and stores nothing |
| Register.MissingFieldRejected | app/api/v1/register/route.ts:11-13 | any absent or empty field gets 400 "All fields are required" and stores nothing, whatever the other checks would say |
| Register.PasswordMismatchRejected | app/api/v1/register/route.ts:15-19 | with all fields given, differing passwords get 400 "Check password again" and store nothing, before any lookup |
| Register.DuplicateEmailRejected | app/api/v1/register/route.ts:21-26 | a request passing the first two checks for a stored email gets 400 "User already exists" and stores nothing |
| Register.NewUserCreated | app/api/v1/register/route.ts:28-40 | a request passing all checks stores exactly one user: that email, fullName = name, password = hash(password), both timestamps now; the response is 200 "User created successfully !" |
| Register.GrowsOnlyOnSuccess | app/api/v1/register/route.ts:36-40 | a user is stored iff the response is the success response |
| Register.KeepsEmailsUnique | app/api/v1/register/route.ts:21-36 | from a store with unique emails, every request leaves emails unique |
| Register.NoServerErrorStatus | app/api/v1/register/route.ts:41-47 | every response has status 200 or 400, never 5xx |
| Records.FindByEmail | app/api/v1/register/route.ts:21 | `findOne({email})` finds a stored user with that email, or reports that none has it |
| Records.FindByEmailUnique | model/User.ts:53 | with unique emails, looking up a stored user's email finds that very user |
| Records.ValidateUser | model/User.ts:50-57 | a user validates iff fullName, email and password are non-empty; the record keeps them and is stamped now |
| Records.ValidateVideo | model/User.ts:12-21 | a video validates iff title, url, uploader are non-empty and duration is present; description stays null when absent; stamped now |
| Records.ValidatePdf | model/User.ts:32-41 | a PDF validates iff title, url, uploader are non-empty and size is present; stamped now |
| Records.InsertUser | model/User.ts:53 | the store accepts a user iff it validates and no stored user has its email |
| Records.InsertUserKeepsUnique | model/User.ts:53 | inserting through the unique index keeps emails unique |
| Records.Database.constructor | model/User.ts:59-61 | the three collections start empty and valid |
| Records.Database.SaveUser | app/api/v1/register/route.ts:30-36 | `save()` appends exactly the accepted user, or nothing, and keeps the store valid |
| Records.Database.SaveVideo | app/api/v1/upload/video/route.ts:46-54 | `save()` appends exactly the validated video, or nothing |
| Records.Database.SavePdf | app/api/v1/upload/document/route.ts:48-56 | `save()` appends exactly the validated PDF, or nothing |
| Api.Cloud.UploadStream | app/api/v1/upload/document/route.ts:35-44 | the host stores the file with its folder and resource type iff it accepts; a rejection stores nothing and yields no result |
| DocumentUpload.SizeHundredths | app/api/v1/upload/document/route.ts:53 | the size is the byte count in MiB rounded to the nearest hundredth, halves up |
| DocumentUpload.DocumentUpload | app/api/v1/upload/document/route.ts:19-69 | a file is uploaded only for a signed-in request the host accepts; a record is saved only beside its uploaded file, with the size of that file, and with status 200; every status is 200, 403 or 500 |
| DocumentUpload.Post | app/api/v1/upload/document/route.ts:19-69 | the handler's response, new files and new pdfs are those of the upload function; users and videos are untouched |
| DocumentUpload.UnauthenticatedWritesNothing | app/api/v1/upload/document/route.ts:21-22 | no session: 403 "Unauthenticated " with status false, no upload, no record |
| DocumentUpload.MissingFileWritesNothing | app/api/v1/upload/document/route.ts:26-29 | no file entry, or an empty text value: "File is not uploaded !", no upload, no record |
| DocumentUpload.TextInsteadOfFile | app/api/v1/upload/document/route.ts:27-32 | a non-empty text value in place of the file: 500 "Internal server error", no upload, no record |
| DocumentUpload.RejectedUploadWritesNothing | app/api/v1/upload/document/route.ts:35-44 | a rejected upload: 500 "Internal server error", nothing stored |
| DocumentUpload.RecordFollowsUpload | app/api/v1/upload/document/route.ts:35-56 | a record exists only after an accepted raw upload to folder BcocHubDoc; its url is the host's and its uploader the session's name |
| DocumentUpload.SuccessSavesOneRecord | app/api/v1/upload/document/route.ts:48-62 | a complete request stores one file and one Pdf record with title, url, uploader, size and timestamps, and answers 200 with status true |
| DocumentUpload.SavedIffSuccess | app/api/v1/upload/document/route.ts:56-68 | a record is saved iff the response is the success response |
| DocumentUpload.UntitledUploadOrphansFile | app/api/v1/upload/document/route.ts:35-68 | an accepted upload without a title keeps the file on the host, saves no record, and answers 500 |
| VideoUpload.VideoUpload | app/api/v1/upload/video/route.ts:19-66 | a file is uploaded only for a signed-in request the host accepts; a record is saved only beside its uploaded file, with the duration the host reported, and with status 200; every status is 200, 403 or 500 |
| VideoUpload.Post | app/api/v1/upload/video/route.ts:19-66 | the handler's response, new files and new videos are those of the upload function; users and pdfs are untouched |
| VideoUpload.UnauthenticatedWritesNothing | app/api/v1/upload/video/route.ts:21-22 | no session: 403 with status false, no upload, no record |
| VideoUpload.MissingFileWritesNothing | app/api/v1/upload/video/route.ts:26-29 | no file entry, or an empty text value: "Video is not uploaded !", no upload, no record |
| VideoUpload.TextInsteadOfFile | app/api/v1/upload/video/route.ts:27-32 | a non-empty text value in place of the file: 500 "Internal server error", no upload, no record |
| VideoUpload.RejectedUploadWritesNothing | app/api/v1/upload/video/route.ts:35-44 | a rejected upload: 500, nothing stored |
| VideoUpload.RecordFollowsUpload | app/api/v1/upload/video/route.ts:35-54 | a record exists only after an accepted video upload to folder BcocHubDoc; title and description come from the form, url and duration from the host, uploader from the session |
| VideoUpload.SuccessSavesOneRecord | app/api/v1/upload/video/route.ts:46-59 | a complete request stores one file and one Video record and answers 200 with status true |
| VideoUpload.SavedIffSuccess | app/api/v1/upload/video/route.ts:54-65 | a record is saved iff the response is the success response |
| VideoUpload.NoDurationOrphansFile | app/api/v1/upload/video/route.ts:46-65 | an accepted upload whose reply has no duration keeps the file on the host, saves no record, and answers 500 |
| WatchPage.FormatTimeShape | app/videos/watch/page.tsx:142-146 | the label is the unpadded minutes, a colon, and exactly two second digits with value below 60 |
| WatchPage.FormatTime | app/videos/watch/page.tsx:142-146 | parsing the label gives back the time |
| WatchPage.ParseTimeCanonical | app/videos/watch/page.tsx:142-146 | every parsable `M:SS` string is the label of the time it denotes |
| WatchPage.Recommended | app/videos/watch/page.tsx:75-77 | the recommended list is a subsequence of the fetched videos, and a fetched video is in it iff its url differs from the current one |
| WatchPage.RecommendedCount | app/videos/watch/page.tsx:76 | a fetched video appears in the recommended list as many times as it was fetched when its url differs from the current one, and not at all otherwise |
| WatchPage.VideoPlayer.constructor | app/videos/watch/page.tsx:37-45 | not playing, not muted, volume 1, times 0, no current video, no recommendations |
| WatchPage.VideoPlayer.TogglePlay | app/videos/watch/page.tsx:95-100 | the element's paused flag flips and `isPlaying` is its negation; nothing happens without an element |
| WatchPage.VideoPlayer.ToggleMute | app/videos/watch/page.tsx:102-107 | the element's muted flag flips and `isMuted` mirrors it |
| WatchPage.VideoPlayer.HandleVolumeChange | app/videos/watch/page.tsx:109-117 | element and state take the new volume; `isMuted` is set iff it is 0; the element's muted flag is unchanged |
| WatchPage.VideoPlayer.SkipForward | app/videos/watch/page.tsx:119-122 | the position becomes min(position + 10, duration state), so never past it |
| WatchPage.VideoPlayer.SkipBackward | app/videos/watch/page.tsx:124-127 | the position becomes max(position - 10, 0) |
| WatchPage.VideoPlayer.Seek | app/videos/watch/page.tsx:187-194 | the slider sets the element's position and the state to the chosen value |
| WatchPage.VideoPlayer.OnLoadedMetadata | app/videos/watch/page.tsx:62 | the duration state takes the element's duration |
| WatchPage.VideoPlayer.OnTimeUpdate | app/videos/watch/page.tsx:63 | the time state takes the element's position |
| WatchPage.VideoPlayer.ShowVideo | app/videos/watch/page.tsx:72-81 | the fetched video is current, the recommendations are the others, `isPlaying` is false and the position is 0 in state and element; the element's paused flag is not touched |
| WatchPage.MuteThenRaiseVolume | app/videos/watch/page.tsx:102-117 | after mute then a volume change to 0.5, the player shows unmuted while the element stays muted |
| WatchPage.SkipBeforeMetadata | app/videos/watch/page.tsx:119-122 | before the duration is known (state 0), skipping forward leaves the position at 0 |
| DocumentsPage.FilteredDocuments | app/documents/page.tsx:42-44 | the result is a subsequence of the documents; each kept title matches and each matching document is kept |
| Search.SearchByTitle | app/documents/page.tsx:42-44 | the title search keeps order, and keeps exactly the items whose lowercased title includes the lowercased query |
| Search.SearchCount | app/documents/page.tsx:42-44 | a matching item is kept as many times as it occurs, and no other item is kept |
| Search.SearchEmptyQuery | app/documents/page.tsx:42-44 | an empty query keeps every item |
| Search.SearchIgnoresQueryCase | app/documents/page.tsx:42-44 | queries that lowercase alike give the same result |
| Search.SearchUpperCaseQuery | app/documents/page.tsx:42-44 | upper-casing the query gives the same result |
| Search.SearchIdempotent | app/documents/page.tsx:42-44 | searching the result again with the same query changes nothing |
| Text.IncludesAt | app/documents/page.tsx:43 | `includes` holds iff the query occurs at some index of the title |
| VideosPage.FilteredVideos | app/videos/page.tsx:26-28 | the result is a subsequence of the videos; each kept title matches and each matching video is kept |
| VideosPage.FormatTime | app/videos/page.tsx:34-44 | the label ends in a colon, two characters and ".000", and is exactly `MM:SS.000` iff the duration is under an hour |
| VideosPage.FormatTimeShape | app/videos/page.tsx:34-44 | the hours part is empty iff under an hour, else unpadded hours and a colon; minutes are below 60; minutes and seconds are two digits; the suffix is ".000" |
| VideosPage.FormatTimeRoundTrip | app/videos/page.tsx:34-44 | parsing a label gives back the duration |
| VideosPage.WatchUrl | app/videos/page.tsx:30-32 | the player page always finds a `url` parameter, and a url without `&`, `#`, `+` or `%` reaches the player page's `url` parameter unchanged |
| VideosPage.AmpersandTruncates | app/videos/page.tsx:30-32 | because the url is not encoded, an `&` in it cuts the player's `url` parameter short |
| Text.Decimal | app/videos/watch/page.tsx:145 | a rendered whole number is a non-empty digit string without a leading zero |
| Text.DecimalRoundTrip | app/videos/watch/page.tsx:145 | reading a rendered number gives the number back |
| Text.NumeralRoundTrip | app/videos/watch/page.tsx:145 | rendering the value of a canonical numeral gives the numeral back |
| Text.TwoDigits | app/videos/page.tsx:40-41 | the padded field has exactly two digits, and they denote the number |
| InputComponent.CnAppend | components/ui/input.tsx:6-8 | `cn` keeps argument order: the classes of `a + b` are those of `a` then those of `b`, one space between |
| InputComponent.CnSingle | components/ui/input.tsx:7 | one truthy argument comes back unchanged; one falsy argument gives "" |
| InputComponent.Cn | components/ui/input.tsx:6-8 | the result is "" iff every argument is falsy |
| InputComponent.CnIgnoresFalsy | components/ui/input.tsx:7 | removing the falsy arguments beforehand changes nothing |
| InputComponent.Input | components/ui/input.tsx:12 | `type` is "text" when undefined, and the given value otherwise |
| InputComponent.InputClassOrder | components/ui/input.tsx:17-20 | the base classes come first, then the caller's className after one space, or the base classes alone |

## Left out

- Session decoding, credential checks, OAuth account creation and session signing live in app/api/auth/[...nextauth]/route.ts, which is not part of this model. The session is an input: absent, or a user claim with an optional `name`.
- bcrypt is an input function `hash`, with its random salt fixed for the call. Nothing proves that a digest differs from its plaintext.
- The media host and mongoose's I/O are not modelled. The host's reply to an upload is an input. `findOne` and `save` are functions of the stored collections. Store errors other than schema validation and the unique index are not modelled.
- lib/dbConnect.ts is not part of this model. A failed connection ends the process there, so no response exists to model.
- Requests are sequential. The race between `findOne` and `save` in registration is not modelled.
- JSON body fields other than strings or null (numbers, booleans) are not modelled. A form field that holds a file where text is expected (`title`, `des`) is not modelled either.
- The registration error response also carries the caught exception as `error` (app/api/v1/register/route.ts:44-47). `Response` holds only the status, the message and the status flag, so what that field exposes is not modelled.
- The `console.log` calls of the three routes write to the server log only and are not modelled.
- Only ASCII letters are case-mapped; full Unicode `toLowerCase` is not modelled.
- Numbers are whole. Times and durations are whole seconds, so the watch page drops the fraction and the list page's fraction is always "000". Rendering of numbers of 1e21 and above in exponent form is not modelled. The PDF size is the exact rational rounding that `toFixed(2)` performs on an exact binary quotient.
- The document route's `des` field is not a schema path, so the stored PDF description is always null.
- Percent-decoding of the `url` query parameter is not modelled; `+` is decoded.
- The reload of the media element that a new `src` causes (app/videos/watch/page.tsx:175), which pauses and rewinds it, is not modelled.
- The media element's own clamping of a seek, the promise that `play()` returns, fullscreen, control visibility, rendering, toasts and router navigation are not modelled.
- The `snatch` read routes and the admin, uploader, login, register, home, layout and navbar components are not modelled. The navbar's admin-link check on a display name is presentation only.
- Repeated evaluation of the route decision agrees with itself because `Middleware` is a function of the session state and the path. No separate lemma states this.
- WatchPage.VideoPlayer.HandleVolumeChange: requires a volume between 0 and 1, the range of the volume slider; a value outside it, which the element rejects with an exception, is not modelled.
