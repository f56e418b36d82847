# etu-mobile core, modelled in Dafny

A model of the rules inside the etu-mobile note-taking client (React Native,
TypeScript), with their properties proved:

- the classification of API errors, the retry policy and the capped
  exponential backoff;
- the in-memory diagnostic log: a buffer of at most 100 entries with
  first-in-first-out eviction;
- the auth provider's session record and its transitions;
- the conversion of protobuf timestamps to milliseconds, and the relative
  day labels ("Today", "Yesterday", "N days ago", "Last week", a date);
- `groupNotesByDate`, used by the timeline and search screens: it sorts a copy
  newest first and then buckets the notes by label, in first-seen order. Also
  the list of sections built from the groups;
- the list and selection rules in the components: tag editing and
  filtering, tag toggling, the search query, note previews, and the audio and
  image acceptance loops;
- the registration form's validation chain;
- the backend URL, its normalisation, and the memoised transport.

Every foreign effect is an input to the model. This covers the clock
(`now`), the local offset from UTC and the locale's date rendering, RPC
outcomes, keychain reads and clearing, picker results, and file reads.

Files and modules:

- `base.dfy`: `Base` — Option/Result and sequence helpers;
- `strings.dfy`: `Strings` — JavaScript `trim`, `toLowerCase`, `includes`,
  `startsWith`;
- `logger.dfy`: `Logger`;
- `errors.dfy`: `Errors`;
- `dates.dfy`: `Dates`;
- `notes.dfy`: `Notes`;
- `grouping.dfy`: `Grouping`;
- `auth.dfy`: `Auth`;
- `timeline.dfy`: `Timeline`;
- `search.dfy`: `Search`;
- `taginput.dfy`: `TagInput`;
- `notecard.dfy`: `NoteCard`;
- `audiopicker.dfy`: `AudioPicker`;
- `imagepicker.dfy`: `ImagePicker`;
- `register.dfy`: `Register`;
- `transport.dfy`: `Transport`.

The code has some state, which the model keeps as state:

- The log buffer is the class `Logger.LogBuffer`.
- The session record is `Auth.AuthSession`. Each of its methods is proved
  to equal a transition function on `Auth.AuthState`.
- The register form's `loading` flag is `Register.RegisterScreen`.
- The transport cache is `Transport.TransportModule`.

The loops are methods with loop invariants:

- `groupNotesByDate`'s bucketing loop over a dictionary is
  `Grouping.GroupSorted`, over a map and its key order;
- the picker loops are `AudioPicker.AttachAudios` (called by
  `AudioPicker.HandleSelectAudios`) and the loop inside
  `ImagePicker.HandleSelectImages`, with `continue`/`break`.

Each loop method is proved equal to a recursive specification function.
Lemmas prove that function's properties.

## Model

| member | source | states |
|---|---|---|
| `Errors.IsAuthError` | src/utils/errors.ts:18-24 | true exactly for a Connect error with code Unauthenticated or PermissionDenied; a plain error is never one, whatever its message says |
| `Errors.IsNetworkError` | src/utils/errors.ts:29-44 | a Connect error is a network error iff its code is Unavailable or DeadlineExceeded; a plain error iff some hint occurs in its lower-cased message; any other value never |
| `Errors.GetErrorMessage` | src/utils/errors.ts:49-57 | a Connect error's message, or the fixed fallback when that message is empty; a plain error's message; otherwise the value's string form |
| `Errors.ShouldRetry` | src/utils/errors.ts:81-103 | false at or over the attempt cap and for auth errors; below the cap, a non-auth Connect error is retried iff its code is in the retryable set, any other value iff it is a network error |
| `Errors.GetRetryDelay` | src/utils/errors.ts:108-112 | never above 30000; equal to 30000 or to `baseDelay * 2^attempt`, and below 30000 exactly when the product is |
| `Errors.Pow2Monotone` | src/utils/errors.ts:111 | powers of two do not decrease as the exponent grows |
| `Errors.RetryDelayMonotone` | src/utils/errors.ts:108-112 | with a non-negative base the delay never decreases as the attempt number grows |
| `Errors.RetryDelayDoubles` | src/utils/errors.ts:110-111 | the first delay is the base, and each further attempt doubles it below the cap |
| `Errors.RetryDelayExamples` | __tests__/errors.test.ts:126-143 | the delays 1000, 2000, 4000, 8000, 16000, the cap 30000 at attempts 10 and 20, and a base of 500 |
| `Errors.UnavailableRetriedThreeTimes` | __tests__/errors.test.ts:93-118 | an Unavailable error is retried on attempts 0 to 2 and not on 3; NotFound is not retried |
| `Errors.NetworkMessageExamples` | __tests__/errors.test.ts:31-61 | a plain error is not an auth error even when its message says "unauthenticated"; "Network connection failed" and "Request timeout" are network errors, and the first is retried |
| `Errors.ApiErrorLogCall` | src/utils/errors.ts:62-76 | level warning iff auth error, else error, with its fixed message; a Connect error's code and raw message are in the context; an error entry also carries the user message; every other caller key is kept, including the caller's `code` and `rawMessage` when the error is not a Connect error and the caller's `message` on a warning, and no other key is added |
| `Errors.LogApiError` | src/utils/errors.ts:62-76 | the log gains exactly the one entry `ApiErrorLogCall` describes |
| `Errors.CodeNumber` | src/utils/errors.ts:67 | a code is stored in the log context as its number, 1 to 16 |
| `Logger.Appended` | src/utils/logger.ts:19-24 | a buffer within capacity stays within it; below 100 the entry is appended, at 100 the oldest is dropped first; the last entry is the new one |
| `Logger.AppendedAllKeepsNewest` | src/utils/logger.ts:17-24 | after any run of appends the buffer holds exactly the newest 100 of its old contents followed by the appended entries |
| `Logger.OneHundredFiftyLeavesLastHundred` | __tests__/logger.test.ts:89-100 | 150 entries into an empty buffer leave entries 50 to 149 |
| `Logger.ExceptionContext` | src/utils/logger.ts:66 | the caller's context with `stack` set to the error's stack (or undefined), overriding a caller `stack`; no other key added or changed |
| `Logger.LogBuffer.constructor` | src/utils/logger.ts:16 | the buffer starts empty |
| `Logger.LogBuffer.AddToBuffer` | src/utils/logger.ts:19-24 | push then shift when over capacity; the buffer stays within 100 |
| `Logger.LogBuffer.LogDebug` | src/utils/logger.ts:32-39 | appends one debug entry with the message, the context as given and the clock reading |
| `Logger.LogBuffer.LogInfo` | src/utils/logger.ts:41-45 | appends one info entry with the message, the context as given and the clock reading |
| `Logger.LogBuffer.LogWarning` | src/utils/logger.ts:47-51 | appends one warning entry with the message, the context as given and the clock reading |
| `Logger.LogBuffer.LogError` | src/utils/logger.ts:53-60 | appends one error entry with the message, the context as given and the clock reading |
| `Logger.LogBuffer.LogException` | src/utils/logger.ts:62-74 | appends one error entry with the error's message and the context merged with the stack |
| `Logger.LogBuffer.GetRecentLogs` | src/utils/logger.ts:76-78 | returns the buffer's contents, oldest first, at most 100, and changes nothing |
| `Logger.LogBuffer.ClearLogs` | src/utils/logger.ts:80-82 | the buffer is empty afterwards |
| `Dates.ProtoTimestampToMillis` | src/utils/date.ts:4-9 | an absent timestamp is the clock reading; a present one is its total nanoseconds divided by 10^6, truncated toward zero, with missing nanos counting as 0 |
| `Dates.WholeMillisecondNanos` | src/utils/date.ts:6-8 | whole-millisecond nanos, or none, convert to `seconds*1000 + millis` exactly |
| `Dates.ExactTruncDiv` | src/utils/date.ts:8 | an exact multiple of 10^6 nanoseconds converts without loss, also before the epoch |
| `Dates.FromMillis` | __tests__/date.test.ts:11-28 | the assumed inverse, standing for the library's `Timestamp.fromDate` that the tests feed to the conversion: a nanosecond part in range and in whole milliseconds |
| `Dates.MillisRoundTrip` | __tests__/date.test.ts:26-31 | converting a millisecond count to a timestamp with `FromMillis` and back with `protoTimestampToDate` gives it back |
| `Dates.DayNumber` | src/utils/date.ts:13-16 | the local day of an instant: its local time lies between that day's midnight and the next |
| `Dates.DateGroupOf` | src/utils/date.ts:11-23 | Today iff the same day, Yesterday iff the day before, N days ago iff fewer than 7 days back otherwise (future days included), Last week iff 7 to 13 days back, the date iff 14 or more |
| `Dates.TodayAndYesterday` | src/utils/date.ts:13-18 | a note of the current local day is "Today", one a day earlier "Yesterday" |
| `Dates.FiveDaysAgo` | src/utils/date.ts:19-20 | the same time five days back is "5 days ago" |
| `Dates.LabelText` | src/utils/date.ts:17-22 | "Today", "Yesterday", the day count followed by " days ago", "Last week", or the locale's rendering of the note's day |
| `Dates.FormatDateGroup` | src/utils/date.ts:11-23 | by the difference of local day numbers: "Today" for 0, "Yesterday" for 1, "N days ago" for any other difference below 7 (negative ones too), "Last week" for 7 to 13, the locale's date from 14 on |
| `Dates.OldNotesShowTheirDate` | src/utils/date.ts:21-22 | from 14 days back the label is the locale's rendering of the note's day |
| `Grouping.Insert` | src/screens/TimelineScreen.tsx:23-27 | the inserted sequence holds the old notes plus the new one, as a multiset |
| `Grouping.ConsNewestFirst` | src/screens/TimelineScreen.tsx:23-27 | a note no older than all of a newest-first sequence can go in front of it |
| `Grouping.InsertAtMost` | src/screens/TimelineScreen.tsx:23-27 | insertion adds no note newer than a given bound when the inserted one is not |
| `Grouping.InsertNewestFirst` | src/screens/TimelineScreen.tsx:23-27 | insertion keeps a sequence newest first |
| `Grouping.SortNewestFirst` | src/screens/TimelineScreen.tsx:23-27 | the sorted copy is a permutation of the notes, newest first |
| `Grouping.GroupSorted` | src/screens/TimelineScreen.tsx:28-34 | the bucketing loop and the entry listing produce exactly the specified groups |
| `Grouping.GroupNotesByDate` | src/screens/TimelineScreen.tsx:21-35 | the result is the specified groups of the newest-first copy, by date label |
| `Grouping.LabelsInOrderComplete` | src/screens/TimelineScreen.tsx:30-32 | every note's label is listed and only labels of notes are |
| `Grouping.WithLabelAbsent` | src/screens/TimelineScreen.tsx:31 | a label no note has selects no note |
| `Grouping.LabelsDistinct` | src/screens/TimelineScreen.tsx:31-32 | no label is listed twice |
| `Grouping.WithLabelSound` | src/screens/TimelineScreen.tsx:32-33 | the notes of one label all have it, and keep newest-first order |
| `Grouping.GatheredSnoc` | src/screens/TimelineScreen.tsx:32 | one more note enters exactly the group of its label |
| `Grouping.GatheredIsPermutation` | src/screens/TimelineScreen.tsx:28-33 | gathering all groups gives back the notes, as a multiset |
| `Grouping.FlattenGrouped` | src/screens/TimelineScreen.tsx:34 | the notes of the group list are the groups gathered in label order |
| `Grouping.GroupedIsPermutation` | src/screens/TimelineScreen.tsx:28-34 | each note is in exactly one group: together the groups hold the input notes, as a multiset and by count |
| `Grouping.GroupedByLabel` | src/screens/TimelineScreen.tsx:30-34 | group titles are distinct, each note sits under its own label, and every note's label is a group title |
| `Grouping.GroupsNewestFirst` | src/screens/TimelineScreen.tsx:23-33 | the groups of a newest-first sequence are each newest first |
| `Grouping.LabelsFirstSeen` | src/screens/TimelineScreen.tsx:32-34 | groups come in order of first occurrence: a note of a later group is preceded by a note of each earlier one |
| `Grouping.NoteItems` | src/screens/TimelineScreen.tsx:79 | one note item per note, in order |
| `Grouping.Sections` | src/screens/TimelineScreen.tsx:77-80 | the `flatMap` of the groups into a header and one item per note each (also src/screens/SearchScreen.tsx:79-84): one entry per group plus one per note; the order is stated by `Grouping.SectionsPrefix` and `Grouping.SectionsLayout` |
| `Grouping.SectionsLength` | src/screens/TimelineScreen.tsx:77-80 | the section list has one header per group plus one item per note |
| `Grouping.SectionsPrefix` | src/screens/TimelineScreen.tsx:77-80 | the sections of the first groups are a prefix of the sections of all of them |
| `Grouping.SectionsLayout` | src/screens/TimelineScreen.tsx:77-80 | each group's header sits after the items of the groups before it, followed immediately by its notes |
| `Timeline.GroupedResult` | src/screens/TimelineScreen.tsx:53-56 | no groups before the first result, else the date groups of the sorted copy: together they hold the result's notes, as a multiset, and each group is newest first (also src/screens/SearchScreen.tsx:74-77) |
| `Timeline.TimelineScreen` | src/screens/TimelineScreen.tsx:53-80 | blank without a user or a token, a spinner while loading, the error text after a failure, the sections otherwise |
| `Timeline.TimelineSectionsCount` | src/screens/TimelineScreen.tsx:53-80 | the listed sections number the groups plus the notes, and the headers are distinct |
| `Timeline.ReactToQueryError` | src/screens/TimelineScreen.tsx:46-51 | an auth error ends the session as `handleAuthError` does; any other outcome changes nothing |
| `Search.ToggleTag` | src/screens/SearchScreen.tsx:86-90 | an absent tag is appended at the end; a present one is removed everywhere, the rest kept in order; no other tag's membership changes |
| `Search.ToggleKeepsDistinct` | src/screens/SearchScreen.tsx:86-90 | a selection without duplicates keeps none |
| `Search.ToggleTwice` | src/screens/SearchScreen.tsx:86-90 | toggling twice restores a selection without the tag, and moves a present tag to the end |
| `Search.OptionalText` | src/screens/SearchScreen.tsx:67-68 | an empty string is omitted, any other kept |
| `Search.SearchQuery` | src/screens/SearchScreen.tsx:61-70 | the trimmed search text, omitted when blank; the tags, omitted when none; empty dates omitted; the limit is always 100 |
| `Search.SearchTextIsTrimmed` | src/screens/SearchScreen.tsx:65 | the search text sent is already trimmed |
| `Search.TagChips` | src/screens/SearchScreen.tsx:107 | at most 10 chips: the first 10 tags, in order |
| `Search.SearchGrouping` | src/screens/SearchScreen.tsx:22-36 | the search results' groups hold every result once, are newest first, have distinct titles, and each note's title is its date label |
| `TagInput.Matching` | src/components/TagInput.tsx:32-33 | the suggestions whose lower-cased name contains the text, in order, each kept as many times as it occurs; the others dropped |
| `TagInput.Filtered` | src/components/TagInput.tsx:29-35 | at most 15, in order; blank input shows the first 15; otherwise only names containing the lower-cased untrimmed input |
| `TagInput.FilteredComplete` | src/components/TagInput.tsx:31-34 | a matching suggestion is shown unless 15 are already shown |
| `TagInput.Normalize` | src/components/TagInput.tsx:38 | a tag is trimmed then lower-cased; it is empty exactly when the tag is blank |
| `TagInput.NormalizeIdempotent` | src/components/TagInput.tsx:38 | a normalised tag is its own normal form |
| `TagInput.AddTag` | src/components/TagInput.tsx:37-44 | nothing for a blank or already selected tag; otherwise the normal form appended, the rest kept |
| `TagInput.AddTagProperties` | src/components/TagInput.tsx:37-44 | adding again changes nothing, no duplicate is introduced, added tags are normal |
| `TagInput.RemoveTag` | src/components/TagInput.tsx:46-48 | every occurrence of the tag dropped, the others kept in order and with every copy (as a multiset, the selection with the tag's count set to 0) |
| `TagInput.RemoveUndoesAdd` | src/components/TagInput.tsx:37-48 | removing a tag just added gives back the earlier selection |
| `TagInput.HandleSubmit` | src/components/TagInput.tsx:50-52 | a blank input adds nothing |
| `TagInput.HandleSubmitIsAddTag` | src/components/TagInput.tsx:50-52 | submitting the input is adding it as a tag |
| `NoteCard.Preview` | src/components/NoteCard.tsx:13-14 | missing content is empty; up to 120 characters unchanged; longer content is cut to 120 plus an ellipsis; always a prefix of the content, at most 121 long |
| `NoteCard.ShownTags` | src/components/NoteCard.tsx:15-22 | the first 5 tags in order, none when missing |
| `AudioPicker.Accepted` | src/components/AudioPicker.tsx:65-109 | no more files than were picked; when any is accepted, the count never passes the maximum |
| `AudioPicker.AcceptedFilesPass` | src/components/AudioPicker.tsx:69-86 | every accepted file has a type from the allow-list and a size within the limit |
| `AudioPicker.AttachAudios` | src/components/AudioPicker.tsx:65-109 | the loop over the picked files attaches exactly the accepted files, in order |
| `AudioPicker.AllAttachableAccepted` | src/components/AudioPicker.tsx:67-109 | when every file passes and fits, none is dropped |
| `AudioPicker.RejectedFileSkipped` | src/components/AudioPicker.tsx:69-86 | a file of a wrong type or size is skipped and the loop goes on |
| `AudioPicker.UnreadableFileSkipped` | src/components/AudioPicker.tsx:95-108 | an unreadable file is skipped and the loop goes on |
| `AudioPicker.ReadableFileAttached` | src/components/AudioPicker.tsx:94-104 | a readable file that passes the checks below the limit is attached with its copy uri (or uri), name, contents, type and size, and the count goes up |
| `AudioPicker.LimitStopsTheLoop` | src/components/AudioPicker.tsx:88-92 | at the limit, the first file that passes the checks ends the loop |
| `AudioPicker.HandleSelectAudios` | src/components/AudioPicker.tsx:52-122 | the picker opens only below the limit; the new list is the old one followed by the accepted files, given only when one was accepted, never over the maximum |
| `AudioPicker.HandleRemoveAudio` | src/components/AudioPicker.tsx:124-127 | exactly the audio at the index is dropped, the others keep their order |
| `ImagePicker.Accepted` | src/components/ImagePicker.tsx:58-97 | accepted images have an allowed type, a size within the limit and a uri; no more than were returned |
| `ImagePicker.RejectedAssetSkipped` | src/components/ImagePicker.tsx:62-83 | an asset of a wrong type or size, or without a uri, is skipped and the loop goes on |
| `ImagePicker.UnreadableAssetSkipped` | src/components/ImagePicker.tsx:85-96 | an asset that passes the checks but cannot be read is skipped and the loop goes on |
| `ImagePicker.ReadableAssetAttached` | src/components/ImagePicker.tsx:85-92 | an asset that passes the checks and reads is attached with its uri, contents, type and size, before what the later assets give |
| `ImagePicker.AllAttachableAccepted` | src/components/ImagePicker.tsx:60-97 | when every asset passes and reads, each is attached as its image, in pick order, none dropped |
| `ImagePicker.HandleSelectImages` | src/components/ImagePicker.tsx:40-106 | the library is asked for the remaining room only below the limit; a cancel or no assets changes nothing; the new list is the old one followed by the accepted images, given only when one was accepted |
| `ImagePicker.WithinLimitWhenHonoured` | src/components/ImagePicker.tsx:49-101 | the total stays within the maximum when the library honours the selection limit |
| `ImagePicker.LimitNotEnforcedByLoop` | src/components/ImagePicker.tsx:60-97 | with room for one more image, two valid assets from the library are both attached, one over the limit |
| `ImagePicker.HandleRemoveImage` | src/components/ImagePicker.tsx:108-111 | exactly the image at the index is dropped, the others keep their order |
| `Register.Validate` | src/screens/RegisterScreen.tsx:23-34 | the first failing check's message: blank email or empty password, then a mismatch, then fewer than 8 characters; none exactly when all pass |
| `Register.ValidationOrder` | src/screens/RegisterScreen.tsx:23-34 | a mismatch is reported before the length rule; 7 characters fail and 8 pass; a blank email wins |
| `Register.FailureMessage` | src/screens/RegisterScreen.tsx:42-46 | an error's own message, or "Registration failed" for a value that is not an error |
| `Register.RegisterScreen.HandleRegister` | src/screens/RegisterScreen.tsx:22-50 | on a failed check, that message and no call; else `register` is called, `loading` is set during the call and cleared after, and the alert reports success or the failure |
| `Auth.Restored` | src/context/AuthContext.tsx:44-58 | stored auth gives the stored user and token and an authenticated session; none only stops loading and unauthenticates |
| `Auth.SignedInWithKey` | src/context/AuthContext.tsx:64-72 | a verified key gives the user, the trimmed key as token and an authenticated session; a failure changes nothing |
| `Auth.SignedIn` | src/context/AuthContext.tsx:74-94 | the RPC's user, the stored token if any, authenticated iff that token is non-empty; a failure changes nothing |
| `Auth.UserRefreshed` | src/context/AuthContext.tsx:107-112 | only the user changes, and only when stored auth has one |
| `Auth.LoggedOut` | src/context/AuthContext.tsx:96-105 | signed out with no user or token, not loading, unless clearing the keychain failed |
| `Auth.LogoutLog` | src/context/AuthContext.tsx:104 | a successful logout appends the info entry "User logged out" |
| `Auth.TransitionsKeepToken` | src/context/AuthContext.tsx:37-112 | the initial state and every transition keep an authenticated session's token present |
| `Auth.LogoutIdempotent` | src/context/AuthContext.tsx:96-105 | logout leads to one signed-out state from anywhere, and twice is once |
| `Auth.KeySignInThenRefresh` | src/context/AuthContext.tsx:64-72 | after a sign-in by key and a refresh, the session is still authenticated with the trimmed key |
| `Auth.AuthSession.constructor` | src/context/AuthContext.tsx:37-42 | no user, no token, loading, not authenticated |
| `Auth.AuthSession.Restore` | src/context/AuthContext.tsx:44-58 | the state becomes `Restored` of the old state |
| `Auth.AuthSession.LoginWithKey` | src/context/AuthContext.tsx:64-72 | the trimmed key is sent, the state becomes `SignedInWithKey`, a failure is passed on |
| `Auth.AuthSession.SignInWith` | src/context/AuthContext.tsx:74-94 | the shared body of login and register: the trimmed email and the password are sent, the state becomes `SignedIn` of the RPC result and the keychain read, and a failure is passed on |
| `Auth.AuthSession.Login` | src/context/AuthContext.tsx:74-83 | the trimmed email is sent, the state becomes `SignedIn`, a failure is passed on |
| `Auth.AuthSession.Register` | src/context/AuthContext.tsx:85-94 | the trimmed email is sent, the state becomes `SignedIn`, a failure is passed on |
| `Auth.AuthSession.Logout` | src/context/AuthContext.tsx:96-105 | the state becomes `LoggedOut` and the log `LogoutLog`; a failed keychain clear is passed on to the caller |
| `Auth.AuthSession.RefreshUser` | src/context/AuthContext.tsx:107-112 | the state becomes `UserRefreshed` |
| `Auth.AuthSession.HandleAuthError` | src/context/AuthContext.tsx:114-117 | one error entry, then exactly the effect of logout, whose rejection is passed on |
| `Transport.GetBaseUrl` | src/api/transport.ts:3-16 | the configured string when non-empty, else the environment variable when non-empty, else the local default |
| `Transport.NormalizeUrl` | src/api/transport.ts:19 | always starts with "http"; unchanged when it did, else "http://" in front |
| `Transport.NormalizeIdempotent` | src/api/transport.ts:19 | normalising twice is normalising once |
| `Transport.DefaultUrl` | src/api/transport.ts:13-19 | nothing configured, or an empty environment variable, gives the local default unchanged |
| `Transport.BareHostGetsScheme` | src/api/transport.ts:8-19 | a configured host without a scheme is reached over "http://" |
| `Transport.TransportModule.constructor` | src/api/transport.ts:18-19 | the URL is fixed once at load, and no transport is cached |
| `Transport.TransportModule.CreateTransport` | src/api/transport.ts:21-25 | a new transport for the module's URL |
| `Transport.TransportModule.GetTransport` | src/api/transport.ts:29-34 | returns the cached transport, or a fresh one that is then cached; always for the module's URL |
| `Transport.TransportModule.ResetTransport` | src/api/transport.ts:36-38 | nothing is cached afterwards |
| `Transport.GetResetGet` | src/api/transport.ts:27-38 | two calls give one instance; after a reset the next call gives a new one |

## Left out

- Console output is not modelled. This covers the `__DEV__` gating and `formatMessage`, which use `JSON.stringify` and `toISOString`. Only the buffer effect of each log call is modelled.
- The clock is a parameter `now`. An entry's timestamp is that reading itself, so the model says nothing about two clock readings around a call.
- The RPC, keychain, picker and file-system libraries are not modelled. Their outcomes are method parameters:
  - `Result` for a call that can reject;
  - `Option` for a read that can fail;
  - `cleared` for whether clearing the keychain succeeded.

  `src/api/auth.ts`, `src/api/client.ts`, `src/api/notes.ts` and `src/api/settings.ts` are not part of this model.
- `Alert` dialogs and `console.error` in the pickers are left out. The register form's alert is kept as a returned value.
- `maxSizeMB` is an integer in both pickers, where the component prop is a JavaScript `number`. Fractional limits are not modelled.
- `formatFileSize` is left out because it uses floating-point `toFixed`. `base64ToUint8Array` is left out because it delegates to `atob`.
- Rendering, styling, navigation and the React Query configuration are left out, including whether a query is enabled. The screens that only guard an RPC call are left out too.
- The cancellation flag of the mount effect in the auth provider is left out, because it concerns concurrency and unmounting.
- The stored user is whatever the keychain held. `JSON.parse` returning `null` for a stored `"null"` is not modelled.
- Strings are sequences of characters:
  - lengths and `slice` count characters, not UTF-16 code units;
  - `toLowerCase` is modelled for ASCII letters only;
  - `trim` uses the ECMAScript white-space and line-terminator set.
- Time is integer milliseconds, where the source uses floating-point values:
  - `Dates.ProtoTimestampToMillis` drops the rounding of `sec * 1000 + nanos / 1_000_000` to a double before `new Date` truncates it. For example, with seconds 1700000000 and nanos 999999999 the source gives 1700000001000 and the model gives 1700000000999;
  - `new Date` gives an invalid date beyond ±8.64e15 ms, where `formatDateGroup` would return "Invalid Date". The model has no invalid dates;
  - calendar days are numbered with one fixed local offset from UTC, so daylight-saving changes are not modelled;
  - `toLocaleDateString` is the parameter `localeDate`, applied to the day number.
- `Grouping.LabelsInOrder`: groups are listed in first-insertion order. This is the order `Object.entries` uses for keys that are not array indices. No relative label is such a key, and the model assumes the locale's date rendering never is either.
- `Grouping.SortNewestFirst`: the sort is stable, like `Array.prototype.sort`, by construction. Stability is not stated as a separate contract.
- `Dates.FromMillis`: the protobuf library's `Timestamp.fromDate` is not part of this model. `FromMillis` assumes it floors the seconds and keeps a non-negative nanosecond part. For times before 1970, `Dates.MillisRoundTrip` depends on that assumption.
- `Grouping.GroupNotesByDate`: one clock reading `now` stands for every `new Date()` in the source. The source reads the clock again in each comparator call for a note without `createdAt`, and once in each `formatDateGroup` call. Readings on either side of midnight, or a clock that moves during the sort, are not modelled.
- `Errors.GetRetryDelay`: the attempt is a natural number. Negative or fractional attempts and non-finite products are not modelled.
- `Errors.ApiErrorLogCall`: context values are modelled as strings, numbers or `undefined`. Other JavaScript values a caller may pass are not modelled.
- `TagInput.AddTag`: after a tag is added, the component also clears its input box and hides the suggestion list. That view state is not modelled.
- Each groupNotesByDate copy, `src/screens/TimelineScreen.tsx:21-35` and `src/screens/SearchScreen.tsx:22-36`, is modelled by the single `Grouping.GroupNotesByDate`. The two copies are textually identical.
