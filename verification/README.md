# Desync client core in Dafny

Desync's web client is a React single-page application in front of a REST
backend. It has:

- a session shell that keeps the signed-in user and the stored JWT and
  guards every route but `/` and `/auth`;
- a small HTTP gateway that builds URLs, headers and error messages;
- pages for sign-in, the forum, threads, thread creation, administration
  and profile settings;
- three widgets: a live chat, a server-status panel and an unread-count
  badge.

This project models the logic of those pieces that decides something.
Every backend answer is a parameter: a `Reply<T>` is either the parsed body
(`Returned`) or the message of the `Error` the call threw (`Threw`). The
model then proves what the client does with each answer.

Layout: one module per source file, plus `Common` for the JavaScript
operations the views use. Those are `trim`, ASCII `toLowerCase`,
`endsWith`, `includes`, `filter` and integer-to-string.

- Pure expressions are functions with lemmas.
- Handlers that update React state are methods of a class whose fields are
  that state. Each method has `modifies` and `ensures` describing the new
  state.
- A few client methods (`Session.Bootstrap`, `AdminPanel.RankDialogSendsBadge`,
  …) run the handlers in sequence and state what a user sees at the end.

| module | source |
|---|---|
| `Common` | JavaScript built-ins used throughout |
| `Gateway` | `src/api/client.ts` |
| `Session` | `src/App.tsx` |
| `Auth` | `src/pages/Auth.tsx` |
| `CreateThread` | `src/pages/CreateThread.tsx` |
| `ThreadView` | `src/pages/ThreadView.tsx` |
| `Forum` | `src/pages/Forum.tsx` |
| `ServerStatus` | `src/components/ServerStatus.tsx` |
| `NotificationBadge` | `src/components/NotificationBadge.tsx` |
| `AdminPanel` | `src/pages/AdminPanel.tsx` |
| `ProfileSettings` | `src/pages/ProfileSettings.tsx` |
| `LiveChat` | `src/components/LiveChat.tsx` |

The code has no role hierarchy. `/admin` is guarded only by being signed in,
like every other private route. The forum's admin link is a plain badge
comparison (`Owner` or `Admin`) and is not a guard. The model follows the
code: `Session.AdminNeedsOnlySignIn` and `Forum.AdminLinkIsNotAGuard` state
it, and no ordering of badges is introduced.

The thread and reply forms pass `user.uid` as an extra argument, but
`createThread` and `createPost` (src/api/client.ts:106-116) take no author
and send only the category, title and content, or the thread id and text.
The requests in the model carry exactly what is sent. Length checks use
JavaScript's `length`, which counts UTF-16 code units (`Common.Utf16Length`).

## Model

| member | source | states |
|---|---|---|
| Common.BlankIffAllWhitespace | src/pages/CreateThread.tsx:47 | `!s.trim()` holds exactly when every character of `s` is a JavaScript whitespace or line-terminator character |
| Common.TrimStartSpec | src/pages/CreateThread.tsx:47 | trimming the start removes a whitespace prefix and stops at the first visible character |
| Common.TrimEndSpec | src/pages/CreateThread.tsx:47 | trimming the end removes a whitespace suffix and stops at the last visible character |
| Common.ToLower | src/pages/Auth.tsx:55 | lower-casing keeps the length and maps each character independently |
| Common.ToLowerIdempotent | src/pages/Forum.tsx:191 | lower-casing an already lower-cased string changes nothing |
| Common.Utf16Length | src/pages/CreateThread.tsx:52 | JavaScript's `length` counts UTF-16 code units: at least one and at most two per character |
| Common.Utf16LengthBmp | src/pages/CreateThread.tsx:52 | for text inside the Basic Multilingual Plane `length` is the number of characters |
| Common.Utf16LengthAppend | src/pages/CreateThread.tsx:52 | the length of a concatenation is the sum of the lengths |
| Common.ContainsAt | src/pages/Auth.tsx:97 | `includes` finds a string wherever it occurs |
| Common.NotContainsLonger | src/pages/Auth.tsx:97 | `includes` never finds a string longer than the one searched |
| Common.NatToString | src/components/ServerStatus.tsx:80 | the decimal text of a natural number is non-empty digits with no leading zero, one digit exactly below 10 |
| Common.NatToStringRoundTrip | src/components/ServerStatus.tsx:80 | reading back the decimal text of `n` gives `n` |
| Common.IntToString | src/components/ServerStatus.tsx:88 | `${i}` starts with '-' exactly for negative `i`, followed by the decimal text of its magnitude |
| Common.IntToStringInjective | src/components/NotificationBadge.tsx:11 | different integers print differently |
| Common.Filter | src/pages/Forum.tsx:160 | `filter` keeps only elements satisfying the predicate and never grows the list |
| Common.FilterMembership | src/pages/Forum.tsx:160 | an element is kept exactly when it occurs in the input and satisfies the predicate |
| Common.FilterAppend | src/pages/Forum.tsx:160 | filtering distributes over concatenation, so relative order is preserved |
| Common.FilterPartition | src/pages/AdminPanel.tsx:746-747 | filtering by a predicate and by its negation splits the list as a multiset, lengths adding up |
| Common.FilterHead | src/pages/Forum.tsx:166 | the first kept element is the first element of the input that satisfies the predicate |
| Gateway.AuthHeaders | src/api/client.ts:5-8 | the Authorization header is present exactly when a non-empty token is stored, with value `Bearer <token>`, and no other header is produced |
| Gateway.RequestHeaders | src/api/client.ts:15-19 | the keys are Content-Type, the auth key and the caller's keys; a caller's header always wins; otherwise Content-Type is `application/json` and Authorization is as `getAuthHeaders` gives it |
| Gateway.NormalizeUrl | src/api/client.ts:12 | the normalised URL is never longer, empty only for an empty input, and starts with the same character |
| Gateway.NormalizeDeletesOnlySlashes | src/api/client.ts:12 | normalisation only deletes '/' characters: every other character survives, in order |
| Gateway.NormalizeCollapses | src/api/client.ts:12 | after normalisation no character other than ':' is followed by two slashes |
| Gateway.NormalizeFixpoint | src/api/client.ts:12 | a URL with no collapsible run of slashes is left unchanged |
| Gateway.NormalizeIdempotent | src/api/client.ts:12 | normalising twice is normalising once |
| Gateway.SurvivorsSkipRun | src/api/client.ts:12 | after a character other than ':' and one '/', the `\/+` part of the pattern deletes the rest of the run of slashes whole |
| Gateway.NormalizeFollowsRule | src/api/client.ts:12 | from any two preceding characters that do not delete the text's first two, the left-to-right scan keeps exactly the characters the per-character rule keeps |
| Gateway.NormalizeMatchesRule | src/api/client.ts:12 | the global replace deletes exactly each '/' whose previous character is '/' and whose character before that exists and is not ':' (`Gateway.Deleted`), and keeps every other character in order |
| Gateway.NormalizeExampleRun | src/api/client.ts:12 | `a///b` becomes `a/b`: a run after a letter keeps one slash |
| Gateway.NormalizeExampleColon | src/api/client.ts:12 | `:///` becomes `://` and `x/:///` becomes `x/://`: a run after ':' keeps two slashes |
| Gateway.NormalizeExampleStart | src/api/client.ts:12 | `///` becomes `//`: a run at the start keeps two slashes |
| Gateway.ErrorMessage | src/api/client.ts:26-38 | the error of a non-ok response is never empty: a JSON body's truthy `message`, else `API Error: <status>`; for a body that is not JSON (or parses to null), the raw text, else `API Error: <status>` |
| Gateway.ErrorMessageSources | src/api/client.ts:26-38 | a failed call's message is the status message, the raw body or the server's JSON message, nothing else |
| Gateway.ApiCall | src/api/client.ts:21-41 | a rejected fetch rethrows its error; a non-ok status throws the derived message; an ok status returns the parsed body unchecked |
| Gateway.ThreadsEndpointQuery | src/api/client.ts:103-104 | the threads path gets a query exactly when a non-zero category id is given, and a positive id reads back from it |
| Gateway.FormEncode | src/api/client.ts:157-161 | a form-encoded name or value consists only of unreserved characters, '+' and percent escapes |
| Gateway.FormEncodeUnreserved | src/api/client.ts:157-161 | a string of unreserved characters is encoded unchanged |
| Gateway.FormEncodeIsolated | src/api/client.ts:157-161 | an encoded value contains no '&', '=' or '?', so a value can never inject a parameter |
| Gateway.SearchParamsString | src/api/client.ts:157-161 | the serialised parameter list is empty exactly when no parameter was appended |
| Gateway.LowerNameParam | src/api/client.ts:159-160 | a lower-case parameter name such as `status` or `type` serialises as itself |
| Gateway.ReportsEndpoint | src/api/client.ts:157-162 | `status` is sent before `type`, each only when truthy, and '?' appears exactly when at least one was sent |
| Auth.EndsWithAny | src/pages/Auth.tsx:55 | `some(endsWith)` holds exactly when one of the suffixes ends the string |
| Auth.ValidateEmail | src/pages/Auth.tsx:53-56 | an address is accepted exactly when, lower-cased, it ends with `@gmail.com`, `@hotmail.com` or `@outlook.com` |
| Auth.ValidateEmailIgnoresCase | src/pages/Auth.tsx:55 | the check gives the same answer for an address and its lower-cased form |
| Auth.ValidEmailLength | src/pages/Auth.tsx:53-56 | an accepted address has at least ten characters |
| Auth.SignInRequirements | src/pages/Auth.tsx:69-90 | a sign-in happens only for a valid address and a reply carrying `success`, the user and a non-empty token, which are what is stored and handed on |
| Auth.BannedLoginShowsReason | src/pages/Auth.tsx:75-76 | a failed login naming a banned user shows that user's reason, or `No reason provided` |
| Auth.RegisterReplyNeverBanned | src/pages/Auth.tsx:80-93 | a registration reply never opens the banned dialog |
| Auth.ConflictStatusMessage | src/api/client.ts:30 | a 409 with no message surfaces as `API Error: 409` |
| Auth.ConflictStatusNamesCode | src/pages/Auth.tsx:107 | that text contains `409` |
| Auth.ConflictStatusNotBan | src/pages/Auth.tsx:97 | that text does not contain `Account is banned` |
| Auth.ConflictWithoutMessage | src/pages/Auth.tsx:107-108 | a 409 without a message is reported as `Email or username already exists` |
| Auth.ConflictWithServerMessage | src/pages/Auth.tsx:107-112 | a 409 whose JSON body carries its own message (without "409") is reported as a network error, because the gateway replaced the status by that message |
| Auth.AuthPage.HandleSubmit | src/pages/Auth.tsx:58-115 | the request is made exactly for a valid address; the token is stored and the user handed on only on sign-in, the banned dialog opens only on a ban, and the inline error is the classified message (cleared otherwise) |
| Session.RouteElement | src/App.tsx:166-255 | `/` and `/auth` always render with no user; every other route renders its page with the current user exactly when there is one, and otherwise redirects to `/auth` with replace |
| Session.AdminNeedsOnlySignIn | src/App.tsx:180-190 | any signed-in user, whatever the badge, gets the admin page |
| Session.RouteDependsOnlyOnSignIn | src/App.tsx:166-255 | whether a route renders depends on the user only through being signed in, and public routes do not depend on it at all |
| Session.ProfileTarget | src/App.tsx:118-121 | the profile id is a non-zero `userId`, else a non-zero current uid, else 1, and never 0 |
| Session.VerifiedUser | src/App.tsx:87-90 | a verification yields a user exactly for a reply with `success` and `user` |
| Session.App.CheckStoredToken | src/App.tsx:83-101 | verification is called exactly when a token is stored; a verified user is set and the forum opened; a failed or thrown verification removes the token; loading ends false on every path |
| Session.App.HandleLogin | src/App.tsx:69-72 | the user becomes current and the forum is shown |
| Session.App.HandleLogout | src/App.tsx:74-79 | from any state, the token and the user are removed and the landing page is shown |
| Session.App.HandleBackToLanding | src/App.tsx:64-67 | the user is dropped but the stored token is kept |
| Session.App.HandleProfile | src/App.tsx:118-121 | navigates to the profile chosen by `ProfileTarget` |
| Session.Bootstrap | src/App.tsx:83-101 | after a page load, a verified token shows the forum; without one the start route is shown signed out, which for a private route is the redirect to `/auth` |
| Session.LogoutThenVisit | src/App.tsx:74-79 | after logout, whatever the prior state, the token is gone and every private route redirects to `/auth` |
| CreateThread.ValidateThread | src/pages/CreateThread.tsx:47-65 | the first failing check is reported in order (blank title, title under 5 UTF-16 code units, blank content, content under 20 code units), and none fails exactly when the form is acceptable |
| CreateThread.LengthIsUntrimmed | src/pages/CreateThread.tsx:52 | the length checks count padding: one visible character plus four spaces is a valid title |
| CreateThread.EmojiTitleLongEnough | src/pages/CreateThread.tsx:52 | three emoji outside the Basic Multilingual Plane are six code units, enough for a title |
| CreateThread.WhitespaceTitleIsMissing | src/pages/CreateThread.tsx:47-50 | a title of whitespace only is reported as missing, whatever its length |
| CreateThread.CreatedThread | src/pages/CreateThread.tsx:69-70 | `onThreadCreated` receives an id exactly for a reply with `success` and `thread` |
| CreateThread.CreatedOrError | src/pages/CreateThread.tsx:69-76 | after the request either the new thread is opened or a non-empty error is shown, never both; a throw shows the default |
| CreateThread.Form.HandleSubmit | src/pages/CreateThread.tsx:43-77 | the thread is requested exactly when the checks pass; a failed check leaves its message and no thread; otherwise the outcome is the created id or the server/default error; the request carries the category, title and content and nothing else; the form fields are untouched |
| ThreadView.CountMapKeys | src/pages/ThreadView.tsx:104-106 | the count object has exactly the emojis of the reactions object |
| ThreadView.CountMapValue | src/pages/ThreadView.tsx:104-106 | each emoji counts the users listed under it, or 0 when that is not an array |
| ThreadView.ReactionCounts | src/pages/ThreadView.tsx:160-163 | the loop over the entries computes the count object |
| ThreadView.PostReactionsContents | src/pages/ThreadView.tsx:100-109 | the reactions map has an entry for every loaded post and no other, holding the counts of that post's loaded reactions (empty when the call failed) |
| ThreadView.ReactionsMap | src/pages/ThreadView.tsx:100-109 | the loop over the reaction results builds that map |
| ThreadView.AuthorIds | src/pages/ThreadView.tsx:113-119 | the author ids are distinct, are exactly the thread's author and the post authors, and start with the thread's author |
| ThreadView.AuthorsMap | src/pages/ThreadView.tsx:121-140 | the authors map holds exactly the ids whose lookup returned a user, each mapped to that user |
| ThreadView.ValidateReply | src/pages/ThreadView.tsx:180-190 | a blank reply gives `Reply cannot be empty`, one of fewer than 10 UTF-16 code units `Reply must be at least 10 characters`, and a reply passes exactly when neither applies |
| ThreadView.ReportSubmit | src/pages/ThreadView.tsx:478-485 | a report is submitted, with reason and description as typed, exactly when the reason is not blank; otherwise the alert is shown |
| ThreadView.VisibleStartNotBlank | src/pages/ThreadView.tsx:480 | a reason starting with a visible character is not blank |
| ThreadView.OfferedReasonsAccepted | src/pages/ThreadView.tsx:487-494 | every reason the form offers is accepted |
| ThreadView.WhitespaceReasonRefused | src/pages/ThreadView.tsx:480-483 | a whitespace-only reason is refused |
| ThreadView.ThreadPage.LoadThread | src/pages/ThreadView.tsx:71-153 | a throw of the thread or posts call changes nothing; otherwise thread and posts are replaced, the reactions map is rebuilt when there are posts, and the authors map rebuilt from exactly the successful lookups when there is any author |
| ThreadView.ThreadPage.HandleReaction | src/pages/ThreadView.tsx:155-173 | only the reacted post's counts change, to those of the server's answer; an unsuccessful or thrown reply changes nothing |
| ThreadView.ThreadPage.HandleSubmitReply | src/pages/ThreadView.tsx:175-205 | the post (thread id and text, as `createPost` sends them) is requested exactly when the reply passes the checks; success clears the text and reloads; the error is the check's, the server's or the default; `isSubmitting` ends false on every path |
| Forum.ThreadsForCategory | src/pages/Forum.tsx:159-161 | the result holds exactly the threads of the category |
| Forum.ThreadsForCategoryKeepsOrder | src/pages/Forum.tsx:159-161 | the category's threads keep their relative order in the full list |
| Forum.LatestThread | src/pages/Forum.tsx:163-167 | null exactly for a category with no thread, else the first thread of that category in list order |
| Forum.FirstOfCategory | src/pages/Forum.tsx:163-167 | the head of the category's list is its first thread in the full list |
| Forum.MessageTotalAtLeastCount | src/pages/Forum.tsx:254 | with non-negative reply counts, a category's total is at least its number of threads |
| Forum.MessageTotalAppend | src/pages/Forum.tsx:254 | the total over two pieces of the list is the sum of their totals |
| Forum.ToggleCategory | src/pages/Forum.tsx:186-188 | the selection becomes empty exactly when the clicked category was selected, and is the clicked one otherwise |
| Forum.ToggleTwice | src/pages/Forum.tsx:186-188 | two clicks on the same category from no selection return to no selection |
| Forum.FilteredThreads | src/pages/Forum.tsx:190-192 | an empty query keeps all threads; otherwise exactly the threads whose lower-cased title contains the lower-cased query |
| Forum.SearchIgnoresQueryCase | src/pages/Forum.tsx:190-192 | the result does not depend on the query's letter case |
| Forum.NonBannedMembers | src/pages/Forum.tsx:149-151 | the online list holds exactly the users that are not banned |
| Forum.RelativeTime | src/pages/Forum.tsx:173-184 | under a minute `Just now`, under an hour whole minutes (1–59), under a day whole hours (1–23), and the absolute date exactly from a day on |
| Forum.RelativeTimeMinutes | src/pages/Forum.tsx:177-181 | between n and n + 1 whole minutes ago, for n from 1 to 59, the page prints `n minute(s) ago` |
| Forum.RelativeTimeHours | src/pages/Forum.tsx:178-182 | between n and n + 1 whole hours ago, for n from 1 to 23, the page prints `n hour(s) ago` |
| Forum.AgoPlural | src/pages/Forum.tsx:181-182 | the unit is plural exactly when the count exceeds one |
| Forum.AdminLinkIsNotAGuard | src/pages/Forum.tsx:209 | a `Member` sees no admin link yet still reaches `/admin` |
| Forum.ForumPage.LoadData | src/pages/Forum.tsx:136-157 | a load in progress makes it return at once; otherwise the threads path is the selected category's, the three lists are replaced (online users without banned ones) only when all three calls returned, and loading ends false |
| Forum.ForumPage.HandleCategoryClick | src/pages/Forum.tsx:186-188 | the selection is toggled; the frame allows no other field to change |
| Forum.ForumPage.SendChatMessage | src/pages/Forum.tsx:112-126 | a blank input is ignored; otherwise the line is appended with id = previous length + 1, an id no earlier line has, and the input cleared, so ids stay sequential; only the chat list and input may change |
| ServerStatus.DurationHoursMinutes | src/components/ServerStatus.tsx:83-89 | from one hour on, the text is the whole hours and the leftover minutes (under 60) |
| ServerStatus.DurationMinutesOnly | src/components/ServerStatus.tsx:83-89 | below one hour, the text is the whole minutes alone, `0m` for zero and for less than a minute |
| ServerStatus.DurationNegative | src/components/ServerStatus.tsx:83-89 | a negative duration prints a negative minute count |
| ServerStatus.FormatPing | src/components/ServerStatus.tsx:78-81 | `N/A` exactly for a negative ping |
| ServerStatus.PingReadsBack | src/components/ServerStatus.tsx:78-81 | a shown ping is its digits followed by `ms`, and the digits read back as the ping |
| ServerStatus.StatusColor | src/components/ServerStatus.tsx:72-76 | green exactly from 80, yellow exactly from 50 below 80, red exactly below 50 |
| ServerStatus.StatusColorMonotone | src/components/ServerStatus.tsx:72-76 | a higher rate never shows a less healthy colour |
| ServerStatus.Fetched | src/components/ServerStatus.tsx:44-46 | data is delivered exactly by a reply with `success` and `server` |
| ServerStatus.Widget.FetchServerStatus | src/components/ServerStatus.tsx:37-61 | success shows the new data and time and clears the error; a failure keeps the data and time shown before and records the error; loading ends false |
| ServerStatus.RefreshFailureKeepsData | src/components/ServerStatus.tsx:51-60 | after a success, a failed refresh leaves the first data and time on screen beside the error |
| NotificationBadge.BadgeText | src/components/NotificationBadge.tsx:8-16 | the badge renders nothing exactly for a zero count |
| NotificationBadge.BadgeCapped | src/components/NotificationBadge.tsx:11 | every count above 99 shows `99+` |
| NotificationBadge.BadgeShowsSmallCount | src/components/NotificationBadge.tsx:11-14 | a count from 1 to 99 is shown as one or two digits that read back as the count |
| NotificationBadge.BadgeShowsNegative | src/components/NotificationBadge.tsx:9-11 | a negative count is shown with its minus sign and its magnitude |
| NotificationBadge.BadgeTextsDistinct | src/components/NotificationBadge.tsx:9-14 | below the cap, equal badge texts mean equal counts |
| AdminPanel.BannedOnlyMembers | src/pages/AdminPanel.tsx:146-150 | the banned list holds exactly the banned users |
| AdminPanel.BannedAndOnlineSplitUsers | src/pages/AdminPanel.tsx:149 | the admin's banned list and the forum's online list together hold every user exactly once |
| AdminPanel.ReportsPartition | src/pages/AdminPanel.tsx:746-747 | pending and reviewed reports partition the list: nothing missing, nothing in both |
| AdminPanel.ReviewedShown | src/pages/AdminPanel.tsx:802 | the reviewed section shows the first reviewed reports, at most ten |
| AdminPanel.LoadedEvents | src/pages/AdminPanel.tsx:163-195 | the events are the backend's when it returned a non-empty list, otherwise exactly one active `Invite Wave` event |
| AdminPanel.InsertPermutes | src/pages/AdminPanel.tsx:945 | inserting an event adds exactly that event |
| AdminPanel.InsertKeepsOrder | src/pages/AdminPanel.tsx:945 | inserting into a newest-first list keeps it newest first |
| AdminPanel.SortSpec | src/pages/AdminPanel.tsx:945 | the sort yields a newest-first permutation of its input |
| AdminPanel.EventHistorySpec | src/pages/AdminPanel.tsx:940-945 | the history is newest first and holds exactly the executed events, as often as they occur, so its length is the executed count |
| AdminPanel.Clicked | src/pages/AdminPanel.tsx:868-887 | a disabled button (minus at ≤ 1, plus at ≥ 10) leaves the amount; otherwise minus decrements and plus increments |
| AdminPanel.AmountStaysInRange | src/pages/AdminPanel.tsx:868-887 | from any amount in 1..10, no sequence of clicks leaves that range |
| AdminPanel.ExpiresAt | src/pages/AdminPanel.tsx:204 | the expiry text has the date, the time and nine fixed characters |
| AdminPanel.ExpiresAtParts | src/pages/AdminPanel.tsx:204 | the date and the time read back from the expiry text, separated by `T` and followed by `:00.000Z` |
| AdminPanel.Panel.LoadData | src/pages/AdminPanel.tsx:100-161 | a load in progress makes it return at once; otherwise only the active tab's data is replaced, when its calls returned, and loading ends false |
| AdminPanel.Panel.ClickAmount | src/pages/AdminPanel.tsx:868-887 | a click sets the amount as `Clicked` says; the frame allows no other field to change |
| AdminPanel.Panel.HandleGenerateCode | src/pages/AdminPanel.tsx:197-212 | a code is requested exactly when an expiry date is set, with that date and time; success reloads the overview, failure does not |
| AdminPanel.Panel.HandleBanUser | src/pages/AdminPanel.tsx:214-217 | the ban dialog opens for that user; only the selected user and the dialog flag may change |
| AdminPanel.Panel.HandleConfirmBan | src/pages/AdminPanel.tsx:219-236 | a ban is sent exactly with a selected user and a non-blank reason (sent untrimmed); success closes the dialog and clears user and reason, failure leaves them; no other field may change |
| AdminPanel.Panel.HandleChangeRank | src/pages/AdminPanel.tsx:249-253 | the rank dialog opens for that user, preset to their badge; no other field may change |
| AdminPanel.Panel.HandleConfirmRankChange | src/pages/AdminPanel.tsx:255-272 | a rank change is sent exactly with a selected user and a non-empty rank; success closes the dialog and clears both, failure leaves them; no other field may change |
| AdminPanel.RankDialogSendsBadge | src/pages/AdminPanel.tsx:249-259 | opening the rank dialog and confirming at once sends the user's own badge, if it is not empty |
| ProfileSettings.OwnershipAfterRecord | src/pages/ProfileSettings.tsx:139-141 | one more purchase makes a product owned exactly when it is a completed purchase of it; other products are unaffected |
| ProfileSettings.OnlyCompletedOwns | src/pages/ProfileSettings.tsx:139-141 | pending or failed purchases own nothing |
| ProfileSettings.CardButtonFor | src/pages/ProfileSettings.tsx:347-377 | a card shows OWNED exactly when the product was purchased |
| ProfileSettings.KindCountsSum | src/pages/ProfileSettings.tsx:453-466 | invites, rewards and badges add up to the total number of items |
| ProfileSettings.LoadedList | src/pages/ProfileSettings.tsx:81-100 | a non-empty list comes only from a successful reply that carried it, and a successful reply that carries a list yields exactly that list |
| ProfileSettings.Page.LoadData | src/pages/ProfileSettings.tsx:70-107 | each list depends only on its own reply; an exception outside the per-call handlers empties all three |
| ProfileSettings.Page.HandleBuyClick | src/pages/ProfileSettings.tsx:109-113 | the dialog opens for the product with no payment method chosen |
| ProfileSettings.Page.HandleCompletePurchase | src/pages/ProfileSettings.tsx:115-137 | without product or payment method only the alert is shown; otherwise the purchase is requested, `processing` ends false, and only a purchase that went through closes the dialog |
| ProfileSettings.BuyThenConfirmAtOnce | src/pages/ProfileSettings.tsx:109-119 | confirming right after opening the dialog only alerts, because opening clears the payment method |
| LiveChat.UidSetMembers | src/components/LiveChat.tsx:133 | the set holds exactly the ids of the messages' authors |
| LiveChat.UidSetSize | src/components/LiveChat.tsx:133 | there are no more distinct users than messages, and at least one when there is a message |
| LiveChat.UsersCount | src/components/LiveChat.tsx:133 | the header reads `No users` exactly when there are no messages |
| LiveChat.UsersCountNamesUsers | src/components/LiveChat.tsx:133 | with messages, the header is the number of distinct authors followed by ` online` |
| LiveChat.OwnMessageCounted | src/components/LiveChat.tsx:143 | a viewer with an own message on screen is among the users counted |
| LiveChat.BadgeColor | src/components/LiveChat.tsx:109-119 | a badge in the table gets its colour, any other the default gray |
| LiveChat.UnknownBadgeLooksLikeMember | src/components/LiveChat.tsx:109-119 | a badge outside the table, such as `Support`, is coloured like `Member` |
| LiveChat.TableColoursDistinct | src/components/LiveChat.tsx:110-117 | different badges of the table have different colours |
| LiveChat.ChatBox.LoadMessages | src/components/LiveChat.tsx:62-77 | the list is replaced exactly by a reply with `success` |
| LiveChat.ChatBox.SendMessage | src/components/LiveChat.tsx:79-107 | a blank input or a send in flight changes nothing; otherwise the text is posted as typed, success clears it and reloads, and loading ends false |
| LiveChat.ResendAfterSuccessIgnored | src/components/LiveChat.tsx:79-107 | after a successful send, sending again without typing posts nothing |

## Left out

- Network I/O: `fetch`, `response.json()`, `response.text()` and the
  `Promise.all` fan-outs are not modelled. What each call answered (or the
  message it threw) is a parameter, and concurrent calls are modelled as all
  answered.
- `JSON.parse` is abstracted. For the gateway it is "not JSON / null / a
  value with an optional `message`". For the ban details in the sign-in page
  it is "unparsable / parsed with an optional reason"; the
  `split(' - ')` that selects the text is not modelled.
- Timers: LiveChat's and ServerStatus's five-second polling, and the
  two-second `setTimeout` before a purchase, are not modelled. Each handler
  is run once, to completion. Interleavings and out-of-order responses are
  not modelled.
- ServerStatus.Widget.FetchServerStatus: the polling callback's stale closure
  over `serverData` is not modelled. A thrown value that is not an `Error`
  (message `Failed to fetch server data`) is not modelled either, since every
  error the gateway raises is an `Error`.
- Dates: `new Date`, `toISOString`, `toLocaleDateString` and
  `toLocaleTimeString` are not modelled. Times are integers, and
  `Forum.RelativeTime` returns `None` where the page prints a locale date.
  `AdminPanel.SortNewestFirst` orders by `executedAt` as an integer.
- Floating point: ping, status rate, durations, prices and the `toFixed`
  display are integers or left out.
- `parseInt` of the `:threadId` segment in `ThreadRoute`: the route keeps
  that segment as text.
- React lifecycle and presentation: `ErrorBoundary`, `useEffect` wiring, JSX,
  CSS and the navigation-only handlers (`handleGetDesync`, `handleAdminPanel`,
  `handleForum`, `handleThread`, …) are not modelled.
- The pages `UserProfile`, `Landing` and `Dashboard`, the `LoadingSpinner`
  component and the Vite configuration are not part of this model.
- `handleInviteWave` (src/pages/AdminPanel.tsx:285-307) refers to an
  undefined variable and cannot run as written. It is not modelled.
- `loadEventsData` is never called by the page. Its effect is modelled as
  `AdminPanel.LoadedEvents`, and `Panel.LoadData` leaves events untouched on
  the events tab, as the code does.
- The other administration handlers (`handleUnbanUser`,
  `handleUpdateReport`), the thread page's `submitReport` and category
  lookup, and the profile page's profile and security handlers are not
  modelled. They only forward input to the backend and alert.
- ProfileSettings.Page.HandleCompletePurchase: the purchases list is not
  updated. The source stores the whole refresh response object in
  `purchases` (src/pages/ProfileSettings.tsx:127-128), which is not a list.
  The model keeps the list as it was and records only that the refresh was
  requested.
- ProfileSettings.Page.LoadData: the outer `catch` is modelled by a `crashed`
  flag. What could throw there is not modelled.
- Forum.ForumPage.SendChatMessage requires the chat ids to be sequential.
  The page keeps that invariant from its two canned lines onward, and the
  constructor establishes it.
- Common.ToLower lower-cases ASCII letters only. Unicode case mapping is not
  modelled.
- Gateway.RequestHeaders treats header names as case-sensitive keys, as the
  object spread does. The `fetch` layer's case-insensitive merging is not
  modelled.
- LiveChat.BadgeColor: keys inherited from JavaScript's object prototype
  (e.g. `constructor`) are not modelled. The table is a plain map.
- LiveChat's own hard-coded `fetch` URL and headers bypass the gateway and
  are not modelled. Only the `success` flag of each reply is read.
- Unknown URLs (no matching route) are not in the route type.
