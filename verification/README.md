# VoiceUp: a verified model of the civic-issue reporting core

VoiceUp lets citizens report local problems (roads, waste, safety, lighting), upvote
and comment on reports, and lets admins change report status and manage users. This
project models its decision and bookkeeping logic in Dafny:

- **Server.** The REST handlers for reports (create, list, get, upvote toggle, comment,
  status change), users (listing, role and ban updates), authentication (register,
  login) and statistics, together with the authentication middleware. The relational
  store becomes one in-memory value, `Store.Tables`:
  - a user table, a report table and a comment table;
  - a set of (report id, user id) upvote pairs;
  - a counter that fresh ids are drawn from.
- **Handlers.** Each handler that writes (create report, upvote toggle, comment,
  status, role, ban, register) is a specification function from the store to the store
  afterwards and the HTTP reply (`Outcome`). It has a method partner that performs the
  same steps in place on a `Store.Database` object and is proved equal to it. The
  read-only handlers (`ReportRoutes.ListReports`, `ReportRoutes.GetReport`,
  `AuthRoutes.Login`) are functions from the store to the reply alone, and
  `Stats.GetStats` is a method over the report table. A lemma shows each writing
  handler keeps the store's invariant `Store.Inv`:
  - ids are unique, and so are e-mail addresses;
  - every reference names an existing row;
  - every report's `upvotes` counter equals the number of its upvote pairs.
- **Client.** The state kept by the admin report list (multi-selection, filters, bulk
  actions), the report wizard (step counter, submission guard), the feed (filters and
  text search), the session provider, and the route guard.
- **Shared vocabulary.** The Role, Category and Status enumerations, their wire names,
  and the label and colour records.

Outside inputs are parameters:
- the current time is `now`, and the start of today is `startOfToday`;
- token verification is a keyring, mapping each token that verifies to its claims;
- the server's answer to a client request is `Option`, with `None` when the request failed.

Module layout follows the program:

| file | module | models |
|---|---|---|
| common.dfy | Common | Option/Response, filter, first index, take |
| text.dfy | Text | ASCII lower-casing, substring search, `replace` |
| sorting.dfy | Sorting | descending order by a key (`orderBy … 'desc'`) |
| types.dfy | Types | shared/src/types.ts |
| store.dfy | Store | the tables, their invariant, the `Database` object |
| middleware.dfy | AuthMiddleware | server/src/middleware/auth.ts |
| reports.dfy | ReportRoutes | server/src/routes/reports.ts |
| users.dfy | UserRoutes | server/src/routes/users.ts |
| auth.dfy | AuthRoutes | server/src/routes/auth.ts |
| stats.dfy | Stats | server/src/routes/stats.ts |
| admin_reports.dfy | AdminReports | client/src/pages/admin/Reports.tsx |
| report_page.dfy | ReportPage | client/src/pages/ReportPage.tsx |
| feed_page.dfy | FeedPage | client/src/pages/FeedPage.tsx |
| auth_context.dfy | AuthContext | client/src/contexts/AuthContext.tsx |
| app.dfy | App | client/src/App.tsx |

## Model

| member | source | states |
|---|---|---|
| Types.EnumerationsAreComplete | shared/src/types.ts:3-20 | Role has exactly CITIZEN and ADMIN, Category exactly its five members, Status exactly its three, each listed once |
| Types.ParseRole | shared/src/types.ts:3-6 | a string names a Role exactly when it is that Role's wire value |
| Types.ParseCategory | shared/src/types.ts:8-14 | a string names a Category exactly when it is that Category's wire value |
| Types.ParseStatus | shared/src/types.ts:16-20 | a string names a Status exactly when it is that Status's wire value |
| Types.WireNamesAreNonEmpty | shared/src/types.ts:3-20 | no enumeration value is the empty (falsy) string |
| Types.LookupRecordsAreTotal | shared/src/types.ts:144-170 | category labels and colours, status labels and colours exist for every member; category labels are pairwise distinct |
| Common.Filter | client/src/pages/FeedPage.tsx:43 | every element satisfying the predicate occurs in the result exactly as often as in the input, and no other element occurs |
| Common.FilterIsSubsequence | client/src/pages/FeedPage.tsx:43 | a filter keeps the input's order (its result is a subsequence) |
| Common.FilterIdempotent | client/src/pages/FeedPage.tsx:43-46 | filtering a filter's result again by the same predicate changes nothing |
| Common.Take | server/src/routes/stats.ts:34 | `take: n` gives the first n rows, or all rows when there are fewer |
| Text.Lower | client/src/pages/FeedPage.tsx:44-45 | lower-casing keeps the length and maps each character to its lower-case form |
| Text.LowerIdempotent | client/src/pages/FeedPage.tsx:44-45 | lower-casing twice is lower-casing once |
| Text.EmptySearchMatchesEverything | client/src/pages/FeedPage.tsx:43-46 | the empty search text matches every title and description |
| Text.SearchIgnoresCaseOfQuery | server/src/routes/reports.ts:65-70 | the case-insensitive search gives the same answer for a search text and its lower-cased form |
| Text.ReplaceFirstAtStart | server/src/middleware/auth.ts:15 | replacing the first occurrence of a prefix removes exactly that prefix |
| Text.ReplaceFirstAbsent | server/src/middleware/auth.ts:15 | a string without the pattern is returned unchanged |
| Sorting.SortDescCorrect | server/src/routes/reports.ts:72-75 | the descending sort returns a permutation of its input with keys in non-increasing order |
| Store.HashAcceptsOnlyItsPassword | server/src/routes/auth.ts:26 | a stored bcrypt hash accepts its own password, and any other exactly when the two agree on bcrypt's first 72 input characters; between passwords of at most 72 characters, only its own |
| Store.LongPasswordsShareAHash | server/src/routes/auth.ts:76 | two different passwords sharing their first 72 characters both unlock the hash of either |
| Store.FindUser | server/src/middleware/auth.ts:24-27 | `findUnique` by id returns a row with that id, and nothing exactly when no row has it |
| Store.FindUserByEmail | server/src/routes/auth.ts:20 | `findUnique` by e-mail returns a row with that address, and nothing exactly when no row has it |
| Store.FindReport | server/src/routes/reports.ts:127-161 | `findUnique` by id on reports returns a row with that id, and nothing exactly when none has it |
| Store.EmptyStoreIsValid | server/src/routes/reports.ts:14 | the empty store satisfies the invariant (counters equal pair counts, unique ids and e-mails, references resolve) |
| Store.VotersAfterAdd | server/src/routes/reports.ts:204-206 | adding pair (r, u) adds u to the voters of r and changes no other report's voters |
| Store.VotersAfterRemove | server/src/routes/reports.ts:194-196 | removing pair (r, u) removes u from the voters of r and changes no other report's voters |
| Store.Database.constructor | server/src/routes/reports.ts:14 | a new store is empty and satisfies the invariant |
| AuthMiddleware.BearerHeaderYieldsToken | server/src/middleware/auth.ts:15 | a header `Bearer <t>` yields exactly `t` |
| AuthMiddleware.HeaderWithoutPrefixIsTheToken | server/src/middleware/auth.ts:15 | a header without `Bearer ` is taken whole as the token |
| AuthMiddleware.Authenticate | server/src/middleware/auth.ts:13-40 | 401 "Authentication required" without a token, 401 "Invalid token" for a token that does not verify, 403 only for a user whose row is banned (a missing row passes), otherwise the token's claims pass |
| AuthMiddleware.OptionalAuth | server/src/middleware/auth.ts:42-57 | an identity exactly when a non-empty token verifies, namely its claims; never a refusal and no ban check |
| AuthMiddleware.RequireAdmin | server/src/middleware/auth.ts:59-64 | passes exactly when the request's role is ADMIN, otherwise 403 "Admin access required" |
| AuthMiddleware.AuthenticateAdmin | server/src/routes/reports.ts:254 | the chained admin gate passes exactly when `authenticate` passes with the ADMIN role |
| AuthMiddleware.TokenRoleOutlivesRoleChange | server/src/middleware/auth.ts:33-34 | the role that counts is the token's: an ADMIN token passes the admin gate although the user's row now says CITIZEN |
| AuthMiddleware.AuthRequest.constructor | server/src/middleware/auth.ts:8-11 | a fresh request carries no identity |
| AuthMiddleware.AuthRequest.ApplyAuthenticate | server/src/middleware/auth.ts:13-40 | returns `Authenticate`'s decision; on a pass `userId`/`userRole` are the token's claims, on a refusal they are untouched |
| AuthMiddleware.AuthRequest.ApplyOptionalAuth | server/src/middleware/auth.ts:42-57 | sets `userId`/`userRole` to the claims of a verifying token, leaves them untouched otherwise |
| ReportRoutes.CreateReportSpec | server/src/routes/reports.ts:17-55 | 400 "Missing required fields" with no change when title, description or category is empty or lat or lng is 0; otherwise success exactly when the category is valid and the owner exists; 201 with one appended report: anonymous is (request flag = true), no owner when anonymous or unauthenticated, title, description, category, position, address, image and audio as sent, status NEW, 0 upvotes, not archived, created and updated at `now` |
| ReportRoutes.CreateReportKeepsInv | server/src/routes/reports.ts:25-48 | creating a report keeps the store invariant (the new report has no upvote pairs) |
| ReportRoutes.CreateReport | server/src/routes/reports.ts:17-55 | the in-place handler yields exactly `CreateReportSpec`'s store and reply and keeps the invariant |
| ReportRoutes.BuildWhere | server/src/routes/reports.ts:60-70 | a filter exists exactly when a given category and status are valid members; each is used only when non-empty and is the member named; the search only when non-empty |
| ReportRoutes.WithUpvoteFlags | server/src/routes/reports.ts:110-115 | each listed report keeps its row, and `hasUpvoted` holds exactly when the caller is signed in and owns an upvote pair for it |
| ReportRoutes.ListReportsCorrect | server/src/routes/reports.ts:58-122 | 500 exactly for an invalid category or status; otherwise the reply is a permutation of the matching rows (exact category and status, case-insensitive search in title or description), ordered by upvotes descending for `sortBy=upvotes` and by creation time descending otherwise, with the `hasUpvoted` flags |
| ReportRoutes.GetReport | server/src/routes/reports.ts:125-174 | 404 "Report not found" exactly for an unknown id; otherwise the row with that id and its `hasUpvoted` flag |
| ReportRoutes.AdjustUpvotes | server/src/routes/reports.ts:197-200 | only the counter of the rows with the given id moves, by the given amount |
| ReportRoutes.AdjustUpvotesCancel | server/src/routes/reports.ts:197-210 | an increment followed by a decrement (or the reverse) restores the report table |
| ReportRoutes.ToggleUpvoteSpec | server/src/routes/reports.ts:177-217 | an existing pair is removed with reply upvoted=false and a missing one added with upvoted=true; the counter moves by −1/+1 on that report only; users, comments and ids are untouched; on a consistent store success is exactly "pair exists, or report and user exist", and a 500 "Failed to upvote" changes nothing |
| ReportRoutes.CountersOnlyKeepInv | server/src/routes/reports.ts:183-211 | changing only counters and pairs keeps the invariant when every counter matches the new pairs |
| ReportRoutes.WithdrawUpvoteKeepsInv | server/src/routes/reports.ts:192-201 | removing an existing pair and decrementing keeps counter = number of pairs |
| ReportRoutes.CastUpvoteKeepsInv | server/src/routes/reports.ts:202-211 | adding a new pair for an existing report and user and incrementing keeps counter = number of pairs |
| ReportRoutes.ToggleUpvoteKeepsInv | server/src/routes/reports.ts:182-212 | every toggle keeps the invariant: counter = number of pairs, at most one pair per (report, user) |
| ReportRoutes.ToggleUpvoteTwiceRestores | server/src/routes/reports.ts:182-212 | two toggles by the same user on the same report restore the whole store, and the second reply is the opposite of the first |
| ReportRoutes.ToggleAtRow | server/src/routes/reports.ts:183-211 | on a consistent store, with the report found at row i, a toggle flips the pair and moves that row's counter by one, replying whether the pair is now present |
| ReportRoutes.ToggleUpvote | server/src/routes/reports.ts:177-217 | the in-place toggle yields exactly `ToggleUpvoteSpec`'s store and reply and keeps the invariant |
| ReportRoutes.AddCommentSpec | server/src/routes/reports.ts:220-251 | 400 "Comment text required" only for empty text (blank text is accepted); success exactly when report and user exist, adding one comment with that text, report and caller, replied with 201; any failure changes nothing |
| ReportRoutes.AddCommentKeepsInv | server/src/routes/reports.ts:228-233 | adding a comment keeps the invariant |
| ReportRoutes.AddComment | server/src/routes/reports.ts:220-251 | the in-place handler yields exactly `AddCommentSpec`'s store and reply and keeps the invariant |
| ReportRoutes.WithStatus | server/src/routes/reports.ts:262-264 | only the status of the rows with the given id changes |
| ReportRoutes.UpdateStatusSpec | server/src/routes/reports.ts:254-282 | 400 "Invalid status" unless NEW/IN_PROGRESS/RESOLVED; an unknown report gives 500 "Failed to update status" with no change; success sets only that report's status and replies 200 with the updated row itself |
| ReportRoutes.UpdateStatusKeepsInv | server/src/routes/reports.ts:262-264 | a status change keeps the invariant |
| ReportRoutes.UpdateStatus | server/src/routes/reports.ts:254-282 | the in-place handler yields exactly `UpdateStatusSpec`'s store and reply and keeps the invariant |
| ReportRoutes.StatusRoute | server/src/routes/reports.ts:254 | a status change succeeds only past the admin gate; a refusal at the gate changes nothing |
| ReportRoutes.CitizenCannotChangeStatus | server/src/routes/reports.ts:254 | a request carrying a CITIZEN token never changes the store and always fails |
| UserRoutes.AdminView | server/src/routes/users.ts:54-60 | the admin reply shows id, e-mail, role, ban flag and creation time of the row, never the password |
| UserRoutes.SummariseAll | server/src/routes/users.ts:12-28 | each listed user carries the number of reports it owns, comments it wrote and upvotes it cast |
| UserRoutes.ListUsersCorrect | server/src/routes/users.ts:10-35 | the listing has every user, newest account first, each with its ban flag |
| UserRoutes.UpdateRoleSpec | server/src/routes/users.ts:38-68 | 400 "Invalid role" unless CITIZEN/ADMIN, then 400 "Cannot change your own role" for the caller's own id, then 500 for an unknown user with no change; success sets only that user's role and replies 200 with the admin view (id, e-mail, role, ban flag, creation time) of the updated row |
| UserRoutes.UserFieldsOnlyKeepInv | server/src/routes/users.ts:51-61 | rewriting user rows without changing ids or e-mails keeps the invariant |
| UserRoutes.UpdateRoleKeepsInv | server/src/routes/users.ts:51-61 | a role change keeps the invariant |
| UserRoutes.OwnRoleNeverChanges | server/src/routes/users.ts:47-49 | an admin's request on their own id never changes the store and is a 400 |
| UserRoutes.UpdateBanSpec | server/src/routes/users.ts:71-101 | 400 "Invalid ban status" for a non-boolean, then 400 "Cannot ban yourself", then 500 for an unknown user with no change; success sets that user's ban flag to exactly the value given and replies 200 with the admin view of the updated row |
| UserRoutes.UpdateBanKeepsInv | server/src/routes/users.ts:84-94 | a ban change keeps the invariant |
| UserRoutes.UpdateBanIdempotent | server/src/routes/users.ts:84-87 | repeating a ban update changes nothing more, and gives the same reply |
| UserRoutes.UpdateBanChangesOnlyTheFlag | server/src/routes/users.ts:84-87 | a successful ban update changes the target's ban flag and no other field or user |
| UserRoutes.UpdateRole | server/src/routes/users.ts:38-68 | the in-place handler yields exactly `UpdateRoleSpec`'s store and reply and keeps the invariant |
| UserRoutes.UpdateBan | server/src/routes/users.ts:71-101 | the in-place handler yields exactly `UpdateBanSpec`'s store and reply and keeps the invariant |
| AuthRoutes.SessionFor | server/src/routes/auth.ts:37-51 | the token claims are the user's id and role, and the reply's user has no password and no ban flag |
| AuthRoutes.RegisterSpec | server/src/routes/auth.ts:11-58 | 400 "Email and password required" for an empty field, 400 "Email already registered" for a used address, both with no change; otherwise exactly one CITIZEN user is added, with that address and the hash of the password, replied with 201 |
| AuthRoutes.RegisterKeepsInv | server/src/routes/auth.ts:20-34 | registration keeps the invariant, so e-mail addresses stay unique |
| AuthRoutes.Register | server/src/routes/auth.ts:11-58 | the in-place handler yields exactly `RegisterSpec`'s store and reply and keeps the invariant |
| AuthRoutes.Login | server/src/routes/auth.ts:61-103 | 400 for an empty field; every other failure is the same 401 "Invalid credentials"; success exactly when the first user with the address has a hash accepting the password, replying that user's session |
| AuthRoutes.LoginSucceedsIffPasswordMatches | server/src/routes/auth.ts:70-79 | on a consistent store, login for a registered address succeeds exactly when that user's hash accepts the password |
| AuthRoutes.LoginFailuresLookAlike | server/src/routes/auth.ts:70-79 | an unknown address and a wrong password get identical replies |
| AuthRoutes.RegisterThenLogin | server/src/routes/auth.ts:11-103 | right after registering, logging in with the same credentials succeeds with the same session |
| Stats.CountWhere | server/src/routes/stats.ts:11 | a count never exceeds the number of rows |
| Stats.CountMonotone | server/src/routes/stats.ts:16-21 | counting under a stronger condition gives no more rows |
| Stats.CountSplit | server/src/routes/stats.ts:24-28 | two conditions that split every row split the count |
| Stats.CountsAgree | server/src/routes/stats.ts:14-28 | active issues plus resolved reports make up the total, and resolved-today never exceeds resolved |
| Stats.ResolutionSample | server/src/routes/stats.ts:31-35 | the sample holds at most 100 resolved reports from the table, and is empty exactly when none is resolved |
| Stats.AvgResolutionTimeBounds | server/src/routes/stats.ts:37-44 | the average is 0 when no report is resolved, and non-negative when no report was updated before it was created |
| Stats.CategoryCountsSum | server/src/routes/stats.ts:47-62 | the per-category counts add up to the number of reports |
| Stats.CategoryGroups | server/src/routes/stats.ts:55-58 | each group is a category with its positive count, and every category with reports has a group |
| Stats.ByCategory | server/src/routes/stats.ts:47-62 | the record has every category, holding that category's count (0 when it has none), and its values sum to the total |
| Stats.RecentActivityCorrect | server/src/routes/stats.ts:65-78 | at most 10 reports (fewer only when fewer exist), newest first, all from the table, and no report left out is newer than one shown |
| Stats.GetStats | server/src/routes/stats.ts:8-94 | the reply's total, active, resolved-today, average, per-category and recent fields are those counts, with active + resolved = total and per-category summing to total |
| AdminReports.LoadedIdsCount | client/src/pages/admin/Reports.tsx:97 | distinct report ids give as many ids as reports |
| AdminReports.Toggle | client/src/pages/admin/Reports.tsx:83-91 | toggling adds the id if absent, removes it if present, and leaves every other id as it was |
| AdminReports.ToggleTwiceRestores | client/src/pages/admin/Reports.tsx:83-91 | toggling the same id twice restores the selection |
| AdminReports.BuildFilters | client/src/pages/admin/Reports.tsx:38-40 | the filter object holds the status only when one is chosen, and `includeArchived='true'` only when archived reports are shown |
| AdminReports.ArchivedSwitchNeverReachesServer | client/src/lib/api.ts:64-72 | the query `api.getReports` makes of the admin filters is the same whatever the archived switch says; the server accepts it, filtering by the chosen status only, never by upvotes |
| AdminReports.SetToSeq | client/src/pages/admin/Reports.tsx:108 | the array holds every selected id exactly once and nothing else |
| AdminReports.AdminReportsPage.constructor | client/src/pages/admin/Reports.tsx:23-29 | the page starts with no reports, loading, filter 'all', empty selection, archived hidden, no bulk action |
| AdminReports.AdminReportsPage.LoadReports | client/src/pages/admin/Reports.tsx:35-50 | passes the built filters to the API client; a loaded list replaces the reports and clears the selection, a failed load keeps both; loading ends |
| AdminReports.AdminReportsPage.ToggleReportSelection | client/src/pages/admin/Reports.tsx:83-91 | the selection becomes its toggle by the id; nothing else changes; a listed id keeps the selection among the loaded ids |
| AdminReports.AdminReportsPage.ToggleSelectAll | client/src/pages/admin/Reports.tsx:93-99 | clears a selection as large as the list (so a checked select-all box clears it), otherwise selects exactly the loaded ids, which checks the box when the ids are distinct and there is a report |
| AdminReports.AdminReportsPage.HandleBulkAction | client/src/pages/admin/Reports.tsx:101-116 | as the component is written: an empty selection requests nothing; otherwise requests the action for each selected id once, and closes the dialog on success (the reload that follows is a separate `LoadReports` call) |
| AdminReports.SelectAllCheckedMeansAllSelected | client/src/pages/admin/Reports.tsx:219 | with distinct ids and the selection among them, the select-all box is checked exactly when every loaded report is selected and there is one |
| ReportPage.NextStep | client/src/pages/ReportPage.tsx:189-191 | one step forward before Review, no move at Review |
| ReportPage.PrevStep | client/src/pages/ReportPage.tsx:193-195 | one step back after Location, no move at Location |
| ReportPage.StepMovesStayInRange | client/src/pages/ReportPage.tsx:22 | both moves keep the step within 0..3, and Next then Prev (or Prev then Next) returns to the same step |
| ReportPage.WalkStaysInRange | client/src/pages/ReportPage.tsx:27 | from step 0 (or any step in range), every sequence of moves stays within 0..3 |
| ReportPage.Icon | client/src/pages/ReportPage.tsx:447-456 | every category has a non-empty icon |
| ReportPage.IconsAreDistinct | client/src/pages/ReportPage.tsx:447-456 | different categories have different icons |
| ReportPage.ReportWizard.constructor | client/src/pages/ReportPage.tsx:27-39 | the wizard opens at the first step with the default position and an empty form |
| ReportPage.ReportWizard.Next | client/src/pages/ReportPage.tsx:189-191 | the step becomes `NextStep` of the old step and stays in range: one forward while the Next button shows, none once Submit shows, and Submit shows afterwards exactly from the Details step on; every form field is untouched |
| ReportPage.ReportWizard.Prev | client/src/pages/ReportPage.tsx:193-195 | the step becomes `PrevStep` of the old step and stays in range: none while the Previous button is disabled, one back otherwise, and the Next button shows afterwards; every form field is untouched |
| ReportPage.ReportWizard.Submit | client/src/pages/ReportPage.tsx:151-187 | sends nothing when title or description is empty; otherwise sends the form with anonymous = not signed in or the switch, so a visitor who is not signed in is always anonymous |
| FeedPage.BuildFeedFilters | client/src/pages/FeedPage.tsx:29-32 | `sortBy` is always sent; category and status only when chosen; search only when non-empty |
| FeedPage.FeedQueryIsAccepted | client/src/lib/api.ts:64-72 | the server accepts every query the feed builds, with the same category, status and search, and sorts by upvotes exactly when asked |
| FeedPage.FilteredReports | client/src/pages/FeedPage.tsx:43-46 | each loaded report whose lower-cased title or description contains the lower-cased search occurs as often as it was loaded, and no other report occurs |
| FeedPage.FilteredReportsProperties | client/src/pages/FeedPage.tsx:43-46 | the filtered list keeps the loaded order, an empty search keeps every report, and filtering again changes nothing |
| FeedPage.Feed.constructor | client/src/pages/FeedPage.tsx:15-20 | the feed starts empty, loading, with 'all' filters, no search and newest-first |
| FeedPage.Feed.LoadReports | client/src/pages/FeedPage.tsx:26-41 | sends the built filters; a loaded list replaces the reports, a failed load keeps them; loading ends |
| AuthContext.AuthProvider.constructor | client/src/contexts/AuthContext.tsx:18-20 | the provider starts with no token and no user in state |
| AuthContext.AuthProvider.RestoreSession | client/src/contexts/AuthContext.tsx:22-30 | the stored session is taken over only when both a non-empty token and a user are stored |
| AuthContext.AuthProvider.Adopt | client/src/contexts/AuthContext.tsx:34-38 | token and user are written to storage and to state; a non-empty token makes the session authenticated, and admin exactly when the user is |
| AuthContext.AuthProvider.Login | client/src/contexts/AuthContext.tsx:32-44 | success stores token and user in state and storage; failure changes nothing and is reported |
| AuthContext.AuthProvider.Register | client/src/contexts/AuthContext.tsx:46-58 | success stores token and user in state and storage; failure changes nothing and is reported |
| AuthContext.AuthProvider.Logout | client/src/contexts/AuthContext.tsx:60-66 | token and user are cleared everywhere; neither authenticated nor admin afterwards |
| App.ProtectedRoute | client/src/App.tsx:17-29 | redirect to /login exactly when not signed in (admin-only or not), to / exactly for a signed-in non-admin on an admin-only route, render otherwise |
| App.AdminPagesNeedAnAdmin | client/src/App.tsx:46-69 | the guarded routes are exactly the three /admin routes, all admin-only, and they render exactly for a signed-in admin |

## Left out

- Persistence, transactions and concurrency are not modelled; each handler is one atomic step on the store. The race between the two separate upvote writes is out of scope.
- ReportRoutes.ToggleUpvote: has no code for a pair whose report row is missing. The invariant rules that case out. `ToggleUpvoteSpec` still models it: the pair is removed, the reply is 500, and the counter update is lost.
- Store failures unrelated to the data (a lost connection) are not modelled. The 500 replies modelled are foreign-key failures, updates of a row that does not exist (status, role and ban changes), and enumeration values the store refuses.
- The Prisma schema is not part of this model, so its defaults are assumed from the code:
  - new users are CITIZEN and not banned;
  - new reports are NEW with 0 upvotes and not archived.
  Ids are natural numbers from one counter rather than generated strings.
- `updatedAt` keeps its creation value; the store's automatic timestamp update on writes is not modelled. Status and counter updates change only their own field.
- bcrypt is represented by its cost and the first 72 characters of the password it commits to. Salting and one-wayness are out.
- Store.HashAcceptsOnlyItsPassword: counts bcrypt's 72-byte input limit in characters, so a password with non-ASCII characters (several UTF-8 bytes each) is cut at the wrong place.
- JWT signing is represented by the claims it signs. Verification is a keyring from verifying tokens to claims, which also covers expiry.
- Stats.AvgResolutionTime: the rounding to whole hours is left out because it is floating-point `Math.round`. The local-midnight computation is a parameter.
- Replies of the list, detail, create, comment and stats handlers omit the joined `user` and `comments` records. Only the report rows and `hasUpvoted` are modelled.
- The server ignores `includeArchived`, `lat`, `lng` and `sortBy=nearest`, and so does the model. Archive, delete and bulk actions have no server handler, so only the client's guard and request are modelled.
- AdminReports.AdminReportsPage.LoadReports: the archived switch has no effect on the request. `api.getReports` never appends `includeArchived`, so the server receives the same query either way (`ArchivedSwitchNeverReachesServer`).
- AdminReports.AdminReportsPage.HandleBulkAction: `succeeded` stands for an answer the client never gets. The API client has no `bulkReportAction` method, so with a non-empty selection the call throws, the error branch runs, nothing is sent and the dialog stays open. The model describes the component as written and does not promise that a request leaves the browser.
- Text.Lower: lower-cases ASCII letters only. Unicode case folding is not modelled.
- Browser and map APIs are not modelled: maps, geolocation, reverse geocoding, audio recording, image compression, confetti, toasts and navigation.
- The form input handlers of the report wizard are plain field assignments and are not modelled as methods.
- Rendering-only pages and components are not part of this model. Nor is the network client, apart from its query building in `FeedPage.ToQuery`. The same goes for server start-up, seeding and reset scripts, and the Dashboard percentage and count-up animation.
- The user routes are modelled as stand-alone handlers; whether the router is mounted is not part of this model.
