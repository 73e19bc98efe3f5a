# thenextsecrets frontend — a Dafny model

This project models the client-side logic of the thenextsecrets Next.js frontend:

- **Session handling.** The authentication store, the HTTP client's 401 refresh interceptor, the mock authentication service and the `/api/auth/refresh` route handler.
- **Background behaviour.** The inactivity-warning countdown, the global loader counter and the retrying API-call wrapper.
- **Access control.** Menu-permission checks and the page-protection redirect logic, plus the sidebar's active-route test.
- **Form validation.** The zod schemas for login, registration and forgot-password, and the shared constants they use.
- **Investigation helpers.** Display helpers for investigation records and attachments.
- **UI logic.** The breadcrumb trail, the checkbox group, the accessible data table, the multi-select chips, keyboard navigation with the focus trap, and the time picker.

Each source file becomes one Dafny module:

- Code that works on values becomes datatypes, functions and lemmas.
- Components and stores that update state become classes with `modifies` clauses.
- Loops in the source become methods. Each is proved equal to the function that specifies it.

Two small modules are shared:

- `Wrappers` holds `Option`, `Result` and JavaScript truthiness.
- `Text` holds the string built-ins the source relies on: ASCII case mapping, `split`/`join`, `lastIndexOf`, `startsWith` and decimal rendering.

Things outside the program are passed in as parameters:

- each reply an HTTP call receives;
- the current time;
- `jwt.verify`/`jwt.sign`;
- zod's e-mail test;
- the name tables imported from constants that are not part of this model;
- the browser's focused element.

Some behaviours of the code are easy to mistake for their idealised versions. The model keeps them as written:

- There is no single-flight refresh. Every 401 starts its own refresh call (`HttpClient.EachRequestRefreshesAlone`).
- A failed refresh does not end the session. Its error is handed back to the caller and the headers stay as they were (`HttpClient.RefreshFailureLeavesHeaders`).
- `logout` clears the session only when the service call succeeds. `register` logs the new user in.
- `getFirstAccessibleMenuUrl` looks only at `menuName`, never at `name` (`RbacGuard.AccessWithoutRoute`).
- The `'/'` branches of `protectPage` are dead code, because the fallback page is never `'/'` (`RouteProtection.FirstAvailablePage`).
- zod runs the password-confirmation refinement even when field checks fail. An empty e-mail gets two issues.

## Model

| member | source | states |
|---|---|---|
| AuthService.SeedUsers | frontend/src/services/auth.ts:4-17 | the table starts with two users whose ids are "1" and "2" |
| AuthService.IdsUnique | frontend/src/services/auth.ts:59-67 | ids assigned as table length + 1 never collide |
| AuthService.GenerateToken | frontend/src/services/auth.ts:22-24 | the token is `mock_token_` followed by the user id, `_` and the time stamp |
| AuthService.TokenFields | frontend/src/services/auth.ts:22-24 | splitting a token at `_` recovers the user id and the time stamp |
| AuthService.FindByCredentials | frontend/src/services/auth.ts:30 | finds the first row whose email and password both match, or reports that none does |
| AuthService.MockAuthService.constructor | frontend/src/services/auth.ts:4-17 | the service starts from the seed table |
| AuthService.MockAuthService.Login | frontend/src/services/auth.ts:27-48 | succeeds iff some row matches both credentials, returning that user without the password; otherwise "Invalid email or password" |
| AuthService.MockAuthService.Register | frontend/src/services/auth.ts:50-80 | rejects a taken email and leaves the table unchanged; otherwise appends a row with id = old length + 1 and returns it |
| AuthService.MockAuthService.Logout | frontend/src/services/auth.ts:82-90 | always answers "Logged out successfully" |
| AuthService.MockAuthService.Me | frontend/src/services/auth.ts:92-108 | always returns the first user, id "1", whoever asks |
| AuthStore.Store.constructor | frontend/src/stores/auth.ts:24-26 | starts with no user, no token and not loading |
| AuthStore.Store.Restore | frontend/src/stores/auth.ts:61-67 | a store rebuilt from storage holds exactly the persisted user and token, and is not loading |
| AuthStore.Store.Persisted | frontend/src/stores/auth.ts:63-66 | only `user` and `accessToken` are persisted, never `loading` |
| AuthStore.Store.Install | frontend/src/stores/auth.ts:32-33 | installs the user and token and sets the client's default header to `Bearer <token>` |
| AuthStore.Store.Login | frontend/src/stores/auth.ts:28-37 | on success the session and header are installed; on failure the session is unchanged and the error propagates; `loading` is false afterwards either way |
| AuthStore.Store.Register | frontend/src/stores/auth.ts:39-48 | same as login: a successful registration logs the new user in |
| AuthStore.Store.Logout | frontend/src/stores/auth.ts:50-54 | on success clears user and token and sets the header to `Bearer ` with an empty token; on rejection nothing changes |
| AuthStore.Store.Hydrate | frontend/src/stores/auth.ts:56-59 | re-installs a stored non-empty token into the client, otherwise leaves the header alone |
| AuthStore.Reload | frontend/src/stores/auth.ts:56-67 | restoring and hydrating gives a new store holding the persisted session, consistent whenever the saved user and token are, and puts a persisted token back into the client |
| AuthStore.ReloadThenLogout | frontend/src/stores/auth.ts:28-67 | a reloaded session can be used further: logging out of it clears the store and sets the header to `Bearer ` |
| AuthStore.LoginThenReload | frontend/src/stores/auth.ts:28-67 | after a login and a reload, a fresh client carries the same Authorization header |
| HttpClient.Bearer | frontend/src/libs/axios.ts:16-17 | the header is the token prefixed by `Bearer ` |
| HttpClient.Exchange | frontend/src/libs/axios.ts:9-22 | one call through the interceptor consumes one reply per request sent; resolves only with 2xx; `_retry` is set iff it was already set or the first answer was 401; a retried request sends exactly once and keeps its headers |
| HttpClient.SuccessPassesThrough | frontend/src/libs/axios.ts:10 | a 2xx reply resolves the call with that reply after one request, leaving the headers and `_retry` unchanged |
| HttpClient.RetriedUnauthorizedRejected | frontend/src/libs/axios.ts:13-20 | a request already marked `_retry` that meets a 401 is rejected without a refresh |
| HttpClient.RefreshThenReplayOnce | frontend/src/libs/axios.ts:13-18 | 401 followed by a successful refresh sends the original, the refresh and the replay (with the new Bearer header in both request and defaults) and settles with the replay's answer |
| HttpClient.RefreshFailureLeavesHeaders | frontend/src/libs/axios.ts:15 | when the refresh call fails (not with 401) the caller gets that failure and no header changes |
| HttpClient.OtherErrorsRejected | frontend/src/libs/axios.ts:13-20 | any answer other than 2xx or 401 is rejected with its own status and starts no refresh |
| HttpClient.EachRequestRefreshesAlone | frontend/src/libs/axios.ts:11-18 | two requests that both meet a 401 each trigger their own refresh call |
| HttpClient.CountUrlAppend | frontend/src/libs/axios.ts:15 | counting refresh calls distributes over concatenated request logs |
| HttpClient.OneRefreshAmongThree | frontend/src/libs/axios.ts:13-18 | a successful refresh-and-replay contains exactly one refresh call |
| HttpClient.Unauthorized | frontend/src/libs/axios.ts:13 | a run of n 401 replies |
| HttpClient.UnauthorizedRefreshLoops | frontend/src/libs/axios.ts:13-18 | as written: when every answer is 401, each refresh call is itself intercepted and refreshes again, so no finite run of replies settles the call |
| HttpClient.ExcludedRefreshSettles | frontend/src/libs/axios.ts:13-18 | corrected: with the refresh call excluded from interception, any sufficiently long reply sequence settles the call after at most three requests |
| HttpClient.ExcludedRefreshSettles401 | frontend/src/libs/axios.ts:13-18 | corrected: the same bound for a call whose first answer is a 401: at most one refresh and one replay |
| HttpClient.FirstSentIsRequest | frontend/src/libs/axios.ts:9-22 | the first request put on the wire is the request itself, with its own header or else the default |
| HttpClient.Request.constructor | frontend/src/libs/axios.ts:12 | a new request carries no `_retry` mark and no own header |
| HttpClient.Api.constructor | frontend/src/libs/axios.ts:4-7 | a new client has no default header and has sent nothing |
| HttpClient.Api.SetAccessToken | frontend/src/libs/axios.ts:23-25 | the default header becomes exactly `Bearer <token>`, even for an empty token |
| HttpClient.Api.Send | frontend/src/libs/axios.ts:9-22 | sending through the interceptor produces exactly the outcome, log, headers and `_retry` mark that `Exchange` specifies |
| HttpClient.Api.RefreshAndReplay | frontend/src/libs/axios.ts:13-18 | the 401 branch: marks the request, refreshes, replays on success, with the outcome and log `Exchange` specifies |
| HttpClient.Api.PostRefresh | frontend/src/libs/axios.ts:15 | the refresh call is a fresh intercepted request with no header of its own |
| HttpClient.Api.Replay | frontend/src/libs/axios.ts:16-18 | the replay writes the new bearer token into the default and the request header, then sends the request again |
| RefreshRoute.RunEnd | frontend/src/app/api/auth/refresh.ts:8 | the `[^;]+` run ends at the first `;` or at the end of the string |
| RefreshRoute.Capture | frontend/src/app/api/auth/refresh.ts:8 | a captured token is non-empty and contains no `;` |
| RefreshRoute.FindFrom | frontend/src/app/api/auth/refresh.ts:8 | the search returns the capture of the leftmost match, and nothing iff no position matches |
| RefreshRoute.ExtractRefreshToken | frontend/src/app/api/auth/refresh.ts:8 | a token is found iff there is a cookie header and the pattern matches somewhere in it |
| RefreshRoute.Post | frontend/src/app/api/auth/refresh.ts:7-18 | with no token: 401 "No refresh token" and `verify` is never called; `verify` is called with the extracted token; the status is always 200, 401 or 403; when both `verify` and `sign` succeed it is 200; 200 iff the body carries an access token signed over the verified id and email for 15m; 403 "Invalid refresh token" iff verification or signing fails |
| RefreshRoute.LeadingCookie | frontend/src/app/api/auth/refresh.ts:8 | a cookie that starts with `refreshToken=<t>;` yields exactly t |
| RefreshRoute.NoMatchUpToSemicolon | frontend/src/app/api/auth/refresh.ts:8 | an empty `refreshToken=` value cannot match |
| RefreshRoute.EmptyEntrySkipped | frontend/src/app/api/auth/refresh.ts:8 | an empty first entry is skipped and a later `refreshToken=<t>` is found |
| InactivityWarning.TickStep | frontend/src/components/ui/inactivity-warning.tsx:34-50 | one second: when hidden or already at zero nothing happens; otherwise the count drops by one, and logout fires exactly when it reaches zero |
| InactivityWarning.CountsDown | frontend/src/components/ui/inactivity-warning.tsx:34-50 | while visible, k ticks below the start leave c-k seconds and no logout |
| InactivityWarning.StaysAtZero | frontend/src/components/ui/inactivity-warning.tsx:34-50 | at zero further ticks neither count nor log out |
| InactivityWarning.LogoutOnNthTick | frontend/src/components/ui/inactivity-warning.tsx:34-50 | starting from n, logout fires exactly once, on the n-th tick, and never before |
| InactivityWarning.TicksSplit | frontend/src/components/ui/inactivity-warning.tsx:34-50 | k+j ticks equal k ticks then j ticks, logout counts adding up |
| InactivityWarning.NeverNegative | frontend/src/components/ui/inactivity-warning.tsx:34-50 | the countdown stays between 0 and its start |
| InactivityWarning.HiddenFreezes | frontend/src/components/ui/inactivity-warning.tsx:34-50 | while the dialog is hidden the countdown is frozen |
| InactivityWarning.Dialog.constructor | frontend/src/components/ui/inactivity-warning.tsx:20 | the countdown starts at `timeRemaining` |
| InactivityWarning.Dialog.SetProps | frontend/src/components/ui/inactivity-warning.tsx:29-31 | the countdown is reset only when `timeRemaining` changes |
| InactivityWarning.Dialog.Tick | frontend/src/components/ui/inactivity-warning.tsx:34-50 | one timer tick moves the state as `TickStep` says |
| InactivityWarning.Dialog.Rendered | frontend/src/components/ui/inactivity-warning.tsx:52 | the dialog renders iff it is visible |
| InactivityWarning.Dialog.LogoutNow | frontend/src/components/ui/inactivity-warning.tsx:83-88 | the logout button calls `onLogout` once and changes nothing else |
| InactivityWarning.Dialog.StayLoggedIn | frontend/src/components/ui/inactivity-warning.tsx:89-95 | the stay button calls `onExtendSession` once and changes nothing else |
| InactivityWarning.ShowAndWait | frontend/src/components/ui/inactivity-warning.tsx:34-50 | a visible dialog left alone for n seconds ends at zero having logged out exactly once |
| LoaderStore.Step | frontend/src/stores/loader.ts:10-23 | start adds one; stop subtracts one, saturating at zero |
| LoaderStore.Repeat | frontend/src/stores/loader.ts:10-23 | n copies of one operation |
| LoaderStore.RunAppend | frontend/src/stores/loader.ts:10-23 | running two operation sequences equals running their concatenation |
| LoaderStore.Starts | frontend/src/stores/loader.ts:12-16 | n starts add n |
| LoaderStore.Stops | frontend/src/stores/loader.ts:17-21 | m stops subtract m, stopping at zero |
| LoaderStore.StartsThenStops | frontend/src/stores/loader.ts:10-23 | n starts followed by n stops restore the count |
| LoaderStore.Loader.constructor | frontend/src/stores/loader.ts:11 | the count starts at zero, not loading |
| LoaderStore.Loader.StartLoading | frontend/src/stores/loader.ts:12-16 | adds one; the loader is then loading |
| LoaderStore.Loader.StopLoading | frontend/src/stores/loader.ts:17-21 | subtracts one, never below zero |
| LoaderStore.Loader.IsLoading | frontend/src/stores/loader.ts:22 | loading iff the count is positive |
| LoaderStore.Loader.Apply | frontend/src/stores/loader.ts:10-23 | applying operations in order leaves the count `Run` computes |
| NetworkErrorHandler.Failure | frontend/src/utils/network-error-handler.ts:50-58 | an attempt fails iff it was rejected or answered with a false status and a message |
| NetworkErrorHandler.ToNetworkError | frontend/src/utils/network-error-handler.ts:21-32 | `isNetworkError` is the offline-or-network test, and the message falls back to the default and is never empty |
| NetworkErrorHandler.AttemptApiCall | frontend/src/utils/network-error-handler.ts:34-87 | at most three calls, waiting 1000·attempt ms before each retry; succeeds with the last reply, or falls back with its error |
| NetworkErrorHandler.RetriesWhenRetryable | frontend/src/utils/network-error-handler.ts:68-72 | the calls stop before the third only at a call that succeeded or whose failure is not a retryable network error |
| NetworkErrorHandler.IsNetworkError | frontend/src/utils/network-error-handler.ts:21-32 | offline, or the code NETWORK_ERROR or ERR_NETWORK, a message containing "Network error" or "cannot connect", or the name NetworkError |
| NetworkErrorHandler.RetriesOnlyAfterNetworkErrors | frontend/src/utils/network-error-handler.ts:68-72 | every call that was followed by another failed with a network error while retries were enabled |
| NetworkErrorHandler.ToastFor | frontend/src/utils/network-error-handler.ts:89-106 | a network error gets "Network connection failed while <context>. Please check your internet connection and try again." for 6000 ms with id `network-error`; any other error gets "Failed to <context>: <message>" for 4000 ms with no id |
| NetworkErrorHandler.HandleApiResponse | frontend/src/utils/network-error-handler.ts:34-106 | the data, error, number of calls and waits are those of `attemptApiCall` from attempt 1, so its retry bounds carry over; a toast is shown iff toasts are enabled and the call ended in error, and it is `ToastFor` of that final error and the context |
| NetworkErrorHandler.OfflineIsNetworkError | frontend/src/utils/network-error-handler.ts:21-32 | every error while offline is a network error |
| NetworkErrorHandler.FirstSuccess | frontend/src/utils/network-error-handler.ts:49-57 | a good first answer is returned after one call and no toast |
| NetworkErrorHandler.NoRetry | frontend/src/utils/network-error-handler.ts:68-75 | a non-network failure, or retry disabled, ends after one call |
| NetworkErrorHandler.ThreeNetworkFailures | frontend/src/utils/network-error-handler.ts:68-75 | three offline failures make three calls with waits of 1000 and 2000 ms, then fall back |
| NetworkErrorHandler.FalseStatusWithoutMessage | frontend/src/utils/network-error-handler.ts:53-57 | a reply with a false status and no message counts as success |
| RbacGuard.EffectiveName | frontend/src/utils/rbac-guard.ts:34-36 | a menu is named by its non-empty `menuName`, else by `name`, lower-cased |
| RbacGuard.RouteOf | frontend/src/utils/rbac-guard.ts:64-77 | a menu's route, when it has one, comes from the route table |
| RbacGuard.FirstAccessibleMenuUrl | frontend/src/utils/rbac-guard.ts:59-84 | the route of the first accessible menu; none iff no menu is accessible |
| RbacGuard.GetFirstAccessibleMenuUrl | frontend/src/utils/rbac-guard.ts:59-84 | the loop returns what `FirstAccessibleMenuUrl` specifies, and nothing for no permissions |
| RbacGuard.HasAnyMenuAccess | frontend/src/utils/rbac-guard.ts:91-99 | false for a missing or empty permission list; otherwise true iff some menu has a sub-menu with `canRead` |
| RbacGuard.FirstUrlImpliesAccess | frontend/src/utils/rbac-guard.ts:59-99 | a found first URL implies `hasAnyMenuAccess` |
| RbacGuard.AccessWithoutRoute | frontend/src/utils/rbac-guard.ts:59-99 | a menu named only by `name` grants access but yields no URL |
| RbacGuard.RequireMenuPermission | frontend/src/utils/rbac-guard.ts:27-52 | allowed iff the fetch succeeded and lists the menu; otherwise a ForbiddenError "403 - Not Authorized" when asked to throw, else a redirect to the given page or `/dashboard` |
| RbacGuard.RequireIgnoresCase | frontend/src/utils/rbac-guard.ts:33-36 | the decision ignores the case of the menu name |
| RbacGuard.MenuNameWins | frontend/src/utils/rbac-guard.ts:34-36 | a non-empty `menuName` hides `name`; an empty one falls back to `name` |
| RouteProtection.SlashPrefixInjective | frontend/src/utils/route-protection.ts:49-89 | distinct page names give distinct paths |
| RouteProtection.FallbackPage | frontend/src/utils/route-protection.ts:9-15 | the fallback is one of the available pages, never `/` and never the excluded page |
| RouteProtection.FirstMenuPage | frontend/src/utils/route-protection.ts:64-75 | the first menu with a non-empty name other than the excluded one, or none iff no such menu |
| RouteProtection.FirstAvailablePage | frontend/src/utils/route-protection.ts:49-89 | when the fetch returned menus and one of them is allowed and not excluded, the page is "/" + the first such lower-cased name (`FirstMenuPage`); otherwise it is the first fallback page other than the excluded one (`FallbackPage`); it is never `/` and never the excluded page |
| RouteProtection.FallbackLoop | frontend/src/utils/route-protection.ts:81-88 | the loop over available pages returns `FallbackPage` |
| RouteProtection.MenuLoop | frontend/src/utils/route-protection.ts:64-75 | the loop over menus returns `FirstMenuPage` |
| RouteProtection.GetFirstAvailablePage | frontend/src/utils/route-protection.ts:49-89 | the method returns `FirstAvailablePage` |
| RouteProtection.HasPagePermission | frontend/src/utils/route-protection.ts:22-43 | true when the fetch throws or reports a network error; otherwise true iff some menu's `menuName || name` equals the page name, ignoring case |
| RouteProtection.ProtectPage | frontend/src/utils/route-protection.ts:96-129 | stays on the page when it is permitted or the fallback is the current path, `/`+page or `/`; otherwise navigates to the fallback (ProtectPageNavigates states the result) |
| RouteProtection.ProtectPageNavigates | frontend/src/utils/route-protection.ts:96-129 | a page without permission navigates to the fallback unless the user is already there |
| RouteProtection.OutageGrantsAccess | frontend/src/utils/route-protection.ts:22-42 | during a network outage every page is allowed |
| RouteProtection.FallbackOrder | frontend/src/utils/route-protection.ts:49-89 | when permissions cannot be fetched, the first available page other than the excluded one is chosen |
| AppSidebar.HandleNavigation | frontend/src/components/layouts/app-sidebar.tsx:200-204 | navigates to the route's URL iff it is implemented |
| AppSidebar.IsRouteActive | frontend/src/components/layouts/app-sidebar.tsx:206-214 | a route is active iff the path is present and non-empty and equals the url or, for a url other than `/`, starts with it; RootOnlyExact, ActiveOnOwnPath, ActiveOnDescendant and TextualPrefix are the properties proved about it |
| AppSidebar.RootOnlyExact | frontend/src/components/layouts/app-sidebar.tsx:206-214 | the root entry is active only on `/` |
| AppSidebar.ActiveOnOwnPath | frontend/src/components/layouts/app-sidebar.tsx:206-214 | every entry is active on its own URL |
| AppSidebar.ActiveOnDescendant | frontend/src/components/layouts/app-sidebar.tsx:206-214 | an entry is active on any path extending its URL |
| AppSidebar.TextualPrefix | frontend/src/components/layouts/app-sidebar.tsx:206-214 | the test is textual: `/users` is active on `/users-archive` |
| ZodChecks.Check | frontend/src/validation-schemas/login-schema.tsx:4-23 | a refinement adds its one issue iff it fails |
| ZodChecks.Min | frontend/src/validation-schemas/login-schema.tsx:14-23 | `.min(n)` passes iff the length is at least n |
| ZodChecks.Max | frontend/src/validation-schemas/register-schema.tsx:4-52 | `.max(n)` passes iff the length is at most n |
| AppConstants.EmailCheckSound | frontend/src/common/app-constants.ts:16 | every address the check accepts matches the e-mail pattern |
| AppConstants.EmailCheckComplete | frontend/src/common/app-constants.ts:16 | every address matching the pattern is accepted |
| AppConstants.RunsArePlain | frontend/src/common/app-constants.ts:16 | a string matching the pattern has no whitespace and only the one '@' |
| AppConstants.EmailPatternIff | frontend/src/common/app-constants.ts:16 | the check and the pattern agree on every string |
| AppConstants.NoOtherAt | frontend/src/common/app-constants.ts:16 | an `@` absent before and after a position is absent everywhere else |
| AppConstants.ValidEmailOneAt | frontend/src/common/app-constants.ts:16 | a valid address has exactly one `@`, not in first position |
| AppConstants.InvalidField | frontend/src/common/app-constants.ts:21 | the message is the field name followed by exactly " is invalid" |
| AppConstants.InvalidFieldInjective | frontend/src/common/app-constants.ts:21 | the field can be read back from its message: distinct fields give distinct messages |
| AppConstants.IsValidEmail | frontend/src/common/app-constants.ts:16 | the regular expression as a check: no whitespace, one '@' with text before it, and a '.' after it that is neither first nor last; EmailPatternIff proves it accepts exactly the pattern's language |
| AppConstants.MinLength | frontend/src/common/app-constants.ts:22 | the message starts with the field name |
| AppConstants.MinLengthInjective | frontend/src/common/app-constants.ts:22 | different minimums give different messages |
| AppConstants.MinLengthSix | frontend/src/common/app-constants.ts:17-22 | the password message reads "Password must be at least 6 characters" |
| LoginSchema.LoginIssues | frontend/src/validation-schemas/login-schema.tsx:3-24 | issues only ever concern `email` or `password` |
| LoginSchema.LoginValidIff | frontend/src/validation-schemas/login-schema.tsx:3-24 | a login form passes iff the email is non-empty and an e-mail, and the password has at least 6 characters |
| LoginSchema.AnyLongPasswordPasses | frontend/src/validation-schemas/login-schema.tsx:14-23 | any password of 6 or more characters passes |
| LoginSchema.EmptyEmailTwoIssues | frontend/src/validation-schemas/login-schema.tsx:4-13 | an empty email reports both "required" and "invalid" |
| LoginSchema.MinimumIsPasswordLength | frontend/src/validation-schemas/login-schema.tsx:14-23 | the login minimum equals the shared password length |
| ForgotPasswordSchema.ForgotPasswordIssues | frontend/src/validation-schemas/forgot-password-schema.tsx:3-14 | issues only ever concern `email` |
| ForgotPasswordSchema.SameEmailsAsLogin | frontend/src/validation-schemas/forgot-password-schema.tsx:3-14 | accepts exactly the emails login accepts, with the same number of issues |
| RegisterSchema.FirstLine | frontend/src/validation-schemas/register-schema.tsx:38-52 | the text before the first line terminator, which is all a `.`-based lookahead sees |
| RegisterSchema.NameIssues | frontend/src/validation-schemas/register-schema.tsx:4-21 | every name issue is reported at `name` |
| RegisterSchema.EmailIssues | frontend/src/validation-schemas/register-schema.tsx:22-31 | every email issue is reported at `email` |
| RegisterSchema.PasswordIssues | frontend/src/validation-schemas/register-schema.tsx:32-52 | every password issue is reported at `password` |
| RegisterSchema.RegisterIssues | frontend/src/validation-schemas/register-schema.tsx:3-65 | the mismatch issue is last iff the passwords differ, whatever else failed |
| RegisterSchema.NameValidIff | frontend/src/validation-schemas/register-schema.tsx:4-21 | a name passes iff it has 2-100 characters, all ASCII letters or whitespace |
| RegisterSchema.PasswordValidIff | frontend/src/validation-schemas/register-schema.tsx:32-52 | a password passes iff it has 6-100 characters and its first line has a lower-case letter, an upper-case letter and a digit |
| RegisterSchema.RegisterValidIff | frontend/src/validation-schemas/register-schema.tsx:3-65 | a form passes iff every field passes and the passwords agree |
| RegisterSchema.RegisterPasswordPassesLogin | frontend/src/validation-schemas/register-schema.tsx:32-52 | a registrable password can always be used to log in |
| RegisterSchema.ComplexHasClasses | frontend/src/validation-schemas/register-schema.tsx:38-52 | a complex password contains a lower-case letter, an upper-case letter and a digit |
| RegisterSchema.LineBreakHidesClasses | frontend/src/validation-schemas/register-schema.tsx:38-52 | a leading line break makes "\nAb1cdef" fail the complexity rule |
| AttachmentHelpers.GetFileExtension | frontend/src/utils/attachment-helpers.ts:8-12 | the lower-cased text after the last dot, or "" without a dot |
| AttachmentHelpers.ExtensionOfName | frontend/src/utils/attachment-helpers.ts:8-12 | `base.ext` has extension `lower(ext)` |
| AttachmentHelpers.ExtensionListsDisjoint | frontend/src/utils/attachment-helpers.ts:167-192 | no extension is in two of the image, document and spreadsheet lists |
| AttachmentHelpers.IsImageFile | frontend/src/utils/attachment-helpers.ts:167-172 | the extension is one of jpg, jpeg, png, gif, bmp, svg, webp |
| AttachmentHelpers.IsDocumentFile | frontend/src/utils/attachment-helpers.ts:177-182 | the extension is one of pdf, doc, docx, rtf, txt |
| AttachmentHelpers.IsSpreadsheetFile | frontend/src/utils/attachment-helpers.ts:187-192 | the extension is one of xls, xlsx, csv |
| AttachmentHelpers.GetFileTypeCategory | frontend/src/utils/attachment-helpers.ts:197-205 | the category is Image, Document or Spreadsheet iff the matching test holds, else File |
| AttachmentHelpers.CategoryIgnoresCase | frontend/src/utils/attachment-helpers.ts:8-12 | the category of a file does not depend on the case of its extension, so `photo.JPG` is an image |
| AttachmentHelpers.DisplayName | frontend/src/utils/attachment-helpers.ts:45 | the first truthy of title, file name, the file's name, else "Untitled"; never empty |
| AttachmentHelpers.ToDisplay | frontend/src/utils/attachment-helpers.ts:33-52 | the entry's name is `DisplayName`; its type is the extension of the name the download lookup compares (title, file name, the file's name, else ""); its file name is the first truthy of file name, the file's name, title, else "Unknown file"; its title is the attachment's; its url is the first truthy of path and url, else the presigned url |
| AttachmentHelpers.TypeOfDisplayedName | frontend/src/utils/attachment-helpers.ts:45-46 | a named attachment's type is the extension of its displayed name; a nameless one is shown as "Untitled" with an empty type |
| AttachmentHelpers.ConvertAttachmentsForDisplay | frontend/src/utils/attachment-helpers.ts:30-53 | one display entry per attachment, in order, each named by `DisplayName`, typed by the extension of the download lookup's name and keeping its title; none for no list |
| AttachmentHelpers.FindByName | frontend/src/utils/attachment-helpers.ts:112-125 | finds the first attachment whose name matches, or reports that none does |
| AttachmentHelpers.HandleDownloadFromDisplay | frontend/src/utils/attachment-helpers.ts:112-125 | downloads the first original whose title, file name or file's name (else "") equals the display name, iff one exists |
| AttachmentHelpers.UntitledNotDownloadable | frontend/src/utils/attachment-helpers.ts:112-125 | as written: a nameless attachment is shown as "Untitled" but clicking it downloads nothing |
| AttachmentHelpers.HandleDownloadFromDisplayByDisplayName | frontend/src/utils/attachment-helpers.ts:112-125 | corrected: matches originals by the same name the display shows |
| AttachmentHelpers.EveryDisplayedEntryDownloads | frontend/src/utils/attachment-helpers.ts:112-125 | corrected: every displayed entry downloads an original carrying that display name |
| AttachmentHelpers.HandleDownloadAll | frontend/src/utils/attachment-helpers.ts:130-139 | downloads every attachment once, in order; nothing for no list |
| AttachmentHelpers.GetFileIcon | frontend/src/utils/attachment-helpers.ts:145-162 | a grey file icon for no name; else the icon configured for the extension, or the default |
| Investigation.LookupName | frontend/src/utils/investigation.ts:45-58 | a falsy id or a missing or empty entry gives "Agency"; otherwise the table's name |
| Investigation.GetAgencyName | frontend/src/utils/investigation.ts:45-49 | `getAgencyName` is the name lookup over the agency table, so "Agency" for a falsy id or a missing entry (LookupName's contract) |
| Investigation.GetIndividualName | frontend/src/utils/investigation.ts:54-58 | `getIndividualName` is the same lookup over the individual table |
| Investigation.GetIssueToName | frontend/src/utils/investigation.ts:63-84 | "Agency" without a record; the complainant's name (or "Complainant") when issued to the complainant type; else the individual's name |
| Investigation.GetAgencyNameForDisplay | frontend/src/utils/investigation.ts:89-106 | "Agency" without a record or agency id, else the agency's name |
| Investigation.SelectedMembers | frontend/src/utils/investigation.ts:197-214 | the listed modes are exactly the labels whose flag is set |
| Investigation.ConvertModeOfCommunicationToArray | frontend/src/utils/investigation.ts:197-214 | pushes the set modes in the fixed label order |
| Investigation.UnfoldSelected | frontend/src/utils/investigation.ts:197-214 | the label list written out flag by flag |
| Investigation.GetModeOfCommunicationDisplay | frontend/src/utils/investigation.ts:111-126 | no modes without a record or mode object, else the set modes in label order |
| Investigation.ConvertModeOfCommunicationToObject | frontend/src/utils/investigation.ts:185-192 | a flag is set iff its label is in the list |
| Investigation.ObjectRoundTrip | frontend/src/utils/investigation.ts:185-214 | object → array → object is the identity |
| Investigation.ArrayRoundTrip | frontend/src/utils/investigation.ts:185-214 | array → object → array keeps exactly the known labels, deduplicated, in canonical order |
| Investigation.CanonicalListsAreFixed | frontend/src/utils/investigation.ts:185-214 | a canonical list survives array → object → array unchanged |
| Investigation.IsImageFile | frontend/src/utils/investigation.ts:140-144 | the lower-cased extension is in the configured image list |
| Investigation.IsPdfFile | frontend/src/utils/investigation.ts:149-153 | the lower-cased extension is in the configured PDF list |
| Investigation.IsWordFile | frontend/src/utils/investigation.ts:158-162 | the lower-cased extension is in the configured Word list |
| Investigation.IsExcelFile | frontend/src/utils/investigation.ts:167-171 | the lower-cased extension is in the configured Excel list |
| Investigation.IsTextFile | frontend/src/utils/investigation.ts:176-180 | the lower-cased extension is in the configured text list |
| Investigation.NoDotNoExtension | frontend/src/utils/investigation.ts:131-160 | a name without a dot is neither an image nor a PDF |
| Breadcrumb.TitleWord | frontend/src/components/ui/breadcrumb.tsx:88-93 | capitalising a word keeps its length and adds no dash |
| Breadcrumb.TitleWords | frontend/src/components/ui/breadcrumb.tsx:88-93 | every word is capitalised in place |
| Breadcrumb.JoinLength | frontend/src/components/ui/breadcrumb.tsx:88-93 | joining words of equal lengths gives strings of equal length |
| Breadcrumb.JoinChars | frontend/src/components/ui/breadcrumb.tsx:88-93 | a non-separator character in a joined string comes from one of the parts |
| Breadcrumb.FormatBreadcrumbText | frontend/src/components/ui/breadcrumb.tsx:88-93 | split at '-', title-case each word, join with ' '; FormatProperties proves the result has no dash and keeps the length |
| Breadcrumb.FormatProperties | frontend/src/components/ui/breadcrumb.tsx:88-93 | the formatted text has no dash and the same length as the input |
| Breadcrumb.RenderItem | frontend/src/components/ui/breadcrumb.tsx:20-81 | the current item renders as formatted page text, the others as links to their href or `#` |
| Breadcrumb.Render | frontend/src/components/ui/breadcrumb.tsx:20-41 | each item's node, followed by a separator unless it is the last; RenderShape and SeparatorCount state the shape |
| Breadcrumb.RenderShape | frontend/src/components/ui/breadcrumb.tsx:20-41 | n items render as 2n-1 nodes, items at even positions and separators between them |
| Breadcrumb.SeparatorCount | frontend/src/components/ui/breadcrumb.tsx:20-41 | n items get n-1 separators |
| MainLayout.NonEmpty | frontend/src/components/layouts/main-layout.tsx:54-87 | `filter(Boolean)` keeps only non-empty parts |
| MainLayout.Segments | frontend/src/components/layouts/main-layout.tsx:54-87 | path segments are non-empty and contain no `/` |
| MainLayout.Capitalize | frontend/src/components/layouts/main-layout.tsx:54-87 | the first letter is upper-cased and the rest kept |
| MainLayout.ItemFor | frontend/src/components/layouts/main-layout.tsx:63-81 | the label is the capitalised segment; only the last segment is current, and it alone has no link; any other segment links to "/" + the segments up to and including it, joined by "/" |
| MainLayout.LinkSegments | frontend/src/components/layouts/main-layout.tsx:65-67 | following a non-last item's link leads to a path whose segments are exactly the segments up to and including that item's |
| MainLayout.GenerateBreadcrumbs | frontend/src/components/layouts/main-layout.tsx:54-87 | no trail without a path; otherwise the trail starts with Dashboard and continues with the items of the path's segments |
| MainLayout.ItemCount | frontend/src/components/layouts/main-layout.tsx:54-87 | one item per segment other than "details" |
| MainLayout.ItemsFromSegments | frontend/src/components/layouts/main-layout.tsx:54-87 | every item is the item of some segment other than "details" (`FromKeptSegment`) |
| MainLayout.ItemPositions | frontend/src/components/layouts/main-layout.tsx:57-83 | the item of each segment other than "details" sits at the number of such segments before it, so the items follow segment order and each kept segment appears exactly once |
| MainLayout.TrailItems | frontend/src/components/layouts/main-layout.tsx:54-87 | the trail has one item after Dashboard per kept segment, and the item of kept segment j is at its place in segment order |
| MainLayout.CurrentItem | frontend/src/components/layouts/main-layout.tsx:54-87 | at most the last item is current |
| MainLayout.TrailCurrent | frontend/src/components/layouts/main-layout.tsx:54-87 | only the last item of a trail can be current |
| MainLayout.BackButtonShown | frontend/src/components/layouts/main-layout.tsx:109 | the back button is hidden exactly on `/dashboard` |
| CheckboxGroup.Remove | frontend/src/components/ui/checkbox-group.tsx:32 | unchecking removes every copy of the value and keeps every other value |
| CheckboxGroup.IsChecked | frontend/src/components/ui/checkbox-group.tsx:46 | a box is checked iff its value is in the current value list |
| CheckboxGroup.HandleCheckboxChange | frontend/src/components/ui/checkbox-group.tsx:28-34 | checking appends the value, unchecking removes it; afterwards the box shows checked iff it was checked |
| CheckboxGroup.RemoveCommutes | frontend/src/components/ui/checkbox-group.tsx:32 | unchecking two values in either order gives the same result |
| CheckboxGroup.RemoveConcat | frontend/src/components/ui/checkbox-group.tsx:32 | removal works piecewise, so the remaining values keep their order |
| CheckboxGroup.RemoveAbsent | frontend/src/components/ui/checkbox-group.tsx:32 | unchecking an absent value changes nothing |
| CheckboxGroup.CheckThenUncheck | frontend/src/components/ui/checkbox-group.tsx:28-34 | check then uncheck equals just removing the value |
| CheckboxGroup.CheckDuplicates | frontend/src/components/ui/checkbox-group.tsx:28-34 | checking a value already present adds a second copy |
| DataTable.AllSelected | frontend/src/components/ui/accessible-data-table.tsx:86-88 | there is at least one row and every row's key is selected |
| DataTable.SomeSelected | frontend/src/components/ui/accessible-data-table.tsx:89-91 | some row's key is selected |
| DataTable.AllImpliesSome | frontend/src/components/ui/accessible-data-table.tsx:86-91 | all rows selected implies some row selected |
| DataTable.Indeterminate | frontend/src/components/ui/accessible-data-table.tsx:154 | the header box is indeterminate iff some but not all rows are selected |
| DataTable.SelectAllEffect | frontend/src/components/ui/accessible-data-table.tsx:76-91 | selecting every row key makes the header checked; an empty selection makes it unchecked |
| DataTable.HandleSelectAll | frontend/src/components/ui/accessible-data-table.tsx:76-84 | with a row-select handler, one call per row in order with the chosen state; none without it |
| DataTable.SortAriaLabel | frontend/src/components/ui/accessible-data-table.tsx:175-179 | "descending" exactly when the column is sorted ascending, otherwise "ascending" |
| DataTable.EmptyColSpan | frontend/src/components/ui/accessible-data-table.tsx:197 | the empty-state cell spans every column plus the selection column |
| MultiSelect.ChipAt | frontend/src/components/ui/multi-select-dropdown.tsx:125-169 | chips from the third on are hidden; the second becomes "+N more" when more than two are selected |
| MultiSelect.VisibleChips | frontend/src/components/ui/multi-select-dropdown.tsx:125-148 | the chip each selected option renders as, in order; ChipCollapse states the result for every selection size |
| MultiSelect.HiddenFrom | frontend/src/components/ui/multi-select-dropdown.tsx:130-132 | no chip from the third selection on is rendered |
| MultiSelect.ChipCollapse | frontend/src/components/ui/multi-select-dropdown.tsx:125-169 | up to two selections show their labels; more show the first label and "+(n-2) more" |
| MultiSelect.MoreCountReadable | frontend/src/components/ui/multi-select-dropdown.tsx:135-145 | the number in "+N more" reads back as the count of hidden selections |
| MultiSelect.FormatOptionLabel | frontend/src/components/ui/multi-select-dropdown.tsx:171-189 | the bare label in the control; in the menu, the label with a tick iff a selected entry has the option's value |
| MultiSelect.TickByValue | frontend/src/components/ui/multi-select-dropdown.tsx:179 | ticks compare values, not labels |
| MultiSelect.TickMonotone | frontend/src/components/ui/multi-select-dropdown.tsx:179 | selecting more never removes a tick |
| MultiSelect.HandleChange | frontend/src/components/ui/multi-select-dropdown.tsx:191-196 | passes on a copy of the selection, or [] when there is none |
| Accessibility.FocusItem | frontend/src/utils/accessibility.ts:113-129 | focusing a missing item throws |
| Accessibility.HandleArrowKeys | frontend/src/utils/accessibility.ts:99-133 | Home goes to 0 and End to n-1 (throwing for an empty list); other keys are ignored; any index reported is in range |
| Accessibility.StepMod | frontend/src/utils/accessibility.ts:106-120 | one step past either end of the list wraps to the other end |
| Accessibility.ArrowsCycle | frontend/src/utils/accessibility.ts:106-120 | from an item, ArrowDown goes to (i+1) mod n and ArrowUp to (i-1) mod n |
| Accessibility.DownUpReturns | frontend/src/utils/accessibility.ts:106-120 | ArrowDown and ArrowUp undo each other |
| Accessibility.EmptyListThrows | frontend/src/utils/accessibility.ts:106-131 | in an empty list every navigation key throws |
| Accessibility.IndexPastEnd | frontend/src/utils/accessibility.ts:106-120 | from an index past the end, ArrowUp throws and ArrowDown wraps to 0 |
| Accessibility.InitialFocus | frontend/src/utils/accessibility.ts:28 | the trap focuses the first element, if there is one |
| Accessibility.HandleTabKey | frontend/src/utils/accessibility.ts:11-25 | Tab on the last element wraps to the first and Shift+Tab on the first wraps to the last; nothing else is intercepted |
| Accessibility.FocusStaysTrapped | frontend/src/utils/accessibility.ts:5-33 | Tab or Shift+Tab from inside the dialog never leaves its focusable elements |
| Accessibility.TabCycle | frontend/src/utils/accessibility.ts:5-33 | tabbing from element i to the end wraps back to the first element |
| TimePicker.Pad2 | frontend/src/components/ui/time-picker.tsx:62-67 | one-digit numbers get a leading zero |
| TimePicker.PadRoundTrip | frontend/src/components/ui/time-picker.tsx:62-67 | below 100 the padded numeral has two digits and reads back as the number |
| TimePicker.Options | frontend/src/components/ui/time-picker.tsx:62-67 | the list has one padded entry per number, in order |
| TimePicker.HourOptions | frontend/src/components/ui/time-picker.tsx:62-64 | "00" to "23", each padded to two digits (OptionsWellFormed with count 24) |
| TimePicker.MinuteOptions | frontend/src/components/ui/time-picker.tsx:65-67 | "00" to "59", each padded to two digits (OptionsWellFormed with count 60) |
| TimePicker.OptionsWellFormed | frontend/src/components/ui/time-picker.tsx:62-67 | every option has two digits, reads back as its position, and appears once |
| TimePicker.Picker.constructor | frontend/src/components/ui/time-picker.tsx:36-37 | hour and minute start empty, nothing has been reported, and whether an `onTimeChange` callback was passed is fixed |
| TimePicker.Picker.SetTime | frontend/src/components/ui/time-picker.tsx:39-46 | a non-empty time sets the hour to its first `:`-part and the minute to its second (undefined when absent); an empty time changes nothing |
| TimePicker.Picker.HandleHourChange | frontend/src/components/ui/time-picker.tsx:48-53 | sets the hour and reports `hour:minute` iff a minute is chosen and an `onTimeChange` callback was passed |
| TimePicker.Picker.HandleMinuteChange | frontend/src/components/ui/time-picker.tsx:55-60 | sets the minute and reports `hour:minute` iff an hour is chosen and an `onTimeChange` callback was passed |
| TimePicker.ReportRoundTrip | frontend/src/components/ui/time-picker.tsx:39-60 | a reported `hour:minute`, fed back as the time, splits into the same hour and minute |
| TimePicker.ChooseHourThenMinute | frontend/src/components/ui/time-picker.tsx:48-60 | choosing an hour and then a minute reports exactly that time once, or nothing without a callback |
| TimePicker.OptionsRoundTrip | frontend/src/components/ui/time-picker.tsx:39-67 | every pair of listed options round-trips through report and reseeding |

## Left out

- AppConstants.MinLength: takes a whole, non-negative minimum. The source accepts any number, and a negative or fractional minimum would render as `-3` or `2.5`. The model has no such message.
- Accessibility.FocusStaysTrapped: assumes the browser's Tab moves to the next element of the queried list and Shift+Tab to the previous one, and that every listed element can take focus. Disabled buttons, hidden links and inputs, and positive `tabindex` values make the real order differ, and then focus can leave the dialog.
- Accessibility.TabCycle: rests on the same assumption about Tab order and focusability as FocusStaysTrapped.
- Case mapping covers ASCII only. `toLowerCase`/`toUpperCase` on other letters, and UTF-16 code-unit lengths, are not modelled.
- Property lookups on plain objects (`menuRoutes[name]`, the name tables) ignore inherited prototype keys such as `constructor`.
- Floating point is not modelled: `formatFileSize`, the size conversions, `colorContrast.meetsWCAGAA` and `toFixed`.
- AttachmentHelpers.ToDisplay: has no `id` or `size` field. The id falls back to a `Math.random()` value and the size text is floating point.
- `convertComplaintAttachmentsForDisplay` (attachment-helpers.ts:58-107) is outside the modelled core. It is a separate conversion for complaint records and `File` objects: it takes object URLs from `URL.createObjectURL`, falls back to the name "Attachment n" with its own order of name fallbacks, and builds its own size text.
- Random ids, `Date.now()` and timers are not modelled. The time is a parameter and timers are explicit ticks.
- Some constants are imported from files that are not part of this model: `AGENCY_NAMES`, `INDIVIDUAL_NAMES`, `ISSUER_TYPES`, `FILE_EXTENSIONS` and the icon configuration. They are parameters.
- jwt signing and verification are parameters. The route handler's environment secrets are not modelled.
- zod's `.email()` is a parameter predicate. The i18n `formatMessage` texts are message ids.
- DOM effects are not modelled: rendering, `preventDefault`, event listeners, `announce`, `createSkipLink`, `srOnly`.
- The network-status hooks (`useNetworkStatus`, `isOnline`, `getOfflineMessage`) are not modelled; the online flag is an input.
- AuthStore.Store.Login: the transient `loading = true` while the call is pending is not observable in the model, only its final false.
- AuthStore.Store.Register: as for login, the pending `loading = true` state is not represented.
- NetworkErrorHandler.AttemptApiCall: rejections that are not objects are not modelled. A `null` rejection makes the source's catch block itself throw.
- TimePicker.Picker.SetTime: `split` is modelled for a one-character separator only, which is all the source uses.

## Findings

| source | as written | input that shows it | evidently intended | confidence | as-written member | corrected member |
|---|---|---|---|---|---|---|
| frontend/src/libs/axios.ts:13-18 | the interceptor also intercepts the `/auth/refresh` call, and that call has no `_retry` mark | every request answered 401 (an expired refresh cookie): the refresh's own 401 starts another refresh, without end | a failed refresh rejects the original request | not executed | HttpClient.UnauthorizedRefreshLoops | HttpClient.ExcludedRefreshSettles |
| frontend/src/utils/attachment-helpers.ts:112-125 | the display uses "Untitled" for a nameless attachment (line 45), but the download matches against "" (lines 118-119) | an attachment with no title, file name or file name on its `file`: its "Untitled" entry downloads nothing | every displayed entry downloads its attachment | not executed | AttachmentHelpers.UntitledNotDownloadable | AttachmentHelpers.EveryDisplayedEntryDownloads |
