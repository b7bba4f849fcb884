# rustzen-admin: a verified model of the authorization and request core

This project models in Dafny the logic of rustzen-admin's core, and proves
it. rustzen-admin is an admin console: a web client in TypeScript and React
over an axum server in Rust. The model covers:

- **Permission evaluator and session store** (`useAuthStore`).
  - `checkPermissions` matches a colon-delimited code such as
    `system:user:list` against the user's granted list. The list may hold
    exact codes, the bare `*`, and prefix wildcards `p:*`.
  - `formatPathCode` turns a route path into such a code.
  - The store actions replace `{token, userInfo}`.
- **Request dispatcher** (`web/src/api/index.ts`). It covers:
  - the merged headers with the bearer token (section 2.1 of RFC 6750);
  - placing the params in the body or in the query string;
  - the `requestPool` of abort controllers;
  - the `code !== 0` envelope check;
  - `handleError`, which clears the session and aborts the pool on a 401;
  - the download file name and the MIME-to-extension table.
- **Navigation.**
  - The root route's `beforeLoad` guard.
  - The `/login` and catch-all loaders.
  - The recursive permission filter of the side menu.
- **Permission-gated components.** `AuthWrap`, `AuthPopconfirm`,
  `AuthConfirm` and `MoreButton`.
- **The menu tree.** `buildMenuTree` rebuilds a tree from the flat menu list
  by `parentId`. Around it, `getTableData` puts the tree in place of the
  list and `getOptions` prepends the Root option.
- **The server's embedded front end** (`web_embed_file_handler`).
  - Static-path classification.
  - The single-page-application fallback to `index.html`.
  - The Content-Type table.
- **Small utilities.**
  - The server's `format_duration` and `relative_time`.
  - The client's keyed local store.
  - `createQueryKey`.

How the model is built:

- Pure code is written as datatypes, functions and lemmas.
- Code that mutates state is written as classes with `modifies` clauses:
  - the auth store;
  - the dispatcher's request pool;
  - the local store.
- `checkPermissions` keeps its descending loop. The method is proved equal to
  the specification predicate `Permissions.Granted`.
- Environment inputs are parameters:
  - `fetch`, `JSON.stringify` and the `URLSearchParams` encoder;
  - `Date.now()`;
  - the time difference passed to `relative_time`;
  - the embedded directory.
- An `AbortController` is a number, and its `signal.aborted` flag is
  membership in `Dispatcher.aborted`.

Where the code and its documented behaviour differ, the model follows the
code:

- **The request body outside PUT/POST.** `formatFetchConfig` spreads the
  caller's options into the request, so a caller-supplied `body` is still
  sent. It is not left unset.
- **The download file name.** `split('filename=')[1]` is the text between the
  first and the second `filename=`. It is not everything after the first one.
- **A session without a token.** That `token` is absent whenever `userInfo`
  is absent is not an invariant. `updateAvatar` and `updateUserInfo` may set
  a user record without a token. `updateAvatar` with no user builds a record
  holding only `avatarUrl` (`AuthStore.AvatarOnly`).

## Model

| member | source | states |
|---|---|---|
| Permissions.EmptyDenies | web/src/stores/useAuthStore.ts:44-47 | an empty permission list denies every code |
| Permissions.StarGrantsAll | web/src/stores/useAuthStore.ts:48-50 | a list containing `*` grants every code |
| Permissions.ExactGrants | web/src/stores/useAuthStore.ts:51-53 | a code present verbatim is granted |
| Permissions.PrefixWildcardIff | web/src/stores/useAuthStore.ts:55-61 | the loop finds a granted candidate `codeArr.slice(0,i).join(':') + ':*'` iff some granted `p:*` has `p:` as a prefix of the code |
| Permissions.Granted | web/src/stores/useAuthStore.ts:43-63 | the permission decision `checkPermissions` makes; `GrantedIff` and `PrefixWildcardIff` characterise it |
| Permissions.GrantedIff | web/src/stores/useAuthStore.ts:43-63 | the whole decision without the loop: non-empty list, and `*`, the code itself, or a covering `p:*` |
| Permissions.WildcardGrants | web/src/stores/useAuthStore.ts:55-61 | a granted `p:*` grants every `p:` + rest |
| Permissions.GrantedMonotone | web/src/stores/useAuthStore.ts:43-63 | adding codes to the list never turns a grant into a denial |
| Permissions.SystemUserWildcardGrants | web/src/stores/useAuthStore.ts:54-61 | `system:user:*` grants `system:user:list` and `system:user:a:b` |
| Permissions.SystemUserWildcardDenies | web/src/stores/useAuthStore.ts:54-61 | `system:user:*` grants neither `system:role:list` nor `system:user` |
| Permissions.PathToColons | web/src/stores/useAuthStore.ts:76 | the colon form of a path; `PathToColonsChars` states it character by character |
| Permissions.FormatPathCode | web/src/stores/useAuthStore.ts:75-90 | `formatPathCode`; its three branches are stated by `FormatCreate`, `FormatEditSegments` and `FormatList` |
| Permissions.PathToColonsChars | web/src/stores/useAuthStore.ts:76 | every `/` becomes `:` and the first character is dropped |
| Permissions.FormatCreate | web/src/stores/useAuthStore.ts:77-80 | a code ending in `:create` is returned as it is |
| Permissions.FormatList | web/src/stores/useAuthStore.ts:88-89 | any code that is not a create, edit or detail code gets `:list` appended |
| Permissions.FormatEditSegments | web/src/stores/useAuthStore.ts:81-87 | an edit or detail code's segments are the colon form's segments minus the all-digit ones, in order |
| Permissions.FormatListExample | web/src/stores/useAuthStore.ts:75-90 | `/system/user` becomes `system:user:list` |
| Permissions.FormatCreateExample | web/src/stores/useAuthStore.ts:75-90 | `/system/user/create` becomes `system:user:create` |
| Permissions.FormatEditOfIdPath | web/src/stores/useAuthStore.ts:81-87 | `/a/b/<digits>/edit` becomes `a:b:edit` (so `/system/user/5/edit` becomes `system:user:edit`) |
| Permissions.FormatTopLevelPage | web/src/stores/useAuthStore.ts:75-90 | a one-segment page `/seg` has the code `seg:list` |
| Permissions.SingleSegmentListGrantedIff | web/src/stores/useAuthStore.ts:43-63 | `seg:list` is granted only by `*`, by itself or by `seg:*` |
| AuthStore.PermissionsOf | web/src/stores/useAuthStore.ts:44 | `userInfo?.permissions \|\| []`: the user's list, or empty without a record that has one |
| AuthStore.WithAvatar | web/src/stores/useAuthStore.ts:28-33 | the record gets the new avatar; an existing record is otherwise kept; no record gives an avatar-only record |
| AuthStore.WithAvatarKeepsFields | web/src/stores/useAuthStore.ts:27-34 | `updateAvatar` keeps id, username, real name, permissions and the system flag |
| AuthStore.AuthState.constructor | web/src/stores/useAuthStore.ts:19-20 | the store starts with no token and no user |
| AuthStore.AuthState.HandleLogin | web/src/stores/useAuthStore.ts:21-23 | sets both fields |
| AuthStore.AuthState.UpdateToken | web/src/stores/useAuthStore.ts:24-26 | replaces the token, keeps the user |
| AuthStore.AuthState.UpdateAvatar | web/src/stores/useAuthStore.ts:27-34 | keeps the token; the user becomes the record with the new avatar |
| AuthStore.AuthState.UpdateUserInfo | web/src/stores/useAuthStore.ts:35-37 | replaces the user, keeps the token |
| AuthStore.AuthState.ClearAuth | web/src/stores/useAuthStore.ts:39-42 | sets both fields to null |
| AuthStore.AuthState.CheckPermissions | web/src/stores/useAuthStore.ts:43-63 | the loop's answer equals `Granted` over the session's list |
| AuthStore.AuthState.CheckMenuPermissions | web/src/stores/useAuthStore.ts:64-67 | equals `checkPermissions(formatPathCode(path))` |
| AuthStore.LoginThenCheck | web/src/stores/useAuthStore.ts:21-63 | after login the store grants exactly what the user's list grants |
| AuthStore.ClearThenCheck | web/src/stores/useAuthStore.ts:39-47 | after `clearAuth` every code is denied |
| Api.BuildQueryString | web/src/api/index.ts:173-178 | `''` exactly for absent params or an empty query, else `'?'` + the query |
| Api.AuthHeaders | web/src/api/index.ts:56-59 | `getAuthHeaders`; `AuthHeadersIff` states when the bearer header is present |
| Api.AuthHeadersIff | web/src/api/index.ts:56-59 | `{Authorization: 'Bearer ' + token}` exactly when the token is truthy, else no header |
| Api.MergeHeaders | web/src/api/index.ts:122-126 | the three header spreads; `MergeHeadersPrecedence` states the precedence |
| Api.MergeHeadersPrecedence | web/src/api/index.ts:122-126 | merged keys are the union; auth beats caller beats defaults |
| Api.AuthHeaderOverridesCaller | web/src/api/index.ts:122-126 | with a token, `Authorization` is the bearer header whatever the caller passed |
| Api.Prepare | web/src/api/index.ts:115-132 | the URL and config `formatFetchConfig` builds; `PrepareBodyMethods` and `PrepareQueryMethods` state the two method branches |
| Api.PrepareBodyMethods | web/src/api/index.ts:128-129 | PUT/POST keep the URL; the body is `options.body`, else the JSON of the params |
| Api.PrepareQueryMethods | web/src/api/index.ts:119-131 | other methods (GET by default) append the query string and keep the caller's own body |
| Api.Classify | web/src/api/index.ts:145-165 | which branch of `handleError` an error takes; stated case by case in `RejectionValueCases` |
| Api.RejectionValue | web/src/api/index.ts:145-168 | the value `handleError` rejects with; stated in `RejectionValueCases` |
| Api.RejectionValueCases | web/src/api/index.ts:145-168 | the abort, 401 and 5xx branches and their rejection values; only a 5xx replaces the error with `Error(statusText)` |
| Api.CoreOutcome | web/src/api/index.ts:96-113 | how `coreRequest` settles; `CoreOutcomeResolvedIff`, `NonzeroCodeRejectsWithEnvelope` and `FailedStatusClassified` state its cases |
| Api.CoreOutcomeResolvedIff | web/src/api/index.ts:99-107 | a call resolves exactly for an ok response with `code === 0`, and with that envelope |
| Api.NonzeroCodeRejectsWithEnvelope | web/src/api/index.ts:104-106 | a nonzero code rejects with the envelope itself, bypassing `handleError` |
| Api.FailedStatusClassified | web/src/api/index.ts:100-102 | a non-ok response is thrown and classified by its status; a 5xx rejects with `Error(statusText)` |
| Api.DownloadFailureUnauthorized | web/src/api/index.ts:27-33 | a download reaches the 401 branch exactly on a 401 status or a thrown 401 |
| Api.ToPage | web/src/api/index.ts:44-48 | `{data, total: total \|\| 0, success: true}` |
| Api.IndexOf | web/src/api/index.ts:186 | the first occurrence of the pattern at or after the start |
| Api.SecondPiece | web/src/api/index.ts:186 | `split(pat)[1]` exists exactly when the pattern occurs; it is a prefix of the text after the first occurrence, holds no occurrence, and ends at the end of the text or at the next occurrence |
| Api.FileExt | web/src/api/index.ts:202-261 | the table entry for the MIME type, else `.bin` |
| Api.FileExtIsExtension | web/src/api/index.ts:202-261 | every extension is a dot and at least one character |
| Api.DownloadName | web/src/api/index.ts:183-187 | the name `downloadFile` saves under; `DownloadNameChoice` and `TimestampNameRoundTrip` state the choice |
| Api.DownloadNameChoice | web/src/api/index.ts:186-187 | header name, else `defaultName`, else timestamp + extension; never empty |
| Api.TimestampNameRoundTrip | web/src/api/index.ts:187 | the fallback name is the decimal timestamp followed by the extension |
| Api.Dispatcher.constructor | web/src/api/index.ts:51 | the pool starts empty |
| Api.Dispatcher.FormatFetchConfig | web/src/api/index.ts:115-135 | adds one fresh, unaborted controller to the pool and builds the URL and configuration |
| Api.Dispatcher.ReqDelete | web/src/api/index.ts:136-138 | removes exactly that controller from the pool |
| Api.Dispatcher.AbortPool | web/src/api/index.ts:152-156 | every pooled controller ends up aborted; nothing else changes |
| Api.Dispatcher.HandleError | web/src/api/index.ts:145-168 | always rejects; a 401 clears the session and aborts the pool; other branches change nothing |
| Api.Dispatcher.CoreRequest | web/src/api/index.ts:96-113 | settles as `CoreOutcome` of the fetch; the pool afterwards equals the pool before; the 401 effects |
| Api.Dispatcher.ApiRequest | web/src/api/index.ts:7-9 | resolves with `res.data` or rejects with the core rejection; pool restored; the 401 effects |
| Api.Dispatcher.ProTableRequest | web/src/api/index.ts:41-49 | resolves with the table page or rejects with the core rejection; pool restored; the 401 effects |
| Api.Dispatcher.ApiDownload | web/src/api/index.ts:21-37 | an ok response resolves with the download name; a thrown fetch or a non-ok status goes through `handleError`; pool restored |
| Api.UnauthorizedAbortsPending | web/src/api/index.ts:150-156 | a 401 on one call clears the session and aborts the other call in flight |
| RootRoute.BeforeLoad | web/src/routes/__root.tsx:14-43 | the root guard's decision; stated branch by branch in `BeforeLoadDecision` |
| RootRoute.BeforeLoadDecision | web/src/routes/__root.tsx:14-43 | the full decision table: which navigations proceed, and the reason for each of the three redirects |
| RootRoute.BeforeLoadOn | web/src/routes/__root.tsx:14-43 | the guard on the store's state equals `BeforeLoad` over its token and list |
| RootRoute.ForbiddenPageRedirectsToItself | web/src/routes/__root.tsx:33-42 | as written, a signed-in user without `*`, `403:list` or `403:*` is redirected from `/403` to `/403` |
| RootRoute.ForbiddenPageLoopExample | web/src/routes/__root.tsx:33-42 | the loop happens for a user holding `system:user:*` |
| RootRoute.BeforeLoadFixed | web/src/routes/__root.tsx:14-43 | the guard with `/403` and `/404` exempt; `FixedRedirectsSettle` and `FixedAgreesOffErrorPages` state what it changes |
| RootRoute.FixedRedirectsSettle | web/src/routes/__root.tsx:14-43 | with the error pages exempt, every redirect target is let through |
| RootRoute.FixedAgreesOffErrorPages | web/src/routes/__root.tsx:14-43 | the exemption changes nothing off `/403` and `/404` |
| Router.LoginLoader | web/src/router/index.tsx:39-42 | redirects to `/` exactly when a token is present, else null |
| Router.CatchAllLoader | web/src/router/index.tsx:45-49 | `/` with a token, `/login` without |
| Router.CatchAllThenLogin | web/src/router/index.tsx:39-49 | the catch-all sends to login exactly when the login loader renders the page |
| Router.MenuList | web/src/router/index.tsx:64-83 | `getMenuList`; `MenuListWellFiltered`, `WellFilteredFixed` and `MenuListIdempotent` state that it is the permission filter at every depth |
| Router.MenuEntry | web/src/router/index.tsx:64-83 | the filter-map-filter of one item; `MenuEntryShape`, `LeafKeptIff` and `NodeKeptIff` state it |
| Router.MenuEntryShape | web/src/router/index.tsx:64-83 | an item contributes at most itself, keeping path, name, and whether it has children |
| Router.PathlessDropped | web/src/router/index.tsx:67 | items without a path are dropped |
| Router.LeafKeptIff | web/src/router/index.tsx:68-69 | a leaf is kept, unchanged, exactly when its path's code is granted |
| Router.NodeKeptIff | web/src/router/index.tsx:72-82 | a node is kept exactly when some child survives, and then with the filtered children |
| Router.MenuListAppend | web/src/router/index.tsx:64-83 | survivors keep their relative order |
| Router.MenuListShorter | web/src/router/index.tsx:64-83 | the result is never longer than the input |
| Router.MenuListWellFiltered | web/src/router/index.tsx:64-83 | every surviving item has a path, every surviving leaf is granted, every node has non-empty filtered children |
| Router.MenuEntryWellFiltered | web/src/router/index.tsx:64-83 | the same for one item |
| Router.WellFilteredFixed | web/src/router/index.tsx:64-83 | an already filtered menu passes through unchanged |
| Router.WellFilteredItemFixed | web/src/router/index.tsx:64-83 | the same for one item |
| Router.MenuListIdempotent | web/src/router/index.tsx:64-83 | filtering the filtered menu changes nothing |
| Router.EmptyPermissionsHideAll | web/src/router/index.tsx:64-83 | with no codes the menu is empty |
| Router.EmptyPermissionsHideEntry | web/src/router/index.tsx:64-83 | the same for one item |
| Router.GetMenuData | web/src/router/index.tsx:61-86 | the side menu built from the system routes; `GetMenuDataExtremes` states its extremes |
| Router.GetMenuDataExtremes | web/src/router/index.tsx:61-86 | `*` shows the whole system menu; no codes show nothing |
| AuthComponents.AuthWrap | web/src/components/auth/index.tsx:14-20 | the gate; `AuthWrapIff` states when it renders the children |
| AuthComponents.AuthPopconfirm | web/src/components/auth/index.tsx:29-51 | the gated confirmation popover; `WrappersForwardGate` ties it to `AuthWrap` |
| AuthComponents.AuthConfirm | web/src/components/auth/index.tsx:57-74 | the gated confirmation dialog; `WrappersForwardGate` ties it to `AuthWrap` |
| AuthComponents.AuthWrapIff | web/src/components/auth/index.tsx:14-20 | children exactly when granted and not hidden, else the fallback; `hidden` defaults to false, `fallback` to null |
| AuthComponents.HiddenRendersFallback | web/src/components/auth/index.tsx:16-19 | a hidden gate renders only the fallback |
| AuthComponents.WrappersForwardGate | web/src/components/auth/index.tsx:29-74 | both wrappers are visible exactly when `AuthWrap` on the same code and flag is, and then wrap the children |
| AuthComponents.WrappersRenderNullWhenDenied | web/src/components/auth/index.tsx:38-73 | a denied wrapper renders null |
| MoreButton.Visible | web/src/components/button/index.tsx:13-22 | the filter on one child; `VisibleCases` states its cases |
| MoreButton.Survivors | web/src/components/button/index.tsx:12-22 | the children the filter keeps; `SurvivorsAppend` states that order is kept |
| MoreButton.MoreButton | web/src/components/button/index.tsx:11-36 | the dropdown items or null; `MoreButtonItems` states both cases |
| MoreButton.Keyed | web/src/components/button/index.tsx:23-26 | each survivor keyed by its own key, or its index among the survivors |
| MoreButton.VisibleCases | web/src/components/button/index.tsx:13-22 | hidden excluded; a coded child needs its code; an uncoded one is shown |
| MoreButton.MoreButtonItems | web/src/components/button/index.tsx:11-36 | null exactly when nothing is visible; otherwise the items are exactly the visible children, in order, with their keys |
| MoreButton.SurvivorsAppend | web/src/components/button/index.tsx:12-22 | survivors keep their relative order |
| MenuTree.ForestUnique | web/src/api/system/menu/index.ts:42-52 | the tree specification determines one forest below a parent |
| MenuTree.ExtendShrinks | web/src/api/system/menu/index.ts:46 | each recursive call has one fewer unvisited id: the recursion terminates |
| MenuTree.BuildTree | web/src/api/system/menu/index.ts:42-52 | the result is the forest below `parentId`: one node per child item in list order, each with its own forest |
| MenuTree.BuildNodes | web/src/api/system/menu/index.ts:45-51 | one node per item, holding the item, with the correct children |
| MenuTree.BuildNode | web/src/api/system/menu/index.ts:46-50 | `children` is null for no children, else the non-empty forest; fields copied unchanged |
| MenuTree.BuildMenuTree | web/src/api/system/menu/index.ts:42-52 | the forest below parent 0 |
| MenuTree.BuildMenuTreeTopLevel | web/src/api/system/menu/index.ts:42-49 | the top level is exactly the items with `parentId === 0`, in order; `children` is null exactly when there are none |
| MenuTree.ForestRooted | web/src/api/system/menu/index.ts:42-52 | everything in a forest below a reachable item is reachable |
| MenuTree.UnreachableNeverAppears | web/src/api/system/menu/index.ts:42-52 | items not reachable from parent 0, such as orphans and cycles, never appear |
| MenuTree.GetTableData | web/src/api/system/menu/index.ts:7-17 | only `data` is replaced, by the tree; `total` and `success` are kept |
| MenuTree.GetOptions | web/src/api/system/menu/index.ts:35-39 | `{label: 'Root', value: 0}` first, then the fetched options unchanged |
| WebEmbed.IsStaticResourcePath | src/core/web_embed.rs:31-50 | static-path classification; `StaticResourceIff` states it without the loop over prefixes |
| WebEmbed.StaticResourceIff | src/core/web_embed.rs:31-50 | static exactly when the path has a dot or a static prefix; otherwise a route |
| WebEmbed.TrimLeadingSlashes | src/core/web_embed.rs:21 | removes exactly the leading slashes |
| WebEmbed.TrimLeadingSlashesAbsorbs | src/core/web_embed.rs:21 | trimming is idempotent and absorbs one more slash |
| WebEmbed.ContentType | src/core/web_embed.rs:141-172 | the table entry of the lower-cased last dot segment, else octet-stream |
| WebEmbed.LastDotSegment | src/core/web_embed.rs:142 | the extension used for the content type; `LastDotSegmentOf` characterises it |
| WebEmbed.LastDotSegmentOf | src/core/web_embed.rs:142 | `split('.').last()` is the text after the last dot, or the whole path without one |
| WebEmbed.ContentTypeByExtension | src/core/web_embed.rs:141-172 | the lookup is case-insensitive in the extension |
| WebEmbed.LowerIdempotent | src/core/web_embed.rs:143 | lower-casing twice is lower-casing once |
| WebEmbed.ValidUtf8 | src/core/web_embed.rs:107 | `String::from_utf8(...).is_ok()` as RFC 3629's grammar; `AsciiIsValidUtf8` and `StrayContinuationInvalid` are instances |
| WebEmbed.SequenceLength | src/core/web_embed.rs:107 | the length of the well-formed UTF-8 sequence at the front (RFC 3629, section 4) |
| WebEmbed.AsciiIsValidUtf8 | src/core/web_embed.rs:107 | ASCII bytes are valid UTF-8 |
| WebEmbed.StrayContinuationInvalid | src/core/web_embed.rs:107 | a lone continuation byte is not valid UTF-8 |
| WebEmbed.IndexResponse | src/core/web_embed.rs:104-138 | 200 HTML: the embedded index, empty when not UTF-8, or the built-in page |
| WebEmbed.Handler | src/core/web_embed.rs:17-28 | `web_embed_file_handler`; `DisabledAnswers404`, `EnabledStatusIff` and `SlashesIrrelevant` state its answers |
| WebEmbed.DisabledAnswers404 | src/core/web_embed.rs:23-28 | disabled: 404 "Web is disabled" for every path |
| WebEmbed.EnabledStatusIff | src/core/web_embed.rs:17-101 | enabled: 404 exactly for a missing static file other than the index; else 200 |
| WebEmbed.ServeEmbeddedFiles | src/core/web_embed.rs:53-101 | `serve_embedded_files`; `ServeStatusIff`, `RoutesServeIndex`, `StaticHit` and `StaticMiss` state its answers |
| WebEmbed.ServeStatusIff | src/core/web_embed.rs:53-101 | the same per trimmed path |
| WebEmbed.RoutesServeIndex | src/core/web_embed.rs:57-60 | every route gets the same answer as the root: the index |
| WebEmbed.StaticHit | src/core/web_embed.rs:66-85 | an embedded static file: 200, its content type and the one-week cache header |
| WebEmbed.StaticMiss | src/core/web_embed.rs:86-94 | a missing static file: `File not found: {path}` |
| WebEmbed.SlashesIrrelevant | src/core/web_embed.rs:21-22 | `/a.js`, `//a.js` and `a.js` get the same answer |
| TimeUtils.TruncDiv | src/common/utils/time.rs:36-43 | Rust's division truncating toward zero: the remainder has the sign of the dividend and is smaller than the divisor |
| TimeUtils.FormatDuration | src/common/utils/time.rs:19-31 | `format_duration`; `FormatDurationOfParts` states it for every split into days, hours, minutes and seconds |
| TimeUtils.DurationComponentBounds | src/common/utils/time.rs:20-22 | hours below 24, minutes below 60 |
| TimeUtils.FormatDurationOfParts | src/common/utils/time.rs:19-31 | for `d` days, `h` hours, `m` minutes, `r` seconds: days and hours, or hours and minutes, or minutes; `r` dropped |
| TimeUtils.FormatDurationUnderAMinute | src/common/utils/time.rs:28-30 | 0 to 59 seconds give `0分钟` |
| TimeUtils.RelativeTime | src/common/utils/time.rs:34-47 | `relative_time`; `RelativeTimeCases` states which unit is named |
| TimeUtils.RelativeTimeCases | src/common/utils/time.rs:34-47 | the largest whole unit is named; `刚刚` exactly under a minute, the future included |
| LocalStore.KeyedStore.constructor | web/src/stores/useLocalStore.ts:10-18 | the record starts empty |
| LocalStore.KeyedStore.Update | web/src/stores/useLocalStore.ts:12-16 | the key gets the value; every other key is unchanged |
| LocalStore.KeyedStore.Read | web/src/stores/useLocalStore.ts:26 | the stored value, or the default for a missing key |
| LocalStore.LocalValue.constructor | web/src/stores/useLocalStore.ts:25 | `defaultValue` is `''` when not given |
| LocalStore.LocalValue.Value | web/src/stores/useLocalStore.ts:26 | the hook's value is the stored one or its default |
| LocalStore.LocalValue.Set | web/src/stores/useLocalStore.ts:29 | the setter writes under the hook's own key |
| LocalStore.UpdatesCommute | web/src/stores/useLocalStore.ts:12-16 | updates of distinct keys commute; the same key overwrites |
| LocalStore.TwoHooks | web/src/stores/useLocalStore.ts:25-30 | hooks on one key share writes; other keys and unset keys read their defaults |
| QueryKey.NameParts | web/src/integrations/react-query.ts:7 | the names in order |
| QueryKey.CreateQueryKey | web/src/integrations/react-query.ts:6-9 | `createQueryKey`; `CreateQueryKeyShape` and `CreateQueryKeyDistinguishesParams` state its result |
| QueryKey.CreateQueryKeyShape | web/src/integrations/react-query.ts:6-9 | a string key becomes `[key]`, an array is kept; truthy params appended last |
| QueryKey.CreateQueryKeyDistinguishesParams | web/src/integrations/react-query.ts:8 | different truthy params give different keys; all falsy params share the base key |
| QueryKey.SingleIsOneElementArray | web/src/integrations/react-query.ts:7 | `key` and `[key]` give the same list |

## Left out

- Persistence: zustand `persist`, the browser's `localStorage` and rehydration are not modelled. Both stores are in-memory state.
- `fetch`, `response.json()`, `JSON.stringify` and the `URLSearchParams` encoder are parameters. The blob of `response.blob()` is part of the response, and reading it always succeeds. The server's JSON bodies are either an envelope or a parse failure.
- Header names are compared as exact strings. The Fetch API's case-insensitive header merging is not modelled.
- The DOM download (`createObjectURL`, the anchor click), `messageApi` and `console` have no effect on the result and are left out.
- Promise interleaving and abort timing are not modelled. A call's fetch happens inside its own method, and concurrent calls appear only as controllers already in the pool.
- `swrFetcher` and the thin URL wrappers of the other API services are left out. The menu service's `create`, `update` and `delete` are such wrappers too.
- `calculatePercent` and `convertUnit` use floating point and are left out.
- The Rust backend's services, JWT handling, database access and configuration are left out. A user's permission list is simply an input.
- The content-disposition header is split naively, as the source does. RFC 6266 quoting is not modelled.
- `getFileExt` looks the MIME type up in an object literal. A prototype key such as `constructor` would return a non-string there, and that is not modelled.
- JavaScript truthiness is modelled for strings, booleans, integers, objects and arrays. NaN and -0 are not modelled.
- `include_dir`'s `get_file` is an exact lookup in the embedded map. Its path normalisation is not modelled.
- `WebEmbed.ContentType`: Rust's `to_lowercase` is modelled as ASCII lower-casing. It differs only on non-ASCII extensions, none of which are in the table.
- Clocks are parameters. `Date.now()` is the `now` of `Api.DownloadName`. The time difference of `relative_time` is given as whole seconds, and `chrono`'s sub-second part is dropped.
- `MenuTree.BuildMenuTree` requires distinct item ids, none of them 0. The server's primary keys always satisfy this.
  - The requires is stronger than termination needs. Some lists it excludes still terminate in the source, such as two items `{id: 1, parentId: 0}` (both get `children: null`), or lists whose repeated or zero ids cannot be reached from 0 (`{id: 5, parentId: 5}`). The model does not cover those lists.
  - The source fails only when an item reachable from 0 has id 0, or has the same id as one of its own ancestors. Then the recursion revisits that id without end, until JavaScript throws a stack-overflow `RangeError`, which rejects `getTableData`'s promise. That failure is not modelled.
- `Api.Dispatcher.ApiDownload`: a failing blob read is not modelled. `downloadFile` is returned without `await` inside the `try`, so when `response.blob()` rejects, the `catch` does not run. `apiDownload` then rejects with the raw error, with no `handleError`, no message and no 401 handling. By then `finally` has already removed the controller from the pool. The model's ok response always resolves with the file name.
- `LocalStore.KeyedStore`: the source keeps the `update` action in the same record as the values. A value stored under the key `update` would replace the action. The model keeps the action separate.
  - Reading a key the record does not hold, but that the record inherits, such as `toString` or `constructor`, gives that inherited function in the source, not the default. No caller uses such a key, and the model returns the default.
- The React rendering of the gates (`Popconfirm`, the `span` with its click handler, the `Dropdown`) is reduced to the element that is rendered, or null.

## Findings

| source | as written | input that shows it | evidently intended | confidence | as-written member | corrected member |
|---|---|---|---|---|---|---|
| web/src/routes/__root.tsx:33-42 | only `/` and `/login` bypass the permission check, so `/403` is checked against `403:list` | a signed-in user whose list is `["system:user:*"]` opens a page they may not see: the guard redirects to `/403`, which redirects to `/403` again | the forbidden page (and `/404`) stays reachable for every signed-in user | medium (not executed) | RootRoute.ForbiddenPageRedirectsToItself | RootRoute.FixedRedirectsSettle |
