# Session store, request envelope and commit helper of the device dashboard

This Dafny project models the three parts of the dashboard client that carry logic:

- **The auth store** (`Auth`, `auth.dfy`). A class `AuthStore` holds four fields: the in-memory `token`, the `userInfo` record (`userId`, `userName`, `roles`, `buttons`), the `loading` flag of a login attempt, and the persisted key/value `storage`. Its methods are `Login`, `LoginByToken`, `ResetStore`, `GetUserInfo` and `InitUserInfo`; `StartUp` creates the store and runs `InitUserInfo`, as the application does when it starts. The derived flags are `IsLogin` and `IsStaticSuper`. The store's requests to other components are appended to a ghost log of `Effect`s: error message, success notification, navigation, `toLogin`, tab cache, route-store reset, loading start/end and the login request. `ResetStore` and `Login` are proved against functions on `Session` values (`Reset`, `LoginState`, `ResetEffects`, `LoginEffects`), and the lemmas beside those functions state what the store promises. `LoginByToken`, `GetUserInfo`, `InitUserInfo` and the constructor state their effect on the fields directly. `Consistent` (the in-memory token is the creation-time token or is persisted under both keys, and no login is in flight) is a property the constructor, `ResetStore` and `Login` are proved to establish; no operation needs it as a precondition.
- **The request layer** (`Request`, `request.dfy`). The request interceptor rewrites `config.data` of a GET request in place, through the `RequestConfig` class. The response interceptor turns a `{ status, message, data }` envelope into a resolved `data` or a rejection. The error interceptor passes transport errors on unchanged. `request(config)` composes these and adds nothing.
- **The Conventional Commits helper** (`GitCommit`, `git_commit.dfy`). It builds the padded menu labels, the `!` breaking marker, the normalised description and the header `type(scope)!: description` (items 1, 4 and 13 of the Conventional Commits 1.0.0 specification). A header reader, `ParseHeader`, is proved to recover every field of the assembled message, provided the chosen type contains no `(` and the chosen scope no `)` (the reader splits at the first of each).

`Wrappers` (`wrappers.dfy`) holds `Option`, `Result` and `MessageOr`, the JavaScript `message || fallback` idiom both the store and the request layer use.

Collaborators and assumptions:

- The login gateway's answer (`LoginReply`) and the current route's `constant` flag are parameters of the operations.
- The HTTP transport and `JSON.stringify` are function parameters.
- `getToken()` (from the `./shared` module, which is not part of this model) is modelled as `StoredToken`: the value persisted under `token`, or "" when there is none. The constructor reads the creation-time token, `initialToken`, from the storage it is given.
- `$reset` comes from a store plugin that is not part of this model. It is modelled as restoring the creation-time state: that token, an empty user record and `loading = false`. `loginLoading` is a returned ref, so it belongs to the store's state.
- `clearAuthStorage` (also in `./shared`) is modelled as removing the two keys this file writes, `token` and `refreshToken`.

Behaviour of the store worth knowing:

- A reset sets the in-memory token back to the token read at creation, not to "". A store created with a stored token therefore still reports `isLogin` after a reset, while storage no longer holds a token (`LoginFailureState`, `ConsistentAfterOperations`).
- The store writes no username key. `initUserInfo` restores nothing but keeps the token read at creation, so `InitUserInfo` changes nothing, and the reset only removes `token` and `refreshToken`.
- An envelope with status 1 but no `data` makes the access to `data.Authorization` throw. The catch block then shows the default message and resets.

## Model

| member | source | states |
|---|---|---|
| `Auth.AuthStore.constructor` | src/store/modules/auth/index.ts:22-29 | the store starts with the token `getToken()` reads from the given storage (also kept as `initialToken`), an all-empty user record, not loading, and satisfies `Consistent` |
| `Auth.AuthStore.IsLogin` | src/store/modules/auth/index.ts:39 | logged in exactly when the in-memory token is non-empty |
| `Auth.IsStaticSuperRole` | src/store/modules/auth/index.ts:32-36 | super user exactly when the route mode is `static` and the roles include the configured super role; never under another route mode |
| `Auth.AuthStore.IsStaticSuper` | src/store/modules/auth/index.ts:32-36 | the store's flag is that condition over its current roles |
| `Auth.StoredToken` | src/store/modules/auth/index.ts:141 | `getToken()`: the value persisted under `token`, or "" when no such key is stored |
| `Auth.ClearAuthStorage` | src/store/modules/auth/index.ts:45 | `token` and `refreshToken` are gone, every other key keeps its value, and no key is added |
| `Auth.Reset` | src/store/modules/auth/index.ts:42-55 | after a reset: the creation-time token, an empty user record, not loading, auth keys cleared |
| `Auth.AuthStore.ResetStore` | src/store/modules/auth/index.ts:42-55 | the new state is `Reset` of the old one; the log gains `toLogin` only off a constant route, then always the tab cache and route-store reset; `Consistent` holds afterwards |
| `Auth.ResetIdempotent` | src/store/modules/auth/index.ts:42-55 | resetting twice leaves the same state as resetting once |
| `Auth.ResetDropsStaticSuper` | src/store/modules/auth/index.ts:24-36 | after a reset nobody is a static super user, whatever the configuration |
| `Auth.Accepted` | src/store/modules/auth/index.ts:68-70 | a reply counts as success exactly when it is an envelope with status 1 that carries data |
| `Auth.FailureText` | src/store/modules/auth/index.ts:97-105 | a failed login's message is the server's message when a rejected envelope has a non-empty one; the default `登录失败` for a rejected envelope with an absent or empty message, for a raised error and for status 1 without data; it is never empty |
| `Auth.AuthStore.Login` | src/store/modules/auth/index.ts:64-108 | the new state is `LoginState` of the old one and the log gains exactly `LoginEffects`, whatever `redirect` is; `Consistent` holds afterwards |
| `Auth.AuthStore.Settle` | src/store/modules/auth/index.ts:68-105 | handling the reply leaves `LoginState` of the old state (apart from the loading flag) and appends exactly `OutcomeEffects` to the log |
| `Auth.AuthStore.SucceedLogin` | src/store/modules/auth/index.ts:71-96 | the success branch sets the token, both persisted keys and the user id, roles and name, and asks for `/home` and the welcome notification |
| `Auth.AuthStore.FailLogin` | src/store/modules/auth/index.ts:97-105 | a failure branch shows one error message and then runs the whole reset |
| `Auth.LoginSuccessState` | src/store/modules/auth/index.ts:70-87 | on success: token = `Authorization`, both persisted keys = `Authorization`, other keys kept, `userId` from the answer, roles = permissions or `[]`, `userName` = the argument, `buttons` untouched, not loading, and logged in exactly when `Authorization` is non-empty |
| `Auth.LoginSuccessEffects` | src/store/modules/auth/index.ts:87-96 | on success the only navigation is to `/home`, the welcome names the user, no error is shown and no reset runs |
| `Auth.LoginFailureState` | src/store/modules/auth/index.ts:97-105 | a rejected envelope, a raised error and a status-1 envelope without data all end in the reset state |
| `Auth.LoginFailureEffects` | src/store/modules/auth/index.ts:97-105 | a failure shows exactly one error, carrying the failure text, then the reset's effects; no welcome and no `/home` |
| `Auth.LoginLoadingBrackets` | src/store/modules/auth/index.ts:64-108 | loading is started first and ended last on every path, and nowhere in between |
| `Auth.LoginStaticSuper` | src/store/modules/auth/index.ts:83-85 | after a successful login the user is a static super user exactly when routes are static and the returned permissions include the super role |
| `Auth.ConsistentAfterOperations` | src/store/modules/auth/index.ts:71-78 | after a login or a reset, the in-memory token is the creation-time token or is persisted under both token keys, and no login is in flight |
| `Auth.AuthStore.LoginByToken` | src/store/modules/auth/index.ts:110-117 | both tokens are persisted, the in-memory token is set, nothing else changes, and it reports success |
| `Auth.AuthStore.GetUserInfo` | src/store/modules/auth/index.ts:128-131 | the user-info check always passes |
| `Auth.AuthStore.InitUserInfo` | src/store/modules/auth/index.ts:140-150 | start-up restoration changes no state and makes no request (no gateway call, no reset), with or without a stored token |
| `Auth.StartUp` | src/store/modules/auth/index.ts:140-150 | a store created over the persisted storage and then restored holds the stored token, an empty user record and the storage unchanged; the user is logged in exactly when a non-empty token is stored, with no gateway call and no reset |
| `Wrappers.MessageOr` | src/utils/request.ts:40-41 | a present non-empty message is used as is; an absent or empty one gives the fallback; a non-empty fallback gives a non-empty result |
| `Request.SerialiseGetData` | src/utils/request.ts:24-28 | a GET request with a truthy body gets its body replaced by the serialised form; every other configuration is handed on unchanged; method and url never change |
| `Request.InterceptRequest` | src/utils/request.ts:22-29 | the interceptor updates the given configuration object in place as `SerialiseGetData` says and returns that same object |
| `Request.OnResponse` | src/utils/request.ts:37-44 | resolves exactly when status is 1, and then to the envelope's `data` without a toast; otherwise rejects with the server message or `请求失败`, and shows that same non-empty text |
| `Request.OnResponseError` | src/utils/request.ts:45-48 | a transport error is rejected unchanged; its message is shown when present and non-empty, and `请求失败` otherwise |
| `Request.Service` | src/utils/request.ts:21-49 | a call shows a toast exactly when it is rejected, and the toast of a status rejection is the rejection's message |
| `Request.Request` | src/utils/request.ts:51-57 | `request` resolves with `data` exactly when the transport delivered status 1; otherwise it rejects with the status message or with the transport error itself |
| `GitCommit.PadEnd` | packages/scripts/src/commands/git-commit.ts:25 | `padEnd` keeps the text as a prefix, adds only spaces, and reaches the target UTF-16 length or leaves a longer text as is |
| `GitCommit.TypeLabel` | packages/scripts/src/commands/git-commit.ts:22-31 | a type label is `value:`, then spaces, then the explanation, which starts at UTF-16 column 12, or right after the colon when `value:` is longer |
| `GitCommit.ScopeLabel` | packages/scripts/src/commands/git-commit.ts:33-36 | a scope label is the value, then spaces up to UTF-16 column 30, or none when the value is longer, then ` (msg)` |
| `GitCommit.TypeChoices` | packages/scripts/src/commands/git-commit.ts:22-31 | one choice per locale pair, in order; each choice's name is its value and its message is the type label |
| `GitCommit.ScopeChoices` | packages/scripts/src/commands/git-commit.ts:33-36 | one choice per locale pair, in order; each choice's name is its value and its message is the scope label |
| `GitCommit.LabelsStartWithName` | packages/scripts/src/commands/git-commit.ts:22-36 | every label in either menu begins with the value its choice answers with |
| `GitCommit.BreakingMarker` | packages/scripts/src/commands/git-commit.ts:58 | the marker is `!` exactly when the typed description starts with `!`, and empty otherwise |
| `GitCommit.StripLeadingBang` | packages/scripts/src/commands/git-commit.ts:60 | the marker followed by the stripped text gives back the typed text, so at most one leading `!` is removed |
| `GitCommit.Trim` | packages/scripts/src/commands/git-commit.ts:60 | `trim()` leaves no JavaScript whitespace or line terminator at either end |
| `GitCommit.TrimStartDropsWhitespace` | packages/scripts/src/commands/git-commit.ts:60 | what the leading half of `trim()` drops is whitespace only |
| `GitCommit.TrimKeepsInnerPiece` | packages/scripts/src/commands/git-commit.ts:60 | `trim()` removes only whitespace, and what it keeps is a contiguous piece of the input |
| `GitCommit.TrimIdempotent` | packages/scripts/src/commands/git-commit.ts:60 | trimming twice is trimming once |
| `GitCommit.Description` | packages/scripts/src/commands/git-commit.ts:60 | the normalised description has no whitespace at either end and is no longer than the typed text minus the marker |
| `GitCommit.LeadingWhitespaceKeepsBang` | packages/scripts/src/commands/git-commit.ts:58-60 | whitespace before `!` means no breaking marker, and the `!` stays as the first character of the description |
| `GitCommit.TrimKeepsLeadingBang` | packages/scripts/src/commands/git-commit.ts:60 | trimming a text that starts with `!` keeps that `!` first |
| `GitCommit.CommitMessage` | packages/scripts/src/commands/git-commit.ts:58-62 | the message is the type, the scope in parentheses, `!` exactly when the description was typed with a leading `!`, then `: ` and the normalised description, with nothing else in between |
| `GitCommit.HeaderRoundTrip` | packages/scripts/src/commands/git-commit.ts:62 | a header laid out as `type(scope)` + optional `!` + `: ` + description is read back field for field when the type has no `(` and the scope no `)` |
| `GitCommit.CommitHeaderRoundTrip` | packages/scripts/src/commands/git-commit.ts:58-62 | the assembled commit message reads back as the chosen type and scope, breaking exactly when the marker is `!`, and the normalised description |
| `GitCommit.GitCommitVerify` | packages/scripts/src/commands/git-commit.ts:68-70 | the verify hook always returns true |

## Left out

- Auth.AuthStore.InitUserInfo: the reset after a failed user-info check (src/store/modules/auth/index.ts:146-148) cannot run while `getUserInfo` always passes. The model marks that branch unreachable and does not call the reset there.
- Auth.AuthStore.Login: the failure paths call `resetStore()` without awaiting it. When the route is not constant, `toLogin` starts before loading ends, but the tab-cache and route-store resets happen after `endLoading`. The model runs every operation to completion, so the reset's effects come before `LoadingEnded`. Overlapping `login` calls are not modelled either.
- `fetchGetUserInfo` and the commented-out user-info fetch and `loginByToken` check are not part of this model. The source does not run them.
- `console.log`/`console.error`, the `$t` message templates and the notification duration are left out. The success notification is recorded with the user name only.
- `window.$notification` and `window.$message` are assumed to be mounted. With optional chaining, an unmounted one would silently skip the message.
- Login replies are modelled only to the extent the store reads them. `status` is an integer, and `permissions` is present or absent. Other shapes, such as a string status or non-array permissions, are not modelled.
- The interactive prompt (`enquirer`) and the `git commit` subprocess are left out. The locale lists of types and scopes are inputs.
- `JSON.stringify` is an opaque function parameter. Body numbers are integers, so the falsiness of `NaN` and `-0` is not modelled.
- axios transport, timeouts, headers and base URL are left out. Delivery is a function parameter. axios lower-cases `method` before interceptors run, and the model takes the method as the interceptor sees it.
- The request interceptor's error handler (src/utils/request.ts:30-32) only passes the error on. No earlier interceptor exists that could reject, so it is not modelled.
- The `ElMessage` toast is recorded as the text shown. Its presentation is not modelled.
