# Session and authorisation core of a hotel back-office client

This project models the client-side session core of a Vue back-office application for hotel staff. The core has four pieces:

- **Auth store** (`Auth`). It holds the session `token` and `user` in memory and mirrors them into the `localStorage` keys `token` and `user`. It derives the getters `isAuthenticated`, `isSuperuser`, `hotelName`, `userFullName` and `username`. It has two actions. `login` either stores the response's token and user, or runs `logout` on any failure. `logout` clears both fields and both keys.
- **Request interceptor** (`Api`). Before every API request it reads the store's current token. If the token is truthy, it sets the `Authorization` header to `Token <token>`.
- **Router** (`Router`). It holds the constant route table and the global `beforeEach` guard. The guard sends a target whose `meta.requiresAuth` is truthy to `/login` when the session is not authenticated, and lets every other navigation proceed.
- **Notification store** (`Notifications`). It is an ordered list of notification objects. `addNotification` appends `{ ...payload, id }`. `removeNotification(id)` splices out the first entry with that id. Each entry removes itself 3 s after being added.

Supporting modules:

- `Std` holds `Option` and `Result`.
- `Json` holds JavaScript values, truthiness and optional property access `?.`. It also holds `Codec`, which stands for the pair `JSON.stringify`/`JSON.parse`.
- `Storage` models `localStorage` as a class with a string map.

What is modelled, and how:

- The network exchange inside `login` is an input: `Response` is either `Success(token, user)` or `Failure`. In `Success`, `user` is `Undefined` when the response has no `user` field.
- JSON text is not modelled. A store is built with a `Codec`, and the lemmas that reload a session assume `Lawful(codec)`. That predicate says three things. Parsing yields only JSON values. The text "null" parses to `null`. The text "undefined" does not parse. `LawfulIsSatisfiable` exhibits a codec that meets it. The round trip "parsing the stringified user gives it back" is required only for the user `ReloadAfterLogin` reloads. It is not required for every value: JSON text cannot tell apart every real number.
- The state initialiser is `Auth.Restore`. It returns `Err` when the stored `user` text does not parse, because the source does not guard `JSON.parse` there. The store's constructor requires that initialisation does not throw.
- Each notification's 3 s timer is modelled as a later call to `RemoveNotification(id)`, made by the caller. The two orders of events are shown by `AddThenExpire` and `DismissThenTimer`.
- The id that `Date.now() + Math.random()` produces is supplied by the caller, and must be fresh.

Some behaviour of the code is proved as it is written, and differs from a cleaner session design:

- The guard has no superuser check and no special case for the login page. The login page is safe only because its route record has no `meta`.
- `user` is not tied to `token`. A success response with an empty token leaves a user in memory in an unauthenticated session (`UserWithoutAuthenticationReachable`).
- A stored `user` text that does not parse makes the store's initialisation throw. It does not degrade to `null`.
- A success response without `user` stores the text "undefined". The next initialisation then throws (`UserMissingBreaksReload`).

## Model

| member | source | states |
|---|---|---|
| `Auth.Restore` | src/stores/auth.js:6-9 | initial `token` is `null` or the stored non-empty text, never ""; initial `user` is the parse of the stored `user` text (of "null" when absent), replaced by `null` when falsy, so it is `null` or truthy; initialisation throws exactly when that text does not parse |
| `Auth.Session.IsAuthenticated` | src/stores/auth.js:12 | true only for a non-empty token string; false for `null` and "" |
| `Auth.Session.IsSuperuser` | src/stores/auth.js:13 | true only when `user` is an object carrying `is_superuser`; false for a `null` or `undefined` user |
| `Auth.Session.HotelName` | src/stores/auth.js:15 | the `hotel_name` field of an object user; `undefined` when `user` is not an object or has no `hotel_name` field |
| `Auth.Session.UserFullName` | src/stores/auth.js:16 | the `full_name` field of an object user; `undefined` when `user` is not an object or has no `full_name` field |
| `Auth.Session.Username` | src/stores/auth.js:17 | the `username` field of an object user; `undefined` when `user` is not an object or has no `username` field |
| `Json.StoredText` | src/stores/auth.js:34 | `setItem` of `JSON.stringify(user)` stores the stringified user, and the text "undefined" when `user` is undefined |
| `Json.LawfulIsSatisfiable` | src/stores/auth.js:9 | the properties of `JSON.parse` that the reload lemmas assume can all hold at once, so those lemmas are not vacuous |
| `Auth.AuthStore.constructor` | src/stores/auth.js:6-9 | a new store's state is what `Restore` gives for the storage it reads |
| `Auth.AuthenticatedIffNonEmptyToken` | src/stores/auth.js:12 | `isAuthenticated` holds exactly when `token` is a non-empty string; it is false for `null` and "" |
| `Auth.SuperuserNeedsTrueFlag` | src/stores/auth.js:13 | `isSuperuser` holds exactly when `user` is an object whose `is_superuser` is the boolean `true`; it is false for a `null` user |
| `Auth.ProfileGettersReadUser` | src/stores/auth.js:15-17 | `hotelName`, `userFullName` and `username` are the matching fields of an object `user`, and `undefined` when `user` is not an object or lacks that field |
| `Auth.RestoreWithoutUserKey` | src/stores/auth.js:9 | with no stored `user` key, initialisation succeeds and `user` is `null` |
| `Auth.RestoreRejectsCorruptUser` | src/stores/auth.js:9 | stored `user` text that does not parse makes initialisation fail; it does not become `null` |
| `Auth.AfterLogin` | src/stores/auth.js:29-41 | after a successful login the fields equal the response's token and user; after a failed one both are `null`, whatever the state before |
| `Auth.StoredAfterLogin` | src/stores/auth.js:33-38 | a successful login writes the token under `token` and the stringified user under `user`; a failed login leaves storage as `logout` does |
| `Auth.ClearSession` | src/stores/auth.js:46-47 | `logout` removes exactly the keys `token` and `user` and keeps every other entry and its value |
| `Auth.AuthStore.Login` | src/stores/auth.js:20-42 | returns true exactly on success; the new state is `AfterLogin(response)` and the new storage is `StoredAfterLogin(old storage, response)` |
| `Auth.AuthStore.Logout` | src/stores/auth.js:43-48 | unconditionally sets both fields to `null` and removes both keys, and nothing else |
| `Auth.FailedLoginSignsOut` | src/stores/auth.js:37-41 | a failed login leaves an unauthenticated, non-superuser session and neither storage key |
| `Auth.LogoutIdempotent` | src/stores/auth.js:43-48 | running `logout` twice leaves the same storage as running it once |
| `Auth.ReloadAfterLogin` | src/stores/auth.js:29-35 | after a successful login with a JSON user that parses back from its stringified form, reloading gives back the token (`null` if it was "") and the user (`null` if it was falsy), and all five getters agree with the in-memory session |
| `Auth.ReloadAfterLogout` | src/stores/auth.js:44-47 | after `logout`, reloading gives the signed-out session whatever else storage holds |
| `Auth.UserMissingBreaksReload` | src/stores/auth.js:30-34 | a success response without `user` stores "undefined", and the next initialisation throws |
| `Auth.UserWithoutAuthenticationReachable` | src/stores/auth.js:29-30 | a success response with an empty token and a truthy user leaves a user in memory while the session is unauthenticated |
| `Api.Credential` | src/api.js:14 | the header value is "Token " followed by the token |
| `Api.WithCredentials` | src/api.js:13-15 | with a truthy token, `Authorization` is exactly `Token <token>`; with `null` or "" the headers are unchanged; headers other than `Authorization` are never altered |
| `Api.Intercept` | src/api.js:10-17 | returns the same config object; its headers become `WithCredentials` of the old headers and the current token; other config fields and the session are unchanged |
| `Api.WithCredentialsIdempotent` | src/api.js:14 | applying the interceptor twice with the same token gives the headers of one application |
| `Api.CredentialIffAuthenticated` | src/api.js:13-14 | a request without an `Authorization` header gets one exactly when the session is authenticated |
| `Api.NoCredentialWhenSignedOut` | src/api.js:13 | in the state that `logout` or a failed login leaves, the interceptor changes no header |
| `Api.RequestAfterLogout` | src/api.js:11-13 | the token is read at request time: a request made after `logout` leaves with its headers and fields as they were |
| `Router.RequiresAuth` | src/router/index.js:50 | `to.meta.requiresAuth` counts exactly when the key is present and its value is truthy |
| `Router.Guard` | src/router/index.js:48-55 | the guard redirects to `/login` exactly when the target's `requiresAuth` is truthy and the session is unauthenticated, and proceeds otherwise; it makes exactly one decision on every input |
| `Router.AuthenticatedProceedsEverywhere` | src/router/index.js:50-53 | an authenticated session is allowed to every target |
| `Router.OpenTargetProceeds` | src/router/index.js:50-53 | a target without a truthy `requiresAuth` is allowed in every session |
| `Router.GuardIgnoresAllButAuthentication` | src/router/index.js:48-55 | the decision depends on the session only through `isAuthenticated`, so there is no superuser branch; the only redirect is to `/login` |
| `Router.LoginRouteNeverRedirects` | src/router/index.js:23 | the `/login` record has no meta, so every session may reach it and the guard cannot loop |
| `Router.NamedRoutesRequireAuth` | src/router/index.js:22-40 | every named record except `Login` has meta `{ requiresAuth: true }`; the unnamed records are bare redirects |
| `Router.ProtectedPagesRedirectAnonymous` | src/router/index.js:24-38 | an unauthenticated session is redirected to `/login` from every named page except `Login` |
| `Router.RouteNamesDistinct` | src/router/index.js:22-40 | route names in the table are pairwise distinct |
| `Notifications.MakeEntry` | src/stores/notification.js:10 | the pushed object has the payload's fields plus `id`, and the generated id overrides any `id` in the payload |
| `Notifications.HasId` | src/stores/notification.js:19 | `n.id === id` holds exactly when the entry has an `id` field equal to the number `id` |
| `Notifications.FindIndex` | src/stores/notification.js:19 | returns -1 exactly when no entry has the id; otherwise returns the index of the first entry with it, the same index `FirstIndex` gives |
| `Notifications.RemoveFirst` | src/stores/notification.js:19-21 | removal shortens the list by one exactly when some entry has the id |
| `Notifications.FirstIndex` | src/stores/notification.js:19 | when some entry has the id, the result is the index of the first such entry |
| `Notifications.RemoveAbsentIsIdentity` | src/stores/notification.js:19-22 | removing an id that no entry has leaves the list unchanged |
| `Notifications.FirstIndexIsUnique` | src/stores/notification.js:19 | an index holding the id with no earlier entry holding it is the one `FirstIndex` gives |
| `Notifications.RemoveFirstIsSplice` | src/stores/notification.js:19-21 | removing a present id is `splice(index, 1)` at its first index: exactly that entry goes, and the others keep their order |
| `Notifications.RemoveFirstDeletesFirstMatch` | src/stores/notification.js:18-23 | `removeNotification` is a no-op for an absent id, and otherwise deletes exactly the first entry with the id |
| `Notifications.RemoveKeepsOtherEntries` | src/stores/notification.js:18-23 | every entry with a different id survives a removal, so a late timer removes only an entry carrying its own id |
| `Notifications.RemoveFirstKeepsUniqueIds` | src/stores/notification.js:18-23 | removal keeps ids unique |
| `Notifications.AddKeepsUniqueIds` | src/stores/notification.js:9-10 | appending an entry with a fresh id keeps ids unique |
| `Notifications.DismissThenExpire` | src/stores/notification.js:13-23 | with unique ids, a manual dismissal followed by the timer's removal equals one removal |
| `Notifications.AddThenRemoveRestores` | src/stores/notification.js:10-21 | adding with a fresh id and then removing that id restores the list |
| `Notifications.NotificationStore.constructor` | src/stores/notification.js:6 | the list starts empty |
| `Notifications.NotificationStore.AddNotification` | src/stores/notification.js:8-16 | appends exactly one entry at the end and keeps the earlier entries and their order; ids stay unique |
| `Notifications.NotificationStore.RemoveNotification` | src/stores/notification.js:18-23 | the new list is `RemoveFirst` of the old one; unique ids stay unique |
| `Notifications.AddThenExpire` | src/stores/notification.js:13-15 | an entry that expires without being dismissed leaves the list as it was before it was added |
| `Notifications.DismissThenTimer` | src/stores/notification.js:13-15 | when the timer fires after a manual dismissal, the list is as after the single dismissal |

## Left out

- The axios POST in `login`, its URL and the credentials (src/stores/auth.js:22-26) are network I/O. Their outcome is the `Response` input, and a `Success` response's token is taken to be a string, as the endpoint returns it. A missing or non-string token is not modelled.
- `login` is asynchronous. A login that is still awaiting its response when `logout` or another `login` runs is not modelled. Each `Login` call is one atomic step.
- An exception thrown by `setItem` itself (storage full) or by `JSON.stringify` (a cyclic value) is not modelled. Both would reach the catch branch of `login`.
- `console.error` logging in the catch branch is not modelled.
- ReloadAfterLogin: assumes that parsing the stringified user gives it back. That holds for the user objects the endpoint returns. It fails only for numbers that a JSON double cannot represent exactly, which `Num` (a real) can hold.
- JSON text is not modelled. `Codec` takes `JSON.stringify`/`JSON.parse` as parameters, and `Lawful` lists the properties of them that the proofs use.
- `Num` is a finite number seen as a real. NaN, -0 and floating-point rounding are not modelled.
- The `id` that `Date.now() + Math.random()` generates (floating point, clock, randomness) is supplied by the caller instead. `AddNotification` requires it to be fresh, which the generator makes overwhelmingly likely but does not guarantee.
- `setTimeout` and the event loop are not modelled. Expiry is a later explicit `RemoveNotification(id)`. The timers are never cancelled, and this appears only as the second removal in `DismissThenTimer`.
- Payloads of `addNotification` that are not objects are not modelled. Spreading a string or an array copies index keys.
- The vue-router internals are not modelled: `createWebHistory`, path matching, `meta` merging over nested records, and which of the two `'/'` redirects wins. The guard receives the target's `meta` directly, and the route table keeps both `'/'` records as written.
- Axios header normalisation (`AxiosHeaders`, case-insensitive names) is not modelled. Headers are a plain string map.
- src/main.js, the Vue components, and Pinia reactivity (`ref`, `defineStore`) are not modelled.
