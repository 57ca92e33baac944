# Dashboard utilities and route guard, in Dafny

A Dafny model of two small pieces of a browser dashboard for a deployment
platform:

- the helper module `src/vendor/utils.js`: git provider detection from a
  repository URL, owner and repository-name extraction by splitting the URL
  on `/`, base-URL resolution for the GraphQL HTTP/WebSocket endpoints and
  the HTTP API, the Space/Tab/Enter keystroke filter, and the unit selection
  of the memory, disk and network-speed humanisers;
- the navigation guard installed with `router.beforeEach` in `src/main.js`,
  which sends logged-out users to the login view and logged-in users away
  from it.

Files:

- `wrappers.dfy` — `Option`, standing for JavaScript's `null`/`undefined`.
- `git_url.dfy` (module `GitUrl`) — `includes` as a recursive search proved
  equal to "occurs at some index"; provider detection; `split('/')` with its
  inverse `Join`, proved to be mutually inverse on slash-free parts; owner
  and name extraction with the round trip "URL = prefix + owner + `/` +
  name" in both directions.
- `base_url.dfy` (module `BaseUrl`) — the three resolvers, with the build
  environment and `window.location` as parameters, and the fact that the
  WebSocket fallback mirrors the HTTP fallback (`https`↔`wss`, `http`↔`ws`).
- `key_input.dfy` (module `KeyInput`) — a `KeyEvent` class whose
  `defaultPrevented` field the filter sets.
- `humanize.dfy` (module `Humanize`) — the humanisers return a reading (unit
  and scaled amount over `real`); each reading denotes the input quantity,
  lies in its unit's range, and is the only such reading.
- `route_guard.dfy` (module `RouteGuard`) — the guard decision as a function
  of the login flag and the target route name.

For a logged-in user going to Login the guard returns `{ name: '' }`; the
model keeps that empty name as the redirect target.

`split('/')` is modelled by a recursive `Split` that works from the end of
the string; lemma `SplitJoin` shows its result is the only list of slash-free
parts that joins back to the string, which is what `String.prototype.split`
with a one-character separator returns.

## Model

| member | source | states |
|---|---|---|
| GitUrl.IncludesIff | src/vendor/utils.js:4-6 | the substring test `includes` holds exactly when the searched text occurs at some index of the URL |
| GitUrl.ProviderFromUrl | src/vendor/utils.js:3-11 | "github" exactly when the URL contains "github" (even if it also contains "gitlab"); "gitlab" exactly when it contains "gitlab" but not "github"; null exactly when it contains neither |
| GitUrl.ProviderExamples | src/vendor/utils.js:3-11 | a github.com URL gives "github", a gitlab.com URL "gitlab", an example.com URL null |
| GitUrl.Split | src/vendor/utils.js:14 | `split('/')` always yields at least one part and no part contains `/` |
| GitUrl.SplitSingleIffNoSlash | src/vendor/utils.js:14-16 | the split has a single part exactly when the URL contains no `/` |
| GitUrl.JoinSplit | src/vendor/utils.js:14 | joining the split parts with `/` gives back the URL |
| GitUrl.SplitJoin | src/vendor/utils.js:14 | any slash-free parts that join to a string are exactly that string's split |
| GitUrl.OwnerFromUrl | src/vendor/utils.js:13-19 | null exactly when the URL has no `/`; otherwise a slash-free owner |
| GitUrl.NameFromUrl | src/vendor/utils.js:21-27 | null exactly when the URL has no `/`; otherwise a slash-free name |
| GitUrl.OwnerNameRoundTrip | src/vendor/utils.js:13-27 | a URL with a `/` is a prefix (empty or ending in `/`) + owner + `/` + name: the name follows the last `/`, the owner lies between the last two |
| GitUrl.OwnerNameFromDecomposition | src/vendor/utils.js:13-27 | conversely, such a prefix + slash-free owner + `/` + slash-free name yields exactly that owner and name (a trailing `/` gives an empty name) |
| GitUrl.Examples | src/vendor/utils.js:13-27 | "a/b/c" gives owner "b" and name "c"; "abc" gives null for both; "org/repo/" gives the empty name |
| BaseUrl.GraphQlHttpBaseUrl | src/vendor/utils.js:29-34 | a truthy configured value is returned verbatim, otherwise the page origin |
| BaseUrl.WsScheme | src/vendor/utils.js:40-43 | the scheme is "wss" exactly for protocol "https:" and "ws" for every other protocol |
| BaseUrl.GraphQlWsBaseUrl | src/vendor/utils.js:36-45 | a truthy configured value verbatim, otherwise "wss://" + host on "https:" and "ws://" + host on any other protocol |
| BaseUrl.HttpBaseUrl | src/vendor/utils.js:47-52 | a truthy configured value is returned verbatim, otherwise the page origin |
| BaseUrl.WsMirrorsHttp | src/vendor/utils.js:29-45 | unconfigured, on an http(s) page the WebSocket URL is the HTTP URL with "http" replaced by "ws" |
| KeyInput.KeyEvent.PreventDefault | src/vendor/utils.js:56 | after the call the event's default handling is prevented |
| KeyInput.PreventSpaceInput | src/vendor/utils.js:54-58 | a blocked key (32, 9, 13) gets its default prevented; for any other key the event is unchanged |
| Humanize.HumanizeMemoryGB | src/vendor/utils.js:60-72 | MB exactly below 1 (so exactly 1 is GB); the reading denotes the input in GB; a non-negative MB amount lies in [0, 1024), a GB amount is at least 1 |
| Humanize.HumanizeDiskGB | src/vendor/utils.js:74-86 | same unit choice, denoted quantity and ranges as the memory humaniser |
| Humanize.MemoryAndDiskAgree | src/vendor/utils.js:60-86 | the memory and disk humanisers agree on every input |
| Humanize.SizeReadingUnique | src/vendor/utils.js:60-72 | the humaniser's reading is the only in-range reading of the quantity |
| Humanize.HumanizeNetworkSpeed | src/vendor/utils.js:88-102 | kbps below 1000, Mbps on [1000, 1000000), Gbps from 1000000 (a partition); the reading denotes the input speed; Mbps amounts lie in [1, 1000), Gbps amounts are at least 1 |
| Humanize.SpeedReadingUnique | src/vendor/utils.js:88-102 | the speed humaniser's reading is the only in-range reading of the speed |
| Humanize.Examples | src/vendor/utils.js:60-102 | 0.5 GB is 512 MB, 1 and 2 GB stay GB; 500 kbps, 1.5 Mbps and 2 Gbps are chosen for 500, 1500 and 2000000 kbps |
| RouteGuard.BeforeEach | src/main.js:113-121 | redirect to "Login" exactly when logged out and not going to Login; redirect to "" exactly when logged in and going to Login; proceed exactly in the other two cases |
| RouteGuard.NeverRedirectsToRequested | src/main.js:115-120 | a redirect never names the requested route |
| RouteGuard.SettlesAfterOneRedirect | src/main.js:115-120 | the guard lets its own redirect target through under the same login state |

## Left out

- The `toFixed(2)` text rendering of the humanisers: it is IEEE-754 float-to-decimal rounding; only the unit choice and the scaled amount are modelled.
- Humanize.HumanizeNetworkSpeed: amounts are exact `real`s, not JavaScript doubles, so the rounding of `/ 1000` and `/ 1000000` is not captured.
- Humanize.HumanizeMemoryGB: NaN and infinite inputs are not captured, as amounts are exact `real`s (the same holds for HumanizeDiskGB and HumanizeNetworkSpeed).
- `formatTimestampHumannize`: a direct call into the `moment` date library with local-timezone formatting.
- The reads of `import.meta.env` and `window.location`: they are environment input, passed in as `Env` and `PageLocation`.
- KeyInput.PreventSpaceInput: only `keyCode` and `defaultPrevented` of the browser event are modelled; the effect of a prevented default on the input field is browser behaviour.
- RouteGuard.BeforeEach: the guard's asynchrony and the router applying the redirect are not modelled, and how the router resolves `{ name: '' }` is not modelled; the auth store's `IsLoggedIn` is an input flag because the store's code is not part of this model.
- The GraphQL client set-up in `src/main.js` (HTTP link, authorization middleware, in-memory cache): wiring of an external library, with the bearer token from an auth store that is not part of this model.
- Icon registration, toast configuration and creating and mounting the Vue app: library configuration without behaviour to state.
