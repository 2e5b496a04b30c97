# IsMcServer.online — verified model of the request and state rules

IsMcServer.online checks the status of Minecraft servers (Java and Bedrock
editions). This Dafny project models the small decision rules and state
machines of its web front end:

- the three search-form route actions (home page, application root, the
  older index page), which lowercase and validate the address and redirect
  to `/<address>`, `/bedrock/<address>` or `/<address>?query`;
- the home page's choice of sample servers (still promoted, newest first);
- the root loader's "no ads" decision (redirect that sets a cookie, or
  `showAds`);
- the URL that `getServerInfo` requests from the upstream status API, and
  its refusal of a Bedrock query;
- the dashboard's list of Discord guilds (Manage Server bit, owners first,
  stable order), its empty-list message and its loader;
- the popular-servers list: rows expanded and collapsed by clicks, a cache of
  loaded server data unique by name, and hover colours;
- the tag autocomplete: the check of each tags response, the suggestion
  list, and the "create" option.

One module per source file: `HomeRoute`, `RootRoute`, `LegacyIndexRoute`,
`UpstreamApi`, `Dashboard`, `PopularServers` (class `ServerList`) and
`TagsAutocomplete` (class `TagsInput`), over two shared modules: `Js`
(optional values, `??`, `toLowerCase`, strings that may be `undefined` or
`null`, truthiness and `===`) and `Remix` (the action response,
the redirect location and an independent parser of it).

Calls into code outside the model are parameters: `validateServer` is a
`Validator` and `getCookieWithoutDocument` a `CookieReader`, each answering
a string, `undefined` or `null` (`NullableString`). Nothing else is assumed
about them: the actions treat the validator's answer by JavaScript
truthiness (only a non-empty string is an error), and the root loader
compares the cookie with `!==`, which keeps `null` apart from `undefined`.
The favicon colour lookup is `averageColor: int -> Option<string>`, the
current time is `now`, and the fetcher's busy state is a boolean.

## Model

| member | source | states |
|---|---|---|
| `Js.ToLower` | app/routes/_index.tsx:21 | lowercasing keeps the length, leaves no capital letter, and keeps every other character |
| `Js.StrictEquals` | app/root.tsx:95 | `===` between a cookie answer and a string that may be unset: `null` equals neither a string nor `undefined` |
| `Remix.CookieFlag` | app/routes/_index.tsx:19-20 | a cookie flag is set only by the string "true" (not by `undefined` or `null`), and a missing cookie header reads as an empty one |
| `Remix.SearchLocation` | app/routes/_index.tsx:30 | the redirect path is `/bedrock/<address>` for Bedrock, `/<address>?query` for a Java query, `/<address>` otherwise; it is lowercase when the address is |
| `Remix.SearchLocationRoundTrip` | app/routes/_index.tsx:30 | for an address without '/' or '?', parsing the path gives back the Bedrock flag, the query flag exactly when set without Bedrock, and the address: the path starts with `/bedrock/` exactly when Bedrock is set and never carries both prefix and suffix |
| `HomeRoute.Action` | app/routes/_index.tsx:17-31 | a missing or empty address gives null; the lowercased address is validated and a truthy answer (a non-empty string) is returned as `{error}` without redirect, while an empty, `undefined` or `null` answer lets the search go on to a lowercase redirect path ending in the address, plus `?query` exactly when the query cookie is "true" and the Bedrock cookie is not |
| `HomeRoute.ActionRedirectEncodesFlags` | app/routes/_index.tsx:19-30 | the redirect encodes exactly the two cookie flags (query only without Bedrock) and the lowercased address |
| `HomeRoute.StillPromoted` | app/routes/_index.tsx:55-68 | a row without an end date is always promoted; one whose end date is now still is; one whose end date has passed is not |
| `HomeRoute.PromotedRows` | app/routes/_index.tsx:55-68 | the selected rows are exactly those whose end date is unset or not before now, each as often as in the table |
| `HomeRoute.SortNewestFirst` | app/routes/_index.tsx:51-53 | the rows come out ordered by add date, newest first, as a permutation of the input |
| `HomeRoute.SampleServers` | app/routes/_index.tsx:45-69 | the listed sample servers are newest first and are exactly the still-promoted rows, with their multiplicity |
| `RootRoute.Action` | app/root.tsx:103-117 | a missing or empty address gives null; the lowercased address is validated and a truthy answer is returned as `{error}` without redirect; a redirect path is lowercase and ends with the address, so it never has a query suffix |
| `RootRoute.ActionRedirectEncodesEdition` | app/root.tsx:105-116 | the path is `/bedrock/<address>` exactly when the Bedrock cookie is "true", else `/<address>`, and it carries no query flag |
| `RootRoute.SearchParam` | app/root.tsx:85 | a search parameter is found exactly when one with that name is present, and its value is one given for that name |
| `RootRoute.SearchParamFirst` | app/root.tsx:85 | of several parameters with the same name, the first one is read |
| `RootRoute.NoAdsTerm` | app/root.tsx:85 | the term is the value of the parameter named by `NO_ADS_PARAM_NAME`, or of "nope" when that is unset; it is absent exactly when no parameter has that name |
| `RootRoute.TemplateText` | app/root.tsx:90 | the template string writes an unset configured value as "undefined" and a set one as itself |
| `RootRoute.Loader` | app/root.tsx:83-99 | redirects exactly when the parameter's value equals the configured value (an absent parameter equals an unset value), to the same path, setting `no_ads` to the configured value; otherwise `showAds` is false exactly when the `no_ads` cookie is strictly equal to the configured value, so a cookie reader answering `null` always shows ads |
| `RootRoute.LoaderRedirectLoop` | app/root.tsx:85-92 | with the configured value unset, a request without the parameter redirects to its own path with `no_ads=undefined`, and following the redirect redirects again |
| `RootRoute.IntendedLoader` | app/root.tsx:83-99 | with the configured value set it is the loader as written; unset, it never redirects and shows ads |
| `RootRoute.IntendedLoaderRedirectSettles` | app/root.tsx:87-92 | a redirect of the corrected loader sets the cookie to the value the parameter carried, and following it never redirects again |
| `LegacyIndexRoute.Action` | app/routes/index.tsx:15-28 | a missing or empty address gives null; the lowercased address is validated and a truthy answer is returned as `{error}` without redirect; the redirect path is lowercase and ends with the address (no query suffix) |
| `LegacyIndexRoute.ActionRedirectEncodesEdition` | app/routes/index.tsx:17-27 | the path is `/bedrock/<address>` exactly when the Bedrock cookie is "true", else `/<address>`, with no query flag (derived from the root action's lemma, since the two actions are equal) |
| `LegacyIndexRoute.SearchActionsAgree` | app/routes/index.tsx:15-28 | given the same validator and cookie reader, the older action and the root action agree on every input, and the home action agrees with them whenever the query cookie is not "true" |
| `UpstreamApi.ServerInfoUrl` | app/components/server/functions/api.server.ts:9-16 | a Bedrock query throws "Cannot query bedrock servers." before any request; every other URL starts with `<api>/` and ends with the address, unaltered |
| `UpstreamApi.ServerInfoUrlShapes` | app/components/server/functions/api.server.ts:16 | Bedrock only gives `<api>/bedrock/<address>`, query only `<api>//query<address>`, neither (or absent flags) `<api>/<address>` |
| `UpstreamApi.QueryUrlGluesAddress` | app/components/server/functions/api.server.ts:16 | as written, the last path segment of a query URL is `query<address>`, not the address |
| `UpstreamApi.IntendedServerInfoUrl` | app/components/server/functions/api.server.ts:14-16 | same check and same URLs as written except the query one, which becomes `<api>/query/<address>` |
| `UpstreamApi.IntendedUrlAddressIsLastSegment` | app/components/server/functions/api.server.ts:16 | with the corrected spelling, a '/'-free address is the last path segment of every accepted URL |
| `Dashboard.Managed` | app/routes/dashboard._index.tsx:58 | kept are exactly the guilds with bit 0x20 of the 32-bit permissions, each as often as in the input |
| `Dashboard.CanManage` | app/routes/dashboard._index.tsx:58 | the bit test on the 32-bit value: holds for 0x20 and for -1, fails for 0, 0x1F and 2^32 |
| `Dashboard.OwnersFirst` | app/routes/dashboard._index.tsx:59-67 | the comparator is 0 exactly for equal ownership, negative exactly when only the first is owned, positive exactly when only the second is |
| `Dashboard.InsertPermutes` | app/routes/dashboard._index.tsx:59 | one insertion step of the stable sort adds the inserted guild and nothing else, for any comparator |
| `Dashboard.SortPermutes` | app/routes/dashboard._index.tsx:59 | the stable sort (`Insert` and `Sort`) only reorders, for any comparator: nothing is added, dropped or duplicated |
| `Dashboard.SortOwnersFirst` | app/routes/dashboard._index.tsx:59-67 | the stable sort with that comparator yields the owned guilds in input order followed by the others in input order |
| `Dashboard.OwnedNotOwnedPermutes` | app/routes/dashboard._index.tsx:57-68 | splitting by ownership neither adds nor drops a guild |
| `Dashboard.Displayed` | app/routes/dashboard._index.tsx:57-68 | the listed guilds are a reordering of the filtered ones |
| `Dashboard.DisplayedGuilds` | app/routes/dashboard._index.tsx:57-68 | a guild is shown exactly when it has the Manage Server bit; the shown list is a permutation of the filtered one, owners precede non-owners, and each group keeps its input order |
| `Dashboard.Render` | app/routes/dashboard._index.tsx:55-143 | on what the loader sends: `null` throws when its `length` is read; the "you don't manage any servers" message is shown exactly for an empty array or an object without `length`; a grid shows exactly the listed guilds (`Displayed`, so owners first in stable order), a reordering of the manageable ones |
| `Dashboard.NoManageableGuildRendersEmptyGrid` | app/routes/dashboard._index.tsx:55-68 | a non-empty array without a manageable guild renders an empty grid |
| `Dashboard.Loader` | app/routes/dashboard._index.tsx:21-35 | no user redirects to `/login`; a guild value that is not an object throws; anything else, `null` and non-array objects included, is returned as is |
| `PopularServers.Without` | app/components/layout/popularServers/ServerList.tsx:76-80 | removing an id removes every occurrence of it and keeps every other id |
| `PopularServers.Toggle` | app/components/layout/popularServers/ServerList.tsx:75-85 | an idle click expands a collapsed row by appending its id and collapses an expanded one; no other id changes |
| `PopularServers.ToggleFlips` | app/components/layout/popularServers/ServerList.tsx:75-89 | a click flips the membership of the clicked id only, and the expanded list stays free of duplicates |
| `PopularServers.ToggleTwice` | app/components/layout/popularServers/ServerList.tsx:75-89 | two clicks restore the expanded set, and restore the list itself when the row was collapsed |
| `PopularServers.Remember` | app/components/layout/popularServers/ServerList.tsx:39-47 | the cache keeps its entries as a prefix, grows by at most one entry, which is the new data when its name was not cached, and afterwards holds data for the answering server |
| `PopularServers.RememberAppendsOnce` | app/components/layout/popularServers/ServerList.tsx:39-49 | new data is appended at most once, only when present and no entry has its server name; the cache only grows and stays unique by server name |
| `PopularServers.DetailsFor` | app/components/layout/popularServers/ServerList.tsx:155-158 | the details shown are the first entry with the server's name, or none when there is no such entry |
| `PopularServers.DetailsForUnique` | app/components/layout/popularServers/ServerList.tsx:155-158 | in a cache unique by name, a server's details are its one entry |
| `PopularServers.Present` | app/components/layout/popularServers/ServerList.tsx:21-23 | the rows whose favicon is in the page, in row order, never more than the rows |
| `PopularServers.PresentMembers` | app/components/layout/popularServers/ServerList.tsx:21-23 | a row is present exactly when it is a row of the list and its favicon is in the page |
| `PopularServers.ColorsOf` | app/components/layout/popularServers/ServerList.tsx:20-32 | no more colours than rows are collected, and each collected colour is the one taken from the favicon of the id stored with it |
| `PopularServers.ColorsOfPresent` | app/components/layout/popularServers/ServerList.tsx:20-32 | exactly one colour per present row is collected, in row order: entry `k` holds the id and favicon colour of the `k`-th row whose favicon is in the page, so a missing favicon shifts every later colour one place forward |
| `PopularServers.HoverColorAt` | app/components/layout/popularServers/ServerList.tsx:64 | the hover colour exists exactly when `id - 1` is a position among the collected colours, and it is the colour stored at that position, whatever id is stored with it |
| `PopularServers.HoverColorByPosition` | app/components/layout/popularServers/ServerList.tsx:20-64 | for every list and every id, the hover colour of `id` is the favicon colour of the `id`-th row whose favicon is in the page, and none past the last such row |
| `PopularServers.PresentAll` | app/components/layout/popularServers/ServerList.tsx:21-23 | when every favicon is in the page, every row is present |
| `PopularServers.ColorsOfAllRendered` | app/components/layout/popularServers/ServerList.tsx:20-32 | when every favicon is present, one colour per row is collected, in row order |
| `PopularServers.HoverColorWhenAllRendered` | app/components/layout/popularServers/ServerList.tsx:64 | with every favicon present and ids 1, 2, ... in order, each row's hover colour is its own |
| `PopularServers.HoverColorIsPositional` | app/components/layout/popularServers/ServerList.tsx:64 | the lookup is by position `id - 1`: when the first favicon is missing, row 1 gets row 2's colour and row 2 gets none |
| `PopularServers.ServerList.constructor` | app/components/layout/popularServers/ServerList.tsx:15-36 | the list starts with nothing expanded, no colours and no cached data |
| `PopularServers.ServerList.CollectColors` | app/components/layout/popularServers/ServerList.tsx:20-32 | the mount effect appends one colour per row whose favicon is present, in row order |
| `PopularServers.ServerList.Click` | app/components/layout/popularServers/ServerList.tsx:72-90 | a click while the fetcher is busy changes nothing; otherwise it toggles the row, and loads `/api/server/data?server=<name>` exactly when the row expands |
| `PopularServers.ServerList.Receive` | app/components/layout/popularServers/ServerList.tsx:39-49 | new fetcher data updates the cache as `Remember` does, keeping it unique by name |
| `PopularServers.ServerList.HasServerNamed` | app/components/layout/popularServers/ServerList.tsx:40 | true exactly when data is present and the cache holds an entry with its server name |
| `TagsAutocomplete.CheckTagsResponse` | app/src/layout/routes/server/panel/TagsAutocompleteInput.tsx:28-37 | a response is accepted exactly when `tags` is an array of strings, yielding those strings in order; a falsy response throws; anything else is rejected |
| `TagsAutocomplete.OffersCreate` | app/src/layout/routes/server/panel/TagsAutocompleteInput.tsx:107 | "create" is offered exactly when no suggestion spells the input; with no suggestions it always is |
| `TagsAutocomplete.OffersCreateAfterResponse` | app/src/layout/routes/server/panel/TagsAutocompleteInput.tsx:107 | after an accepted response, "create" is offered exactly when no tag of the response equals the input |
| `TagsAutocomplete.TagsInput.constructor` | app/src/layout/routes/server/panel/TagsAutocompleteInput.tsx:24-26 | the suggestions start empty |
| `TagsAutocomplete.TagsInput.ReceiveTags` | app/src/layout/routes/server/panel/TagsAutocompleteInput.tsx:28-37 | only an accepted response replaces the suggestions; a rejected one raises the error toast and leaves them unchanged; a falsy response is reported as a throw, with no toast and the suggestions untouched |
| `TagsAutocomplete.TagsInput.SetInput` | app/src/layout/routes/server/panel/TagsAutocompleteInput.tsx:75 | typing sets the input to the typed value |
| `TagsAutocomplete.TagsInput.InputChanged` | app/src/layout/routes/server/panel/TagsAutocompleteInput.tsx:39-54 | an empty input clears the suggestions and searches nothing; otherwise exactly the input is searched at `/api/tags` and the suggestions stay |
| `TagsAutocomplete.TagsInput.Creatable` | app/src/layout/routes/server/panel/TagsAutocompleteInput.tsx:107 | "create" is offered exactly when the input is not among the suggestions |
| `TagsAutocomplete.TagsInput.SelectOption` | app/src/layout/routes/server/panel/TagsAutocompleteInput.tsx:66-71 | the option's value and creatable flag go to `onSubmit` when one is given, and the input becomes empty |

## Findings

| source | as written | input that shows it | evidently intended | confidence | as-written member | corrected member |
|---|---|---|---|---|---|---|
| app/components/server/functions/api.server.ts:16 | the query mode segment is `/query` with no separator after it, so the URL is `<api>//query<address>` | query true, bedrock unset, address `mc.example.net`: `<api>//querymc.example.net` | `<api>/query/<address>`, spelled like `<api>/bedrock/<address>` | not executed; medium | `UpstreamApi.QueryUrlGluesAddress` | `UpstreamApi.IntendedServerInfoUrl` |
| app/root.tsx:85-92 | an absent parameter and an unset `NO_ADS_PARAM_VALUE` are both `undefined` and compare equal, so the loader redirects | `NO_ADS_PARAM_VALUE` unset, request for `/` with no search parameters: redirect to `/`, which redirects again | redirect only when a configured value is set and the parameter carries it | not executed; medium | `RootRoute.LoaderRedirectLoop` | `RootRoute.IntendedLoader` |

## Left out

- `getServerInfo` throws a plain `Error("Cannot query bedrock servers.")`: there is no typed error, and the request has no timeout.
- Network, database and environment access: the `fetch` in `getServerInfo` and its Authorization header, the Prisma queries (`findMany`, `count`), `getUser` and `getUserGuilds`; their results are parameters.
- `validateServer` and `getCookieWithoutDocument` are not part of this model; they are parameters about which nothing is assumed.
- The server-status resolution pipeline (snapshot normalisation, cache reconciliation, check history, vote events) lives in files that are not part of this model.
- The older index route's loader: its `where` clause combines `lt` and `equals: null` on one field, whose meaning depends on the ORM.
- The home loader's returned `bedrock`, `query` and check `count`, and the column projection (`select`) of sample servers: the rows are modelled whole.
- HomeRoute.SortNewestFirst: rows with equal add dates keep their table order; the database leaves their order unspecified.
- Js.ToLower: lowercases ASCII letters only, not the full Unicode case mapping of `toLowerCase`.
- Dashboard.CanManage: permissions are integers; a fractional or non-finite number is not modelled.
- TagsAutocomplete.CheckTagsResponse: numbers are integers, so `NaN` is not modelled; a `tags` property reached through a prototype is not modelled.
- Rendering, styling, animation and images of every component; the colour computation itself (FastAverageColor, alpha 0.15) is the `averageColor` parameter.
- PopularServers.ServerList.Click: React state batching is not modelled; the collapse reads the list as rendered, which is the current list in this sequential model.
- The debounce timing of the tag search, and the rule of `useInsideEffect` about when the effect runs; `InputChanged` models one run of the effect.
- `ParseSearchLocation` is an independent reading of the redirect path, not a model of the `$server` route's own parsing.
- Authentication, OAuth, payment, the message editor and the other components are not part of this model.
