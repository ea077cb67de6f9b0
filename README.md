# Inventory table core: header projection, session store, record copies, lookups

This project models, in Dafny, the logic under a multi-tenant hospital
inventory screen:

- **Header projection** (`Headers`). A service is built from the catalog of
  table column headers and an optional tenant configuration. With no
  configuration it holds the catalog itself, the very same array. With one, it
  filters the catalog to the headers whose key is a string listed in `fields`.
  It then sorts that fresh copy stably by the key's first position in `fields`.
  The sort is an in-place insertion sort on the copy. It is proved to produce
  the reference projection `Buckets`: for each listed key, in `fields` order,
  the catalog's headers with that key, in catalog order.
- **Session store** (`UserStore`). A class whose only state is the signed-in
  user, or none. `SetUser` and `ClearUser` change it. The hospital id and the
  inventory header configuration are pure functions of that user, so they
  follow every change.
- **Record copies** (`Items`). An `InventoryItem` is built by copying seven
  fields one by one. An `Inventory` holds fresh, pairwise distinct copies of
  the items it is given, in order.
- **Lookups** (`InventoryApi`, `UserApi`). One looks up a hospital's inventory
  in a table passed in as a map. The other signs a user in by taking the first
  user with the given email, provided the password is non-empty. Errors are
  `Failure` values that carry the source's messages.
- `Types` holds the record shapes; `Fixtures` and `HeadersExamples` restate
  the fixture data and the test suites' cases as lemmas.

A user whose hospital has no `inventoryHeaders` gets the default
configuration, because of the `||` fallback. Headers without a string key, and
catalogs with repeated keys, follow the same filter-then-sort rule as all
other headers.

## Model

| member | source | states |
|---|---|---|
| Headers.IndexOf | src/services/headersService.ts:12 | result is -1 exactly when the key is not listed; otherwise it is the first position holding the key |
| Headers.Rank | src/services/headersService.ts:12 | a header's sort key is its key's first position in `fields`; it is non-negative exactly when the header passes the filter |
| Headers.Filter | src/services/headersService.ts:9-10 | the filtered copy is no longer than the catalog, and each of its headers has a string key listed in `fields` |
| Headers.SortByRank | src/services/headersService.ts:11-13 | the array afterwards is a permutation of its old contents, sorted by rank, and holds the headers of each rank in their old order (stable) |
| Headers.InsertAt | src/services/headersService.ts:11-13 | one insertion step: the sorted prefix grows by one header; it is permuted stably and the rest of the array is untouched |
| Headers.RankRunsDetermineSorted | src/services/headersService.ts:11-13 | two rank-sorted sequences with the same headers of each rank, in the same order, are equal, so a stable sort's result does not depend on the algorithm |
| Headers.StableSortIsProjection | src/services/headersService.ts:9-13 | any stable sort by rank of the filtered catalog equals the reference projection |
| Headers.HeadersService.constructor | src/services/headersService.ts:7-17 | holds the projection; with no configuration this is the catalog array itself, with one it is a fresh array; the catalog's contents are unchanged |
| Headers.HeadersService.GetHeaders | src/services/headersService.ts:19-21 | returns the held array, whose contents are the projection, and changes nothing |
| Headers.ProjectionKeysListed | src/services/headersService.ts:10 | every projected header has a string key listed in `fields` |
| Headers.ProjectionCounts | src/services/headersService.ts:9-13 | a header with a listed string key occurs as often as in the catalog, and any other header never occurs; a key listed twice adds no duplicates |
| Headers.ProjectionPermutesFilter | src/services/headersService.ts:9-13 | the projection is a permutation of the filtered catalog |
| Headers.ProjectionLength | src/services/headersService.ts:9-13 | the projection is no longer than the catalog |
| Headers.ProjectionOrdered | src/services/headersService.ts:11-13 | the first positions of the keys in `fields` never decrease along the projection |
| Headers.ProjectionStable | src/services/headersService.ts:11-13 | for a listed key, the headers with that key appear in catalog order; for an unlisted key there are none |
| Headers.ProjectionKeySet | src/services/headersService.ts:9-13 | a key is shown exactly when it is listed and some catalog header has it; listed keys with no catalog header add nothing |
| Headers.ProjectionNoMatch | src/services/__tests__/headersService.spec.ts:31-35 | if no catalog header has a listed string key, the projection is empty |
| HeadersExamples.ReorderExample | src/services/__tests__/headersService.spec.ts:23-29 | catalog `[a,b,c]` with fields `[b,a]` gives `[b,a]`, with the header values unchanged |
| HeadersExamples.NoOverlapExample | src/services/__tests__/headersService.spec.ts:31-35 | fields `[x,y]` against catalog `[a,b,c]` give `[]` |
| HeadersExamples.UnknownKeyExample | src/services/headersService.ts:9-13 | catalog `[a,b,c]` with fields `[c, nonExistingHeader, a]` gives `[c,a]`: the key no header carries is dropped and the others keep the listed order |
| HeadersExamples.ServiceExample | src/services/__tests__/headersService.spec.ts:17-29 | the service as built in the tests returns `[a,b,c]` with no configuration and `[b,a]` with one; a second call returns the same |
| UserStore.HospitalIdOf | src/stores/user.ts:14 | 0 with no user; the hospital's id with a user (the `|| 0` turns an id of 0 into 0, which is the id itself) |
| UserStore.InventoryHeadersConfigOf | src/stores/user.ts:15-17 | the default configuration with no user, or when the hospital has none; otherwise the hospital's own configuration, unmodified |
| UserStore.Store.constructor | src/stores/user.ts:12 | a fresh store has no user, hospital id 0 and the default configuration |
| UserStore.Store.SetUser | src/stores/user.ts:19-21 | the user is the given one, the hospital id is that user's hospital id, and the configuration is resolved from that user |
| UserStore.Store.ClearUser | src/stores/user.ts:23-25 | from any state: no user, hospital id 0 and the default configuration |
| UserStore.SignInAndOut | src/stores/__tests__/user.spec.ts:40-59 | reading the hospital id after creating, setting and clearing gives 0, then the user's hospital id, then 0; no user remains |
| Items.InventoryItem.constructor | src/models/InventoryItem.ts:12-20 | every field equals the data's field, including an absent expiry date or unit price staying absent |
| Items.Inventory.constructor | src/models/Inventory.ts:6-8 | the items are as many as the input and field-equal to it in order; each is freshly allocated, no two are the same object, and the input items are unchanged |
| InventoryApi.NewItems | src/services/inventoryApiService.ts:15 | one fresh, distinct item per record, field-equal to it, in order |
| InventoryApi.GetInventoryByHospitalId | src/services/inventoryApiService.ts:8-16 | a missing hospital id gives "No inventory found for the specified hospital ID"; a present one, even with no records, gives a fresh inventory of fresh copies of its records, in order |
| UserApi.FindFirst | src/services/userApiService.ts:7 | the index of the first user with equal email when the password is non-empty, or the list length when there is none |
| UserApi.Login | src/services/userApiService.ts:6-14 | success exactly when the password is non-empty and some user has the email; the user returned is the first such, as stored; every failure is "Invalid username or password" |
| UserApi.PasswordContentIgnored | src/services/userApiService.ts:7 | any two non-empty passwords give the same result |
| Fixtures.SignInAlice | src/fixtures/users.js:23-29 | Alice's email with a non-empty password signs in Alice |
| Fixtures.SignInBob | src/fixtures/users.js:30-35 | Bob's email signs in Bob, the second user, past Alice |
| Fixtures.SignInUnknown | src/services/__tests__/userApiService.spec.ts:30-34 | an email no user has gives "Invalid username or password" |
| Fixtures.SignInEmptyPassword | src/services/userApiService.ts:7 | an empty password fails even for a known email |
| Fixtures.BobsSession | src/fixtures/users.js:12-21 | Bob's session has hospital id 2 and his hospital's six fields, sorted by expiry date ascending |

## Left out

- Asynchronous results: the two lookups return a `Result` directly, not a promise. A thrown `Error` is a `Failure` that carries its message.
- Vue and Pinia reactivity (`ref`, `computed`, `defineStore`): the store is a plain class. Its derived values are functions of the `user` field.
- The inventories fixture module is not part of this model. The table is a `map<int, seq<ItemData>>` parameter. An entry explicitly set to `undefined` counts as missing.
- The user fixtures are a `seq<User>` parameter; `Fixtures` restates the two users for examples.
- `DataTableHeader` fields other than `key` (title, value, alignment, sortability) are an opaque payload type parameter. Any non-string key (undefined, a number) is `None`.
- The sorting algorithm: the engine's `Array.prototype.sort` is replaced by an insertion sort. `RankRunsDetermineSorted` shows that every stable sort gives the same result.
- Headers.HeadersService.GetHeaders: callers that mutate the returned array are not modelled. Its contract holds only while the array still holds the projection (`Valid()`).
- `hospital.id` is an unbounded integer, so a `NaN` id, which `|| 0` would turn into 0, is not modelled.
- Ids (hospital and item) and quantities are JavaScript numbers taken to be integers. The core only copies them or uses them as lookup keys.
- `unitPrice` is a `real` that is only copied. No floating-point arithmetic is involved.
- The inventory view is not part of this model, and neither is anything that lives in it: adding, updating and removing items, row sorting by `defaultSort` (done by the table component), and the currency, date and thousands formatting.
- Routing, the login view and its form validation, and browser-driven end-to-end flows are not modelled. They are presentation and navigation.
