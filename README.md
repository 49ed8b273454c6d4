# df-map-viewer contract facade, modelled in Dafny

This project models the core of `src/Contract.ts`, the read side of the Dark Forest map
viewer's contract facade. That core has four parts:

- **Identifier codec** (`identifiers.dfy`, over the radix arithmetic in `numerals.dfy`):
  - `address` canonicalises a 160-bit Ethereum address.
  - `locationIdToBigNumber`, `locationIdToDecStr` and `locationIdFromDecStr` convert 256-bit
    location ids between 64-digit hex, decimal text and a number.
  - Location ids are bounded by the BN254 scalar-field prime `LOCATION_ID_UB`.
- **Paged bulk getter** (`bulk_getter.dfy`):
  - `aggregateBulkGetter` partitions `[0, total)` into pages.
  - It retries each page with exponential backoff until the page yields a non-empty list.
  - It concatenates the pages in page order.
- **Tuple decoders** (`decoders.dfy`):
  - `rawArrivalToObject`, `rawPlanetToObject`, `rawUpgradeToUpgrade` and
    `rawUpgradesInfoToUpgradesInfo`.
  - The constants object of `getConstants`, including its per-level defaults tables.
  - Fields read with ethers' `toNumber()` throw at or above 2^53 (`NumberOverflow`).
  - Currency fields are divided by the contract precision 1000, modelled as exact `real`s.
- **Assembly and events** (`facade.dfy`, `events.dfy`):
  - The bulk loaders `getPlayers`, `getPlanets` and `getAllArrivals`.
  - The point reads `getPlanet`, `getArrival` and `getArrivalsForPlanet`.
  - The four contract-event handlers of `setupEventListeners`, with the exact events each one
    emits and in which order.

`wrappers.dfy` holds `Option`, `Result` and the error kinds. A thrown JavaScript error is an
`Err` value:

| error | thrown by |
|---|---|
| `InvalidAddress` | `address`, "not a valid address" |
| `InvalidLocation` | `locationIdFromDecStr`, "not a valid location" |
| `InvalidInteger` | `bigInt` called on text that is not a number |
| `NumberOverflow` | `toNumber()` on a word above `Number.MAX_SAFE_INTEGER` |
| `UndefinedValue` | `.toString()` called on a missing list entry |

Contract calls are parameters:

- A paged call is an oracle. For a page `[start, end)` it lists the outcomes of the successive
  calls: each call threw, or returned a list.
- If none of the listed calls returns a non-empty list, the page never resolves. So
  `aggregateBulkGetter` never resolves either (`None`, or `NeverSettles`).
- Storage at one block is a `ChainView` holding the four storage getters the point reads use.
- The event handlers read through a `Reads` record per block. `EventBridge.ReadsAt` builds that
  record from the facade's own point reads.

`address` lowercases before it strips the `0x` prefix (`src/Contract.ts:84-87`), so `"0X…"`
is accepted too; `Identifiers.AddressPrefixOptional` states this.

## Model

| member | source | states |
|---|---|---|
| Numerals.Render | src/Contract.ts:258 | `toString(radix)` of a big integer is the canonical numeral (no leading zero) whose value is the number |
| Numerals.RenderOfValue | src/Contract.ts:255-259 | a canonical numeral is the rendering of its own value |
| Identifiers.CanonicalAddress | src/Contract.ts:83-94 | the value `address` returns or throws: only `InvalidAddress` is thrown, and an accepted text is 40 or 42 characters long and the address is `0x` followed by its last 40 characters lower-cased |
| Identifiers.Address | src/Contract.ts:83-94 | the loop-based `address` accepts exactly when the lower-cased text, with one `0x` stripped, is 40 hex digits, then returns `0x` + those digits; otherwise it throws `InvalidAddress` |
| Identifiers.AddressFixedPoint | src/Contract.ts:83-94 | a canonical address is returned unchanged |
| Identifiers.AddressIdempotent | src/Contract.ts:83-94 | `address(address(s)) == address(s)`; the output has 42 characters and no upper-case letter |
| Identifiers.AddressPrefixOptional | src/Contract.ts:84-87 | 40 digits with no prefix, with `0x` or with `0X` give the same result |
| Identifiers.BoundBelowTwoTo256 | src/Contract.ts:261-263 | `LOCATION_ID_UB` is below 2^256, so every accepted id fits 64 hex digits |
| Identifiers.LocationIdToBigNumber | src/Contract.ts:249-253 | the number is below 2^256 and its 64-digit hex rendering is the id again |
| Identifiers.LocationIdToDecStr | src/Contract.ts:255-259 | the decimal text is canonical and has the id's value |
| Identifiers.LocationIdOfDecStr | src/Contract.ts:265-273 | the value `locationIdFromDecStr` returns or throws: an id is returned only for a non-empty decimal numeral below the bound, and it has the numeral's value |
| Identifiers.LocationIdFromDecStr | src/Contract.ts:265-273 | the parse, the bound check and the padding loop produce `LocationIdOfDecStr`, including its errors |
| Identifiers.LocationIdPadded | src/Contract.ts:270-271 | an in-range value renders to at most 64 hex digits, and the loop's zero padding gives the id |
| Identifiers.LocationIdFromDecStrSpec | src/Contract.ts:265-273 | for text that is not a non-empty string of decimal digits, throws `InvalidInteger`; for a numeral at or above the bound, throws `InvalidLocation`; otherwise the 64-digit id has the numeral's value |
| Identifiers.LocationIdRoundTrip | src/Contract.ts:255-273 | every id below the bound survives decimal text and back: `fromDecStr(toDecStr(id)) == id` |
| Identifiers.DecStrRoundTrip | src/Contract.ts:255-273 | canonical decimal text below the bound survives the trip through an id |
| Identifiers.LocationIdOfWord | src/Contract.ts:627-628 | the decimal text of a word is accepted exactly when the word is below the bound, and the id keeps its value |
| BulkGetter.Backoff | src/Contract.ts:304 | the wait before a call never exceeds 15 seconds, and is exactly 15 from the fifth call on |
| BulkGetter.BackoffSchedule | src/Contract.ts:303-305 | the wait before attempt `k` is 0 for the first attempt, doubles plus one up to attempt 3, then stays at 15 |
| BulkGetter.Yield | src/Contract.ts:306-317 | through `.catch(() => [])` only a call that returned a non-empty list yields anything, and then its list |
| BulkGetter.FirstSuccess | src/Contract.ts:301-319 | finds the first attempt with a non-empty yield; all earlier attempts yielded nothing |
| BulkGetter.PageOutcome | src/Contract.ts:299-320 | a page resolves exactly when some attempt yields a non-empty list; the value is the first such list, and earlier failed or empty attempts contribute nothing |
| BulkGetter.FetchPage | src/Contract.ts:299-320 | the retry loop resolves to `PageOutcome`, makes the calls `CallsMade` counts, and waits `Backoff(k)` before call `k` |
| BulkGetter.PageGuard | src/Contract.ts:294 | the real-valued loop guard `i < total / querySize` holds exactly when `i * querySize < total`, that is when `i` is below the page count |
| BulkGetter.Ranges | src/Contract.ts:294-297 | there are `ceil(total / querySize)` pages |
| BulkGetter.PagesPartition | src/Contract.ts:294-297 | no pages iff `total == 0`; pages start at 0, end at `total`, are non-empty, at most `querySize` long and contiguous |
| BulkGetter.PageCovers | src/Contract.ts:294-297 | every index below `total` lies in page `x / querySize` and in no other page |
| BulkGetter.Flatten | src/Contract.ts:325 | `_.flatten` loses nothing and adds nothing: every item of every page is in the result, and every item of the result is in some page |
| BulkGetter.AllResolved | src/Contract.ts:324 | `Promise.all` resolves exactly when every page does, with one value per page |
| BulkGetter.AllResolvedSpec | src/Contract.ts:324 | the pages collect iff every page resolves, and each is kept at its own index |
| BulkGetter.AllResolvedStep | src/Contract.ts:324 | one more resolved page extends the collected prefix; an unresolved page prevents the aggregate from resolving |
| BulkGetter.Aggregate | src/Contract.ts:286-326 | what `aggregateBulkGetter` resolves to; since a page only resolves to a non-empty list, the result has at least one item per page |
| BulkGetter.AggregateBulkGetter | src/Contract.ts:286-326 | the page loop under the real guard computes `Aggregate`: the concatenation of the page results in page order, or never resolves |
| BulkGetter.AggregateResolves | src/Contract.ts:294-325 | the aggregate resolves iff every page of the partition resolves |
| BulkGetter.OutcomesResolve | src/Contract.ts:324 | the page results collect iff each page's retry sequence resolves |
| BulkGetter.AggregateExact | src/Contract.ts:286-326 | when every page serves its slice of a source list, the result is exactly that list: same length, same order, nothing repeated, whatever failures were retried |
| BulkGetter.ContiguousPagesRebuild | src/Contract.ts:324-325 | contiguous pages that serve their slices rebuild the source when flattened |
| BulkGetter.ServedPages | src/Contract.ts:324 | pages that each serve their slice all resolve, and each collected page is its slice |
| BulkGetter.FlattenSlices | src/Contract.ts:325 | the first `k` slices of contiguous pages flatten to the source's prefix up to page `k - 1`'s end |
| BulkGetter.SettleInCompletionOrder | src/Contract.ts:324 | pages settling into their slots in any completion order give the results in page order |
| Decoders.ToNumber | src/Contract.ts:430-436 | `toNumber()` returns the word when it is at most 2^53 - 1 and throws `NumberOverflow` otherwise |
| Decoders.ToScaled | src/Contract.ts:629-630 | a scaled field is the word divided by 1000, or `NumberOverflow` |
| Decoders.ScaleLossless | src/Contract.ts:629-630 | dividing by the precision loses nothing |
| Decoders.RawArrivalToObject | src/Contract.ts:614-636 | accepted iff the player address is valid, both endpoints are below the bound and all four words fit; the error follows field order; the event id is the decimal of index 0, the endpoints have the raw values, indices 4 and 5 are divided by 1000, and the times are copied |
| Decoders.ArrivalLossless | src/Contract.ts:614-636 | a decoded arrival re-encodes to the raw tuple with only the player's letter case normalised |
| Decoders.RawPlanetToObject | src/Contract.ts:638-706 | accepted iff the id text is a valid location, the owner is a valid address and all 17 words fit; the error follows field order (id, perlin, owner, rest); energy and silver fields are scaled by 1000, range, speed and defense are copied, `upgradeState` is extended indices 5, 6 and 7 in order, `silverSpent` is 0 and `pulledFromContract` is true |
| Decoders.PlanetLossless | src/Contract.ts:638-706 | a decoded planet re-encodes to both raw tuples with only the owner's letter case normalised, and its id keeps the raw id's value |
| Decoders.RawUpgradeToUpgrade | src/Contract.ts:708-716 | accepted iff all five multipliers fit, else `NumberOverflow`; the result re-encodes to the raw tuple |
| Decoders.RawUpgradesInfoToUpgradesInfo | src/Contract.ts:718-724 | accepted iff every multiplier fits; the table keeps its shape and maps each entry in place |
| Decoders.BranchErrorIsOverflow | src/Contract.ts:718-724 | a failing branch can only fail with `NumberOverflow` |
| Decoders.ToNumbers | src/Contract.ts:472-477 | a list of words converts iff every word fits, and keeps every value |
| Decoders.DecodeDefaults | src/Contract.ts:455-470 | the defaults convert iff every row's eight words fit; each table has one entry per level; at every level the population cap and growth and the silver growth and cap are the word divided by 1000, and range, speed, defense and barbarian percentage are the word itself, so each row is rebuilt from the tables |
| Decoders.DefaultRowsLossless | src/Contract.ts:455-470 | tables built from the field mappings rebuild every row |
| Decoders.GetConstants | src/Contract.ts:416-481 | the constants object is built iff every word read fits, and otherwise the error is `NumberOverflow` |
| Decoders.ConstantsAssembled | src/Contract.ts:416-481 | when every word fits, every conversion succeeds and the object holds the scalars, thresholds and rarities as read, the eight defaults tables and the converted upgrade table |
| Decoders.ConstantsLossless | src/Contract.ts:416-481 | the constants keep every scalar, threshold and rarity, every defaults row at its level with the four currency tables holding each word divided by 1000, and the upgrade table's shape and multipliers |
| Decoders.ConstantsIgnoreLabels | src/Contract.ts:455-470 | relabelling the defaults rows does not change the constants |
| Decoders.DefaultsIgnoreLabels | src/Contract.ts:455-470 | relabelling the defaults rows does not change the tables |
| Facade.Through | src/Contract.ts:495-496 | a page post-processed inside the getter returns iff every entry converts, and then it is the entries converted in place; a thrown call stays thrown |
| Facade.RejectedEntryRetries | src/Contract.ts:495-496 | one entry that `address` rejects makes the whole call count as failed, so the page is retried |
| Facade.BuildPlayerMap | src/Contract.ts:499-503 | the map's keys are exactly the listed addresses, and each maps to the player with that address |
| Facade.GetPlayers | src/Contract.ts:487-504 | resolves iff the 200-entry pages do, with one entry per distinct listed address |
| Facade.PlayersOfListing | src/Contract.ts:487-497 | pages that serve the listed addresses give exactly that list |
| Facade.RawPlanetToObjectKeysById | src/Contract.ts:589-593 | `DecodePlanet`, which decodes from `planetIds[i].toString()`, gives every planet it builds an id of value `planetIds[i]` |
| Facade.PlanetsUpTo | src/Contract.ts:586-597 | the map after the first `k` iterations of the zip loop files every planet under its own `locationId` |
| Facade.PlanetsErrPersists | src/Contract.ts:586-597 | once an iteration throws, `getPlanets` throws that error |
| Facade.AssemblePlanets | src/Contract.ts:586-597 | the zip loop computes the fold `PlanetsUpTo` over indices `0 .. nPlanets - 1` |
| Facade.PlanetsOutcome | src/Contract.ts:556-598 | `getPlanets` never settles exactly when one of its three bulk reads never resolves, and a map it returns files every planet under its own id |
| Facade.GetPlanets | src/Contract.ts:556-598 | ids in 2000-entry pages, then extended infos and planets in 1000-entry pages, then the zip loop, settling as `PlanetsOutcome` |
| Facade.PlanetsThrowIff | src/Contract.ts:586-597 | `getPlanets` throws iff some iteration throws, and it throws the first such error |
| Facade.PlanetsAllDecoded | src/Contract.ts:586-597 | when it returns, every index where both raw entries exist had an id and decoded |
| Facade.PlanetsComplete | src/Contract.ts:586-597 | every planet built at a present index is in the map under its own id, and is the entry there unless a later present index has the same id |
| Facade.PlanetsProvenance | src/Contract.ts:586-597 | every map entry is the planet built at some present index with that id; skipped indices contribute nothing |
| Facade.PlanetsOfListings | src/Contract.ts:556-598 | pages that serve three listings give the zip of those listings by position |
| Facade.DecodeArrivals | src/Contract.ts:546-548 | a list of raw arrivals decodes iff each one does, item by item in order |
| Facade.AllArrivals | src/Contract.ts:534-554 | `getAllArrivals` resolves exactly when every 1000-planet page eventually returns a non-empty list whose raw arrivals all decode |
| Facade.GetAllArrivals | src/Contract.ts:534-554 | pages of 1000 planets decode inside the getter and resolve to `AllArrivals` |
| Facade.AllArrivalsOfListing | src/Contract.ts:534-554 | pages serving per-planet lists give the lists concatenated in planet order |
| Facade.FlattenSlice | src/Contract.ts:553 | planet `i`'s list appears intact, at its offset, in the concatenation |
| Facade.GetPlanet | src/Contract.ts:600-611 | the read succeeds iff the location is below the bound, the owner is valid and the words fit; a location at or above the bound throws `InvalidLocation`; the planet's id converts back to the queried number |
| Facade.PlanetReadKeepsId | src/Contract.ts:600-611 | reading at `locationIdToBigNumber(id)` yields the planet with that id |
| Facade.GetArrival | src/Contract.ts:518-522 | succeeds iff the stored tuple decodes, and then is never null |
| Facade.GetArrivalsForPlanet | src/Contract.ts:524-532 | queries under the canonical decimal of the planet's id; succeeds iff every arrival decodes, each in place |
| EventBridge.OnPlayerInitialized | src/Contract.ts:358-367 | a completed run emits exactly `PlayerInit`, `PlanetUpdate(planet, its arrivals)` and `RadiusUpdated`; an invalid address throws before any emit; a failed read leaves only `PlayerInit` |
| EventBridge.OnArrivalQueued | src/Contract.ts:368-392 | a null arrival emits nothing; a completed run emits exactly `PlanetUpdate(to, toArrivals)`, `PlanetUpdate(from, fromArrivals)` and `RadiusUpdated`; a failure leaves at most the first update |
| EventBridge.ArrivalQueuedFirst | src/Contract.ts:368-390 | when an `ArrivalQueued` run emits anything, the arrival was read and not null, and the first event is the destination's update with its arrivals; only a completed run emits more than one event |
| EventBridge.OnPlanetRefresh | src/Contract.ts:394-403 | `PlanetUpgraded` and `BoughtHat` emit exactly one `PlanetUpdate` with the planet's arrivals, or nothing when a read throws |
| EventBridge.Handle | src/Contract.ts:357-403 | a completed run emits three events for `PlayerInitialized` and `ArrivalQueued` and one for `PlanetUpgraded` and `BoughtHat`; a run that throws leaves at most one; only `ArrivalQueued` drops, and then emits nothing |
| EventBridge.UpdatesCarryOwnArrivals | src/Contract.ts:357-403 | every emitted planet update carries the arrivals read for that planet at the event's block |
| EventBridge.UpdatesReadAtBlock | src/Contract.ts:357-403 | every emitted planet is the result of a planet read at the event's block |
| EventBridge.RadiusUpdatedClosesRun | src/Contract.ts:358-392 | `RadiusUpdated` is only the last of three events of a completed `PlayerInitialized` or `ArrivalQueued` run, and such a run always ends with it |
| EventBridge.EmissionBounds | src/Contract.ts:357-403 | at most three events per run; only `ArrivalQueued` drops, and then emits nothing; `PlayerInit` comes only from `PlayerInitialized`, only as the first event, and carries the canonical form of the notified address |
| EventBridge.ArrivalQueuedNeverDrops | src/Contract.ts:371-378 | over the facade's own reads the null guard is never taken, because `getArrival` never returns null |
| EventBridge.ArrivalQueuedEndpointsRead | src/Contract.ts:379-390 | a completed `ArrivalQueued` run emits three events, the first updating the planet read at the destination and the second the planet read at the origin |
| EventBridge.ArrivalUpdatesEndpoints | src/Contract.ts:379-390 | over the facade's reads, the two updates are the arrival's destination and then its origin, each with its own id |
| EventBridge.RefreshUpdatesLocation | src/Contract.ts:394-403 | over the facade's reads, the updated planet is the one at the notified location |

## Left out

- Network and ethers calls (`coreContract.*`, `callStatic`, `EthereumAccountManager`). They are
  parameters: paged oracles, `ChainView` storage getters and per-block `Reads`.
- `create` and the `ChangedRPCEndpoint` reload (`src/Contract.ts:337-349`): connection plumbing.
- Listener registration and teardown (`destroy`, `removeEventListeners`): EventEmitter
  plumbing. `removeEventListeners` does not remove the `BoughtHat` listener; the teardown is
  not modelled, so this is recorded here only.
- Real time and `setTimeout`. The backoff is a computed delay (`BulkGetter.Backoff`, and the
  `waits` of `FetchPage`).
- Concurrency. `Promise.all` is modelled by slots (`BulkGetter.SettleInCompletionOrder`), and
  `AggregateBulkGetter` runs the pages one after another. Races between handlers, and handlers
  interleaving with the bulk loaders, are not modelled.
- The retry oracle is finite. A page whose listed calls never yield a non-empty list "never
  resolves" (`None` / `NeverSettles`); the infinite retry itself is not modelled.
- Console logging, and the `soFar` counter and `printProgress` flag of `aggregateBulkGetter`.
  None of them affect results.
- `getContractBalance` (floating point via `formatEther` and `parseFloat`), `getWorldRadius`,
  `zkChecksDisabled` and `getContractAddress`: single foreign calls with no logic of their own.
- `emptyAddress` (`src/Contract.ts:96`). It is `address` of a fixed 40-digit string, which
  `Identifiers.Address` and `Identifiers.CanonicalAddress` cover.
- JavaScript double rounding of `toNumber() / contractPrecision`. Scaled fields are exact
  `real`s.
- Big-number words are unsigned (`nat`).
- Identifiers.LocationIdFromDecStrSpec: accepts exactly the non-empty strings of decimal
  digits. `bigInt` accepts more: it first tries JavaScript's `Number()`, so it also returns
  an integer for `""` (0), whitespace-padded text (`" 12 "`), `0x`/`0o`/`0b` forms, `"5.0"`,
  exponent forms and a leading sign. For those texts `locationIdFromDecStr` returns a padded
  rendering where the model throws `InvalidInteger`. Every caller in `src/Contract.ts`
  (lines 627, 628 and 669, reached from lines 589-593 and 600-611) passes the text of a
  `BigNumber.toString()`, which is always a non-empty digit string, so no input that those
  callers produce is affected.
- Identifiers.LocationIdFromDecStr: the same restriction of the text `bigInt` parses.
- Identifiers.LocationIdOfDecStr: the same restriction of the text `bigInt` parses.
- `toLowerCase` is modelled on ASCII letters only. No other character lowers to a hex digit or
  to `x`, so which inputs `address` accepts is unchanged.
- Decoders.RawUpgradesInfoToUpgradesInfo: does not enforce the 3 × 4 shape of the
  `UpgradesInfo` type cast, because the cast checks nothing at run time.
- The `spaceType` and `planetResource` codes are unconstrained `nat`s. The enums
  `SpaceType` and `PlanetResource` are not part of this model.
- `src/index.ts`: DOM, canvas, websocket and storage setup around the facade.
- `ContractsAPIEvent` transaction events, which these handlers do not emit.
