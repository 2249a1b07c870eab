# Tile catalog: normaliser, load commit and filter

This project models the logic of the tile catalog viewer's `app.js` in Dafny.
The viewer fetches a dataset of tile records, normalises every record into the
canonical tile shape, and keeps the result in the module-level `allTiles`. It then
filters that list by search text, type and generation.

- `text.dfy` (module `Text`) holds the string operations the viewer relies on:
  `toLowerCase` over ASCII, `includes` (proved equal to "occurs at some index"),
  and the decimal rendering of a money amount inside a template literal (proved to
  read back to the amount).
- `tiles.dfy` (module `Tiles`) holds the raw and canonical record types and the
  normalising arrow function, both as the function `Normalise` and as the method
  `NormaliseRecord`. `NormaliseRecord` builds `requiresOther` by pushes onto a
  local array (`BuildRequiresOther`). It also holds the `map` over the dataset, as
  the function `NormaliseAll` and the loop `MapNormalise`.
- `filters.dfy` (module `Filters`) holds the `filter` callback of `applyFilters`
  (`Keep`), the filter over a tile list (`FilterTiles`), and its properties. These
  are AND-composition, order preservation (subsequence), exact multiplicities,
  monotonicity, idempotence, and the identity when every criterion is empty.
- `catalog.dfy` (module `Catalog`) holds the class `TileStore`, whose field
  `allTiles` is the module-level variable. `Load` commits all normalised tiles or
  leaves the field as it was. `ApplyFilters` returns the tiles handed to the
  renderer.

Spreading a missing sub-array (`...undefined`) throws in JavaScript. So the
raw record's arrays are `Option` values, and a missing one makes `Normalise`
return `None`. That throw aborts the whole `map`, the assignment to `allTiles` never
runs, and the catch only logs it. A missing `money` compares as not positive
(`undefined > 0` is false), so it only omits the currency entry. The JSON keys
`type` and `requires` of a raw record are the fields `tileType` and `requirements`,
because `type` and `requires` are Dafny keywords. The raw `produces` object is the field
`production`, which keeps it apart from the flat `produces` array of the canonical
`Tile`. The canonical `Tile` keeps `requirements`, which the object spread carries through.

Three behaviours of `app.js` are worth stating plainly, and the model keeps them:
- A record with a missing sub-array makes the whole load fail. It does not degrade
  to empty sequences. The comment at app.js:23 ("if they exist") suggests `tiles`
  was meant to be optional, but spreading a missing `tiles` at app.js:24 throws.
- The type filter is a substring test (`includes`, app.js:90), not an equality test,
  so a criterion matches a composite type such as "Residential & Commercial".
- A failed load leaves the previous `allTiles` in place (the catch at app.js:42-44
  only logs). On the first load that is the empty list.

## Model

| member | source | states |
|---|---|---|
| `Text.Lower` | app.js:84 | lower-casing keeps the length, turns each capital A-Z into its lower-case letter and changes no other character |
| `Text.LowerIdempotent` | app.js:89 | lower-casing an already lower-cased string changes nothing |
| `Text.Includes` | app.js:89-90 | `includes` accepts the empty needle and never a needle longer than the haystack |
| `Text.IncludesIsSubstring` | app.js:89-90 | `includes(s, sub)` holds exactly when `sub` occurs at some index of `s` |
| `Text.Decimal` | app.js:21 | the rendering of an amount is a non-empty string of decimal digits |
| `Text.DecimalRoundTrip` | app.js:21 | the rendered amount reads back to the amount |
| `Text.DecimalNoLeadingZero` | app.js:21 | a rendered positive amount does not start with `0` |
| `Text.DecimalInjective` | app.js:21 | distinct amounts render to distinct strings |
| `Tiles.Spread` | app.js:12-16 | an array literal of spreads exists exactly when every spread operand is present |
| `Tiles.Spread3` | app.js:27-31 | spreading raw, processed, luxury yields their concatenation in that order, or throws if one is missing |
| `Tiles.Currency` | app.js:21 | the currency entry is `£` followed by decimal digits only |
| `Tiles.CurrencyRoundTrip` | app.js:21 | the digits after `£` read back to the money amount, with no leading zero |
| `Tiles.RequiresOther` | app.js:19-24 | defined exactly when `tiles` is present; length is tiles plus one exactly when money > 0; ends with the tiles in order; starts with the currency entry when money > 0 and equals the tiles otherwise |
| `Tiles.Normalise` | app.js:10-39 | normalisation succeeds exactly when every spread field is present; name, type, generation, description and the `requires` object are carried through unchanged |
| `Tiles.NormaliseRequiresGoods` | app.js:12-16 | `requiresGoods` is requires.raw ++ processed ++ luxury |
| `Tiles.NormaliseProduces` | app.js:27-31 | `produces` is produces.raw ++ processed ++ luxury |
| `Tiles.NormaliseRequiresOther` | app.js:19-24 | `requiresOther` is one `£money` entry iff money > 0, then `requires.tiles` in order, and its length is the number of tiles plus one exactly when money > 0 |
| `Tiles.NormaliseRequiresGoodsMembers` | app.js:12-16 | a good is in `requiresGoods` exactly when it is in one of the three required categories |
| `Tiles.BuildRequiresOther` | app.js:19-24 | the push-by-push construction yields exactly `RequiresOther` |
| `Tiles.NormaliseRecord` | app.js:11-38 | the arrow function, step by step in source order, yields exactly `Normalise` |
| `Tiles.NormaliseAll` | app.js:10 | the map succeeds exactly when every record is well-formed; then it keeps the length and the i-th tile is the normalisation of the i-th record |
| `Tiles.MapNormalise` | app.js:10 | the mapping loop, stopping at the first throw, yields exactly `NormaliseAll` |
| `Catalog.Committed` | app.js:10 | the tiles after a load are either the previous tiles or exactly the normalised dataset; a failed fetch keeps the previous tiles |
| `Catalog.LoadAllOrNothing` | app.js:10 | a failed fetch or one malformed record leaves the tiles unchanged; when every record is well-formed the tiles become the whole dataset normalised, same length, i-th tile from i-th record |
| `Catalog.TileStore.constructor` | app.js:1 | `allTiles` starts empty |
| `Catalog.TileStore.Load` | app.js:3-45 | `allTiles` becomes the normalised dataset when the fetch and every record succeed, else keeps its old value |
| `Catalog.TileStore.ApplyFilters` | app.js:83-96 | the loop returns exactly `FilterTiles(allTiles, criteria)` |
| `Filters.Keep` | app.js:88-93 | the callback keeps a tile iff each non-empty criterion holds: case-insensitive name substring, type substring, generation equality |
| `Filters.KeepIgnoresCase` | app.js:84-89 | changing the case of letters in the search text or the tile name does not change whether the tile is kept |
| `Filters.KeepLowerSearch` | app.js:84 | searching with the lower-cased text keeps the same tiles as the text as typed |
| `Filters.FilterTiles` | app.js:88 | the result is no longer than the input and holds only input tiles the callback keeps |
| `Filters.FilterIsSubsequence` | app.js:88 | the result is a subsequence of `allTiles`, so it keeps the original order |
| `Filters.FilterCounts` | app.js:88-93 | a kept tile occurs as often as in `allTiles`; any other tile occurs not at all |
| `Filters.FilterMembership` | app.js:88-93 | a tile is in the result iff it is in `allTiles` and satisfies every active criterion |
| `Filters.FilterNoCriteria` | app.js:89-92 | with all three criteria empty the result is `allTiles` |
| `Filters.KeepNarrows` | app.js:89-92 | a tile kept under more criteria is kept under fewer |
| `Filters.FilterMonotone` | app.js:88-93 | adding a criterion gives a subsequence of the earlier result |
| `Filters.KeepSplits` | app.js:89-92 | the callback is the AND of its three single-criterion checks |
| `Filters.FilterAndComposition` | app.js:88-93 | filtering by all criteria equals filtering by search, then type, then generation |
| `Filters.FilterIdempotent` | app.js:88-93 | filtering a filtered list again by the same criteria changes nothing |

## Left out

- The fetch of `data/tiles.json`, the `res.ok` check and JSON parsing (app.js:5-7) are I/O. `Load` takes their outcome as a parameter. `None` stands for a failed request, a non-ok status or a body that is not JSON. It also stands for a body that parses but is not an array, such as a keyed map: `.map` then throws at app.js:10, and the load keeps the old `allTiles`.
- Tiles.NormaliseAll: a `null` entry in the dataset array cannot be represented. In the source it throws at app.js:13 and aborts the load like any other malformed record.
- `renderTiles` (app.js:47-81) is DOM construction, so it is left out. `ApplyFilters` returns the list it would render. The call after a successful load is not modelled.
- Reading the three criteria from DOM elements (app.js:84-86), the event listeners and the `DOMContentLoaded` bootstrap (app.js:98-106) are browser wiring. The criteria are plain string parameters.
- `console.error` logging (app.js:43, app.js:50) has no effect on the state, so it is left out.
- Text.Lower: lower-cases ASCII letters only, not the full Unicode mapping of `toLowerCase`.
- Text.Decimal: renders an integer amount in decimal. The JavaScript formatting of non-integer or huge numbers is not modelled, and neither is a `money` that is a numeric string.
- Tiles.Normalise: a sub-field is either an array of strings or missing/null. Other JSON values are not modelled: a string would spread into characters, and a number or plain object would throw.
- Tiles.Normalise: a record carries only name, type, generation, description and `requires` through the spread. Any other fields of a record are not represented.
- Filters.Keep: assumes `name`, `type` and `generation` are strings. The source would throw in `toLowerCase` or `includes` on a record missing `name` or `type` while that criterion is non-empty. A missing `generation` does not throw: `!==` at app.js:91 simply drops the tile.
- The delimited-string form, the pre-normalised passthrough, keyed-map datasets, resource-chain filtering and rank-based sorting are not in `app.js`, so they are not modelled.
