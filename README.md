# Baltic economy widget: selection tracker and data reshaping

A Dafny model of the logic inside `app.js` of the Baltic economy widget, a
map page on which the user picks two countries and gets a GDP bar chart, a
house-price line chart and a flag comparison for the pair.

The model has two parts.

- **The two-slot selection tracker.** The click handler, its query
  continuation and the continuations of the two web requests change a small
  amount of page state:
  - `selectedFeatures` and `selectedAttributes`, the highlight graphics and
    attribute records held;
  - the map's graphics layer;
  - the two chart variables `gdpChart` and `hpiChart`;
  - whether the description panel is shown;
  - the text of the comparison element.

  `Selection` states each handler as a step function on a `View` value.
  `Tracker.SelectionTracker` is a class with the script's own fields. Its
  methods update those fields in place, with the same loops as the script,
  and are proved to end in exactly the state the step function gives.
- **The pure reshaping.** `Reshape` covers `combineLabelsAndData`, the
  extraction of observation values, the two request URLs and the
  `"{flag1} vs {flag2}"` text.

A chart canvas is modelled as the list of chart instances drawn on it,
oldest first (`Charts`). A chart variable is `null` while that list is
empty; otherwise it refers to the last instance. This is how "exactly one
live chart per canvas" is stated: `LiveCount(canvas) == 1`.

JavaScript's `undefined` is `None`. Two places can produce it:
- `data[index]` past the end of `data`;
- `item[0]` of an empty observation array.

`Selection.Run` plays a sequence of events: map clicks, query results,
house-price responses and flag responses, in any order. Events can
therefore come in late, for example a query result that arrives after a
reset. The invariant (at most two held, both arrays and the map graphics in
lock-step, at most one chart drawn per canvas) is proved for every such run
from the loaded page in which no click throws.

`clearSelections` calls `destroy()` on both chart variables without a null
check. `ClearSelections` therefore requires both canvases to hold a chart
already. The run stops (`None`) when a click would reach `destroy()` on
`null`. `ResetBeforeHousingChartThrows` exhibits such a run: two countries
are held and the house-price chart has not been drawn yet.

## Model

| member | source | states |
|---|---|---|
| `Reshape.CombineLabelsAndData` | app.js:67-72 | the result's key set is exactly the set of labels |
| `Reshape.CombineLastWins` | app.js:67-72 | each label carries the datum at its last position, or `undefined` past the end of the data, because later assignments overwrite earlier ones |
| `Reshape.CombineLookup` | app.js:67-72 | for every key, the value is the datum at the last position carrying that key |
| `Reshape.CombineDistinct` | app.js:67-72 | with distinct labels, the i-th label gets `data[i]`, or `undefined` when `i` is past the end of `data` |
| `Reshape.ObservationValues` | app.js:89 | the extraction has the same length as the observations; its i-th value is the first component of the i-th observation, or `undefined` when that observation is empty |
| `Reshape.SeriesAt` | app.js:87-95 | a country's series has a key for every period label and no other key; with distinct labels, period i carries the first component of observation i |
| `Reshape.HousingSeriesExample` | app.js:89-95 | over the labels 2020-2022, "2021" maps to 105 for the first series and to 102 for the second |
| `Reshape.ToLowerCase` | app.js:56 | lower-casing keeps the length and maps each character on its own |
| `Reshape.ToLowerCaseIsLower` | app.js:56 | the result has no upper-case letter, and lower-casing it again changes nothing |
| `Reshape.FlagUrlCodes` | app.js:54-56 | the flag request is the fixed endpoint followed by both codes lower-cased, in selection order, separated by one comma |
| `Reshape.OecdUrlCodes` | app.js:76-78 | the OECD request puts both codes, unchanged and in order, joined by `+`, between the fixed dataflow path and the fixed 2014-2024 period filter |
| `Reshape.ComparisonTextParts` | app.js:62 | split at its spaces, the comparison text gives back the first flag, "vs" and the second flag |
| `Charts.LiveCountOfHandle` | app.js:254-256 | when every older instance is destroyed, at most one chart is drawn: the one the variable refers to, if it is live |
| `Charts.DestroyLeavesNoneLive` | app.js:42-43 | `destroy()` through the variable leaves no chart drawn on the canvas |
| `Charts.ReplaceLeavesOneLive` | app.js:97-103 | destroy-then-create leaves the variable on a new live chart with the given content; every older instance is destroyed, and exactly one chart is drawn |
| `Charts.CreateWithoutDestroyDoubles` | app.js:145-151 | for a charting library that accepts a canvas already in use, creating a chart without first destroying the live one leaves two drawn; the null-checked `destroy()` prevents this (a library that refuses a reused canvas would throw instead) |
| `Selection.ClearResets` | app.js:41-49 | a reset empties both arrays and the map's graphics, clears the comparison text, shows the description, leaves no chart drawn and keeps the invariant |
| `Selection.HitQueriesExactly` | app.js:268-277 | a query is issued for a layer exactly when some hit has a graphic on that layer; every query is at the clicked point with the intersects relation; there are never more queries than hits |
| `Selection.HitQueriesInOrder` | app.js:268-277 | there is one query per hit that has a graphic on a layer, in hit order: the j-th query is for the j-th such hit, so two stacked hits give two queries |
| `Selection.ClickKeepsInv` | app.js:259-266 | a click resets exactly when two are held, and then nothing remains selected; otherwise the click changes nothing before the queries; the invariant holds after it |
| `Selection.SelectWhileRoomTakes` | app.js:278-294 | the features are appended in order, to both arrays and to the map, until two are held; the rest are dropped; the entries already held and all other state are unchanged |
| `Selection.QueryAppendsThenCompares` | app.js:277-307 | the comparison record is built exactly when two are held, with codes, labels and GDP from slot 0 then slot 1; the GDP chart then shows that pair as the only chart on its canvas, and the description is hidden |
| `Selection.HousingDrawsOne` | app.js:86-140 | the house-price response leaves exactly one live line chart; its datasets are the first code with the first country's series and the second code with the second country's series, each the period labels zipped with that country's observation values (so `SeriesAt` gives each period's value); both series have one key per period; the selection, the GDP chart and the comparison text are unchanged |
| `Selection.RequestsFollowSelectionOrder` | app.js:52-78 | for a comparison record, the flag request names slot 0 then slot 1 lower-cased, and the OECD request names them unchanged |
| `Selection.ResetBeforeHousingChartThrows` | app.js:41-43 | after two stacked countries are taken in by one click, a third click before the house-price chart exists makes the handler throw |
| `Selection.StepKeepsInv` | app.js:259-313 | every handler that does not throw keeps the invariant |
| `Selection.RunKeepsInv` | app.js:250-313 | every run of events in which no click throws keeps the invariant |
| `Selection.SelectionStaysWithinTwo` | app.js:250-313 | after any run from the loaded page in which no click throws, at most two are held, both arrays have equal length, the map shows exactly their highlights, and each canvas draws at most one chart |
| `Tracker.SelectionTracker.constructor` | app.js:250-256 | the page starts with empty arrays, no chart and the description shown |
| `Tracker.SelectionTracker.AddDesc` | app.js:23-30 | the description is shown and nothing else changes |
| `Tracker.SelectionTracker.RemoveDesc` | app.js:32-39 | the description is hidden and nothing else changes |
| `Tracker.SelectionTracker.ClearSelections` | app.js:41-49 | the fields become the reset state, and the invariant holds |
| `Tracker.SelectionTracker.Click` | app.js:259-277 | the fields and the issued queries are those of the click step; the forEach over the hits builds the queries in order |
| `Tracker.SelectionTracker.CreateGdpChart` | app.js:143-151 | the previous bar chart is destroyed if there is one, the description is hidden, and a new bar chart with the given labels and data is drawn |
| `Tracker.SelectionTracker.OnQueryResult` | app.js:277-307 | the push loop and the check for two held leave the fields and the returned record exactly as the query step says, and the invariant holds |
| `Tracker.SelectionTracker.OnHousingData` | app.js:86-103 | both series are built from the response, and the line chart is destroyed and recreated as the house-price step says |
| `Tracker.SelectionTracker.OnFlags` | app.js:59-63 | the comparison text is appended to the element |
| `Tracker.EstoniaLatviaSession` | app.js:259-307 | with Estonia (GDP 30000) and then Latvia (GDP 45000) selected, the bar chart shows exactly those two bars in that order; a third click then empties everything, shows the description and leaves no chart drawn |

## Left out

- The map, view, layer, renderer, popup and symbology are not modelled (app.js:190-248). They are configuration of the mapping library.
- `view.hitTest` and `queryFeatures` are not modelled (app.js:268-277). They are foreign asynchronous calls. Their results enter the model as input sequences (`HitResult`, `Feature`).
- `fetch`, `response.json()` and the navigation into the REST Countries and OECD JSON shapes are not modelled (app.js:57-59, 79-88, 93). They are network and foreign-data access. The model starts from the extracted period labels, the two observation lists and the two flag strings.
- Chart rendering, colours and axis options are not modelled (app.js:103-140, 151-186). A chart is reduced to its data and whether it is still drawn.
- `Object.values` and `Object.keys` key order is not modelled. `ObservationValues` takes the observations already in value order. `LineData` keeps each series as a map, so the order the line chart shows its periods in is not modelled.
- The observation keys (the period indices of the SDMX series) are not modelled. `Object.values` drops them, and the model starts from the key-less list of values. `Reshape.SeriesAt` ("period i carries observation i") therefore describes the source only when the series has an observation for every period. In the source, a missing period moves every later value onto the previous label. The model cannot show that shift.
- Attribute records are taken as complete. A feature without `GDP_cap` would put `undefined` into the comparison record and the bar data, which the source draws without a check. A feature without `SOV_A3` would make `toLowerCase()` throw when the flag request is built. Neither case is modelled.
- Null observation values and the SDMX attribute components of an observation are not modelled. Observations are sequences of numbers.
- `Reshape.ToLowerCase`: lower-cases only the ASCII letters. JavaScript's full Unicode case mapping is not modelled. Country codes are three ASCII letters.
- DOM manipulation is not modelled beyond the description flag and the comparison text. At load time the description is taken to be shown and the comparison element to be empty. The page markup is not part of this model.
- `console.log` calls are not modelled.
- `Selection.Run`: plays events one at a time. Late continuations are covered in any order. Callbacks are assumed not to interleave within one handler, which the single-threaded event loop guarantees anyway. Nothing after an uncaught exception is followed.
- `Tracker.SelectionTracker.ClearSelections`: requires both chart variables to be non-null instead of modelling the TypeError and the partial state it leaves. `Selection.Step` reports that case as `None`.
