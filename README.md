# Map screen state: viewport anchoring, live station list, pie slices

This project models the state core of the single screen of the MAP app
(`App.js`). The screen draws a map with a user marker, a fixed set of metro
stations and a live list of shared-bike stations. What the model captures is
the state that the screen's handlers overwrite:

- `region`: the displayed map region, as a centre plus a latitude span and a
  longitude span.
- `marker`: the user marker, as a coordinate plus a title and a description.
- `onCurrentLocation`: whether the view is anchored to the user's position.
  The recenter control is drawn exactly when this flag is false.
- `ubike`: the live bike-station list.

It has three modules:

- `Screen` (screen.dfy) gives the state as a value and one pure transition per
  handler.
  - `RegionChanged`: the map reports the region it settled on. A move of at
    most 0.0002 degrees on both axes is ignored. A larger move is adopted whole,
    spans included, and releases the anchor.
  - `LocationResolved`: the permission prompt and the position read finish. Only
    a granted prompt whose read succeeds changes anything. It moves the centre
    and the marker to the position, keeps the spans, and anchors the view.
  - `UbikeFetched`: a response replaces the whole list. A thrown error keeps the
    old list.
- `MapScreen` (map_screen.dfy) has the class `App`. Its fields are updated in
  place, one method per handler. Each method's contract gives the new fields
  and ties them to the matching transition.
- `ScreenRuns` (screen_runs.dfy) folds the transitions over any sequence of
  completed handlers. It proves what holds over every such sequence.
- `UbikePie` (ubike_pie.dfy) gives the two chart slices of each live station.

Three facts about the code shape the model:

- The code does not clamp `sbi > tot` and does not guard `tot == 0`. It divides
  unguarded, so the pie functions require `tot != 0` and leave every other
  input unclamped.
- The code does not drop feed records that fail numeric coercion. It stores
  the response body as it is.
- The code has no explicit location state machine. It is one async function,
  and a denied permission or a failed read simply ends it.

## Model

| member | source | states |
|---|---|---|
| `Screen.InitialState` | App.js:18-35 | Start state: centre (25.041077, 121.576102), spans 0.02/0.01, marker at the centre with its default title and address, not anchored so the recenter control shows, empty station list |
| `Screen.RegionChanged` | App.js:37-45 | Movement of at most 0.0002 on both axes leaves the state equal; more on either axis adopts the reported region whole and clears the anchor; marker and station list never change; never sets the anchor |
| `Screen.Recentred` | App.js:53-66 | Region centre and marker coordinate both become the position, so the view is centred on the marker; spans, marker title/address, flag and list are kept |
| `Screen.LocationResolved` | App.js:68-77 | A status other than "granted" or a rejected read leaves the state equal; a granted successful read anchors the view, centres it on the marker placed at the position, and keeps spans, marker label and list |
| `Screen.UbikeFetched` | App.js:47-50 | A response makes the list exactly the response body; a thrown fetch leaves the state equal; region, marker and flag untouched |
| `MapScreen.App.constructor` | App.js:18-35 | Fields start at the default region, default marker, flag false, empty list |
| `MapScreen.App.OnRegionChangeComplete` | App.js:37-45 | Jitter leaves the object unchanged; a real move sets `region` to the report and the flag false; marker and list kept; new state is `RegionChanged` of the old |
| `MapScreen.App.SetRegionAndMarker` | App.js:53-66 | Region gets the position as centre with old spans; marker gets the position as coordinate with old title/address; flag and list kept |
| `MapScreen.App.GetLocation` | App.js:68-77 | Denied permission or rejected read: object unchanged; otherwise region and marker recentred and flag set true; list kept; new state is `LocationResolved` of the old |
| `MapScreen.App.GetUbikeAsync` | App.js:47-50 | A response replaces the list; a thrown fetch leaves the object unchanged; new state is `UbikeFetched` of the old |
| `ScreenRuns.StepKeepsAnchoredOnMarker` | App.js:37-77 | Every handler keeps "anchored implies centred on the marker" |
| `ScreenRuns.RunKeepsAnchoredOnMarker` | App.js:37-77 | Any sequence of handlers keeps "anchored implies centred on the marker" |
| `ScreenRuns.ReachableAnchoredOnMarker` | App.js:37-77 | From startup, after any sequence of handlers, an anchored view is centred on the user marker and the recenter control is hidden |
| `ScreenRuns.AnchoringNeedsLocation` | App.js:68-77 | A view anchored after a run was anchored before it or saw a granted request whose position read succeeded: the only path that sets the flag |
| `ScreenRuns.RunKeepsMarkerLabel` | App.js:59-65 | No sequence of handlers changes the marker's title or description |
| `ScreenRuns.SpansComeFromReports` | App.js:53-58 | After any run, the spans are the initial ones or those of a region the map reported; location reads never change spans |
| `ScreenRuns.RunSnoc` | App.js:37-88 | Handling a sequence and then one more event equals handling the extended sequence |
| `ScreenRuns.StationsAreLatestResponse` | App.js:47-50 | After any run, the list is the body of the latest successful response, or the starting list if every fetch threw (last-known-good) |
| `ScreenRuns.AnchoredExactlyWhen` | App.js:37-77 | After any run the anchored flag is true exactly when the start state was anchored or a granted, successful location read occurred, and no later map report moved the view |
| `ScreenRuns.RecenterVisibleExactlyWhen` | App.js:162-176 | From startup, the recenter control is drawn exactly when every successful location read was followed by a map report that moved the view |
| `ScreenRuns.StepIdempotent` | App.js:37-45 | Delivering any handler completion twice equals delivering it once; the map re-reporting the region it settled on is ignored |
| `ScreenRuns.LocationAndFetchCommute` | App.js:79-88 | The location flow and the fetch started together on mount give the same state in either completion order |
| `UbikePie.PieSlices` | App.js:143-146 | x values sum to `tot`, y values sum to 100, second slice is `sbi` with share 100·sbi/tot; for `tot > 0` the share is in [0,100] exactly when 0 ≤ sbi ≤ tot, and then both y are in [0,100] |
| `UbikePie.ShareBounds` | App.js:144-145 | The bike share times `tot` is 100·sbi; it lies in [0,100] when 0 ≤ sbi ≤ tot, and for `tot > 0` only then |
| `UbikePie.PieData` | App.js:131-159 | One slice pair per station in list order, each equal to `PieSlices` of that station's `sbi` and `tot`: x values sum to `tot`, y values to 100, bike slice x is `sbi`, and both y lie in [0,100] when 0 ≤ sbi ≤ tot |

## Left out

- Drawing of `MapView`, `Marker`, `Image`, `Icon`, `VictoryPie` and the style sheet (App.js:90-198). These are UI components of foreign libraries. Only the recenter control's visibility and the chart data are modelled.
- The permission request, the position read and the HTTP request themselves (App.js:48, 69, 74). They are foreign calls. Their results are method parameters: a status string, a position outcome and a fetch outcome.
- The Android-emulator check on mount and the `setMsg`/`setErrorMsg` calls (App.js:71, 80-83). These identifiers are not defined in the file, so calling them throws. They would write no modelled state.
- The `metro` station list (App.js:34, 115-130). It is loaded from a bundled file and never reassigned, so it has no transition to model.
- Async interleaving and stale closures of React hooks. Each handler is one atomic step on the current state.
- `UbikePie.PieSlices`: does not model `tot == 0` (JavaScript yields NaN or Infinity there). The function requires `tot != 0` instead.
- `UbikePie.PieData`: does not model a station list that holds a station with `tot == 0`, which the chart at App.js:131-146 still draws with NaN or Infinity shares. The function requires every station's `tot` to be non-zero.
- A response body that is not an array of station records. The code stores `response.data` whatever its shape (App.js:49), for instance a raw string when the body is not JSON, and the `ubike.map` call at App.js:131 then throws while drawing, so the screen fails instead of keeping the last list. The model's response carries a list of station records only.
- Text-to-number coercion of feed fields (`Number(site.lat)`, and the implicit coercion of `sbi`/`tot` by `-` and `/`). The model takes `sbi` and `tot` as integers. It keeps the coordinates as text.
- The metro marker key and the bike marker title, built by string concatenation (App.js:118, 138), and the bike marker key taken as the raw `sno` field (App.js:137). These are formatting only.
- IEEE floating-point behaviour. Coordinates and percentages are exact `real` values.
