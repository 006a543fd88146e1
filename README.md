# Indian state boundary map: a Dafny model of its search logic

The application is one React component (`src/App.tsx`). The user types the
name of an Indian state and is offered matching names from a fixed list.
Searching geocodes the name, fetches the administrative boundaries around the
point found, picks the state's feature and draws its outline with a marker.

This project models the sequential logic inside the component:

- **Autocomplete** (`autocomplete.dfy`, with `text.dfy`). This is the fixed
  `states` list and the case-insensitive substring filter of
  `handleSearchChange`. `Filter` is a subsequence of its input in the
  original order. It keeps every matching entry as often as the input holds
  it and no other entry. An empty input value gives no suggestions.
- **GeoJSON to Leaflet** (`geojson.dfy`). A `Polygon` yields exactly one
  path: its outer ring with every `[lng, lat]` written `[lat, lng]`. Any other
  geometry is read as a list of polygons and yields one swapped outer ring
  per polygon. Holes are dropped and ring lengths are kept. A polygon with no
  rings makes the source's `.map` throw, and the model reports that as a
  failure.
- **Boundary resolution** (`resolver.dfy`). These are the steps of
  `fetchStateBoundary`: the geocoding checks, the display name, the
  first-match rule of `features.find`, and the conversion. `Resolve` gives
  the state after one call as a function of the two HTTP replies and of the
  centre the map library computes. The lemmas beside it state what each kind
  of call leaves behind.
- **The component** (`component.dfy`). Class `App` has the component's
  state fields. Its methods `HandleSearchChange`, `SelectSuggestion` and
  `FetchStateBoundary` assign the fields step by step, as the handlers do.
  Their postconditions tie the new state to `Suggestions` and `Resolve`. The
  invariant `Valid` holds between handler calls: nothing is loading, the
  suggestions are states in list order, and an outline is never shown
  without its marker.

Coordinates are only carried and swapped, so the geometry types take the
coordinate type as a parameter. Geocoded latitude and longitude are `real`,
because their only use here is the JavaScript truthiness test.

In these places the code does something a reader might not expect, and the model follows the code:

- A failure after a successful geocode keeps the new display name.
  `placeName` is set at line 106 and is not rolled back.
- A latitude or longitude of 0 is rejected like a missing one (`!lat || !lon`).
- A selected feature without geometry fails the search, even when a later
  feature qualifies and has a geometry. `find` stops at the first match.
- The marker position comes from Leaflet's bounds centre. It is not a
  centroid computed by the component.

## Model

| member | source | states |
|---|---|---|
| `Text.Lower` | src/App.tsx:65 | lower-casing keeps the length and maps each character by ASCII lower-casing |
| `Text.Contains` | src/App.tsx:65 | `includes` as a left-to-right scan: the query starts here or occurs in the rest of the text |
| `Text.ContainsAt` | src/App.tsx:65 | the `includes` scan holds exactly when the query occurs at some offset in the text |
| `Autocomplete.Matches` | src/App.tsx:65 | the `filter` callback: the entry's lower-cased text contains the lower-cased query |
| `Autocomplete.Filter` | src/App.tsx:65 | the filter result is a subsequence of the list in original order; an entry is in it iff it is in the list and matches case-insensitively; each matching entry appears as often as in the list, non-matching ones never |
| `Autocomplete.Suggestions` | src/App.tsx:63-67 | suggestions are a subsequence of the candidate list, and an empty input value gives no suggestions |
| `Autocomplete.SuggestionsAreMatches` | src/App.tsx:63-66 | a state is suggested iff the input value is non-empty and the state's lower-cased text contains the lower-cased value |
| `Autocomplete.StatesDistinct` | src/App.tsx:20-49 | no state is listed twice |
| `Autocomplete.SubsequenceMembers` | src/App.tsx:65 | every element of a filtered list is an element of the list it was taken from |
| `Autocomplete.SubsequenceOfDistinct` | src/App.tsx:65 | filtering a list without repetitions gives a list without repetitions |
| `Autocomplete.SuggestionsDistinct` | src/App.tsx:20-49 | the suggestion list never shows a state twice |
| `GeoJson.SwapRing` | src/App.tsx:140-142 | the path has the ring's length, and point k is the ring's point k with latitude first |
| `GeoJson.OuterRings` | src/App.tsx:144-148 | conversion succeeds iff every polygon has a ring; then there is one path per polygon, each the swapped first ring of that polygon |
| `GeoJson.ToLeaflet` | src/App.tsx:137-148 | a Polygon yields exactly one path, the swapped first ring, and fails iff it has no rings; other geometries yield one swapped outer ring per polygon |
| `GeoJson.HolesDropped` | src/App.tsx:137-143 | a Polygon's conversion ignores every ring after the first |
| `GeoJson.HolesDroppedEach` | src/App.tsx:144-148 | two polygon lists of equal length whose polygons are empty at the same places and have the same outer rings convert alike, whatever their holes |
| `Resolver.Truthy` | src/App.tsx:104 | JavaScript truthiness of a coordinate: present and not zero |
| `Resolver.Geocode` | src/App.tsx:99-104 | a successful geocode returns the first feature, and both of its coordinates are present and non-zero |
| `Resolver.GeocodeFailures` | src/App.tsx:99-104 | geocoding fails with a network error iff the request failed, with "not found" iff no first feature came back, and with "coordinates not available" iff either coordinate is missing or zero |
| `Resolver.ZeroCoordinateRejected` | src/App.tsx:102-104 | a latitude or longitude of exactly 0 is rejected |
| `Resolver.DisplayName` | src/App.tsx:106 | the display name is the provider's name when it is present and non-empty, and the search text when the name is missing or empty |
| `Resolver.IsStateRegion` | src/App.tsx:127-129 | the `find` callback: the feature's name equals the search ignoring case, or its admin_level is 4 |
| `Resolver.FindFirst` | src/App.tsx:126-130 | the index found is the first feature whose name equals the search ignoring case or whose admin_level is 4; none is found iff no feature qualifies |
| `Resolver.SelectRegion` | src/App.tsx:122-134 | boundary selection: network error, no features, no qualifying feature or a qualifying feature without geometry each fail; otherwise the geometry of the first qualifying feature |
| `Resolver.FirstIsUnique` | src/App.tsx:126-130 | the search finds exactly the first qualifying feature |
| `Resolver.SelectionIsFirstMatch` | src/App.tsx:122-134 | a selected geometry is the geometry of the first qualifying feature in reply order |
| `Resolver.GeometrylessMatchFails` | src/App.tsx:126-134 | if the first qualifying feature has no geometry, selection fails whatever follows it |
| `Resolver.SelectionFailure` | src/App.tsx:126-134 | with a non-empty feature list, "boundary not found" happens iff no feature qualifies or the first qualifying one has no geometry |
| `Resolver.SelectionPreconditions` | src/App.tsx:109-123 | selection fails with a network error iff the boundary request failed, and with "no boundaries" iff the features are missing or empty |
| `Resolver.Resolve` | src/App.tsx:75-163 | one call of `fetchStateBoundary`: the state after it and its outcome, given the two replies and the library's centre; its properties are the lemmas below |
| `Resolver.EmptySearchIsNoOp` | src/App.tsx:76 | with an empty search the call changes no state at all |
| `Resolver.ResolveFrame` | src/App.tsx:75-163 | a call never changes the search text or the suggestions, and a started call ends with loading false |
| `Resolver.FailureClearsMap` | src/App.tsx:77-161 | after any failure the boundary is empty, the marker is absent and loading is false, whatever they were before |
| `Resolver.PlaceNameAfterGeocode` | src/App.tsx:99-134 | after a successful geocode the display name is the provider's name or the search, even if a later step fails; a failed geocode only clears boundary, marker and loading |
| `Resolver.SuccessIffAllSteps` | src/App.tsx:122-156 | a call succeeds iff the search is non-empty and geocoding, selection and conversion all succeed; then the boundary is the converted geometry and the marker is at the library's centre |
| `Resolver.KeralaScenario` | src/App.tsx:99-156 | for "Kerala", a country-level feature is skipped and the admin_level 4 polygon is drawn as one swapped ring |
| `Resolver.AtlantisScenario` | src/App.tsx:99-100 | with no geocoding match the call fails "not found" and draws nothing |
| `Component.App.constructor` | src/App.tsx:52-57 | the state starts with an empty search, empty suggestions and boundary, no marker, an empty display name and not loading |
| `Component.App.HandleSearchChange` | src/App.tsx:60-68 | the input value becomes the search, the suggestions become its filtered states, nothing else changes, and the invariant is kept |
| `Component.App.SelectSuggestion` | src/App.tsx:70-73 | the chosen entry becomes the search, the suggestions are emptied, and nothing else changes |
| `Component.App.FetchStateBoundary` | src/App.tsx:75-163 | the new state and the outcome are those of `Resolve` on the old state, and the invariant is kept |
| `Component.SearchSelected` | src/App.tsx:170-194 | typing, picking a non-empty entry and searching leaves that entry as the search with no suggestions; the call is not skipped, and a failure leaves nothing drawn |

## Left out

- HTTP: the two axios requests, their URLs and their parameters are not modelled. Each reply is an input. The boundary reply is not tied to the geocoded coordinates it was requested for.
- The API key lookup and all `console.error` logging are not modelled. They are environment reads and diagnostics. The `Outcome` value names which error would be logged.
- The Leaflet centre of the selected feature is an input. The GeoJSON layer, its bounds and `fitBounds` are left out because they are floating-point library code. If the library throws (a feature with no points), the model does not show that case, where the boundary is set and the marker is not.
- The marker icon setup and all JSX rendering are left out as UI.
- Overlapping searches are not modelled. Each call runs to completion, so `loading` is only seen as false between calls. The code does not order racing calls.
- Text.Lower: lower-cases ASCII letters only. `toLowerCase` applies full Unicode case mapping.
- Resolver.Geocode: does not model NaN or non-numeric coordinates. They are not representable in `Option<real>`.
- Admin levels that are not numbers are modelled as absent. They never equal 4 under `===`.
- Some inputs make the source throw, and the model does not show that. These are a feature without `properties`, a position with fewer than two numbers, and a non-Polygon geometry whose coordinates are not a list of polygons. Geometries are assumed to have the Polygon or MultiPolygon shape.
