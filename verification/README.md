# Transit tracker for Washington, D.C. — a Dafny model

The app takes a searched address or the rider's current location. It then
lists the nearby Metrorail stations and bus stops with their next arrivals.
It also draws them on a map.

The project models the app's logic. Each module follows one source file.

- `Api` (src/api/api.ts) maps the WMATA (Washington Metropolitan Area
  Transit Authority) responses to the app's records.
- `Utils` (src/utils/utils.ts) holds the walking-distance policy: miles,
  or feet under 0.1 miles. It also holds the metro line colours.
- `MetroResults`, `MetroResultSummary` and `MetroResultDetails` model the
  metro station list:
  - which station codes are requested (at most five);
  - which cards are shown when a station has a partner platform;
  - the expanded flags;
  - the per-station store of train predictions;
  - the header badges;
  - the order in which trains are listed.
- `BusResults`, `BusResultSummary` and `BusResultDetails` model the bus
  list:
  - arrivals grouped by direction;
  - route badges;
  - minute labels;
  - the route the rider picks;
  - the per-card store of route paths and the stops drawn for that route.
- `MetroMap` (src/components/Map/Map.tsx) models the map centre, the
  location marker and the station popups.
- `Search` (src/components/Search.tsx) models the address options offered
  while typing, and the state after an option is picked.

Shared building blocks:

- `Wrappers` (Option);
- `Seqs` (filter, first-appearance dedup, subsequences);
- `Numerals` (JavaScript `parseInt` and number-to-text);
- `Sorting` (the comparator-driven sort);
- `Expansion` (the list of expanded flags used by both lists);
- `Models` (the records of src/models).

`parseInt` is modelled with its full JavaScript behaviour:

- leading whitespace is skipped;
- an optional sign is read;
- a `0x` prefix switches to hexadecimal;
- the longest digit prefix is read;
- a string with no digits gives NaN, modelled as `None`.

`Array.prototype.sort` does not fix an algorithm. It is modelled as a
stable insertion sort that calls the comparator as `cmp(earlier, new)`.
Its results are then proved for any comparator that is a total preorder on
the input.

Where the code does something its authors evidently did not intend, both
versions are modelled. The as-written version carries a lemma that exhibits
the problem. The corrected version carries the intended property (see
"## Findings").

## Model

| member | source | states |
|---|---|---|
| Api.BusStopsFromResponse | src/api/api.ts:39-45 | one stop per record, in order, each keeping the record's id and routes |
| Api.BusStopsLossless | src/api/api.ts:39-45 | the mapping loses nothing: each record is recovered from its stop |
| Api.BusPredictionsFromResponse | src/api/api.ts:64-71 | one arrival per record, in order, with the same trip and minutes |
| Api.BusPredictionsLossless | src/api/api.ts:64-71 | each prediction record is recovered from its arrival |
| Api.PathDirectionFromRecord | src/api/api.ts:82-101 | a missing direction stays missing; a present one keeps its number, headsign, stop count and shape length |
| Api.PathDirectionLossless | src/api/api.ts:82-101 | the direction record is recovered from the mapped direction |
| Api.PathDetailsFromResponse | src/api/api.ts:112-117 | name and route id are copied; each direction is present exactly when it was in the response |
| Api.DirectionsMappedIndependently | src/api/api.ts:112-117 | each direction of a path depends only on the same direction of the response |
| Api.EntrancesFromResponse | src/api/api.ts:140-147 | one entrance per record, in order, with both station codes kept |
| Api.EntrancesLossless | src/api/api.ts:140-147 | each entrance record is recovered from its entrance |
| Api.StationFromResponse | src/api/api.ts:166-183 | code and partner code are copied; the street field receives the state, as the source assigns it |
| Api.StationLosesOnlyStreet | src/api/api.ts:166-183 | reading the station back gives the record with the street replaced by the state, so the street is the only field lost |
| Api.StationIgnoresStreet | src/api/api.ts:170 | the station does not depend on the street the service sends |
| Api.MetroPredictionsFromResponse | src/api/api.ts:204-214 | one train per record, in order, with the same minutes and line |
| Api.MetroPredictionsLossless | src/api/api.ts:204-214 | each train record is recovered from its prediction |
| Utils.DistanceFromMiles | src/utils/utils.ts:18-25 | feet exactly when under 0.1 miles, at 5280 feet per mile and below 528 feet; otherwise miles of at least 0.1 |
| Utils.DistanceRoundTrip | src/utils/utils.ts:20-25 | converting the shown distance back to miles gives the computed miles in either unit |
| Utils.FeetBelowFeet | src/utils/utils.ts:20-22 | a place nearer than one shown in feet is also shown in feet |
| Utils.CalculateDistance | src/utils/utils.ts:2-26 | the distance in miles is 6371 km times the central angle times 0.621371, and is in feet exactly below 0.1 miles |
| Utils.SelfDistanceIsZeroFeet | src/utils/utils.ts:2-26 | a point is 0 feet from itself for any angle function that is zero there |
| Utils.DistanceSymmetric | src/utils/utils.ts:2-26 | swapping the two points does not change the distance when the angle is symmetric |
| Utils.GetMetroColor | src/utils/utils.ts:29-44 | each of RD, OR, BL, GR, YL gets its colour; every other code gets the grey default; dark text for OR, YL and the default |
| Utils.LineColorsDistinct | src/utils/utils.ts:29-44 | the five lines have pairwise distinct colours, none of them the default |
| Expansion.Toggle | src/components/BusResults/BusResults.tsx:28-34 | same cards in the same order; exactly the flags of the given id flip |
| Expansion.ToggleTwice | src/components/BusResults/BusResults.tsx:28-34 | toggling the same card twice restores every flag |
| Expansion.ToggleLookup | src/components/MetroResults/MetroResults.tsx:47-53 | the toggled card's flag is negated; every other card's flag is unchanged |
| Expansion.CollapsedLookup | src/components/MetroResults/MetroResults.tsx:40-42 | right after loading, a listed card reads closed and an unlisted one reads undefined |
| Seqs.Somes | src/components/MetroResults/MetroResults.tsx:39 | the non-null entries unwrapped, in their order: wrapping them back gives exactly what the filter keeps |
| Numerals.ParseInt | src/components/MetroResults/MetroResultDetails/MetroResultDetails.tsx:24 | after leading whitespace: a first character that is neither a digit nor a sign gives NaN (`None`); a decimal start reads the longest run of leading digits; a `0x`/`0X` prefix reads the longest run of hexadecimal digits after it, NaN when there is none; text with no digit at all is NaN |
| Numerals.ParseIntNegativeDecimal | src/components/MetroResults/MetroResultDetails/MetroResultDetails.tsx:24 | after leading whitespace, a `-` followed by a decimal start reads as minus the longest run of leading digits |
| Numerals.ParseIntOfIntToString | src/components/MetroResults/MetroResultDetails/MetroResultDetails.tsx:38 | `parseInt` reads back any integer written in decimal, followed by any non-digit text |
| Sorting.InsertionSort | src/components/MetroResults/MetroResultDetails/MetroResultDetails.tsx:22-41 | the sort keeps the length and is a permutation of its input |
| Sorting.InsertionSortSorted | src/components/MetroResults/MetroResultDetails/MetroResultDetails.tsx:22-41 | the output is ordered by any comparator that is a total preorder on the input |
| Sorting.InsertionSortOfSorted | src/components/MetroResults/MetroResultDetails/MetroResultDetails.tsx:22-41 | sorting an already sorted list returns it unchanged |
| Sorting.InsertionSortAgrees | src/components/MetroResults/MetroResultDetails/MetroResultDetails.tsx:22-41 | two comparators that agree on which pairs of the input are in order sort it alike |
| MetroResultDetails.CompareMin | src/components/MetroResults/MetroResultDetails/MetroResultDetails.tsx:22-41 | two numbers compare by their difference in minutes; once either side is not a number the answer is -1 when the first is BRD and 1 otherwise, whether or not the texts are equal |
| MetroResultDetails.ComparePredictions | src/components/MetroResults/MetroResultDetails/MetroResultDetails.tsx:22-41 | trains compare by their `min` text alone: by minutes when both are numbers, -1 whenever the first is BRD, 1 when the first is not BRD and either is not a number |
| MetroResultDetails.RankPredictions | src/components/MetroResults/MetroResultDetails/MetroResultDetails.tsx:20-41 | the listed trains are the station's trains then the partner's, permuted, none lost or added |
| MetroResultDetails.NumericComparison | src/components/MetroResults/MetroResultDetails/MetroResultDetails.tsx:23-39 | two numeric minute values compare by the difference of their parsed values, and equal values tie |
| MetroResultDetails.BrdSortsFirst | src/components/MetroResults/MetroResultDetails/MetroResultDetails.tsx:31-35 | BRD compared with any other value sorts first, in either argument order |
| MetroResultDetails.EqualNonNumeric | src/components/MetroResults/MetroResultDetails/MetroResultDetails.tsx:23-26 | two equal non-numeric values give -1 for BRD and 1 otherwise |
| MetroResultDetails.ArrAgainstNumber | src/components/MetroResults/MetroResultDetails/MetroResultDetails.tsx:33-35 | ARR against a number gives 1 in both argument orders |
| MetroResultDetails.ArrAgainstArr | src/components/MetroResults/MetroResultDetails/MetroResultDetails.tsx:23-26 | two ARR trains compare 1 against each other, so each claims to come after the other |
| MetroResultDetails.FragmentIsTotalPreorder | src/components/MetroResults/MetroResultDetails/MetroResultDetails.tsx:22-41 | on trains that are BRD or numeric, the comparator is total and transitive |
| MetroResultDetails.RankedFragmentOrder | src/components/MetroResults/MetroResultDetails/MetroResultDetails.tsx:20-41 | without ARR, boarding trains come first, then ascending minutes |
| MetroResultDetails.RankIdempotentOnFragment | src/components/MetroResults/MetroResultDetails/MetroResultDetails.tsx:20-41 | without ARR, ranking a ranked list changes nothing |
| MetroResultDetails.MinutesLabel | src/components/MetroResults/MetroResultDetails/MetroResultDetails.tsx:66-68 | BRD and ARR are shown as they are; every other value is followed by " minutes" |
| MetroResultDetails.MinutesLabelInjective | src/components/MetroResults/MetroResultDetails/MetroResultDetails.tsx:66-68 | two trains with different minute values never share a label |
| MetroResultDetails.ArrPlacementFollowsInputOrder | src/components/MetroResults/MetroResultDetails/MetroResultDetails.tsx:31-39 | ARR and 5 come out in the opposite of the order they went in, so ranking twice undoes the first ranking |
| MetroResultDetails.MixedArrivalsAsWritten | src/components/MetroResults/MetroResultDetails/MetroResultDetails.tsx:22-41 | 5, BRD, ARR, 2 are listed as BRD, 2, ARR, 5 |
| MetroResultDetails.RankPredictionsIntended | src/components/MetroResults/MetroResultDetails/MetroResultDetails.tsx:20-41 | the corrected ranking keeps every train, permuted |
| MetroResultDetails.IntendedIsTotalPreorder | src/components/MetroResults/MetroResultDetails/MetroResultDetails.tsx:22-41 | the corrected comparator is total and transitive on every input |
| MetroResultDetails.RankedIntendedOrder | src/components/MetroResults/MetroResultDetails/MetroResultDetails.tsx:22-41 | corrected order: BRD, then ARR, then ascending minutes, whatever the input order |
| MetroResultDetails.IntendedAgreesOnFragment | src/components/MetroResults/MetroResultDetails/MetroResultDetails.tsx:22-41 | without ARR, the corrected ranking equals the source's |
| MetroResultDetails.MixedArrivalsIntended | src/components/MetroResults/MetroResultDetails/MetroResultDetails.tsx:22-41 | the corrected ranking lists 5, BRD, ARR, 2 as BRD, ARR, 2, 5 |
| MetroResults.EntranceCodes | src/components/MetroResults/MetroResults.tsx:26-30 | entrance i contributes its first code at position 2i and its second at 2i+1; a code is listed exactly when some entrance carries it |
| MetroResults.EntranceCodesConcat | src/components/MetroResults/MetroResults.tsx:26-30 | the codes of two runs of entrances joined are the codes of the first run followed by those of the second |
| MetroResults.RequestedStationCodes | src/components/MetroResults/MetroResults.tsx:26-36 | at most five distinct non-empty codes, each from some entrance |
| MetroResults.RequestedAreFirstFive | src/components/MetroResults/MetroResults.tsx:33-35 | the requested codes are the first five present codes in order of first appearance |
| MetroResults.FewStationsAllRequested | src/components/MetroResults/MetroResults.tsx:33-35 | with at most five distinct codes, every entrance's station is requested |
| MetroResults.FetchedStations | src/components/MetroResults/MetroResults.tsx:38-39 | the stations that were found, in request order, with failed lookups dropped: wrapped back, they are exactly the non-null results |
| MetroResults.FirstFetchedStation | src/components/MetroResults/MetroResults.tsx:38-39 | the first station listed is the first successful lookup, whatever failed before it |
| MetroResults.InitialExpanded | src/components/MetroResults/MetroResults.tsx:40-42 | one closed flag per fetched station, in station order |
| MetroResults.ToggleStation | src/components/MetroResults/MetroResults.tsx:47-53 | only the card of the first code passed changes, and it flips |
| MetroResults.ToggleStationTwice | src/components/MetroResults/MetroResults.tsx:47-53 | the station's flag is negated, and a second toggle restores every flag |
| MetroResults.ShownStations | src/components/MetroResults/MetroResults.tsx:75-82 | the cards are the stations whose partner is not listed earlier, in order, and the first station always has a card |
| MetroResults.VisibleStations | src/components/MetroResults/MetroResults.tsx:73-82 | no cards without a searched place |
| MetroResults.PartnerCardCoversStation | src/components/MetroResults/MetroResults.tsx:75-82 | a station whose partner is listed earlier gets no card of its own |
| MetroResults.PairedStation | src/components/MetroResults/MetroResults.tsx:94-98 | the first station whose code is the partner code; none exactly when no station has it |
| MetroResults.PredictionRequestCodes | src/components/MetroResults/MetroResults.tsx:55-57 | the non-empty codes among those passed, in order |
| MetroResults.StorePredictions | src/components/MetroResults/MetroResults.tsx:59-67 | as written: the i-th successful result is stored under the i-th code passed; keys outside the codes used keep their previous trains |
| MetroResults.StoreFetched | src/components/MetroResults/MetroResults.tsx:59-67 | the spread of stored results: the previous keys plus the codes used; untouched keys keep their trains; each code's last result is the one stored |
| MetroResults.FailedRequestMisfiled | src/components/MetroResults/MetroResults.tsx:59-67 | a failed first request files the partner's trains under the station's code |
| MetroResults.StorePredictionsByCode | src/components/MetroResults/MetroResults.tsx:55-67 | corrected: each successful result is stored under the code it was requested for; other keys are untouched |
| MetroResults.FailedRequestFiledByCode | src/components/MetroResults/MetroResults.tsx:55-67 | after the correction, a failed request leaves its station without an entry and files the partner's trains under the partner |
| MetroResults.StoreAgreesWhenAllSucceed | src/components/MetroResults/MetroResults.tsx:55-67 | when every code is non-empty and every request succeeds, both versions store the same map |
| MetroResults.StationDetails | src/components/MetroResults/MetroResults.tsx:103-114 | as written: no list without the station's own entry; a render fault exactly when a partner exists but has no entry; otherwise the station's trains then the partner's, ranked by the source's comparator |
| MetroResults.MissingPartnerFaults | src/components/MetroResults/MetroResults.tsx:105-108 | a station whose partner's trains never arrived cannot render its list |
| MetroResults.MissingPartnerListsOwnTrains | src/components/MetroResults/MetroResults.tsx:105-108 | corrected: station A01 whose partner C01 has no entry lists its own train |
| MetroResults.StationDetailsIntended | src/components/MetroResults/MetroResults.tsx:103-114 | corrected: never faults; the station's trains then the partner's stored trains (none when the partner has no entry), ranked by the source's comparator |
| MetroResults.DetailsAgreeUnlessFaulted | src/components/MetroResults/MetroResults.tsx:103-114 | whenever the source does not fault, the corrected view is the same |
| MetroResultSummary.LineBadges | src/components/MetroResults/MetroResultSummary/MetroResultSummary.tsx:45-47 | the station's used line slots, then the partner's, with empty slots dropped |
| MetroResultSummary.SummaryOf | src/components/MetroResults/MetroResultSummary/MetroResultSummary.tsx:24-68 | name, the line badges of the station and its partner, and the distance from the searched place under the shared unit policy (feet below 0.1 miles); the arrow turns only for a set flag |
| MetroResultSummary.PartnerOnlyAddsBadges | src/components/MetroResults/MetroResultSummary/MetroResultSummary.tsx:45-47 | a partner changes only the badges, which it extends |
| BusResults.UniqueDirections | src/components/BusResults/BusResults.tsx:39-41 | the distinct direction texts of the arrivals, in order of first appearance |
| BusResults.GroupByDirection | src/components/BusResults/BusResults.tsx:43-64 | one group per distinct direction; each group holds its direction's arrivals in order, with its header taken from the first of them |
| BusResults.GroupsPartitionArrivals | src/components/BusResults/BusResults.tsx:43-64 | the groups together hold exactly as many arrivals as were fetched |
| BusResults.ArrivalInItsGroup | src/components/BusResults/BusResults.tsx:43-64 | every arrival appears in the group of its direction |
| BusResults.InitialExpanded | src/components/BusResults/BusResults.tsx:24-26 | one closed card per stop, in stop order |
| BusResults.ToggleStop | src/components/BusResults/BusResults.tsx:28-34 | the same cards; exactly the given stop's flag flips |
| BusResults.ToggleOpensOnlyThatCard | src/components/BusResults/BusResults.tsx:24-34 | after loading, a toggle opens that stop's card and leaves every other card closed |
| BusResults.StorePredictions | src/components/BusResults/BusResults.tsx:36-68 | a failed request changes nothing; otherwise the stop's entry becomes the arrivals grouped by direction, holding every arrival |
| BusResultSummary.DisplayedRoutes | src/components/BusResults/BusResultSummary/BusResultSummary.tsx:63-64 | exactly the routes without `*` or `/`, in order |
| BusResultSummary.LocalDistance | src/components/BusResults/BusResultSummary/BusResultSummary.tsx:17-41 | the component's own distance is in feet exactly when under 0.1 miles |
| BusResultSummary.LocalDistanceAgrees | src/components/BusResults/BusResultSummary/BusResultSummary.tsx:17-41 | the component's own copy of the distance function agrees with the shared one on every input |
| BusResultSummary.SummaryOf | src/components/BusResults/BusResultSummary/BusResultSummary.tsx:48-86 | name, the stop's routes without `*` or `/`, and the distance from the searched place under the shared unit policy (feet below 0.1 miles); the arrow turns only for a set flag |
| BusResultDetails.MinuteLabel | src/components/BusResults/BusResultDetails/BusResultDetails.tsx:162 | ARRIVING exactly at zero minutes; otherwise text ending in " minutes" |
| BusResultDetails.MinuteLabelReadsBack | src/components/BusResults/BusResultDetails/BusResultDetails.tsx:162 | a non-zero label reads back as its number of minutes |
| BusResultDetails.MinuteLabelInjective | src/components/BusResults/BusResultDetails/BusResultDetails.tsx:162 | different arrival times never share a label |
| BusResultDetails.GroupMargins | src/components/BusResults/BusResultDetails/BusResultDetails.tsx:106 | every group but the last has a bottom margin of 3; the last has 0 |
| BusResultDetails.GroupMargin | src/components/BusResults/BusResultDetails/BusResultDetails.tsx:106 | the margin the component gives a group is 3 or 0, and 0 exactly for the last group |
| BusResultDetails.MarginsAgree | src/components/BusResults/BusResultDetails/BusResultDetails.tsx:106 | the component's per-group margin is the one the margin list gives that group |
| BusResultDetails.ChooseRoute | src/components/BusResults/BusResultDetails/BusResultDetails.tsx:145-151 | the picked route carries the card's stop and the group's route, direction text and direction number |
| BusResultDetails.DirectionStops | src/components/BusResults/BusResultDetails/BusResultDetails.tsx:73-89 | direction 1's stops for "1", direction 0's for anything else; none when that direction is missing |
| BusResultDetails.RouteLines | src/components/BusResults/BusResultDetails/BusResultDetails.tsx:57-69 | one line per stop, in order, bold exactly for the card's own stop |
| BusResultDetails.CacheRouteDetails | src/components/BusResults/BusResultDetails/BusResultDetails.tsx:38-46 | as written: a fetched path is kept under the card's stop id; a failed fetch keeps nothing |
| BusResultDetails.NeedsFetch | src/components/BusResults/BusResultDetails/BusResultDetails.tsx:39 | no fetch without a picked route; with one, a fetch exactly when no path is kept under the route's id |
| BusResultDetails.RenderRoute | src/components/BusResults/BusResultDetails/BusResultDetails.tsx:54-91 | as written: nothing is drawn without a picked route and a path kept under the stop id; otherwise the lines are the stops of the picked direction of the path kept under the stop id, the card's stop bold |
| BusResultDetails.CacheNeverServes | src/components/BusResults/BusResultDetails/BusResultDetails.tsx:38-46 | after a successful fetch the same route still counts as not fetched |
| BusResultDetails.StaleRouteDrawn | src/components/BusResults/BusResultDetails/BusResultDetails.tsx:38-91 | after route S2's path is kept, picking route 70 draws S2's stops |
| BusResultDetails.CacheRouteDetailsByRoute | src/components/BusResults/BusResultDetails/BusResultDetails.tsx:38-46 | corrected: the path is kept under its route's id; other entries are untouched |
| BusResultDetails.RenderRouteByRoute | src/components/BusResults/BusResultDetails/BusResultDetails.tsx:54-91 | corrected: a route is drawn only from its own kept path, as the stops of the picked direction of that path |
| BusResultDetails.CacheServesPickedRoute | src/components/BusResults/BusResultDetails/BusResultDetails.tsx:38-91 | corrected: a kept path is not fetched again and is the one drawn |
| BusResultDetails.NoStaleRouteByRoute | src/components/BusResults/BusResultDetails/BusResultDetails.tsx:38-91 | corrected: route 70 draws nothing when only S2's path is kept |
| MetroMap.RequestedStationCodes | src/components/Map/Map.tsx:56-66 | the map requests exactly the station codes the metro list requests |
| MetroMap.KeptStations | src/components/Map/Map.tsx:68-70 | the stations found, in request order: wrapped back, they are exactly the non-null results; when every lookup succeeds, all of them |
| MetroMap.MarkersMatchResults | src/components/Map/Map.tsx:68-70 | given the same lookup results, the map marks exactly the stations the metro list fetched, in order, before partners are merged into one card |
| MetroMap.CardsAreMarked | src/components/Map/Map.tsx:68-103 | given the same lookup results, every card the metro list shows has a marker, in the same order |
| MetroMap.MapCentre | src/components/Map/Map.tsx:47-78 | the searched place, or the White House at 38.8976804, -77.0391047 |
| MetroMap.LocationMarker | src/components/Map/Map.tsx:86 | a marker exactly when there is a searched place, placed on it |
| MetroMap.MarkerAtCentre | src/components/Map/Map.tsx:78-86 | the marker sits at the map centre |
| MetroMap.StationPopup | src/components/Map/Map.tsx:89-103 | a popup exactly when there is a searched place; it is the metro card header with its partner, and the arrow never turned |
| Search.PredictionOptions | src/components/Search.tsx:99-102 | one option per suggestion, in order: the place id and its description |
| Search.MergeOptions | src/components/Search.tsx:103-107 | the suggestions come first; the selection is appended exactly when its id is not among them; distinct ids stay distinct |
| Search.SelectionAlwaysOffered | src/components/Search.tsx:103-107 | the selected place is always among the options |
| Search.HandleInputChange | src/components/Search.tsx:92-111 | options change only on an OK status with at least one suggestion; they then start with the suggestions, and the selection is appended last exactly when there is one whose id no suggestion carries |
| Search.HandleSelectLocation | src/components/Search.tsx:113-136 | as written: clearing resets everything; Current Location uses the device position; a geocoded place is selected with its label as its id |
| Search.PickedPlaceListedTwice | src/components/Search.tsx:124-134 | after picking a suggestion and typing again, the same place is offered twice |
| Search.HandleSelectLocationIntended | src/components/Search.tsx:113-136 | corrected: a geocoded place is selected under its own place id |
| Search.PickedPlaceListedOnce | src/components/Search.tsx:103-134 | corrected: the picked place is offered once |
| Search.SelectionVersionsAgree | src/components/Search.tsx:113-136 | both versions agree on every state field except the selected option's id |

## Left out

- HTTP calls (axios), their try/catch and the logging are not modelled. Each request is an input that either carries the decoded response or is `None`, for a failure or a null result.
- React state and effects are not modelled. This covers hook timing, re-rendering and the order in which `Promise.all` callbacks run. Each state update is a pure function from the previous state.
- The haversine trigonometry is not modelled. The central angle is the parameter `centralAngle`, because Dafny has no sine, cosine or arctangent over the reals.
- Utils.CalculateDistance: the result is the unrounded magnitude. The `toFixed` text formatting is not modelled.
- Numerals.ParseInt: the result is an exact integer, not a double. Values beyond 2^53 are not rounded.
- The clock is not modelled: `moment()`, the `lastUpdated` stamps and the arrival time column (`moment().add(...)`).
- The Google Maps loader, the autocomplete service, the geocoder and browser geolocation are not modelled. Their answers are inputs: a status, the suggestions, the geocoded coordinates and the device position.
- The URL geocode path (src/components/Search.tsx:43-71) is not modelled. It works through the browser's global `location` and the geocoder.
- Navigation and `encodeURIComponent` are not modelled.
- Leaflet and MUI layout are not modelled, including icons, the accordion height, theming and the information dialog.
- src/App.tsx and src/main.tsx are not part of this model. They only wire components and fetch the stops and entrances near the searched place.
- Null station codes and null partner codes are modelled as the empty string. Both are falsy in the source.
- Sorting.InsertionSort: the engine's own algorithm is not fixed by the language. The model calls the comparator as `cmp(earlier, new)`, and the orders proved are those of this insertion sort.
- MetroResultDetails.RankIdempotentOnFragment: holds for the modelled insertion sort only. Two BRD trains compare -1 in both argument orders, so even without ARR the comparator is not consistent. An engine that calls it with the later element first would swap two BRD trains on every ranking.
- MetroResultDetails.RankedFragmentOrder, MetroResultDetails.MixedArrivalsAsWritten: the orders proved are those of the modelled insertion sort. Under another engine's algorithm the relative order of BRD trains, and the place of ARR, can differ.
- Search.HandleSelectLocation: the Current Location branch is modelled with the device position as an input, but in the source it is dead. `getCurrentLocation` (src/components/Search.tsx:73) is never called, so `currentLocation` stays undefined and the test at line 121 always fails.
- Utils.DistanceFromMiles, Utils.CalculateDistance, BusResultSummary.LocalDistance: JavaScript doubles are modelled as exact reals. Rounding in the product `6371 * angle * 0.621371` can move a distance lying within rounding error of 0.1 miles to the other side of the feet threshold, and the model does not capture that.
- MetroMap.MarkersMatchResults, MetroMap.CardsAreMarked: the map and the metro list look the stations up separately (src/components/Map/Map.tsx:68 and src/components/MetroResults/MetroResults.tsx:38). The lemmas relate the two for the same lookup results and say nothing when the two sets of answers differ.

## Findings

| source | as written | input that shows it | evidently intended | confidence | as-written member | corrected member |
|---|---|---|---|---|---|---|
| src/components/MetroResults/MetroResultDetails/MetroResultDetails.tsx:31-39 | once either value is non-numeric, the result is -1 if the first is BRD and 1 otherwise, so ARR against a number returns 1 both ways | under the modelled insertion sort, trains 5, BRD, ARR, 2 are listed BRD, 2, ARR, 5; ARR and 5 swap places each time they are ranked | boarding, then arriving, then ascending minutes | not executed | MetroResultDetails.MixedArrivalsAsWritten | MetroResultDetails.RankedIntendedOrder |
| src/components/MetroResults/MetroResults.tsx:59-67 | failed results are filtered out before the i-th result is stored under `stationCodes[i]` | codes A01, C01; the A01 request fails; C01's trains are stored under A01 | each result is stored under the code it was requested for | not executed | MetroResults.FailedRequestMisfiled | MetroResults.FailedRequestFiledByCode |
| src/components/MetroResults/MetroResults.tsx:105-108 | the partner's entry is passed without a check, and `concat` of undefined adds an undefined train. The sort places it last without calling the comparator, and the `.map` at MetroResultDetails.tsx:42-43 then reads `prediction.destination` of it | station A01 with partner C01, only A01's trains stored | a missing partner entry contributes no trains | not executed | MetroResults.MissingPartnerFaults | MetroResults.MissingPartnerListsOwnTrains |
| src/components/BusResults/BusResultDetails/BusResultDetails.tsx:38-46 | the cache is checked under the route id but written under the stop id, and drawn from the stop id | stop 1001: pick S2 (kept under 1001), then pick 70 whose fetch fails; S2's stops are drawn as route 70 | keep and read each path under its route id | not executed | BusResultDetails.StaleRouteDrawn | BusResultDetails.NoStaleRouteByRoute |
| src/components/Search.tsx:124-134 | after geocoding, the selected option's id is set to its label | pick a suggestion whose place id differs from its label, then type again; the same place is offered twice | keep the place id as the option's id | not executed | Search.PickedPlaceListedTwice | Search.PickedPlaceListedOnce |
