/** A bus card's details
    (src/components/BusResults/BusResultDetails/BusResultDetails.tsx): the
    schedule of each direction group with its minute labels and spacing,
    the route the rider picks, the route paths kept per card, and the list
    of stops drawn for the picked route. */
module BusResultDetails {
  import opened Wrappers
  import opened Models
  import opened Numerals

  // ---- the schedule ----

  /** The label of one arrival: `ARRIVING` at zero minutes, the number of
      minutes otherwise. */
  function MinuteLabel(minutes: int): (r: string)
    ensures r == "ARRIVING" <==> minutes == 0
    ensures minutes != 0 ==> |r| > 8 && r[|r| - 8..] == " minutes"
  {
    if minutes == 0 then "ARRIVING"
    else
      var r := IntToString(minutes) + " minutes";
      assert r[|r| - 1] == 's';
      r
  }

  /** A label other than `ARRIVING` reads back as its number of minutes:
      no two arrival times share a label. */
  lemma MinuteLabelReadsBack(minutes: int)
    requires minutes != 0
    ensures ParseInt(MinuteLabel(minutes)) == Some(minutes)
  {
    ParseIntOfIntToString(minutes, " minutes");
  }

  lemma MinuteLabelInjective(a: int, b: int)
    requires MinuteLabel(a) == MinuteLabel(b)
    ensures a == b
  {
    if a != 0 {
      MinuteLabelReadsBack(a);
      MinuteLabelReadsBack(b);
    }
  }

  /** The bottom margins of `count` stacked direction groups. */
  function GroupMargins(count: nat): (r: seq<nat>)
    ensures |r| == count
    ensures forall i :: 0 <= i < count - 1 ==> r[i] == 3
    ensures count > 0 ==> r[count - 1] == 0
  {
    if count == 0 then []
    else if count == 1 then [0]
    else [3] + GroupMargins(count - 1)
  }

  /** The margin the component gives the group at `index`. */
  function GroupMargin(index: nat, count: nat): (r: nat)
    ensures r == 0 || r == 3
    ensures r == 0 <==> index + 1 >= count
  {
    if index < count - 1 then 3 else 0
  }

  /** Only the last group is flush with the bottom. */
  lemma MarginsAgree(count: nat, index: nat)
    requires index < count
    ensures GroupMargin(index, count) == GroupMargins(count)[index]
  {
  }

  // ---- picking a route ----

  /** The route the rider picked from a group's `ROUTE` button. */
  datatype SelectedRoute = SelectedRoute(stopId: string, routeId: string, routeName: string, routeDirection: string)

  function ChooseRoute(stop: BusStop, group: BusRoutePrediction): (r: SelectedRoute)
    ensures r.stopId == stop.stopId && r.routeId == group.routeId
    ensures r.routeName == group.directionText && r.routeDirection == group.directionNum
  {
    SelectedRoute(stop.stopId, group.routeId, group.directionText, group.directionNum)
  }

  /** The stops of the direction a route was picked in: direction 1 for
      the direction number "1", direction 0 for any other; a missing
      direction has no stops. */
  function DirectionStops(details: BusPathDetails, routeDirection: string): (r: seq<BusStop>)
    ensures routeDirection == "1" ==> r == (if details.direction1.Some? then details.direction1.value.stops else [])
    ensures routeDirection != "1" ==> r == (if details.direction0.Some? then details.direction0.value.stops else [])
  {
    var direction := if routeDirection == "1" then details.direction1 else details.direction0;
    match direction
    case Some(d) => d.stops
    case None => []
  }

  /** One line of the drawn route: a stop's name in a font weight. */
  datatype RouteLine = RouteLine(stopId: string, name: string, weight: nat)

  /** The card's own stop is drawn bold (600), every other stop light (300). */
  function RouteStopWeight(routeStopId: string, currentStopId: string): (r: nat)
    ensures r == 600 || r == 300
    ensures r == 600 <==> routeStopId == currentStopId
  {
    if routeStopId == currentStopId then 600 else 300
  }

  function RouteLines(stops: seq<BusStop>, currentStopId: string): (r: seq<RouteLine>)
    ensures |r| == |stops|
    ensures forall i :: 0 <= i < |stops| ==>
      r[i].stopId == stops[i].stopId && r[i].name == stops[i].name &&
      (r[i].weight == 600 <==> stops[i].stopId == currentStopId)
  {
    if |stops| == 0 then []
    else
      var first := RouteLine(stops[0].stopId, stops[0].name, RouteStopWeight(stops[0].stopId, currentStopId));
      [first] + RouteLines(stops[1..], currentStopId)
  }

  // ---- the route paths kept per card, as written ----

  /** A path is fetched for a picked route unless one is already kept under
      the route's id; with no route picked nothing is fetched. */
  function NeedsFetch(details: map<string, BusPathDetails>, route: Option<SelectedRoute>): (r: bool)
    ensures route.None? ==> !r
    ensures route.Some? ==> (r <==> route.value.routeId !in details)
  {
    route.Some? && route.value.routeId !in details
  }

  /** A fetched path is kept under the card's stop id, not the route id;
      a failed fetch (null) keeps nothing. */
  function CacheRouteDetails(details: map<string, BusPathDetails>, route: SelectedRoute,
                             path: Option<BusPathDetails>): (r: map<string, BusPathDetails>)
    ensures path.None? ==> r == details
    ensures path.Some? ==> route.stopId in r && r[route.stopId] == path.value
    ensures forall k :: k != route.stopId ==> (k in r <==> k in details) && (k in details ==> r[k] == details[k])
  {
    if path.Some? then details[route.stopId := path.value] else details
  }

  /** The drawn route: nothing without a picked route or a kept path under
      the card's stop id; otherwise the stops of the picked direction, the
      card's own stop in bold. */
  function RenderRoute(details: map<string, BusPathDetails>, route: Option<SelectedRoute>, stop: BusStop): (r: Option<seq<RouteLine>>)
    ensures r.None? <==> route.None? || stop.stopId !in details
    ensures r.Some? ==> r.value == RouteLines(DirectionStops(details[stop.stopId], route.value.routeDirection), stop.stopId)
    ensures r.Some? ==> |r.value| == |DirectionStops(details[stop.stopId], route.value.routeDirection)|
    ensures r.Some? ==> forall i :: 0 <= i < |r.value| ==> (r.value[i].weight == 600 <==> r.value[i].stopId == stop.stopId)
  {
    if route.Some? && stop.stopId in details then
      Some(RouteLines(DirectionStops(details[stop.stopId], route.value.routeDirection), stop.stopId))
    else None
  }

  /** Storing under the stop id while checking the route id: after a
      successful fetch for a route whose id is not the stop's id, the same
      route still counts as not fetched. */
  lemma CacheNeverServes(details: map<string, BusPathDetails>, route: SelectedRoute, path: BusPathDetails)
    requires route.routeId != route.stopId
    requires route.routeId !in details
    ensures NeedsFetch(CacheRouteDetails(details, route, Some(path)), Some(route))
  {
  }

  function SampleStop(id: string, name: string): BusStop {
    BusStop(38.9, -77.03, name, ["S2"], id)
  }

  function SamplePath(routeId: string, stops: seq<BusStop>): BusPathDetails {
    BusPathDetails(Some(BusPathDirection("0", "NORTH", [], stops, "Silver Spring")), None, routeId, routeId)
  }

  /** After route S2's path is kept, picking route 70 at the same stop and
      failing to fetch its path still draws S2's stops under route 70. */
  lemma StaleRouteDrawn()
    ensures var stop := SampleStop("1001", "K St");
      var s2 := SelectedRoute("1001", "S2", "NORTH", "0");
      var r70 := SelectedRoute("1001", "70", "NORTH", "0");
      var path := SamplePath("S2", [SampleStop("1001", "K St"), SampleStop("1002", "L St")]);
      var kept := CacheRouteDetails(CacheRouteDetails(map[], s2, Some(path)), r70, None);
      NeedsFetch(CacheRouteDetails(map[], s2, Some(path)), Some(r70)) &&
      RenderRoute(kept, Some(r70), stop) ==
        Some([RouteLine("1001", "K St", 600), RouteLine("1002", "L St", 300)])
  {
    var stops := [SampleStop("1001", "K St"), SampleStop("1002", "L St")];
    var path := SamplePath("S2", stops);
    assert DirectionStops(path, "0") == stops;
    assert RouteLines(stops[1..][1..], "1001") == [];
    assert RouteLines(stops[1..], "1001") == [RouteLine("1002", "L St", 300)];
    assert RouteLines(stops, "1001") == [RouteLine("1001", "K St", 600), RouteLine("1002", "L St", 300)];
  }

  // ---- the route paths kept per card, corrected ----

  /** Corrected: the path is kept under the id of the route it belongs to. */
  function CacheRouteDetailsByRoute(details: map<string, BusPathDetails>, route: SelectedRoute,
                                    path: Option<BusPathDetails>): (r: map<string, BusPathDetails>)
    ensures path.None? ==> r == details
    ensures path.Some? ==> route.routeId in r && r[route.routeId] == path.value
    ensures forall k :: k != route.routeId ==> (k in r <==> k in details) && (k in details ==> r[k] == details[k])
  {
    if path.Some? then details[route.routeId := path.value] else details
  }

  /** Corrected: the drawn route is the path kept for the picked route. */
  function RenderRouteByRoute(details: map<string, BusPathDetails>, route: Option<SelectedRoute>, stop: BusStop): (r: Option<seq<RouteLine>>)
    ensures r.None? <==> route.None? || route.value.routeId !in details
    ensures r.Some? ==> r.value == RouteLines(DirectionStops(details[route.value.routeId], route.value.routeDirection), stop.stopId)
    ensures r.Some? ==> |r.value| == |DirectionStops(details[route.value.routeId], route.value.routeDirection)|
    ensures r.Some? ==> forall i :: 0 <= i < |r.value| ==> (r.value[i].weight == 600 <==> r.value[i].stopId == stop.stopId)
  {
    if route.Some? && route.value.routeId in details then
      Some(RouteLines(DirectionStops(details[route.value.routeId], route.value.routeDirection), stop.stopId))
    else None
  }

  /** With the corrected keying a kept path is served without a second
      fetch, and a route is only ever drawn from its own path. */
  lemma CacheServesPickedRoute(details: map<string, BusPathDetails>, route: SelectedRoute, path: BusPathDetails,
                               stop: BusStop)
    ensures !NeedsFetch(CacheRouteDetailsByRoute(details, route, Some(path)), Some(route))
    ensures RenderRouteByRoute(CacheRouteDetailsByRoute(details, route, Some(path)), Some(route), stop)
      == Some(RouteLines(DirectionStops(path, route.routeDirection), stop.stopId))
  {
  }

  /** The failure above draws nothing under route 70 once paths are kept
      per route. */
  lemma NoStaleRouteByRoute()
    ensures var stop := SampleStop("1001", "K St");
      var s2 := SelectedRoute("1001", "S2", "NORTH", "0");
      var r70 := SelectedRoute("1001", "70", "NORTH", "0");
      var path := SamplePath("S2", [SampleStop("1001", "K St"), SampleStop("1002", "L St")]);
      var kept := CacheRouteDetailsByRoute(CacheRouteDetailsByRoute(map[], s2, Some(path)), r70, None);
      RenderRouteByRoute(kept, Some(r70), stop) == None
  {
  }
}
