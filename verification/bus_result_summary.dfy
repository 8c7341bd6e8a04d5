/** A bus card's header
    (src/components/BusResults/BusResultSummary/BusResultSummary.tsx): the
    stop's name, the route badges and the walking distance, which this
    component computes with its own copy of the distance function. */
module BusResultSummary {
  import opened Models
  import opened Seqs
  import opened Utils

  /** Route names with `*` or `/` are variants and are not shown. */
  predicate IsDisplayedRoute(route: string) {
    '*' !in route && '/' !in route
  }

  /** The route badges of a stop. */
  function DisplayedRoutes(routes: seq<string>): (r: seq<string>)
    ensures forall route :: route in r ==> '*' !in route
    ensures forall route :: route in r ==> '/' !in route
    ensures IsSubseq(r, routes)
    ensures forall route :: route in routes && '*' !in route && '/' !in route ==> route in r
  {
    Filter(IsDisplayedRoute, routes)
  }

  /** The component's own distance function: the same unit policy written
      out again, with the haversine angle as the parameter `centralAngle`. */
  function LocalDistance(lat1: real, lon1: real, lat2: real, lon2: real,
                         centralAngle: (real, real, real, real) -> real): (r: Distance)
    ensures r.unit == Feet <==> 6371.0 * centralAngle(lat1, lon1, lat2, lon2) * 0.621371 < 0.1
  {
    var miles := 6371.0 * centralAngle(lat1, lon1, lat2, lon2) * 0.621371;
    if miles < 0.1 then Distance(miles * 5280.0, Feet) else Distance(miles, Miles)
  }

  /** The local copy agrees with the shared distance function on every
      input. */
  lemma LocalDistanceAgrees(lat1: real, lon1: real, lat2: real, lon2: real,
                            centralAngle: (real, real, real, real) -> real)
    ensures LocalDistance(lat1, lon1, lat2, lon2, centralAngle) == CalculateDistance(lat1, lon1, lat2, lon2, centralAngle)
  {
  }

  /** The header as drawn. */
  datatype Summary = Summary(name: string, routes: seq<string>, distance: Distance, arrowTurned: bool)

  function SummaryOf(location: SearchLocation, stop: BusStop, expanded: Wrappers.Option<bool>,
                     centralAngle: (real, real, real, real) -> real): (r: Summary)
    ensures r.name == stop.name
    ensures r.arrowTurned <==> expanded == Wrappers.Some(true)
    ensures forall route :: route in r.routes <==> route in stop.routes && IsDisplayedRoute(route)
    ensures r.routes == DisplayedRoutes(stop.routes)
    ensures InMiles(r.distance) == MilesForAngle(centralAngle(location.lat, location.lon, stop.lat, stop.lon))
    ensures r.distance == CalculateDistance(location.lat, location.lon, stop.lat, stop.lon, centralAngle)
  {
    LocalDistanceAgrees(location.lat, location.lon, stop.lat, stop.lon, centralAngle);
    Summary(stop.name, DisplayedRoutes(stop.routes),
      LocalDistance(location.lat, location.lon, stop.lat, stop.lon, centralAngle),
      expanded == Wrappers.Some(true))
  }
}
