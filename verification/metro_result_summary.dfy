/** A metro card's header
    (src/components/MetroResults/MetroResultSummary/MetroResultSummary.tsx):
    the station's name, the line badges of the station and of its partner
    platform, and the walking distance from the searched place. */
module MetroResultSummary {
  import opened Wrappers
  import opened Models
  import opened Seqs
  import opened Utils

  /** A station's four line slots, unused ones empty. */
  function StationLines(s: MetroStation): seq<string> {
    [s.lineCode1, s.lineCode2, s.lineCode3, s.lineCode4]
  }

  predicate IsLine(code: string) {
    code != ""
  }

  function PartnerLines(station2: Option<MetroStation>): seq<string> {
    if station2.Some? then StationLines(station2.value) else []
  }

  /** The line badges: the station's used line slots, then its partner's. */
  function LineBadges(station: MetroStation, station2: Option<MetroStation>): (r: seq<string>)
    ensures |r| <= 4 + |PartnerLines(station2)|
    ensures forall c :: c in r <==> IsLine(c) && (c in StationLines(station) || c in PartnerLines(station2))
    ensures r == Filter(IsLine, StationLines(station)) + Filter(IsLine, PartnerLines(station2))
  {
    FilterConcat(IsLine, StationLines(station), PartnerLines(station2));
    Filter(IsLine, StationLines(station) + PartnerLines(station2))
  }

  /** The header as drawn. */
  datatype Summary = Summary(name: string, badges: seq<string>, distance: Distance, arrowTurned: bool)

  /** `expanded` may be undefined when the card has no flag; the arrow
      only turns for a flag that is set. */
  function SummaryOf(location: SearchLocation, station: MetroStation, station2: Option<MetroStation>,
                     expanded: Option<bool>, centralAngle: (real, real, real, real) -> real): (r: Summary)
    ensures r.name == station.name
    ensures r.arrowTurned <==> expanded == Some(true)
    ensures InMiles(r.distance) == MilesForAngle(centralAngle(location.lat, location.lon, station.lat, station.lon))
    ensures r.distance == CalculateDistance(location.lat, location.lon, station.lat, station.lon, centralAngle)
    ensures forall c :: c in r.badges ==> IsLine(c)
    ensures r.badges == LineBadges(station, station2)
  {
    Summary(station.name, LineBadges(station, station2),
      CalculateDistance(location.lat, location.lon, station.lat, station.lon, centralAngle),
      expanded == Some(true))
  }

  /** The partner platform only adds badges: the name, the distance (to
      the card's own station) and the arrow are the same with or without
      it, and the badges without it are a prefix of those with it. */
  lemma PartnerOnlyAddsBadges(location: SearchLocation, station: MetroStation, station2: MetroStation,
                              expanded: Option<bool>, centralAngle: (real, real, real, real) -> real)
    ensures var alone := SummaryOf(location, station, None, expanded, centralAngle);
      var paired := SummaryOf(location, station, Some(station2), expanded, centralAngle);
      alone.name == paired.name && alone.distance == paired.distance && alone.arrowTurned == paired.arrowTurned &&
      alone.badges == paired.badges[..|alone.badges|]
  {
    var own := Filter(IsLine, StationLines(station));
    assert Filter(IsLine, PartnerLines(None)) == [];
    assert own + [] == own;
  }
}
