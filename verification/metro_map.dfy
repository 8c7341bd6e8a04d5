/** The map (src/components/Map/Map.tsx): the stations it fetches for the
    nearby entrances, where it is centred, the searched-place marker and
    the station popups. Tiles, icons and the camera animation are not
    modelled. */
module MetroMap {
  import opened Wrappers
  import opened Models
  import opened Seqs
  import MetroResults
  import MetroResultSummary

  /** The White House, where the map rests before a place is searched. */
  const DefaultCentre: (real, real) := (38.8976804, -77.0391047)

  /** The map's own derivation of the station codes to request: the first
      five present codes among the distinct entrance codes. */
  function RequestedStationCodes(entrances: seq<MetroStationEntrance>): (r: seq<string>)
    ensures |r| <= MetroResults.MaxStations
    ensures r == MetroResults.RequestedStationCodes(entrances)
  {
    var present := Filter(MetroResults.IsCode, Dedup(MetroResults.EntranceCodes(entrances)));
    MetroResults.RequestedAreFirstFive(entrances);
    present[..MetroResults.Min(MetroResults.MaxStations, |present|)]
  }

  /** The stations kept for markers: the successful fetches, in order. */
  function KeptStations(results: seq<Option<MetroStation>>): (r: seq<MetroStation>)
    ensures forall s :: s in r <==> Some(s) in results
    ensures MapSeq(Wrap, r) == Filter(IsSome, results)
    ensures (forall i :: 0 <= i < |results| ==> results[i].Some?) ==>
      |r| == |results| && forall i :: 0 <= i < |results| ==> r[i] == results[i].value
  {
    Somes(results)
  }

  /** Given the same lookup results, the map marks exactly the stations
      the metro list fetched, in the same order, before the list merges
      partner platforms into one card. (The two components fetch
      separately; the same results are an assumption here.) */
  lemma MarkersMatchResults(results: seq<Option<MetroStation>>)
    ensures KeptStations(results) == MetroResults.FetchedStations(results)
  {
    MapWrapInjective(KeptStations(results), MetroResults.FetchedStations(results));
  }

  /** Given the same lookup results, every card the metro list shows has
      a marker, in the same order; a station whose partner already has a
      card is still marked, so there may be more markers than cards. */
  lemma CardsAreMarked(location: Option<SearchLocation>, results: seq<Option<MetroStation>>)
    ensures IsSubseq(MetroResults.VisibleStations(location, MetroResults.FetchedStations(results)), KeptStations(results))
  {
    MarkersMatchResults(results);
  }

  /** The centre the map is drawn at and flies to. */
  function MapCentre(location: Option<SearchLocation>): (r: (real, real))
    ensures location.Some? ==> r == (location.value.lat, location.value.lon)
    ensures location.None? ==> r == (38.8976804, -77.0391047)
  {
    if location.Some? then (location.value.lat, location.value.lon) else DefaultCentre
  }

  /** The searched-place marker: present exactly when a place was searched. */
  function LocationMarker(location: Option<SearchLocation>): (r: Option<(real, real)>)
    ensures r.Some? <==> location.Some?
    ensures r.Some? ==> r.value == (location.value.lat, location.value.lon)
  {
    if location.Some? then Some((location.value.lat, location.value.lon)) else None
  }

  /** Whenever the marker is drawn it sits at the map's centre. */
  lemma MarkerAtCentre(location: Option<SearchLocation>)
    ensures LocationMarker(location).Some? ==> LocationMarker(location).value == MapCentre(location)
  {
  }

  /** A station popup: the same header as the station's card in the list,
      with its partner found among the map's stations; empty before a
      place is searched. The arrow is never turned. */
  function StationPopup(location: Option<SearchLocation>, station: MetroStation, stations: seq<MetroStation>,
                        centralAngle: (real, real, real, real) -> real): (r: Option<MetroResultSummary.Summary>)
    ensures r.Some? <==> location.Some?
    ensures r.Some? ==> !r.value.arrowTurned && r.value.name == station.name
    ensures r.Some? ==> r.value == MetroResultSummary.SummaryOf(location.value, station,
      MetroResults.PairedStation(stations, station), None, centralAngle)
  {
    if location.None? then None
    else Some(MetroResultSummary.SummaryOf(location.value, station, MetroResults.PairedStation(stations, station), None, centralAngle))
  }
}
