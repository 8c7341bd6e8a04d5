/** The pure reshaping the API module applies to each upstream response
    (src/api/api.ts): upper-case upstream fields become the application's
    lower-case model fields. The HTTP requests and their try/catch
    wrappers are not modelled; a response arrives here already decoded. */
module Api {
  import opened Wrappers
  import opened Models
  import opened Seqs

  function BusStopFromRecord(s: StopRecord): BusStop {
    BusStop(s.lat, s.lon, s.name, s.routes, s.stopId)
  }

  function StopRecordOf(s: BusStop): StopRecord {
    StopRecord(s.lat, s.lon, s.name, s.routes, s.stopId)
  }

  /** The stops of a stop search, one per upstream stop, in order. */
  function BusStopsFromResponse(stops: seq<StopRecord>): (r: seq<BusStop>)
    ensures |r| == |stops|
    ensures forall i :: 0 <= i < |stops| ==> r[i].stopId == stops[i].stopId && r[i].routes == stops[i].routes
  {
    MapSeq(BusStopFromRecord, stops)
  }

  /** No field of an upstream stop is lost or reordered. */
  lemma BusStopsLossless(stops: seq<StopRecord>)
    ensures MapSeq(StopRecordOf, BusStopsFromResponse(stops)) == stops
  {
    MapSeqLeftInverse(BusStopFromRecord, StopRecordOf, stops);
  }

  function BusPredictionFromRecord(p: BusPredictionRecord): BusPrediction {
    BusPrediction(p.directionNum, p.directionText, p.minutes, p.routeId, p.tripId, p.vehicleId)
  }

  function BusPredictionRecordOf(p: BusPrediction): BusPredictionRecord {
    BusPredictionRecord(p.directionNum, p.directionText, p.minutes, p.routeId, p.tripId, p.vehicleId)
  }

  /** The predictions at a stop, one per upstream prediction, in order. */
  function BusPredictionsFromResponse(ps: seq<BusPredictionRecord>): (r: seq<BusPrediction>)
    ensures |r| == |ps|
    ensures forall i :: 0 <= i < |ps| ==> r[i].tripId == ps[i].tripId && r[i].minutes == ps[i].minutes
  {
    MapSeq(BusPredictionFromRecord, ps)
  }

  /** No field of an upstream prediction is lost or reordered. */
  lemma BusPredictionsLossless(ps: seq<BusPredictionRecord>)
    ensures MapSeq(BusPredictionRecordOf, BusPredictionsFromResponse(ps)) == ps
  {
    MapSeqLeftInverse(BusPredictionFromRecord, BusPredictionRecordOf, ps);
  }

  function ShapePointFromRecord(p: ShapeRecord): ShapePoint {
    ShapePoint(p.lat, p.lon, p.seqNumber)
  }

  function ShapeRecordOf(p: ShapePoint): ShapeRecord {
    ShapeRecord(p.lat, p.lon, p.seqNumber)
  }

  /** `mapPathDirection`: null stays null; otherwise the stops and the
      shape are mapped element by element. */
  function PathDirectionFromRecord(d: Option<PathDirectionRecord>): (r: Option<BusPathDirection>)
    ensures r.None? <==> d.None?
    ensures d.Some? ==> |r.value.stops| == |d.value.stops| && |r.value.shape| == |d.value.shape|
    ensures d.Some? ==> r.value.directionNum == d.value.directionNum && r.value.tripHeadsign == d.value.tripHeadsign
  {
    match d
    case None => None
    case Some(p) =>
      Some(BusPathDirection(p.directionNum, p.directionText,
                            MapSeq(ShapePointFromRecord, p.shape),
                            MapSeq(BusStopFromRecord, p.stops),
                            p.tripHeadsign))
  }

  function PathDirectionRecordOf(d: Option<BusPathDirection>): Option<PathDirectionRecord> {
    match d
    case None => None
    case Some(p) =>
      Some(PathDirectionRecord(p.directionNum, p.directionText,
                               MapSeq(ShapeRecordOf, p.shape),
                               MapSeq(StopRecordOf, p.stops),
                               p.tripHeadsign))
  }

  /** A mapped route direction keeps every stop and shape point. */
  lemma PathDirectionLossless(d: Option<PathDirectionRecord>)
    ensures PathDirectionRecordOf(PathDirectionFromRecord(d)) == d
  {
    if d.Some? {
      MapSeqLeftInverse(ShapePointFromRecord, ShapeRecordOf, d.value.shape);
      MapSeqLeftInverse(BusStopFromRecord, StopRecordOf, d.value.stops);
    }
  }

  /** A route's details: each direction is mapped on its own. */
  function PathDetailsFromResponse(r: PathDetailsRecord): (d: BusPathDetails)
    ensures d.name == r.name && d.routeId == r.routeId
    ensures d.direction0.Some? <==> r.direction0.Some?
    ensures d.direction1.Some? <==> r.direction1.Some?
  {
    BusPathDetails(PathDirectionFromRecord(r.direction0), PathDirectionFromRecord(r.direction1),
                   r.name, r.routeId)
  }

  /** Direction 0 of the result depends only on `Direction0` upstream, and
      direction 1 only on `Direction1`. */
  lemma DirectionsMappedIndependently(a: PathDetailsRecord, b: PathDetailsRecord)
    ensures a.direction0 == b.direction0 ==> PathDetailsFromResponse(a).direction0 == PathDetailsFromResponse(b).direction0
    ensures a.direction1 == b.direction1 ==> PathDetailsFromResponse(a).direction1 == PathDetailsFromResponse(b).direction1
  {
  }

  function EntranceFromRecord(e: EntranceRecord): MetroStationEntrance {
    MetroStationEntrance(e.description, e.lat, e.lon, e.name, e.stationCode1, e.stationCode2)
  }

  function EntranceRecordOf(e: MetroStationEntrance): EntranceRecord {
    EntranceRecord(e.description, e.lat, e.lon, e.name, e.stationCode1, e.stationCode2)
  }

  /** The entrances of an entrance search, one per upstream entrance, in order. */
  function EntrancesFromResponse(es: seq<EntranceRecord>): (r: seq<MetroStationEntrance>)
    ensures |r| == |es|
    ensures forall i :: 0 <= i < |es| ==>
      r[i].stationCode1 == es[i].stationCode1 && r[i].stationCode2 == es[i].stationCode2
  {
    MapSeq(EntranceFromRecord, es)
  }

  /** No field of an upstream entrance is lost or reordered. */
  lemma EntrancesLossless(es: seq<EntranceRecord>)
    ensures MapSeq(EntranceRecordOf, EntrancesFromResponse(es)) == es
  {
    MapSeqLeftInverse(EntranceFromRecord, EntranceRecordOf, es);
  }

  /** A station's info. The mapped `street` is taken from the upstream
      `State` field, so the upstream street is dropped. */
  function StationFromResponse(s: StationRecord): (r: MetroStation)
    ensures r.address.street == s.address.state
    ensures r.address.city == s.address.city && r.address.state == s.address.state && r.address.zip == s.address.zip
    ensures r.code == s.code && r.stationTogether1 == s.stationTogether1
  {
    MetroStation(
      Address(s.address.city, s.address.state, s.address.state, s.address.zip),
      s.code, s.lat, s.lineCode1, s.lineCode2, s.lineCode3, s.lineCode4,
      s.lon, s.name, s.stationTogether1, s.stationTogether2)
  }

  function StationRecordOf(s: MetroStation): StationRecord {
    StationRecord(
      AddressRecord(s.address.city, s.address.state, s.address.street, s.address.zip),
      s.code, s.lat, s.lineCode1, s.lineCode2, s.lineCode3, s.lineCode4,
      s.lon, s.name, s.stationTogether1, s.stationTogether2)
  }

  /** Everything but the upstream street survives the mapping: reading the
      station back gives the response with its street replaced by its state. */
  lemma StationLosesOnlyStreet(s: StationRecord)
    ensures StationRecordOf(StationFromResponse(s)) == s.(address := s.address.(street := s.address.state))
  {
  }

  /** Two responses that differ only in the street give the same station. */
  lemma StationIgnoresStreet(s: StationRecord, street: string)
    ensures StationFromResponse(s.(address := s.address.(street := street))) == StationFromResponse(s)
  {
  }

  function MetroPredictionFromRecord(t: TrainRecord): MetroPrediction {
    MetroPrediction(t.car, t.destination, t.destinationCode, t.destinationName,
                    t.group, t.line, t.locationCode, t.locationName, t.min)
  }

  function TrainRecordOf(p: MetroPrediction): TrainRecord {
    TrainRecord(p.car, p.destination, p.destinationCode, p.destinationName,
                p.group, p.line, p.locationCode, p.locationName, p.min)
  }

  /** The train predictions at a station, one per upstream train, in order;
      `min` is kept verbatim as text. */
  function MetroPredictionsFromResponse(ts: seq<TrainRecord>): (r: seq<MetroPrediction>)
    ensures |r| == |ts|
    ensures forall i :: 0 <= i < |ts| ==> r[i].min == ts[i].min && r[i].line == ts[i].line
  {
    MapSeq(MetroPredictionFromRecord, ts)
  }

  /** No field of an upstream train prediction is lost or reordered. */
  lemma MetroPredictionsLossless(ts: seq<TrainRecord>)
    ensures MapSeq(TrainRecordOf, MetroPredictionsFromResponse(ts)) == ts
  {
    MapSeqLeftInverse(MetroPredictionFromRecord, TrainRecordOf, ts);
  }
}
