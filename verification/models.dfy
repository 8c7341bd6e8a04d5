/** The records of the bus and metro models and the upstream response
    records they are built from. Numbers the application only displays
    (coordinates) are `real`; minute counts and sequence numbers are `int`. */
module Models {
  import opened Wrappers

  // ---- bus ----

  /** One stop as the upstream service sends it (`Stops[]`). */
  datatype StopRecord = StopRecord(lat: real, lon: real, name: string, routes: seq<string>, stopId: string)

  /** One prediction as the upstream service sends it (`Predictions[]`). */
  datatype BusPredictionRecord = BusPredictionRecord(
    directionNum: string, directionText: string, minutes: int,
    routeId: string, tripId: string, vehicleId: string)

  /** One point of a route's drawn shape (`Shape[]`). */
  datatype ShapeRecord = ShapeRecord(lat: real, lon: real, seqNumber: int)

  /** One direction of a route as the upstream service sends it. */
  datatype PathDirectionRecord = PathDirectionRecord(
    directionNum: string, directionText: string, shape: seq<ShapeRecord>,
    stops: seq<StopRecord>, tripHeadsign: string)

  /** A route's details as the upstream service sends them. */
  datatype PathDetailsRecord = PathDetailsRecord(
    direction0: Option<PathDirectionRecord>, direction1: Option<PathDirectionRecord>,
    name: string, routeId: string)

  datatype BusStop = BusStop(lat: real, lon: real, name: string, routes: seq<string>, stopId: string)

  datatype BusPrediction = BusPrediction(
    directionNum: string, directionText: string, minutes: int,
    routeId: string, tripId: string, vehicleId: string)

  /** A prediction inside a direction group. */
  datatype RoutePrediction = RoutePrediction(minutes: int, tripId: string, vehicleId: string)

  /** The predictions of one direction at a stop (the `lastUpdated` clock
      reading is not modelled). */
  datatype BusRoutePrediction = BusRoutePrediction(
    directionNum: string, directionText: string, routeId: string,
    predictions: seq<RoutePrediction>)

  datatype ShapePoint = ShapePoint(lat: real, lon: real, seqNumber: int)

  datatype BusPathDirection = BusPathDirection(
    directionNum: string, directionText: string, shape: seq<ShapePoint>,
    stops: seq<BusStop>, tripHeadsign: string)

  datatype BusPathDetails = BusPathDetails(
    direction0: Option<BusPathDirection>, direction1: Option<BusPathDirection>,
    name: string, routeId: string)

  // ---- metro ----

  datatype AddressRecord = AddressRecord(city: string, state: string, street: string, zip: string)

  /** A station as the upstream service sends it. */
  datatype StationRecord = StationRecord(
    address: AddressRecord, code: string, lat: real,
    lineCode1: string, lineCode2: string, lineCode3: string, lineCode4: string,
    lon: real, name: string, stationTogether1: string, stationTogether2: string)

  /** A station entrance as the upstream service sends it. */
  datatype EntranceRecord = EntranceRecord(
    description: string, lat: real, lon: real, name: string,
    stationCode1: string, stationCode2: string)

  /** A train prediction as the upstream service sends it (`Trains[]`). */
  datatype TrainRecord = TrainRecord(
    car: string, destination: string, destinationCode: string, destinationName: string,
    group: string, line: string, locationCode: string, locationName: string, min: string)

  datatype Address = Address(city: string, state: string, street: string, zip: string)

  /** A missing line code or partner code (`null` upstream) is the empty string. */
  datatype MetroStation = MetroStation(
    address: Address, code: string, lat: real,
    lineCode1: string, lineCode2: string, lineCode3: string, lineCode4: string,
    lon: real, name: string, stationTogether1: string, stationTogether2: string)

  datatype MetroStationEntrance = MetroStationEntrance(
    description: string, lat: real, lon: real, name: string,
    stationCode1: string, stationCode2: string)

  /** `min` is a whole number of minutes as text, or `BRD` (boarding) or
      `ARR` (arrived). */
  datatype MetroPrediction = MetroPrediction(
    car: string, destination: string, destinationCode: string, destinationName: string,
    group: string, line: string, locationCode: string, locationName: string, min: string)

  // ---- search ----

  /** The place the user searched for. */
  datatype SearchLocation = SearchLocation(name: string, lat: real, lon: real)
}
