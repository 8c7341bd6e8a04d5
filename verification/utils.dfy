/** The shared helpers of src/utils/utils.ts: the walking-distance unit
    policy and the metro line colours. */
module Utils {

  /** Earth's radius in kilometres. */
  const EarthRadiusKm: real := 6371.0
  /** Miles per kilometre. */
  const MilesPerKm: real := 0.621371
  const FeetPerMile: real := 5280.0
  /** Below this many miles the distance is given in feet. */
  const FeetThresholdMiles: real := 0.1

  datatype DistanceUnit = Feet | Miles

  /** A distance ready for display. `magnitude` is the value before
      `toFixed` rounds it (0 decimals for feet, 2 for miles). */
  datatype Distance = Distance(magnitude: real, unit: DistanceUnit)

  /** The great-circle distance in miles for a central angle `c` (radians). */
  function MilesForAngle(c: real): real {
    EarthRadiusKm * c * MilesPerKm
  }

  /** Unit selection: feet strictly below 0.1 miles, miles otherwise. */
  function DistanceFromMiles(miles: real): (r: Distance)
    ensures r.unit == Feet <==> miles < FeetThresholdMiles
    ensures r.unit == Feet ==> r.magnitude == miles * FeetPerMile && r.magnitude < 528.0
    ensures r.unit == Miles ==> r.magnitude == miles && r.magnitude >= 0.1
  {
    if miles < FeetThresholdMiles then Distance(miles * FeetPerMile, Feet)
    else Distance(miles, Miles)
  }

  /** `calculateDistance(lat1, lon1, lat2, lon2)`. The haversine central
      angle is the parameter `centralAngle`; its trigonometry is not
      modelled. */
  function CalculateDistance(lat1: real, lon1: real, lat2: real, lon2: real,
                             centralAngle: (real, real, real, real) -> real): (r: Distance)
    ensures InMiles(r) == 6371.0 * centralAngle(lat1, lon1, lat2, lon2) * 0.621371
    ensures r.unit == Feet <==> 6371.0 * centralAngle(lat1, lon1, lat2, lon2) * 0.621371 < 0.1
  {
    DistanceFromMiles(MilesForAngle(centralAngle(lat1, lon1, lat2, lon2)))
  }

  /** Reading a displayed distance back in miles. */
  function InMiles(d: Distance): real {
    match d.unit
    case Feet => d.magnitude / FeetPerMile
    case Miles => d.magnitude
  }

  /** The unit choice loses no information: the displayed distance, read
      back in miles, is the computed one. */
  lemma DistanceRoundTrip(miles: real)
    ensures InMiles(DistanceFromMiles(miles)) == miles
  {
  }

  /** The unit is monotone in the distance: anything nearer than a distance
      shown in feet is shown in feet too. */
  lemma FeetBelowFeet(nearer: real, farther: real)
    requires nearer <= farther
    requires DistanceFromMiles(farther).unit == Feet
    ensures DistanceFromMiles(nearer).unit == Feet
  {
  }

  /** A point's distance to itself (central angle 0) is 0 feet. */
  lemma SelfDistanceIsZeroFeet(lat: real, lon: real, centralAngle: (real, real, real, real) -> real)
    requires centralAngle(lat, lon, lat, lon) == 0.0
    ensures CalculateDistance(lat, lon, lat, lon, centralAngle) == Distance(0.0, Feet)
  {
  }

  /** With a symmetric central angle the distance is symmetric. */
  lemma DistanceSymmetric(lat1: real, lon1: real, lat2: real, lon2: real,
                          centralAngle: (real, real, real, real) -> real)
    requires centralAngle(lat1, lon1, lat2, lon2) == centralAngle(lat2, lon2, lat1, lon1)
    ensures CalculateDistance(lat1, lon1, lat2, lon2, centralAngle) == CalculateDistance(lat2, lon2, lat1, lon1, centralAngle)
  {
  }

  // ---- metro line colours ----

  datatype MetroColor = MetroColor(stationColor: string, textColor: string)

  /** The line codes with a colour of their own. */
  const KnownLines: set<string> := {"RD", "OR", "BL", "GR", "YL"}

  const DefaultColor: MetroColor := MetroColor("#919D9D", "#000")

  /** `getMetroColor(lineCode)`. */
  function GetMetroColor(lineCode: string): (r: MetroColor)
    ensures lineCode == "RD" ==> r.stationColor == "#BF0D3E"
    ensures lineCode == "OR" ==> r.stationColor == "#ED8B00"
    ensures lineCode == "BL" ==> r.stationColor == "#009CDE"
    ensures lineCode == "GR" ==> r.stationColor == "#00B140"
    ensures lineCode == "YL" ==> r.stationColor == "#FFD100"
    ensures lineCode !in KnownLines ==> r == DefaultColor
    ensures r.textColor == "#FFF" || r.textColor == "#000"
    ensures r.textColor == "#000" <==> lineCode !in {"RD", "BL", "GR"}
  {
    match lineCode
    case "RD" => MetroColor("#BF0D3E", "#FFF")
    case "OR" => MetroColor("#ED8B00", "#000")
    case "BL" => MetroColor("#009CDE", "#FFF")
    case "GR" => MetroColor("#00B140", "#FFF")
    case "YL" => MetroColor("#FFD100", "#000")
    case _ => DefaultColor
  }

  /** Different known lines get different station colours, and none of them
      gets the default grey. */
  lemma LineColorsDistinct(a: string, b: string)
    requires a in KnownLines && b in KnownLines
    ensures GetMetroColor(a).stationColor != DefaultColor.stationColor
    ensures a != b ==> GetMetroColor(a).stationColor != GetMetroColor(b).stationColor
  {
  }
}
