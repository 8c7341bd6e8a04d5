/** The bus list (src/components/BusResults/BusResults.tsx): one card per
    nearby stop, its expanded flag, and the arrivals fetched for a stop
    grouped by direction before they are stored per stop. */
module BusResults {
  import opened Wrappers
  import opened Models
  import opened Seqs
  import opened Expansion

  function DirectionText(p: BusPrediction): string {
    p.directionText
  }

  /** The direction texts of the arrivals, in arrival order. */
  function DirectionTexts(ps: seq<BusPrediction>): (r: seq<string>)
    ensures |r| == |ps|
    ensures forall i :: 0 <= i < |ps| ==> r[i] == ps[i].directionText
  {
    MapSeq(DirectionText, ps)
  }

  /** The distinct direction texts in order of first appearance. */
  function UniqueDirections(ps: seq<BusPrediction>): (r: seq<string>)
    ensures forall d :: d in r <==> exists i :: 0 <= i < |ps| && ps[i].directionText == d
    ensures NoDups(r)
    ensures forall i :: 0 <= i < |r| ==> r[i] in DirectionTexts(ps)
    ensures forall i, j :: 0 <= i < j < |r| ==>
      FirstIndex(DirectionTexts(ps), r[i]) < FirstIndex(DirectionTexts(ps), r[j])
  {
    var texts := DirectionTexts(ps);
    assert forall d :: d in texts <==> exists i :: 0 <= i < |ps| && ps[i].directionText == d by {
      forall d | d in texts ensures exists i :: 0 <= i < |ps| && ps[i].directionText == d {
        var i := FirstIndex(texts, d);
        assert ps[i].directionText == d;
      }
    }
    Dedup(texts)
  }

  /** The arrivals heading in direction `d`, in arrival order. */
  function InDirection(ps: seq<BusPrediction>, d: string): (r: seq<BusPrediction>)
    ensures forall p :: p in r <==> p in ps && p.directionText == d
    ensures IsSubseq(r, ps)
  {
    Filter(Heading(d), ps)
  }

  function Heading(d: string): BusPrediction -> bool {
    (p: BusPrediction) => p.directionText == d
  }

  /** The per-arrival fields kept inside a group. */
  function ToRoutePrediction(p: BusPrediction): RoutePrediction {
    RoutePrediction(p.minutes, p.tripId, p.vehicleId)
  }

  /** `g` is the group of direction `d`: it carries `d`, its header
      (direction number and route) comes from the earliest arrival in that
      direction, and it lists every arrival in that direction, in order. */
  predicate IsGroupOf(ps: seq<BusPrediction>, d: string, g: BusRoutePrediction) {
    d in DirectionTexts(ps) &&
    g.directionText == d && |g.predictions| > 0 &&
    g.predictions == MapSeq(ToRoutePrediction, InDirection(ps, d)) &&
    var k := FirstIndex(DirectionTexts(ps), d);
    g.directionNum == ps[k].directionNum && g.routeId == ps[k].routeId
  }

  function GroupFor(ps: seq<BusPrediction>, d: string): (r: BusRoutePrediction)
    requires d in DirectionTexts(ps)
    ensures IsGroupOf(ps, d, r)
  {
    var k := FirstIndex(DirectionTexts(ps), d);
    FilterFirst(Heading(d), ps, k);
    var members := InDirection(ps, d);
    BusRoutePrediction(members[0].directionNum, members[0].directionText, members[0].routeId,
      MapSeq(ToRoutePrediction, members))
  }

  function GroupsFor(ps: seq<BusPrediction>, ds: seq<string>): (r: seq<BusRoutePrediction>)
    requires forall d :: d in ds ==> d in DirectionTexts(ps)
    ensures |r| == |ds|
    ensures forall i :: 0 <= i < |ds| ==> IsGroupOf(ps, ds[i], r[i])
  {
    if |ds| == 0 then [] else [GroupFor(ps, ds[0])] + GroupsFor(ps, ds[1..])
  }

  /** The arrivals at a stop grouped by direction: one group per distinct
      direction text, in order of first appearance. */
  function GroupByDirection(ps: seq<BusPrediction>): (r: seq<BusRoutePrediction>)
    ensures |r| == |UniqueDirections(ps)|
    ensures forall i :: 0 <= i < |r| ==> IsGroupOf(ps, UniqueDirections(ps)[i], r[i])
  {
    GroupsFor(ps, UniqueDirections(ps))
  }

  // ---- the groups partition the arrivals ----

  /** Total number of arrivals across `groups`. */
  function GroupedCount(groups: seq<BusRoutePrediction>): nat {
    if |groups| == 0 then 0 else |groups[0].predictions| + GroupedCount(groups[1..])
  }

  function DirectionCounts(ps: seq<BusPrediction>, ds: seq<string>): nat {
    if |ds| == 0 then 0 else |InDirection(ps, ds[0])| + DirectionCounts(ps, ds[1..])
  }

  function Occurrences(ds: seq<string>, d: string): nat {
    if |ds| == 0 then 0 else (if ds[0] == d then 1 else 0) + Occurrences(ds[1..], d)
  }

  lemma {:induction false} DirectionCountsOfNone(ds: seq<string>)
    ensures DirectionCounts([], ds) == 0
    decreases |ds|
  {
    if |ds| > 0 {
      DirectionCountsOfNone(ds[1..]);
    }
  }

  lemma {:induction false} DirectionCountsStep(ps: seq<BusPrediction>, ds: seq<string>)
    requires |ps| > 0
    ensures DirectionCounts(ps, ds) == DirectionCounts(ps[1..], ds) + Occurrences(ds, ps[0].directionText)
    decreases |ds|
  {
    if |ds| > 0 {
      DirectionCountsStep(ps, ds[1..]);
    }
  }

  lemma {:induction false} OccursOnce(ds: seq<string>, d: string)
    requires NoDups(ds) && d in ds
    ensures Occurrences(ds, d) == 1
    decreases |ds|
  {
    if ds[0] == d {
      OccursNever(ds[1..], d);
    } else {
      OccursOnce(ds[1..], d);
    }
  }

  lemma {:induction false} OccursNever(ds: seq<string>, d: string)
    requires d !in ds
    ensures Occurrences(ds, d) == 0
    decreases |ds|
  {
    if |ds| > 0 {
      OccursNever(ds[1..], d);
    }
  }

  /** Counting the arrivals of each listed direction counts every arrival
      once when the directions are distinct and cover all arrivals. */
  lemma {:induction false} DirectionCountsCover(ps: seq<BusPrediction>, ds: seq<string>)
    requires NoDups(ds)
    requires forall p :: p in ps ==> p.directionText in ds
    ensures DirectionCounts(ps, ds) == |ps|
    decreases |ps|
  {
    if |ps| == 0 {
      DirectionCountsOfNone(ds);
    } else {
      DirectionCountsStep(ps, ds);
      DirectionCountsCover(ps[1..], ds);
      OccursOnce(ds, ps[0].directionText);
    }
  }

  lemma {:induction false} GroupsCount(ps: seq<BusPrediction>, ds: seq<string>)
    requires forall d :: d in ds ==> d in DirectionTexts(ps)
    ensures GroupedCount(GroupsFor(ps, ds)) == DirectionCounts(ps, ds)
    decreases |ds|
  {
    if |ds| > 0 {
      var g := GroupsFor(ps, ds);
      assert g[1..] == GroupsFor(ps, ds[1..]);
      GroupsCount(ps, ds[1..]);
    }
  }

  /** Every arrival lands in exactly one group: the groups together hold
      as many arrivals as were fetched. */
  lemma GroupsPartitionArrivals(ps: seq<BusPrediction>)
    ensures GroupedCount(GroupByDirection(ps)) == |ps|
  {
    var ds := UniqueDirections(ps);
    GroupsCount(ps, ds);
    forall p | p in ps ensures p.directionText in ds {
      var i :| 0 <= i < |ps| && ps[i] == p;
    }
    DirectionCountsCover(ps, ds);
  }

  /** Every fetched arrival is listed, in the group of its own direction. */
  lemma ArrivalInItsGroup(ps: seq<BusPrediction>, p: BusPrediction)
    requires p in ps
    ensures exists i :: (0 <= i < |GroupByDirection(ps)| && GroupByDirection(ps)[i].directionText == p.directionText &&
                         ToRoutePrediction(p) in GroupByDirection(ps)[i].predictions)
  {
    var k :| 0 <= k < |ps| && ps[k] == p;
    var ds := UniqueDirections(ps);
    var i := FirstIndex(ds, p.directionText);
    var g := GroupByDirection(ps);
    var members := InDirection(ps, p.directionText);
    var j := FirstIndex(members, p);
    assert g[i].predictions[j] == ToRoutePrediction(p);
  }

  // ---- expanded flags and the per-stop store ----

  function StopId(s: BusStop): string {
    s.stopId
  }

  /** One collapsed card per stop, in stop order. */
  function InitialExpanded(stops: seq<BusStop>): (r: seq<Entry>)
    ensures |r| == |stops|
    ensures forall i :: 0 <= i < |stops| ==> r[i] == Entry(stops[i].stopId, false)
  {
    Collapsed(MapSeq(StopId, stops))
  }

  /** Opening or closing the card of `stopId`. */
  function ToggleStop(expanded: seq<Entry>, stopId: string): (r: seq<Entry>)
    ensures |r| == |expanded|
    ensures forall i :: 0 <= i < |expanded| ==> r[i].id == expanded[i].id
    ensures forall i :: 0 <= i < |expanded| ==>
      (r[i].expanded != expanded[i].expanded <==> expanded[i].id == stopId)
  {
    Toggle(expanded, stopId)
  }

  /** Right after the stops load, toggling a stop's card opens it and
      leaves every other card closed. */
  lemma ToggleOpensOnlyThatCard(stops: seq<BusStop>, stopId: string, other: string)
    ensures var e := ToggleStop(InitialExpanded(stops), stopId);
      Lookup(e, stopId) == (if exists i :: 0 <= i < |stops| && stops[i].stopId == stopId then Some(true) else None)
    ensures other != stopId ==> var e := ToggleStop(InitialExpanded(stops), stopId);
      Lookup(e, other) == (if exists i :: 0 <= i < |stops| && stops[i].stopId == other then Some(false) else None)
  {
    var ids := MapSeq(StopId, stops);
    CollapsedLookup(ids, stopId);
    CollapsedLookup(ids, other);
    ToggleLookup(Collapsed(ids), stopId, other);
    assert forall id :: id in ids <==> exists i :: 0 <= i < |stops| && stops[i].stopId == id by {
      forall id | id in ids ensures exists i :: 0 <= i < |stops| && stops[i].stopId == id {
        var i := FirstIndex(ids, id);
      }
    }
  }

  /** The update after a stop's arrivals arrive: a failed request (null)
      changes nothing; otherwise the stop's grouped arrivals replace its
      entry. */
  function StorePredictions(prev: map<string, seq<BusRoutePrediction>>, stopId: string,
                            predictions: Option<seq<BusPrediction>>): (r: map<string, seq<BusRoutePrediction>>)
    ensures predictions.None? ==> r == prev
    ensures predictions.Some? ==> stopId in r && r[stopId] == GroupByDirection(predictions.value)
    ensures predictions.Some? ==> GroupedCount(r[stopId]) == |predictions.value|
    ensures forall k :: k != stopId ==> (k in r <==> k in prev) && (k in prev ==> r[k] == prev[k])
  {
    match predictions
    case None => prev
    case Some(ps) =>
      GroupsPartitionArrivals(ps);
      prev[stopId := GroupByDirection(ps)]
  }
}
