/** The metro list (src/components/MetroResults/MetroResults.tsx): which
    stations are requested for the entrances near the searched place,
    which of them get a card, how fetched predictions are stored per
    station, and what a card's details show. */
module MetroResults {
  import opened Wrappers
  import opened Models
  import opened Seqs
  import opened Expansion
  import opened MetroResultDetails

  /** At most this many stations are requested, to stay under the
      transit API's request-rate limit. */
  const MaxStations: nat := 5

  /** A missing station code (`null` upstream, the empty string here) is
      falsy and dropped. */
  predicate IsCode(code: string) {
    code != ""
  }

  function Min(a: nat, b: nat): nat {
    if a <= b then a else b
  }

  /** Both station codes of every entrance, entrance by entrance. */
  function EntranceCodes(entrances: seq<MetroStationEntrance>): (r: seq<string>)
    ensures |r| == 2 * |entrances|
    ensures forall i :: 0 <= i < |entrances| ==>
      r[2 * i] == entrances[i].stationCode1 && r[2 * i + 1] == entrances[i].stationCode2
    ensures forall c :: c in r <==>
      exists e :: e in entrances && (c == e.stationCode1 || c == e.stationCode2)
  {
    if |entrances| == 0 then []
    else
      var rest := EntranceCodes(entrances[1..]);
      assert forall e :: e in entrances <==> e == entrances[0] || e in entrances[1..];
      [entrances[0].stationCode1, entrances[0].stationCode2] + rest
  }

  /** Listing the codes of two runs of entrances one after the other is
      listing the codes of the joined run: `flatMap` works entrance by
      entrance. */
  lemma {:induction false} EntranceCodesConcat(a: seq<MetroStationEntrance>, b: seq<MetroStationEntrance>)
    ensures EntranceCodes(a + b) == EntranceCodes(a) + EntranceCodes(b)
    decreases |a|
  {
    if |a| == 0 {
      assert a + b == b;
    } else {
      assert (a + b)[0] == a[0];
      assert (a + b)[1..] == a[1..] + b;
      EntranceCodesConcat(a[1..], b);
    }
  }

  /** The station codes to request: the distinct codes in order of first
      appearance, missing codes dropped, at most five of them. The cut is
      taken at `min(5, number of distinct codes)`, counted before the
      missing codes are dropped. */
  function RequestedStationCodes(entrances: seq<MetroStationEntrance>): (r: seq<string>)
    ensures |r| <= MaxStations
    ensures NoDups(r)
    ensures forall c :: c in r ==> IsCode(c)
    ensures forall c :: c in r ==>
      exists e :: e in entrances && (c == e.stationCode1 || c == e.stationCode2)
  {
    var unique := Dedup(EntranceCodes(entrances));
    var present := Filter(IsCode, unique);
    FilterNoDups(IsCode, unique);
    present[..Min(Min(MaxStations, |unique|), |present|)]
  }

  /** The cut at `min(5, distinct codes)` never removes more than a plain
      cut at five would: the request is the first five present codes, or
      all of them when there are fewer. */
  lemma RequestedAreFirstFive(entrances: seq<MetroStationEntrance>)
    ensures var present := Filter(IsCode, Dedup(EntranceCodes(entrances)));
      RequestedStationCodes(entrances) == present[..Min(MaxStations, |present|)]
  {
  }

  /** Every present code among the entrances is requested when there are
      at most five distinct ones. */
  lemma FewStationsAllRequested(entrances: seq<MetroStationEntrance>, c: string)
    requires |Dedup(EntranceCodes(entrances))| <= MaxStations
    requires IsCode(c)
    requires exists e :: e in entrances && (c == e.stationCode1 || c == e.stationCode2)
    ensures c in RequestedStationCodes(entrances)
  {
    var codes := EntranceCodes(entrances);
    assert c in codes;
    var unique := Dedup(codes);
    assert c in unique;
    var present := Filter(IsCode, unique);
    assert c in present;
    assert present[..|present|] == present;
  }

  /** The stations whose fetch succeeded, in request order. */
  function FetchedStations(results: seq<Option<MetroStation>>): (r: seq<MetroStation>)
    ensures |r| <= |results|
    ensures forall s :: s in r <==> Some(s) in results
    ensures MapSeq(Wrap, r) == Filter(IsSome, results)
  {
    Somes(results)
  }

  /** The first station listed is the first station whose fetch
      succeeded, whatever failed before it. */
  lemma FirstFetchedStation(results: seq<Option<MetroStation>>, k: nat)
    requires k < |results| && results[k].Some?
    requires forall j :: 0 <= j < k ==> results[j].None?
    ensures |FetchedStations(results)| > 0 && FetchedStations(results)[0] == results[k].value
  {
    FilterFirst(IsSome, results, k);
    var r := FetchedStations(results);
    assert MapSeq(Wrap, r)[0] == Wrap(r[0]);
  }

  function StationCode(s: MetroStation): string {
    s.code
  }

  /** One collapsed card per fetched station. */
  function InitialExpanded(stations: seq<MetroStation>): (r: seq<Entry>)
    ensures |r| == |stations|
    ensures forall i :: 0 <= i < |stations| ==> r[i] == Entry(stations[i].code, false)
  {
    Collapsed(MapSeq(StationCode, stations))
  }

  /** Opening or closing a card flips the flag of the first code passed
      (the card's own station) and leaves every other flag alone. */
  function ToggleStation(expanded: seq<Entry>, stationCodes: seq<string>): (r: seq<Entry>)
    ensures |r| == |expanded|
    ensures forall i :: 0 <= i < |expanded| ==> r[i].id == expanded[i].id
    ensures forall i :: 0 <= i < |expanded| ==>
      (r[i].expanded != expanded[i].expanded <==> |stationCodes| > 0 && expanded[i].id == stationCodes[0])
  {
    if |stationCodes| == 0 then expanded else Toggle(expanded, stationCodes[0])
  }

  /** After one toggle of a card, its flag reads as the opposite of before;
      a second toggle restores every flag. */
  lemma ToggleStationTwice(expanded: seq<Entry>, code: string, partner: string)
    ensures Lookup(ToggleStation(expanded, [code, partner]), code) == Negated(Lookup(expanded, code))
    ensures ToggleStation(ToggleStation(expanded, [code, partner]), [code, partner]) == expanded
  {
    ToggleLookup(expanded, code, code);
    ToggleTwice(expanded, code);
  }

  /** The codes of `stations`, in order. */
  function Codes(stations: seq<MetroStation>): (r: seq<string>)
    ensures |r| == |stations|
    ensures forall c :: c in r <==> exists s :: s in stations && s.code == c
  {
    var r := MapSeq(StationCode, stations);
    assert forall s :: s in stations ==> r[IndexOf(stations, s)] == s.code;
    r
  }

  function IndexOf<T(==)>(s: seq<T>, x: T): (i: nat)
    requires x in s
    ensures i < |s| && s[i] == x
  {
    if s[0] == x then 0 else 1 + IndexOf(s[1..], x)
  }

  /** A station gets its own card unless it has a partner platform that
      already appears earlier in the list, whose card then shows both. */
  predicate IsShown(stations: seq<MetroStation>, i: nat)
    requires i < |stations|
  {
    !IsCode(stations[i].stationTogether1) || stations[i].stationTogether1 !in Codes(stations[..i])
  }

  function ShownFrom(stations: seq<MetroStation>, i: nat): (r: seq<MetroStation>)
    requires i <= |stations|
    ensures IsSubseq(r, stations[i..])
    ensures forall j :: i <= j < |stations| && IsShown(stations, j) ==> stations[j] in r
    ensures forall s :: s in r ==> exists j :: i <= j < |stations| && stations[j] == s && IsShown(stations, j)
    decreases |stations| - i
  {
    if i == |stations| then []
    else
      var rest := ShownFrom(stations, i + 1);
      assert stations[i..][1..] == stations[i + 1..];
      if IsShown(stations, i) then
        assert ([stations[i]] + rest)[1..] == rest;
        [stations[i]] + rest
      else rest
  }

  /** The stations that get a card, in list order. The first station
      always does. */
  function ShownStations(stations: seq<MetroStation>): (r: seq<MetroStation>)
    ensures IsSubseq(r, stations)
    ensures |stations| > 0 ==> |r| > 0 && r[0] == stations[0]
    ensures forall j :: 0 <= j < |stations| && IsShown(stations, j) ==> stations[j] in r
    ensures forall s :: s in r ==> exists j :: 0 <= j < |stations| && stations[j] == s && IsShown(stations, j)
  {
    assert stations[0..] == stations;
    var r := ShownFrom(stations, 0);
    if |stations| > 0 then
      assert IsShown(stations, 0) by { assert Codes(stations[..0]) == []; }
      r
    else r
  }

  /** No card is drawn before a place has been searched. */
  function VisibleStations(location: Option<SearchLocation>, stations: seq<MetroStation>): (r: seq<MetroStation>)
    ensures location.None? ==> r == []
    ensures location.Some? ==> r == ShownStations(stations)
  {
    if location.None? then [] else ShownStations(stations)
  }

  /** A station without a partner code, or whose partner precedes it in
      no position, is listed on its own card; a station whose partner
      comes first is not. */
  lemma PartnerCardCoversStation(stations: seq<MetroStation>, i: nat, j: nat)
    requires j < i < |stations|
    requires IsCode(stations[i].stationTogether1)
    requires stations[j].code == stations[i].stationTogether1
    ensures !IsShown(stations, i)
  {
    assert stations[..i][j] == stations[j];
    assert stations[j] in stations[..i];
  }

  /** The partner platform shown on a card: the first fetched station
      whose code is the card's partner code. */
  function PairedStation(stations: seq<MetroStation>, station: MetroStation): (r: Option<MetroStation>)
    ensures r.Some? ==> r.value in stations && r.value.code == station.stationTogether1
    ensures r.None? <==> forall s :: s in stations ==> s.code != station.stationTogether1
    ensures r.Some? ==> forall k :: 0 <= k < |stations| && stations[k] != r.value ==>
      stations[k].code != station.stationTogether1 || exists j :: 0 <= j < k && stations[j] == r.value
  {
    if |stations| == 0 then None
    else if stations[0].code == station.stationTogether1 then Some(stations[0])
    else
      var rest := PairedStation(stations[1..], station);
      assert forall s :: s in stations <==> s == stations[0] || s in stations[1..];
      assert forall k :: 1 <= k < |stations| ==> stations[k] == stations[1..][k - 1];
      rest
  }

  /** The codes whose predictions a card requests: its own and, when
      present, its partner's. */
  function PredictionRequestCodes(stationCodes: seq<string>): (r: seq<string>)
    ensures forall c :: c in r <==> c in stationCodes && IsCode(c)
    ensures IsSubseq(r, stationCodes)
  {
    Filter(IsCode, stationCodes)
  }

  // ---- storing fetched predictions, as written ----

  /** Stores the i-th fetched list under the i-th code passed, one update
      after another. */
  function StoreFetched(prev: map<string, seq<MetroPrediction>>, stationCodes: seq<string>,
                        fetched: seq<seq<MetroPrediction>>): (r: map<string, seq<MetroPrediction>>)
    requires |fetched| <= |stationCodes|
    ensures forall k :: k in r <==> k in prev || k in stationCodes[..|fetched|]
    ensures forall k :: k in prev && k !in stationCodes[..|fetched|] ==> r[k] == prev[k]
    ensures forall i :: 0 <= i < |fetched| && stationCodes[i] !in stationCodes[i + 1..|fetched|] ==>
      r[stationCodes[i]] == fetched[i]
    decreases |fetched|
  {
    if |fetched| == 0 then prev
    else
      var codes := stationCodes[1..];
      var r := StoreFetched(prev[stationCodes[0] := fetched[0]], codes, fetched[1..]);
      StoreFetchedStep(prev, stationCodes, fetched, r);
      r
  }

  lemma StoreFetchedStep(prev: map<string, seq<MetroPrediction>>, stationCodes: seq<string>,
                         fetched: seq<seq<MetroPrediction>>, r: map<string, seq<MetroPrediction>>)
    requires 0 < |fetched| <= |stationCodes|
    requires var codes := stationCodes[1..]; var p := prev[stationCodes[0] := fetched[0]];
      (forall k :: k in r <==> k in p || k in codes[..|fetched| - 1]) &&
      (forall k :: k in p && k !in codes[..|fetched| - 1] ==> r[k] == p[k]) &&
      (forall i :: 0 <= i < |fetched| - 1 && codes[i] !in codes[i + 1..|fetched| - 1] ==>
        r[codes[i]] == fetched[1..][i])
    ensures forall k :: k in r <==> k in prev || k in stationCodes[..|fetched|]
    ensures forall k :: k in prev && k !in stationCodes[..|fetched|] ==> r[k] == prev[k]
    ensures forall i :: 0 <= i < |fetched| && stationCodes[i] !in stationCodes[i + 1..|fetched|] ==>
      r[stationCodes[i]] == fetched[i]
  {
    var n := |fetched|;
    var codes := stationCodes[1..];
    assert stationCodes[..n] == [stationCodes[0]] + codes[..n - 1];
    forall i | 0 <= i < n && stationCodes[i] !in stationCodes[i + 1..n]
      ensures r[stationCodes[i]] == fetched[i]
    {
      if i > 0 {
        assert codes[i - 1] == stationCodes[i];
        assert codes[i..n - 1] == stationCodes[i + 1..n];
      } else {
        assert stationCodes[1..n] == codes[..n - 1];
      }
    }
  }

  /** The component's update after a card's prediction requests settle:
      failed requests (null) are dropped first and the survivors are then
      keyed by position in the codes the card passed, so after a failure
      the survivors land under the wrong codes. */
  function StorePredictions(prev: map<string, seq<MetroPrediction>>, stationCodes: seq<string>,
                            results: seq<Option<seq<MetroPrediction>>>): (r: map<string, seq<MetroPrediction>>)
    requires |results| == |PredictionRequestCodes(stationCodes)|
    ensures forall k :: k in r <==> k in prev || k in stationCodes[..|Somes(results)|]
    ensures forall k :: k in prev && k !in stationCodes[..|Somes(results)|] ==> r[k] == prev[k]
    ensures forall i :: 0 <= i < |Somes(results)| && stationCodes[i] !in stationCodes[i + 1..|Somes(results)|] ==>
      r[stationCodes[i]] == Somes(results)[i]
  {
    StoreFetched(prev, stationCodes, Somes(results))
  }

  function SamplePrediction(): MetroPrediction {
    MetroPrediction("8", "Glenmont", "B11", "Glenmont", "1", "RD", "A01", "Metro Center", "4")
  }

  /** When the card's own request fails and its partner's succeeds, the
      partner's trains are stored under the card's own code and the
      partner's code stays unset. */
  lemma FailedRequestMisfiled()
    ensures var r := StorePredictions(map[], ["A01", "C01"], [None, Some([SamplePrediction()])]);
      "A01" in r && r["A01"] == [SamplePrediction()] && "C01" !in r
  {
    var results: seq<Option<seq<MetroPrediction>>> := [None, Some([SamplePrediction()])];
    assert Somes(results[1..]) == [[SamplePrediction()]];
    assert Somes(results) == [[SamplePrediction()]];
    assert PredictionRequestCodes(["A01", "C01"]) == ["A01", "C01"] by {
      FilterAll(IsCode, ["A01", "C01"]);
    }
  }

  // ---- storing fetched predictions, corrected ----

  /** Stores each successful result under the code it was requested for
      and leaves the map alone for a failed request. */
  function StorePairs(prev: map<string, seq<MetroPrediction>>, codes: seq<string>,
                      results: seq<Option<seq<MetroPrediction>>>): (r: map<string, seq<MetroPrediction>>)
    requires |codes| == |results|
    ensures forall i :: 0 <= i < |codes| && results[i].Some? && codes[i] !in codes[i + 1..] ==>
      codes[i] in r && r[codes[i]] == results[i].value
    ensures forall k :: k !in codes ==> (k in r <==> k in prev)
    ensures forall k :: k in prev && (forall i :: 0 <= i < |codes| && codes[i] == k ==> results[i].None?) ==>
      k in r && r[k] == prev[k]
    ensures forall k :: k in r ==> k in prev || exists i :: 0 <= i < |codes| && codes[i] == k && results[i].Some?
    decreases |codes|
  {
    if |codes| == 0 then prev
    else
      var next := if results[0].Some? then prev[codes[0] := results[0].value] else prev;
      var r := StorePairs(next, codes[1..], results[1..]);
      StorePairsStored(codes, results, next, r);
      StorePairsOthers(prev, codes, next, r);
      StorePairsKept(prev, codes, results, next, r);
      StorePairsOrigin(prev, codes, results, next, r);
      r
  }

  /** One step of the store, for a result that is the last one of its
      code: it ends up in the map. */
  lemma StorePairsStored(codes: seq<string>, results: seq<Option<seq<MetroPrediction>>>,
                         next: map<string, seq<MetroPrediction>>, r: map<string, seq<MetroPrediction>>)
    requires 0 < |codes| == |results|
    requires results[0].Some? ==> codes[0] in next && next[codes[0]] == results[0].value
    requires var cs := codes[1..]; var rs := results[1..];
      (forall i :: 0 <= i < |cs| && rs[i].Some? && cs[i] !in cs[i + 1..] ==> cs[i] in r && r[cs[i]] == rs[i].value) &&
      (forall k :: k in next && (forall i :: 0 <= i < |cs| && cs[i] == k ==> rs[i].None?) ==> k in r && r[k] == next[k])
    ensures forall i :: 0 <= i < |codes| && results[i].Some? && codes[i] !in codes[i + 1..] ==>
      codes[i] in r && r[codes[i]] == results[i].value
  {
    var cs := codes[1..];
    var rs := results[1..];
    forall i | 0 <= i < |codes| && results[i].Some? && codes[i] !in codes[i + 1..]
      ensures codes[i] in r && r[codes[i]] == results[i].value
    {
      if i > 0 {
        assert cs[i - 1] == codes[i] && rs[i - 1] == results[i];
        assert cs[i..] == codes[i + 1..];
      }
    }
  }

  /** One step of the store leaves codes outside the request alone. */
  lemma StorePairsOthers(prev: map<string, seq<MetroPrediction>>, codes: seq<string>,
                         next: map<string, seq<MetroPrediction>>, r: map<string, seq<MetroPrediction>>)
    requires 0 < |codes|
    requires forall k :: k != codes[0] ==> (k in next <==> k in prev)
    requires forall k :: k !in codes[1..] ==> (k in r <==> k in next)
    ensures forall k :: k !in codes ==> (k in r <==> k in prev)
  {
  }

  /** One step of the store keeps the entries no result replaces. */
  lemma StorePairsKept(prev: map<string, seq<MetroPrediction>>, codes: seq<string>,
                       results: seq<Option<seq<MetroPrediction>>>,
                       next: map<string, seq<MetroPrediction>>, r: map<string, seq<MetroPrediction>>)
    requires 0 < |codes| == |results|
    requires next == if results[0].Some? then prev[codes[0] := results[0].value] else prev
    requires var cs := codes[1..]; var rs := results[1..];
      forall k :: k in next && (forall i :: 0 <= i < |cs| && cs[i] == k ==> rs[i].None?) ==> k in r && r[k] == next[k]
    ensures forall k :: k in prev && (forall i :: 0 <= i < |codes| && codes[i] == k ==> results[i].None?) ==>
      k in r && r[k] == prev[k]
  {
    var cs := codes[1..];
    var rs := results[1..];
    forall k | k in prev && (forall i :: 0 <= i < |codes| && codes[i] == k ==> results[i].None?)
      ensures k in r && r[k] == prev[k]
    {
      forall j | 0 <= j < |cs| && cs[j] == k ensures rs[j].None? {
        assert codes[j + 1] == cs[j];
      }
    }
  }

  /** One step of the store adds only codes with a successful result. */
  lemma StorePairsOrigin(prev: map<string, seq<MetroPrediction>>, codes: seq<string>,
                         results: seq<Option<seq<MetroPrediction>>>,
                         next: map<string, seq<MetroPrediction>>, r: map<string, seq<MetroPrediction>>)
    requires 0 < |codes| == |results|
    requires forall k :: k in next ==> k in prev || (k == codes[0] && results[0].Some?)
    requires var cs := codes[1..]; var rs := results[1..];
      forall k :: k in r ==> k in next || exists i :: 0 <= i < |cs| && cs[i] == k && rs[i].Some?
    ensures forall k :: k in r ==> k in prev || exists i :: 0 <= i < |codes| && codes[i] == k && results[i].Some?
  {
    var cs := codes[1..];
    var rs := results[1..];
    forall k | k in r ensures k in prev || exists i :: 0 <= i < |codes| && codes[i] == k && results[i].Some? {
      if k !in next {
        var j :| 0 <= j < |cs| && cs[j] == k && rs[j].Some?;
        assert codes[j + 1] == k && results[j + 1].Some?;
      }
    }
  }

  /** Each card's request result is stored under the code it was fetched
      for. */
  function StorePredictionsByCode(prev: map<string, seq<MetroPrediction>>, stationCodes: seq<string>,
                                  results: seq<Option<seq<MetroPrediction>>>): (r: map<string, seq<MetroPrediction>>)
    requires |results| == |PredictionRequestCodes(stationCodes)|
    ensures forall i :: (0 <= i < |results| && results[i].Some? &&
                         PredictionRequestCodes(stationCodes)[i] !in PredictionRequestCodes(stationCodes)[i + 1..]) ==>
      PredictionRequestCodes(stationCodes)[i] in r && r[PredictionRequestCodes(stationCodes)[i]] == results[i].value
    ensures forall k :: k !in stationCodes ==> (k in r <==> k in prev)
    ensures forall k :: k in r ==> k in prev || k in stationCodes
  {
    var codes := PredictionRequestCodes(stationCodes);
    StorePairs(prev, codes, results)
  }

  /** The corrected update files the partner's trains under the partner's
      code and leaves the card's own code unset. */
  lemma FailedRequestFiledByCode()
    ensures var r := StorePredictionsByCode(map[], ["A01", "C01"], [None, Some([SamplePrediction()])]);
      "C01" in r && r["C01"] == [SamplePrediction()] && "A01" !in r
  {
    FilterAll(IsCode, ["A01", "C01"]);
    var codes: seq<string> := ["A01", "C01"];
    assert codes[2..] == [];
  }

  /** When every request succeeds and every code passed is present, the
      component's update and the corrected one agree. */
  lemma {:induction false} StoreAgreesWhenAllSucceed(prev: map<string, seq<MetroPrediction>>, stationCodes: seq<string>,
                                                     results: seq<Option<seq<MetroPrediction>>>)
    requires |results| == |stationCodes|
    requires forall c :: c in stationCodes ==> IsCode(c)
    requires forall i :: 0 <= i < |results| ==> results[i].Some?
    ensures PredictionRequestCodes(stationCodes) == stationCodes
    ensures StorePredictions(prev, stationCodes, results) == StorePredictionsByCode(prev, stationCodes, results)
  {
    FilterAll(IsCode, stationCodes);
    StoreFetchedPairs(prev, stationCodes, results);
  }

  lemma {:induction false} StoreFetchedPairs(prev: map<string, seq<MetroPrediction>>, codes: seq<string>,
                                             results: seq<Option<seq<MetroPrediction>>>)
    requires |results| == |codes|
    requires forall i :: 0 <= i < |results| ==> results[i].Some?
    ensures StoreFetched(prev, codes, Somes(results)) == StorePairs(prev, codes, results)
    decreases |codes|
  {
    if |codes| > 0 {
      StoreFetchedPairs(prev[codes[0] := results[0].value], codes[1..], results[1..]);
      assert Somes(results)[1..] == Somes(results[1..]);
    }
  }

  // ---- a card's details ----

  /** What a card's details area shows. `Faulted` is the render error
      raised when the list handed to the details view holds `undefined`. */
  datatype DetailsView = NoPredictions | Listed(arrivals: seq<MetroPrediction>) | Faulted

  /** The partner's stored trains; none when the station has no partner
      or nothing is stored for it. */
  function PartnerTrains(predictions: map<string, seq<MetroPrediction>>, station: MetroStation): seq<MetroPrediction> {
    if IsCode(station.stationTogether1) && station.stationTogether1 in predictions
    then predictions[station.stationTogether1] else []
  }

  /** As written: without stored predictions for the card's own code the
      placeholder is shown; otherwise its trains are ranked together with
      the partner's, whose lookup yields `undefined` when nothing was
      stored for the partner code, and concatenating that puts an
      `undefined` entry in the list. */
  function StationDetails(predictions: map<string, seq<MetroPrediction>>, station: MetroStation): (r: DetailsView)
    ensures r.NoPredictions? <==> station.code !in predictions
    ensures r.Faulted? <==>
      station.code in predictions && IsCode(station.stationTogether1) && station.stationTogether1 !in predictions
    ensures r.Listed? ==>
      station.code in predictions && multiset(r.arrivals) == multiset(predictions[station.code] + PartnerTrains(predictions, station))
    ensures r.Listed? ==> r.arrivals == RankPredictions(predictions[station.code], PartnerTrains(predictions, station))
  {
    if station.code !in predictions then NoPredictions
    else if !IsCode(station.stationTogether1) then Listed(RankPredictions(predictions[station.code], []))
    else if station.stationTogether1 in predictions then
      Listed(RankPredictions(predictions[station.code], predictions[station.stationTogether1]))
    else Faulted
  }

  function SampleStation(code: string, partner: string): MetroStation {
    MetroStation(Address("Washington", "DC", "607 13th St NW", "20005"), code, 38.8983, "RD", "", "", "",
      -77.0281, "Metro Center", partner, "")
  }

  /** A card whose own trains arrived while its partner's request failed
      cannot render its details. */
  lemma MissingPartnerFaults()
    ensures StationDetails(map["A01" := [SamplePrediction()]], SampleStation("A01", "C01")).Faulted?
  {
  }

  /** Corrected: a partner without stored predictions contributes no
      trains. */
  function StationDetailsIntended(predictions: map<string, seq<MetroPrediction>>, station: MetroStation): (r: DetailsView)
    ensures r.NoPredictions? <==> station.code !in predictions
    ensures !r.Faulted?
    ensures r.Listed? ==>
      station.code in predictions && multiset(r.arrivals) == multiset(predictions[station.code] + PartnerTrains(predictions, station))
    ensures r.Listed? ==> r.arrivals == RankPredictions(predictions[station.code], PartnerTrains(predictions, station))
  {
    if station.code !in predictions then NoPredictions
    else if IsCode(station.stationTogether1) && station.stationTogether1 in predictions then
      Listed(RankPredictions(predictions[station.code], predictions[station.stationTogether1]))
    else Listed(RankPredictions(predictions[station.code], []))
  }

  /** The corrected details agree with the component whenever the
      component renders at all. */
  lemma DetailsAgreeUnlessFaulted(predictions: map<string, seq<MetroPrediction>>, station: MetroStation)
    ensures !StationDetails(predictions, station).Faulted? ==>
      StationDetailsIntended(predictions, station) == StationDetails(predictions, station)
  {
  }

  /** With the corrected details the card from the failure above shows its
      own train. */
  lemma MissingPartnerListsOwnTrains()
    ensures StationDetailsIntended(map["A01" := [SamplePrediction()]], SampleStation("A01", "C01"))
      == Listed([SamplePrediction()])
  {
    assert [SamplePrediction()] + [] == [SamplePrediction()];
  }
}
