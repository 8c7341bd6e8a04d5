/** The arrival list of a metro station
    (src/components/MetroResults/MetroResultDetails/MetroResultDetails.tsx):
    the predictions of the station and of its paired station are
    concatenated and sorted with a hand-written comparator over the `min`
    text, then labelled. */
module MetroResultDetails {
  import opened Wrappers
  import opened Models
  import opened Numerals
  import opened Sorting

  /** `!isNaN(parseInt(min))`. */
  predicate IsNumeric(min: string) {
    ParseInt(min).Some?
  }

  /** The parsed minutes of a numeric `min` (0 for anything else). */
  function MinutesValue(min: string): int {
    match ParseInt(min)
    case Some(v) => v
    case None => 0
  }

  /** The comparator exactly as written. Whether the two texts are equal
      turns out not to matter: two numbers compare by their difference in
      minutes, and as soon as either side is not a number the answer is -1
      when the first is `BRD` and 1 otherwise. */
  function CompareMin(a: string, b: string): (r: int)
    ensures IsNumeric(a) && IsNumeric(b) ==> r == MinutesValue(a) - MinutesValue(b)
    ensures !IsNumeric(a) || !IsNumeric(b) ==> r == (if a == "BRD" then -1 else 1)
  {
    if a == b then
      if !IsNumeric(a) then (if a == "BRD" then -1 else 1) else 0
    else if !IsNumeric(a) || !IsNumeric(b) then (if a == "BRD" then -1 else 1)
    else MinutesValue(a) - MinutesValue(b)
  }

  /** The comparator over trains looks at nothing but their `min` text:
      numbers by minutes, `BRD` first against anything that is not a number. */
  function ComparePredictions(a: MetroPrediction, b: MetroPrediction): (r: int)
    ensures IsNumeric(a.min) && IsNumeric(b.min) ==> r == MinutesValue(a.min) - MinutesValue(b.min)
    ensures a.min == "BRD" ==> r == -1
    ensures a.min != "BRD" && (!IsNumeric(a.min) || !IsNumeric(b.min)) ==> r == 1
  {
    SentinelsAreNotNumeric();
    CompareMin(a.min, b.min)
  }

  /** `metroPredictions.concat(metroPredictionsStation2).sort(...)`: the
      result is a rearrangement of both lists together. */
  function RankPredictions(primary: seq<MetroPrediction>, secondary: seq<MetroPrediction>): (r: seq<MetroPrediction>)
    ensures |r| == |primary| + |secondary|
    ensures multiset(r) == multiset(primary + secondary)
  {
    InsertionSort(ComparePredictions, primary + secondary)
  }

  /** The arrival label: `BRD` and `ARR` are shown bare, anything else is
      followed by " minutes". */
  function MinutesLabel(min: string): (r: string)
    ensures min == "BRD" || min == "ARR" ==> r == min
    ensures min != "BRD" && min != "ARR" ==> r == min + " minutes"
  {
    if min in ["BRD", "ARR"] then min else min + " minutes"
  }

  // ---- what the comparator promises ----

  lemma SentinelsAreNotNumeric()
    ensures !IsNumeric("BRD") && !IsNumeric("ARR")
  {
    assert NoDigits("BRD");
    assert NoDigits("ARR");
  }

  /** Two numeric values compare by the difference of their parsed values
      (equal text gives 0). */
  lemma NumericComparison(a: string, b: string)
    requires IsNumeric(a) && IsNumeric(b)
    ensures CompareMin(a, b) == MinutesValue(a) - MinutesValue(b)
    ensures a == b ==> CompareMin(a, b) == 0
  {
  }

  /** `BRD` comes before every other value, whichever side it is on. */
  lemma BrdSortsFirst(x: string)
    requires x != "BRD"
    ensures CompareMin("BRD", x) == -1
    ensures CompareMin(x, "BRD") == 1
  {
    SentinelsAreNotNumeric();
  }

  /** Equal non-numeric values: -1 for two `BRD`, 1 otherwise. */
  lemma EqualNonNumeric(a: string)
    requires !IsNumeric(a)
    ensures CompareMin(a, a) == (if a == "BRD" then -1 else 1)
  {
  }

  /** Two `ARR` values each claim to come after the other. */
  lemma ArrAgainstArr()
    ensures CompareMin("ARR", "ARR") == 1
  {
    SentinelsAreNotNumeric();
  }

  /** `ARR` against a number answers 1 in both orders, so the comparator
      does not fix where `ARR` goes among numbers. */
  lemma ArrAgainstNumber(n: string)
    requires IsNumeric(n)
    ensures CompareMin("ARR", n) == 1
    ensures CompareMin(n, "ARR") == 1
  {
    SentinelsAreNotNumeric();
  }

  // ---- the consistent fragment: numbers and BRD ----

  predicate InFragment(p: MetroPrediction) {
    p.min == "BRD" || IsNumeric(p.min)
  }

  /** Restricted to numbers and `BRD`, `cmp(a, b) <= 0` is a total preorder. */
  lemma FragmentIsTotalPreorder()
    ensures TotalPreorderOn(ComparePredictions, InFragment)
  {
    forall a, b | InFragment(a) && InFragment(b)
      ensures ComparePredictions(a, b) <= 0 || ComparePredictions(b, a) <= 0
    {
      FragmentTotal(a, b);
    }
    forall a, b, c | InFragment(a) && InFragment(b) && InFragment(c)
      && ComparePredictions(a, b) <= 0 && ComparePredictions(b, c) <= 0
      ensures ComparePredictions(a, c) <= 0
    {
      FragmentTransitive(a, b, c);
    }
  }

  lemma FragmentTotal(a: MetroPrediction, b: MetroPrediction)
    requires InFragment(a) && InFragment(b)
    ensures ComparePredictions(a, b) <= 0 || ComparePredictions(b, a) <= 0
  {
    SentinelsAreNotNumeric();
  }

  lemma FragmentTransitive(a: MetroPrediction, b: MetroPrediction, c: MetroPrediction)
    requires InFragment(a) && InFragment(b) && InFragment(c)
    requires ComparePredictions(a, b) <= 0 && ComparePredictions(b, c) <= 0
    ensures ComparePredictions(a, c) <= 0
  {
    if a.min == "BRD" {
      BrdComesFirst(c.min);
    } else {
      NumberBeforeFragment(a.min, b.min);
      NumberBeforeFragment(b.min, c.min);
      NumbersInOrder(a.min, c.min);
    }
  }

  /** `BRD` is placed before (or with) anything of the fragment. */
  lemma BrdComesFirst(c: string)
    requires c == "BRD" || IsNumeric(c)
    ensures CompareMin("BRD", c) <= 0
  {
    SentinelsAreNotNumeric();
  }

  /** A number is only placed before another number no smaller than it. */
  lemma NumberBeforeFragment(a: string, b: string)
    requires IsNumeric(a)
    requires b == "BRD" || IsNumeric(b)
    requires CompareMin(a, b) <= 0
    ensures IsNumeric(b) && MinutesValue(a) <= MinutesValue(b)
  {
    SentinelsAreNotNumeric();
  }

  lemma NumbersInOrder(a: string, c: string)
    requires IsNumeric(a) && IsNumeric(c)
    requires MinutesValue(a) <= MinutesValue(c)
    ensures CompareMin(a, c) <= 0
  {
  }

  /** Every `BRD` precedes every number, and the numbers ascend. */
  ghost predicate BrdThenAscending(r: seq<MetroPrediction>) {
    forall i, j :: 0 <= i < j < |r| ==>
      && (r[j].min == "BRD" ==> r[i].min == "BRD")
      && (r[i].min != "BRD" ==> MinutesValue(r[i].min) <= MinutesValue(r[j].min))
  }

  lemma FragmentPairOrder(a: MetroPrediction, b: MetroPrediction)
    requires InFragment(a) && InFragment(b)
    requires ComparePredictions(a, b) <= 0
    ensures b.min == "BRD" ==> a.min == "BRD"
    ensures a.min != "BRD" ==> MinutesValue(a.min) <= MinutesValue(b.min)
  {
    SentinelsAreNotNumeric();
  }

  /** On input made of numbers and `BRD` only, the ranked list holds every
      `BRD` first and then the numbers in ascending order. */
  lemma RankedFragmentOrder(primary: seq<MetroPrediction>, secondary: seq<MetroPrediction>)
    requires AllOk(InFragment, primary + secondary)
    ensures BrdThenAscending(RankPredictions(primary, secondary))
  {
    var input := primary + secondary;
    var r := RankPredictions(primary, secondary);
    assert SortedBy(ComparePredictions, r) by {
      FragmentIsTotalPreorder();
      InsertionSortSorted(ComparePredictions, InFragment, input);
    }
    forall i, j | 0 <= i < j < |r|
      ensures r[j].min == "BRD" ==> r[i].min == "BRD"
      ensures r[i].min != "BRD" ==> MinutesValue(r[i].min) <= MinutesValue(r[j].min)
    {
      assert r[i] in multiset(input) && r[j] in multiset(input);
      FragmentPairOrder(r[i], r[j]);
    }
  }

  /** On numbers and `BRD`, ranking a ranked list again changes nothing. */
  lemma RankIdempotentOnFragment(primary: seq<MetroPrediction>, secondary: seq<MetroPrediction>)
    requires AllOk(InFragment, primary + secondary)
    ensures RankPredictions(RankPredictions(primary, secondary), []) == RankPredictions(primary, secondary)
  {
    var r := RankPredictions(primary, secondary);
    FragmentIsTotalPreorder();
    InsertionSortSorted(ComparePredictions, InFragment, primary + secondary);
    assert r + [] == r;
    InsertionSortOfSorted(ComparePredictions, r);
  }

  /** Different labels come from different `min` values. */
  lemma MinutesLabelInjective(a: string, b: string)
    requires MinutesLabel(a) == MinutesLabel(b)
    ensures a == b
  {
    var suffix := " minutes";
    if a != "BRD" && a != "ARR" && b != "BRD" && b != "ARR" {
      assert |a| == |b|;
      assert a == (a + suffix)[..|a|];
      assert b == (b + suffix)[..|b|];
    }
  }

  // ---- concrete behaviour of the comparator as written ----

  /** A prediction whose only distinguishing field is `min`. */
  function Arrival(min: string): MetroPrediction {
    MetroPrediction("", "", "", "", "", "", "", "", min)
  }

  lemma DigitParses(d: nat)
    requires d < 10
    ensures ParseInt([DigitChar(d)]) == Some(d)
  {
    ParseIntOfIntToString(d, "");
    assert IntToString(d) + "" == [DigitChar(d)];
  }

  lemma SmallNumbersParse()
    ensures ParseInt("2") == Some(2) && ParseInt("5") == Some(5)
  {
    DigitParses(2);
    DigitParses(5);
  }

  /** The comparator's answers on the four sample arrivals. */
  lemma SampleComparisons()
    ensures CompareMin("5", "BRD") == 1 && CompareMin("BRD", "ARR") == -1 && CompareMin("BRD", "2") == -1
    ensures CompareMin("5", "ARR") == 1 && CompareMin("ARR", "5") == 1 && CompareMin("ARR", "2") == 1
    ensures CompareMin("5", "2") == 3
  {
    SmallNumbersParse();
    BrdSortsFirst("5");
    BrdSortsFirst("ARR");
    BrdSortsFirst("2");
    ArrAgainstNumber("5");
    ArrAgainstNumber("2");
    NumericComparison("5", "2");
  }

  lemma ArrAndFiveSwap()
    ensures ComparePredictions(Arrival("ARR"), Arrival("5")) == 1
    ensures ComparePredictions(Arrival("5"), Arrival("ARR")) == 1
  {
    SampleComparisons();
  }

  /** Ranking two arrivals the comparator orders both ways swaps them. */
  lemma RankSwapsPair(a: MetroPrediction, b: MetroPrediction)
    requires ComparePredictions(a, b) > 0
    ensures RankPredictions([a], [b]) == [b, a]
    ensures RankPredictions([a, b], []) == [b, a]
  {
    assert [a] + [b] == [a, b] && [a, b] + [] == [a, b];
    TraceTwo(ComparePredictions, a, b);
  }

  /** Where an `ARR` lands among numbers depends only on the order in which
      the two lists are concatenated: the sort swaps whatever pair it gets,
      and ranking the ranked list swaps it back. */
  lemma ArrPlacementFollowsInputOrder()
    ensures RankPredictions([Arrival("ARR")], [Arrival("5")]) == [Arrival("5"), Arrival("ARR")]
    ensures RankPredictions([Arrival("5")], [Arrival("ARR")]) == [Arrival("ARR"), Arrival("5")]
    ensures RankPredictions(RankPredictions([Arrival("ARR")], [Arrival("5")]), []) != RankPredictions([Arrival("ARR")], [Arrival("5")])
  {
    ArrAndFiveSwap();
    RankSwapsPair(Arrival("ARR"), Arrival("5"));
    RankSwapsPair(Arrival("5"), Arrival("ARR"));
  }

  lemma TraceTwo<T>(cmp: (T, T) -> int, a: T, b: T)
    requires cmp(a, b) > 0
    ensures InsertionSort(cmp, [a, b]) == [b, a]
  {
    assert [a, b][..1] == [a] && [a][..0] == [];
    InsertionSortStep(cmp, [a]);
    InsertionSortStep(cmp, [a, b]);
    InsertMovesLeft(cmp, [a], b);
  }

  lemma TraceInsertThird<T>(cmp: (T, T) -> int, a: T, b: T, c: T)
    requires cmp(a, c) > 0 && cmp(b, c) <= 0
    ensures Insert(cmp, [b, a], c) == [b, c, a]
  {
    InsertMovesLeft(cmp, [b, a], c);
    assert [b, a][..1] == [b];
    InsertStaysLast(cmp, [b], c);
  }

  lemma TraceThree<T>(cmp: (T, T) -> int, a: T, b: T, c: T)
    requires cmp(a, b) > 0 && cmp(a, c) > 0 && cmp(b, c) <= 0
    ensures InsertionSort(cmp, [a, b, c]) == [b, c, a]
  {
    assert [a, b, c][..2] == [a, b];
    InsertionSortStep(cmp, [a, b, c]);
    TraceTwo(cmp, a, b);
    TraceInsertThird(cmp, a, b, c);
  }

  /** Inserting `d` behind `b, c, a` when `d` belongs before `a`. */
  lemma TraceInsertFourth<T>(cmp: (T, T) -> int, a: T, b: T, c: T, d: T)
    requires cmp(a, d) > 0 && cmp(b, d) <= 0
    ensures cmp(c, d) > 0 ==> Insert(cmp, [b, c, a], d) == [b, d, c, a]
    ensures cmp(c, d) <= 0 ==> Insert(cmp, [b, c, a], d) == [b, c, d, a]
  {
    var t := [b, c, a];
    InsertMovesLeft(cmp, t, d);
    assert t[..2] == [b, c];
    var u := [b, c];
    if cmp(c, d) > 0 {
      InsertMovesLeft(cmp, u, d);
      assert u[..1] == [b];
      InsertStaysLast(cmp, [b], d);
    } else {
      InsertStaysLast(cmp, u, d);
    }
  }

  /** How the sort treats four elements `a, b, c, d` given the answers
      of the comparator on the pairs it consults. */
  lemma TraceFour<T>(cmp: (T, T) -> int, a: T, b: T, c: T, d: T)
    requires cmp(a, b) > 0 && cmp(a, c) > 0 && cmp(b, c) <= 0
    requires cmp(a, d) > 0 && cmp(b, d) <= 0
    ensures cmp(c, d) > 0 ==> InsertionSort(cmp, [a, b, c, d]) == [b, d, c, a]
    ensures cmp(c, d) <= 0 ==> InsertionSort(cmp, [a, b, c, d]) == [b, c, d, a]
  {
    var s := [a, b, c, d];
    assert s[..3] == [a, b, c];
    TraceThree(cmp, a, b, c);
    InsertionSortStep(cmp, s);
    TraceInsertFourth(cmp, a, b, c, d);
  }

  /** The four arrivals `5, BRD, ARR, 2` rank as `BRD, 2, ARR, 5`: the
      `ARR` is not placed before the numbers. */
  lemma MixedArrivalsAsWritten()
    ensures RankPredictions([Arrival("5"), Arrival("BRD"), Arrival("ARR"), Arrival("2")], [])
         == [Arrival("BRD"), Arrival("2"), Arrival("ARR"), Arrival("5")]
  {
    var five, brd, arr, two := Arrival("5"), Arrival("BRD"), Arrival("ARR"), Arrival("2");
    SampleComparisons();
    assert [five, brd, arr, two] + [] == [five, brd, arr, two];
    TraceFour(ComparePredictions, five, brd, arr, two);
  }

  // ---- the evidently intended order: BRD, then ARR, then numbers ----

  /** 0 for `BRD`, 1 for any other non-numeric value, 2 for numbers. */
  function ArrivalTier(min: string): nat {
    if min == "BRD" then 0 else if !IsNumeric(min) then 1 else 2
  }

  /** Corrected comparator: by tier, and numbers by value. */
  function CompareMinIntended(a: string, b: string): int {
    if ArrivalTier(a) != ArrivalTier(b) then ArrivalTier(a) - ArrivalTier(b)
    else if ArrivalTier(a) == 2 then MinutesValue(a) - MinutesValue(b)
    else 0
  }

  function ComparePredictionsIntended(a: MetroPrediction, b: MetroPrediction): int {
    CompareMinIntended(a.min, b.min)
  }

  function RankPredictionsIntended(primary: seq<MetroPrediction>, secondary: seq<MetroPrediction>): (r: seq<MetroPrediction>)
    ensures |r| == |primary| + |secondary|
    ensures multiset(r) == multiset(primary + secondary)
  {
    InsertionSort(ComparePredictionsIntended, primary + secondary)
  }

  function Anything(p: MetroPrediction): bool {
    true
  }

  /** The corrected comparator is a total preorder on every input. */
  lemma IntendedIsTotalPreorder()
    ensures TotalPreorderOn(ComparePredictionsIntended, Anything)
  {
  }

  /** Sentinels first (`BRD` before `ARR`), then numbers in ascending order. */
  ghost predicate TieredAscending(r: seq<MetroPrediction>) {
    forall i, j :: 0 <= i < j < |r| ==>
      && ArrivalTier(r[i].min) <= ArrivalTier(r[j].min)
      && (ArrivalTier(r[i].min) == 2 && ArrivalTier(r[j].min) == 2 ==> MinutesValue(r[i].min) <= MinutesValue(r[j].min))
  }

  /** With the corrected comparator every input ranks as `BRD`, then the
      other sentinels, then numbers ascending. */
  lemma RankedIntendedOrder(primary: seq<MetroPrediction>, secondary: seq<MetroPrediction>)
    ensures TieredAscending(RankPredictionsIntended(primary, secondary))
  {
    IntendedIsTotalPreorder();
    InsertionSortSorted(ComparePredictionsIntended, Anything, primary + secondary);
  }

  /** On numbers and `BRD` the correction changes nothing. */
  lemma IntendedAgreesOnFragment(primary: seq<MetroPrediction>, secondary: seq<MetroPrediction>)
    requires AllOk(InFragment, primary + secondary)
    ensures RankPredictionsIntended(primary, secondary) == RankPredictions(primary, secondary)
  {
    var input := primary + secondary;
    SentinelsAreNotNumeric();
    forall a, b | a in input && b in input
      ensures ComparePredictionsIntended(a, b) <= 0 <==> ComparePredictions(a, b) <= 0
    {
      assert InFragment(a) && InFragment(b);
    }
    InsertionSortAgrees(ComparePredictionsIntended, ComparePredictions, input);
  }

  lemma SentinelTiers()
    ensures ArrivalTier("BRD") == 0 && ArrivalTier("ARR") == 1
  {
    SentinelsAreNotNumeric();
  }

  lemma NumberTiers()
    ensures ArrivalTier("5") == 2 && ArrivalTier("2") == 2
    ensures MinutesValue("5") == 5 && MinutesValue("2") == 2
  {
    SmallNumbersParse();
    assert |"5"| != |"BRD"| && |"2"| != |"BRD"|;
  }

  lemma SampleComparisonsIntended()
    ensures CompareMinIntended("5", "BRD") > 0 && CompareMinIntended("BRD", "ARR") <= 0 && CompareMinIntended("5", "ARR") > 0
    ensures CompareMinIntended("5", "2") > 0 && CompareMinIntended("ARR", "2") <= 0
  {
    SentinelTiers();
    NumberTiers();
  }

  /** The four arrivals `5, BRD, ARR, 2` rank as `BRD, ARR, 2, 5`. */
  lemma MixedArrivalsIntended()
    ensures RankPredictionsIntended([Arrival("5"), Arrival("BRD"), Arrival("ARR"), Arrival("2")], [])
         == [Arrival("BRD"), Arrival("ARR"), Arrival("2"), Arrival("5")]
  {
    var five, brd, arr, two := Arrival("5"), Arrival("BRD"), Arrival("ARR"), Arrival("2");
    SampleComparisonsIntended();
    assert [five, brd, arr, two] + [] == [five, brd, arr, two];
    TraceFour(ComparePredictionsIntended, five, brd, arr, two);
  }
}
