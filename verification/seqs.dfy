/** Sequence operations the components use through JavaScript's array
    methods: `filter`, `map`, `new Set(...)` de-duplication and the
    "keep only non-null results" idiom. */
module Seqs {
  import opened Wrappers

  /** `a` is an order-preserving subsequence of `b`. */
  predicate IsSubseq<T(==)>(a: seq<T>, b: seq<T>)
    decreases |b|
  {
    |a| == 0 || (|b| > 0 && ((a[0] == b[0] && IsSubseq(a[1..], b[1..])) || IsSubseq(a, b[1..])))
  }

  /** No element occurs twice. */
  predicate NoDups<T(==)>(s: seq<T>) {
    forall i, j :: 0 <= i < j < |s| ==> s[i] != s[j]
  }

  /** `Array.prototype.map`. */
  function MapSeq<A, B>(f: A -> B, s: seq<A>): (r: seq<B>)
    ensures |r| == |s|
    ensures forall i :: 0 <= i < |s| ==> r[i] == f(s[i])
  {
    if |s| == 0 then [] else [f(s[0])] + MapSeq(f, s[1..])
  }

  /** Mapping with `f` and then with a left inverse `g` of `f` gives the
      input back. */
  lemma MapSeqLeftInverse<A(!new), B>(f: A -> B, g: B -> A, s: seq<A>)
    requires forall x :: g(f(x)) == x
    ensures MapSeq(g, MapSeq(f, s)) == s
  {
    var r := MapSeq(g, MapSeq(f, s));
    assert |r| == |s|;
    forall i | 0 <= i < |s| ensures r[i] == s[i] {
      assert r[i] == g(MapSeq(f, s)[i]) == g(f(s[i]));
    }
  }

  /** `Array.prototype.filter`: keeps, in order, the elements satisfying `p`. */
  function Filter<T(!new)>(p: T -> bool, s: seq<T>): (r: seq<T>)
    ensures |r| <= |s|
    ensures forall x :: x in r <==> x in s && p(x)
    ensures IsSubseq(r, s)
  {
    if |s| == 0 then []
    else
      var rest := Filter(p, s[1..]);
      if p(s[0]) then
        assert ([s[0]] + rest)[1..] == rest;
        [s[0]] + rest
      else rest
  }

  /** The first element a filter keeps is the first element passing it. */
  lemma {:induction false} FilterFirst<T(!new)>(p: T -> bool, s: seq<T>, k: nat)
    requires k < |s| && p(s[k])
    requires forall j :: 0 <= j < k ==> !p(s[j])
    ensures |Filter(p, s)| > 0 && Filter(p, s)[0] == s[k]
    decreases k
  {
    if k > 0 {
      FilterFirst(p, s[1..], k - 1);
    }
  }

  /** Filtering distributes over concatenation. */
  lemma {:induction false} FilterConcat<T(!new)>(p: T -> bool, a: seq<T>, b: seq<T>)
    ensures Filter(p, a + b) == Filter(p, a) + Filter(p, b)
    decreases |a|
  {
    if |a| > 0 {
      assert (a + b)[1..] == a[1..] + b;
      FilterConcat(p, a[1..], b);
    } else {
      assert a + b == b;
    }
  }

  /** Filtering a sequence without duplicates gives one without duplicates. */
  lemma {:induction false} FilterNoDups<T(!new)>(p: T -> bool, s: seq<T>)
    requires NoDups(s)
    ensures NoDups(Filter(p, s))
    decreases |s|
  {
    if |s| > 0 {
      assert NoDups(s[1..]);
      FilterNoDups(p, s[1..]);
      assert s[0] !in s[1..];
    }
  }

  /** Filtering keeps everything when everything passes. */
  lemma {:induction false} FilterAll<T(!new)>(p: T -> bool, s: seq<T>)
    requires forall x :: x in s ==> p(x)
    ensures Filter(p, s) == s
    decreases |s|
  {
    if |s| > 0 {
      FilterAll(p, s[1..]);
    }
  }

  /** Index of the first occurrence of `x` in `s`. */
  function FirstIndex<T(==)>(s: seq<T>, x: T): (i: nat)
    requires x in s
    ensures i < |s| && s[i] == x && x !in s[..i]
    decreases |s|
  {
    if x in s[..|s| - 1] then FirstIndex(s[..|s| - 1], x) else |s| - 1
  }

  /** The elements of `s` in order of first occurrence, each once: the
      iteration order of `new Set(s)`. */
  function Dedup<T(==,!new)>(s: seq<T>): (r: seq<T>)
    ensures forall x :: x in r <==> x in s
    ensures NoDups(r)
    ensures forall i, j :: 0 <= i < j < |r| ==> FirstIndex(s, r[i]) < FirstIndex(s, r[j])
    decreases |s|
  {
    if |s| == 0 then []
    else
      var prefix := s[..|s| - 1];
      var last := s[|s| - 1];
      var d := Dedup(prefix);
      assert s == prefix + [last];
      if last in d then
        DedupSeen(prefix, last, d);
        d
      else
        DedupUnseen(prefix, last, d);
        d + [last]
  }

  /** An element seen before leaves the order of the first occurrences
      unchanged. */
  lemma DedupSeen<T>(prefix: seq<T>, last: T, d: seq<T>)
    requires forall x :: x in d <==> x in prefix
    requires forall i, j :: 0 <= i < j < |d| ==> FirstIndex(prefix, d[i]) < FirstIndex(prefix, d[j])
    ensures forall i, j :: 0 <= i < j < |d| ==> FirstIndex(prefix + [last], d[i]) < FirstIndex(prefix + [last], d[j])
  {
    forall i, j | 0 <= i < j < |d| ensures FirstIndex(prefix + [last], d[i]) < FirstIndex(prefix + [last], d[j]) {
      FirstIndexExtend(prefix, last, d[i]);
      FirstIndexExtend(prefix, last, d[j]);
    }
  }

  /** A new element goes last among the first occurrences. */
  lemma DedupUnseen<T>(prefix: seq<T>, last: T, d: seq<T>)
    requires last !in prefix
    requires forall x :: x in d <==> x in prefix
    requires NoDups(d)
    requires forall i, j :: 0 <= i < j < |d| ==> FirstIndex(prefix, d[i]) < FirstIndex(prefix, d[j])
    ensures NoDups(d + [last])
    ensures forall i, j :: 0 <= i < j < |d| + 1 ==>
      FirstIndex(prefix + [last], (d + [last])[i]) < FirstIndex(prefix + [last], (d + [last])[j])
  {
    var r := d + [last];
    forall i, j | 0 <= i < j < |r| ensures FirstIndex(prefix + [last], r[i]) < FirstIndex(prefix + [last], r[j]) {
      assert r[i] == d[i];
      FirstIndexExtend(prefix, last, d[i]);
      if j < |d| {
        assert r[j] == d[j];
        FirstIndexExtend(prefix, last, d[j]);
      } else {
        FirstIndexNew(prefix, last);
      }
    }
  }

  /** Appending an element leaves the first index of earlier elements. */
  lemma FirstIndexExtend<T>(prefix: seq<T>, last: T, x: T)
    requires x in prefix
    ensures FirstIndex(prefix + [last], x) == FirstIndex(prefix, x)
  {
    var s := prefix + [last];
    assert s[..|s| - 1] == prefix;
  }

  /** A new element appended is first found at the end. */
  lemma FirstIndexNew<T>(prefix: seq<T>, last: T)
    requires last !in prefix
    ensures FirstIndex(prefix + [last], last) == |prefix|
  {
    var s := prefix + [last];
    assert s[..|s| - 1] == prefix;
    assert last !in s[..|s| - 1];
  }

  function Wrap<T>(x: T): Option<T> {
    Some(x)
  }

  predicate IsSome<T>(o: Option<T>) {
    o.Some?
  }

  /** Wrapping loses nothing: two sequences that wrap to the same
      sequence of options are the same. */
  lemma MapWrapInjective<T>(a: seq<T>, b: seq<T>)
    requires MapSeq(Wrap, a) == MapSeq(Wrap, b)
    ensures a == b
  {
    assert |a| == |b|;
    forall i | 0 <= i < |a|
      ensures a[i] == b[i]
    {
      assert MapSeq(Wrap, a)[i] == Wrap(a[i]);
      assert MapSeq(Wrap, b)[i] == Wrap(b[i]);
    }
  }

  /** `results.filter((x) => x)` over nullable results, unwrapped: the
      non-null entries, in their order (wrapping the result back gives
      exactly what the filter keeps). */
  function Somes<T(!new)>(s: seq<Option<T>>): (r: seq<T>)
    ensures |r| <= |s|
    ensures forall x :: x in r <==> Some(x) in s
    ensures MapSeq(Wrap, r) == Filter(IsSome, s)
    ensures (forall i :: 0 <= i < |s| ==> s[i].Some?) ==>
      |r| == |s| && forall i :: 0 <= i < |s| ==> r[i] == s[i].value
  {
    if |s| == 0 then []
    else
      var rest := Somes(s[1..]);
      assert forall x :: Some(x) in s <==> Some(x) == s[0] || Some(x) in s[1..];
      match s[0]
      case Some(v) =>
        assert ([v] + rest)[1..] == rest;
        [v] + rest
      case None => rest
  }
}
