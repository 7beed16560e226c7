/** Decimation of one Doppler track to a bounded number of points. */
module Decimation {
  import Lists
  import Numbers

  datatype Point = Point(utcNs: int, offset: real)

  const MAXIMUM_POINTS_PER_SERIES: nat := 128

  /** Python's `min(range(n), key=...)`: the first index of the least offset. */
  ghost predicate FirstLeast(points: seq<Point>, i: int)
  {
    && 0 <= i < |points|
    && (forall j :: 0 <= j < |points| ==> points[i].offset <= points[j].offset)
    && (forall j :: 0 <= j < i ==> points[j].offset != points[i].offset)
  }

  ghost predicate FirstGreatest(points: seq<Point>, i: int)
  {
    && 0 <= i < |points|
    && (forall j :: 0 <= j < |points| ==> points[j].offset <= points[i].offset)
    && (forall j :: 0 <= j < i ==> points[j].offset != points[i].offset)
  }

  method ArgMin(points: seq<Point>) returns (i: int)
    requires points != []
    ensures FirstLeast(points, i)
  {
    i := 0;
    for j := 1 to |points|
      invariant 0 <= i < j
      invariant forall k :: 0 <= k < j ==> points[i].offset <= points[k].offset
      invariant forall k :: 0 <= k < i ==> points[k].offset != points[i].offset
    {
      if points[j].offset < points[i].offset {
        i := j;
      }
    }
  }

  method ArgMax(points: seq<Point>) returns (i: int)
    requires points != []
    ensures FirstGreatest(points, i)
  {
    i := 0;
    for j := 1 to |points|
      invariant 0 <= i < j
      invariant forall k :: 0 <= k < j ==> points[k].offset <= points[i].offset
      invariant forall k :: 0 <= k < i ==> points[k].offset != points[i].offset
    {
      if points[j].offset > points[i].offset {
        i := j;
      }
    }
  }

  lemma Division(num: nat, den: nat)
    requires den > 0
    ensures num == num / den * den + num % den
  {
  }

  /** Python's `round`: nearest integer, a tie to the even neighbour. */
  function RoundHalfEven(num: nat, den: nat): (r: nat)
    requires den > 0
  {
    var q, rest := num / den, num % den;
    if 2 * rest < den || (2 * rest == den && q % 2 == 0) then q else q + 1
  }

  /** At most half away, and at exactly half the result is even. */
  lemma RoundingIsNearest(num: nat, den: nat)
    requires den > 0
    ensures var r := RoundHalfEven(num, den);
            && 2 * num - den <= 2 * (r * den) <= 2 * num + den
            && (2 * (r * den) == 2 * num - den || 2 * (r * den) == 2 * num + den ==> r % 2 == 0)
  {
    Division(num, den);
    var q := num / den;
    assert (q + 1) * den == q * den + den;
  }

  function Divisor(remaining: nat): (d: nat)
    ensures d > 0
  {
    if remaining > 1 then remaining - 1 else 1
  }

  /** The evenly spread index number `i` of `remaining` ones over a track of `n` points. */
  function Spread(i: nat, n: nat, remaining: nat): (r: nat)
    requires i < remaining && n > 0
    ensures r < n
  {
    SpreadIsAnIndex(i, n, remaining);
    RoundHalfEven(i * (n - 1), Divisor(remaining))
  }

  function SpreadIndices(k: nat, n: nat, remaining: nat): (r: set<int>)
    requires k <= remaining && n > 0
    ensures forall x :: x in r ==> 0 <= x < n
    ensures |r| <= k
  {
    if k == 0 then {} else SpreadIndices(k - 1, n, remaining) + {Spread(k - 1, n, remaining)}
  }

  lemma SpreadIsAnIndex(i: nat, n: nat, remaining: nat)
    requires i < remaining && n > 0
    ensures RoundHalfEven(i * (n - 1), Divisor(remaining)) <= n - 1
  {
    var d := Divisor(remaining);
    RoundingIsNearest(i * (n - 1), d);
    Scale(i, d, n - 1);
    AtMostWhole(RoundHalfEven(i * (n - 1), d), d, n - 1, i * (n - 1));
  }

  lemma AtMostWhole(r: nat, d: nat, whole: nat, num: nat)
    requires d > 0 && num <= d * whole && 2 * (r * d) <= 2 * num + d
    ensures r <= whole
  {
    ScaleBeyond(whole, r, d);
  }

  lemma ScaleBeyond(a: int, b: int, c: int)
    requires 0 <= c
    ensures a < b ==> a * c + c <= b * c
  {
    if a < b {
      Scale(a + 1, b, c);
    }
  }

  lemma Scale(a: int, b: int, c: int)
    requires a <= b && 0 <= c
    ensures a * c <= b * c
  {
  }

  ghost predicate Ascending(s: seq<int>)
  {
    forall i, j :: 0 <= i < j < |s| ==> s[i] < s[j]
  }

  /** `sorted` over a set of indices. */
  method Sorted(indices: set<int>) returns (r: seq<int>)
    ensures Ascending(r) && |r| == |indices|
    ensures forall i :: i in r <==> i in indices
  {
    var left := indices;
    r := [];
    while left != {}
      invariant left <= indices && |r| == |indices| - |left|
      invariant forall i :: i in r <==> i in indices && i !in left
      invariant Ascending(r)
      decreases |left|
    {
      var x := Lists.Pick(left);
      left := left - {x};
      InsertKeepsAscending(x, r);
      r := Lists.Insert(AtMost, x, r);
    }
  }

  predicate AtMost(a: int, b: int)
  {
    a <= b
  }

  lemma {:induction false} InsertKeepsAscending(x: int, s: seq<int>)
    requires Ascending(s) && x !in s
    ensures Ascending(Lists.Insert(AtMost, x, s))
    ensures |Lists.Insert(AtMost, x, s)| == |s| + 1
    ensures forall y :: y in Lists.Insert(AtMost, x, s) <==> y == x || y in s
  {
    if s != [] {
      assert s == [s[0]] + s[1..];
      if x > s[0] {
        InsertKeepsAscending(x, s[1..]);
        var rest := Lists.Insert(AtMost, x, s[1..]);
        assert forall j :: 0 <= j < |rest| ==> rest[j] in rest;
      } else {
        assert s[0] in s;
      }
    }
  }

  /** The indices below `m`. */
  function Prefix(m: nat): (r: set<int>)
  {
    if m == 0 then {} else Prefix(m - 1) + {m - 1}
  }

  /** The endpoints and the extrema. */
  function Required(n: nat, lo: int, hi: int): (r: set<int>)
    requires 0 <= lo < n && 0 <= hi < n
    ensures 0 < |r| <= 4 && forall i :: i in r ==> 0 <= i < n
    ensures 0 in r && n - 1 in r && lo in r && hi in r
  {
    assert |{0} + {n - 1} + {lo} + {hi}| <= 4;
    {0} + {n - 1} + {lo} + {hi}
  }

  /** The required indices, the even spread, and the first `m` indices as filling. */
  function Chosen(n: nat, lo: int, hi: int, m: nat): (r: set<int>)
    requires 0 <= lo < n && 0 <= hi < n
  {
    var remaining := MAXIMUM_POINTS_PER_SERIES - |Required(n, lo, hi)|;
    Required(n, lo, hi) + SpreadIndices(remaining, n, remaining) + Prefix(m)
  }

  /** The indices a long track keeps. */
  ghost predicate Selects(points: seq<Point>, lo: int, hi: int, m: nat, at: seq<int>)
  {
    && FirstLeast(points, lo) && FirstGreatest(points, hi)
    && forall i :: i in at <==> i in Chosen(|points|, lo, hi, m)
  }

  /** An order-preserving subsequence at the given indices. */
  ghost predicate SubsequenceAt(points: seq<Point>, r: seq<Point>, at: seq<int>)
  {
    && |at| == |r| && Ascending(at)
    && forall k :: 0 <= k < |at| ==> 0 <= at[k] < |points| && r[k] == points[at[k]]
  }

  /** `x` is the integer nearest to num / den; of two equally near, the even one. */
  predicate Nearest(num: int, den: int, x: int)
  {
    && 2 * num - den <= 2 * (x * den) <= 2 * num + den
    && (2 * (x * den) == 2 * num - den || 2 * (x * den) == 2 * num + den ==> x % 2 == 0)
  }

  lemma NearestIsUnique(num: int, den: int, x: int, y: int)
    requires den > 0 && Nearest(num, den, x) && Nearest(num, den, y)
    ensures x == y
  {
    NearestIsNotBeyond(num, den, x, y);
    NearestIsNotBeyond(num, den, y, x);
  }

  lemma NearestIsNotBeyond(num: int, den: int, x: int, y: int)
    requires den > 0 && Nearest(num, den, x) && Nearest(num, den, y)
    ensures y <= x
  {
    ScaleBeyond(x, y, den);
    ScaleBeyond(x + 1, y, den);
    assert (x + 1) * den == x * den + den;
  }

  /** The step number `i` of `remaining` equal ones from the first index of a track to its last. */
  predicate IsStep(i: int, n: int, remaining: int, x: int)
  {
    Nearest(i * (n - 1), remaining - 1, x)
  }

  lemma StepsAreNearest(i: nat, n: nat, remaining: nat, x: int)
    requires i < remaining && 1 < remaining && n > 0
    ensures IsStep(i, n, remaining, x) <==> x == Spread(i, n, remaining)
  {
    hide RoundHalfEven;
    RoundingIsNearest(i * (n - 1), remaining - 1);
    assert Nearest(i * (n - 1), remaining - 1, Spread(i, n, remaining));
    if Nearest(i * (n - 1), remaining - 1, x) {
      NearestIsUnique(i * (n - 1), remaining - 1, x, Spread(i, n, remaining));
    }
  }

  /** The even spread starts at the first index and ends at the last. */
  lemma SpreadReachesBothEnds(n: nat, remaining: nat)
    requires 1 < remaining && n > 0
    ensures Spread(0, n, remaining) == 0 && Spread(remaining - 1, n, remaining) == n - 1
  {
    StepsAreNearest(0, n, remaining, 0);
    StepsAreNearest(remaining - 1, n, remaining, n - 1);
    assert (remaining - 1) * (n - 1) == (n - 1) * (remaining - 1);
  }

  lemma {:induction false} SpreadMembers(k: nat, n: nat, remaining: nat, x: int)
    requires k <= remaining && 1 < remaining && n > 0
    ensures x in SpreadIndices(k, n, remaining) <==> exists i :: 0 <= i < k && IsStep(i, n, remaining, x)
  {
    hide IsStep;
    if k > 0 {
      SpreadMembers(k - 1, n, remaining, x);
      StepsAreNearest(k - 1, n, remaining, x);
    }
  }

  ghost predicate IsSomeStep(n: int, remaining: int, x: int)
  {
    exists i :: 0 <= i < remaining && IsStep(i, n, remaining, x)
  }

  /** An end, an extremum, a step of the even spread, or one of the first `m` indices. */
  ghost predicate KeptAt(n: nat, lo: int, hi: int, m: nat, x: int)
  {
    || x == 0 || x == n - 1 || x == lo || x == hi
    || IsSomeStep(n, 128 - |{0, n - 1, lo, hi}|, x)
    || 0 <= x < m
  }

  lemma RequiredSize(n: nat, lo: int, hi: int)
    requires 1 < n && 0 <= lo < n && 0 <= hi < n
    ensures Required(n, lo, hi) == {0, n - 1, lo, hi} && 2 <= |Required(n, lo, hi)|
  {
    assert Required(n, lo, hi) == {0, n - 1, lo, hi};
    assert 2 == |{0, n - 1}|;
    Numbers.SubsetSize({0, n - 1}, {0, n - 1, lo, hi});
  }

  lemma ChosenMember(n: nat, lo: int, hi: int, m: nat, x: int)
    requires 1 < n && 0 <= lo < n && 0 <= hi < n
    ensures x in Chosen(n, lo, hi, m) <==> KeptAt(n, lo, hi, m, x)
  {
    hide SpreadIndices, Prefix, IsStep, Required;
    RequiredSize(n, lo, hi);
    var remaining := 128 - |Required(n, lo, hi)|;
    PrefixSize(m);
    SpreadMembers(remaining, n, remaining, x);
  }

  /**
   * A long track keeps its ends, its extrema, as many equal steps as these leave room for among 128
   * points, and the first indices of the track in place of the steps that fell on kept ones.
   */
  lemma IndicesByPosition(points: seq<Point>, lo: int, hi: int, m: nat, at: seq<int>)
    requires |points| > MAXIMUM_POINTS_PER_SERIES && Selects(points, lo, hi, m, at)
    ensures forall x :: x in at <==> KeptAt(|points|, lo, hi, m, x)
  {
    hide Chosen, KeptAt, FirstLeast, FirstGreatest;
    ExtremaAreIndices(points, lo, hi);
    forall x ensures x in at <==> KeptAt(|points|, lo, hi, m, x) {
      ChosenMember(|points|, lo, hi, m, x);
    }
  }

  lemma ExtremaAreIndices(points: seq<Point>, lo: int, hi: int)
    requires FirstLeast(points, lo) && FirstGreatest(points, hi)
    ensures 0 <= lo < |points| && 0 <= hi < |points|
  {
  }

  method EvenSpread(required: set<int>, n: nat) returns (indices: set<int>)
    requires n > 0 && 0 < |required| <= MAXIMUM_POINTS_PER_SERIES
    requires forall i :: i in required ==> 0 <= i < n
    ensures var remaining := MAXIMUM_POINTS_PER_SERIES - |required|;
            indices == required + SpreadIndices(remaining, n, remaining)
    ensures |indices| <= MAXIMUM_POINTS_PER_SERIES && forall i :: i in indices ==> 0 <= i < n
  {
    indices := required;
    var remaining := MAXIMUM_POINTS_PER_SERIES - |required|;
    for k := 0 to remaining
      invariant indices == required + SpreadIndices(k, n, remaining)
    {
      var added := Spread(k, n, remaining);
      indices := indices + {added};
    }
  }

  method Fill(spread: set<int>, n: nat) returns (indices: set<int>, ghost m: nat)
    requires n > MAXIMUM_POINTS_PER_SERIES && |spread| <= MAXIMUM_POINTS_PER_SERIES
    requires forall i :: i in spread ==> 0 <= i < n
    ensures |indices| == MAXIMUM_POINTS_PER_SERIES && m <= n && indices == spread + Prefix(m)
    ensures forall i :: i in indices ==> 0 <= i < n
  {
    indices := spread;
    var k := 0;
    while k < n && |indices| < MAXIMUM_POINTS_PER_SERIES
      invariant 0 <= k <= n && indices == spread + Prefix(k)
      invariant k <= |indices| <= MAXIMUM_POINTS_PER_SERIES
    {
      FillOneMore(spread, k);
      indices := indices + {k};
      k := k + 1;
    }
    m := k;
    PrefixSize(m);
  }

  lemma FillOneMore(spread: set<int>, k: nat)
    ensures spread + Prefix(k) + {k} == spread + Prefix(k + 1)
    ensures k + 1 <= |spread + Prefix(k + 1)| <= |spread + Prefix(k)| + 1
  {
    PrefixSize(k + 1);
    Numbers.SubsetSize(Prefix(k + 1), spread + Prefix(k + 1));
  }

  lemma {:induction false} PrefixSize(n: nat)
    ensures |Prefix(n)| == n
    ensures forall i :: i in Prefix(n) <==> 0 <= i < n
  {
    if n > 0 {
      PrefixSize(n - 1);
    }
  }

  /**
   * A track becomes exactly min(n, 128) of its points, in order, with both endpoints and the first
   * points of least and of greatest offset among them.
   */
  method Decimate(points: seq<Point>)
    returns (r: seq<Point>, ghost at: seq<int>, ghost lo: int, ghost hi: int, ghost m: nat)
    ensures |r| == if |points| <= MAXIMUM_POINTS_PER_SERIES then |points| else MAXIMUM_POINTS_PER_SERIES
    ensures SubsequenceAt(points, r, at)
    ensures points != [] ==>
      && at[0] == 0 && at[|at| - 1] == |points| - 1
      && FirstLeast(points, lo) && FirstGreatest(points, hi) && lo in at && hi in at
    ensures |points| > MAXIMUM_POINTS_PER_SERIES ==> Selects(points, lo, hi, m, at)
  {
    if |points| <= MAXIMUM_POINTS_PER_SERIES {
      r, at, lo, hi, m := points, seq(|points|, i => i), 0, 0, 0;
      if points != [] {
        lo := ArgMin(points);
        hi := ArgMax(points);
        assert at[lo] == lo && at[hi] == hi;
      }
    } else {
      r, at, lo, hi, m := DecimateLong(points);
    }
  }

  method DecimateLong(points: seq<Point>)
    returns (r: seq<Point>, ghost at: seq<int>, ghost lo: int, ghost hi: int, ghost m: nat)
    requires |points| > MAXIMUM_POINTS_PER_SERIES
    ensures |r| == MAXIMUM_POINTS_PER_SERIES && SubsequenceAt(points, r, at)
    ensures at[0] == 0 && at[|at| - 1] == |points| - 1 && lo in at && hi in at
    ensures Selects(points, lo, hi, m, at)
  {
    var ordered;
    ordered, lo, hi, m := Choose(points);
    at := ordered;
    r := seq(|ordered|, k requires 0 <= k < |ordered| => points[ordered[k]]);
  }

  method Choose(points: seq<Point>) returns (ordered: seq<int>, ghost lo: int, ghost hi: int, ghost m: nat)
    requires |points| > MAXIMUM_POINTS_PER_SERIES
    ensures |ordered| == MAXIMUM_POINTS_PER_SERIES && Ascending(ordered) && Selects(points, lo, hi, m, ordered)
    ensures forall k :: 0 <= k < |ordered| ==> 0 <= ordered[k] < |points|
    ensures ordered[0] == 0 && ordered[|ordered| - 1] == |points| - 1 && lo in ordered && hi in ordered
  {
    var least := ArgMin(points);
    var greatest := ArgMax(points);
    var indices;
    indices, m := Select(|points|, least, greatest);
    ordered := Sorted(indices);
    lo, hi := least, greatest;
    SortedSelection(points, lo, hi, m, indices, ordered);
  }

  lemma SortedSelection(points: seq<Point>, lo: int, hi: int, m: nat, indices: set<int>, ordered: seq<int>)
    requires FirstLeast(points, lo) && FirstGreatest(points, hi) && indices == Chosen(|points|, lo, hi, m)
    requires 0 in indices && |points| - 1 in indices && lo in indices && hi in indices
    requires forall i :: i in indices ==> 0 <= i < |points|
    requires Ascending(ordered) && forall i :: i in ordered <==> i in indices
    ensures Selects(points, lo, hi, m, ordered)
    ensures forall k :: 0 <= k < |ordered| ==> 0 <= ordered[k] < |points|
    ensures ordered[0] == 0 && ordered[|ordered| - 1] == |points| - 1 && lo in ordered && hi in ordered
  {
    hide Chosen, FirstLeast, FirstGreatest;
    EndpointsLeadAndTrail(ordered, |points|);
    IndicesAreMembers(ordered, |points|);
  }

  lemma IndicesAreMembers(at: seq<int>, n: nat)
    requires forall i :: i in at ==> 0 <= i < n
    ensures forall k :: 0 <= k < |at| ==> 0 <= at[k] < n
  {
    forall k | 0 <= k < |at| ensures 0 <= at[k] < n {
      assert at[k] in at;
    }
  }

  method Select(n: nat, lo: int, hi: int) returns (indices: set<int>, ghost m: nat)
    requires n > MAXIMUM_POINTS_PER_SERIES && 0 <= lo < n && 0 <= hi < n
    ensures |indices| == MAXIMUM_POINTS_PER_SERIES && indices == Chosen(n, lo, hi, m)
    ensures forall i :: i in indices ==> 0 <= i < n
    ensures 0 in indices && n - 1 in indices && lo in indices && hi in indices
  {
    var spread := EvenSpread(Required(n, lo, hi), n);
    indices, m := Fill(spread, n);
  }

  lemma EndpointsLeadAndTrail(at: seq<int>, n: nat)
    requires Ascending(at) && 0 in at && n - 1 in at && forall i :: i in at ==> 0 <= i < n
    ensures at[0] == 0 && at[|at| - 1] == n - 1
  {
    var first :| 0 <= first < |at| && at[first] == 0;
    var last :| 0 <= last < |at| && at[last] == n - 1;
    assert at[0] in at && at[|at| - 1] in at;
  }
}

/** The bounded aggregate over the tiles of an interval. */
module DopplerAggregate {
  import opened Outcomes
  import Decimation
  import Lists

  datatype Series = Series(pathId: string, drift: real, points: seq<Decimation.Point>)

  datatype Control = Control(pathId: string, kind: string, score: real)

  /** One tile's bundles: their input digests, and the evidence they yield. */
  datatype Tile = Tile(basicInput: string, advancedInput: string, series: seq<Series>, controls: seq<Control>)

  datatype View = View(tileCount: int, truncated: bool, series: seq<Series>, controls: seq<Control>)

  datatype AggregateError = DifferentInputs

  const MAX_TILES: nat := 512
  const MAX_SERIES: nat := 512
  const MAX_POINTS: nat := 8192
  const MAX_CONTROLS: nat := 8192

  function Points(s: seq<Series>): (n: nat)
  {
    if s == [] then 0 else Points(s[..|s| - 1]) + |s[|s| - 1].points|
  }

  /** First come, first kept, while there is room. */
  function Kept(s: seq<Series>): (r: seq<Series>)
  {
    if s == [] then []
    else
      var k, x := Kept(s[..|s| - 1]), s[|s| - 1];
      if |k| < MAX_SERIES && Points(k) + |x.points| <= MAX_POINTS then k + [x] else k
  }

  lemma KeptOneMore(s: seq<Series>, x: Series)
    ensures Kept(s + [x])
            == if |Kept(s)| < MAX_SERIES && Points(Kept(s)) + |x.points| <= MAX_POINTS then Kept(s) + [x] else Kept(s)
    ensures Points(s + [x]) == Points(s) + |x.points|
  {
    assert (s + [x])[..|s|] == s;
  }

  lemma {:induction false} KeptIsBounded(s: seq<Series>)
    ensures |Kept(s)| <= MAX_SERIES && Points(Kept(s)) <= MAX_POINTS
    ensures |Kept(s)| <= |s| && Points(Kept(s)) <= Points(s)
  {
    if s != [] {
      var rest, x := s[..|s| - 1], s[|s| - 1];
      KeptIsBounded(rest);
      assert s == rest + [x];
      KeptOneMore(rest, x);
      KeptOneMore(Kept(rest), x);
    }
  }

  /** Later series never displace earlier ones. */
  lemma {:induction false} KeptIsStable(s: seq<Series>, t: seq<Series>)
    ensures Kept(s) <= Kept(s + t)
    ensures |Kept(s)| == MAX_SERIES ==> Kept(s + t) == Kept(s)
  {
    if t == [] {
      assert s + t == s;
    } else {
      var n := |t| - 1;
      KeptIsStable(s, t[..n]);
      assert s + t == (s + t[..n]) + [t[n]];
      KeptOneMore(s + t[..n], t[n]);
    }
  }

  /** Nothing is dropped exactly when all of it fits. */
  lemma {:induction false} EverythingIsKeptIffItFits(s: seq<Series>)
    ensures Kept(s) == s <==> |s| <= MAX_SERIES && Points(s) <= MAX_POINTS
    ensures |Kept(s)| == |s| <==> Kept(s) == s
  {
    hide Points;
    KeptIsBounded(s);
    if s != [] {
      var rest, x := s[..|s| - 1], s[|s| - 1];
      EverythingIsKeptIffItFits(rest);
      KeptIsBounded(rest);
      assert s == rest + [x];
      KeptOneMore(rest, x);
    }
  }

  /** The positions of the kept series; none of the others would still fit at the end. */
  ghost predicate MaximalAt(s: seq<Series>, at: seq<int>)
  {
    && |at| == |Kept(s)| && Decimation.Ascending(at)
    && (forall k :: 0 <= k < |at| ==> 0 <= at[k] < |s| && Kept(s)[k] == s[at[k]])
    && (forall i :: 0 <= i < |s| && i !in at ==> Full(Kept(s), s[i]))
  }

  predicate Full(kept: seq<Series>, x: Series)
  {
    |kept| == MAX_SERIES || Points(kept) + |x.points| > MAX_POINTS
  }

  /** The kept series are a subsequence, and a largest one in the sense that nothing dropped could be added. */
  lemma {:induction false} KeptIsMaximalSubsequence(s: seq<Series>) returns (at: seq<int>)
    ensures MaximalAt(s, at)
  {
    at := [];
    if s != [] {
      var rest, x := s[..|s| - 1], s[|s| - 1];
      at := KeptIsMaximalSubsequence(rest);
      assert s == rest + [x];
      KeptOneMore(rest, x);
      KeptOneMore(Kept(rest), x);
      KeptIsBounded(rest);
      if Full(Kept(rest), x) {
        DroppingKeepsMaximal(rest, x, at);
      } else {
        KeepingKeepsMaximal(rest, x, at);
        at := at + [|rest|];
      }
    }
  }

  lemma DroppingKeepsMaximal(rest: seq<Series>, x: Series, at: seq<int>)
    requires MaximalAt(rest, at) && Full(Kept(rest), x) && Kept(rest + [x]) == Kept(rest)
    ensures MaximalAt(rest + [x], at)
  {
    hide Kept, Points;
    assert forall i :: 0 <= i < |rest| ==> (rest + [x])[i] == rest[i];
  }

  lemma KeepingKeepsMaximal(rest: seq<Series>, x: Series, at: seq<int>)
    requires MaximalAt(rest, at) && Kept(rest + [x]) == Kept(rest) + [x]
    requires Points(Kept(rest) + [x]) == Points(Kept(rest)) + |x.points| && |Kept(rest)| < MAX_SERIES
    ensures MaximalAt(rest + [x], at + [|rest|])
  {
    hide Kept, Points;
    var s, grown := rest + [x], at + [|rest|];
    assert forall i :: 0 <= i < |rest| ==> s[i] == rest[i];
    forall i | 0 <= i < |s| && i !in grown ensures Full(Kept(s), s[i]) {
      assert grown[|at|] == |rest|;
      assert i !in at && Full(Kept(rest), rest[i]);
    }
  }

  function AllSeries(tiles: seq<Tile>): (r: seq<Series>)
  {
    if tiles == [] then [] else AllSeries(tiles[..|tiles| - 1]) + tiles[|tiles| - 1].series
  }

  function AllControls(tiles: seq<Tile>): (r: seq<Control>)
  {
    if tiles == [] then [] else AllControls(tiles[..|tiles| - 1]) + tiles[|tiles| - 1].controls
  }

  /** Series and controls are those of the tiles, tile after tile, and points are counted series by series. */
  lemma {:induction false} SeriesComeInOrder(a: seq<Tile>, b: seq<Tile>, t: Tile)
    ensures AllSeries(a + b) == AllSeries(a) + AllSeries(b) && AllSeries([t]) == t.series
  {
    assert [t] == [] + [t];
    OneMoreTile([t], 0);
    if b == [] {
      assert a + b == a;
    } else {
      var n := |b| - 1;
      SeriesComeInOrder(a, b[..n], t);
      assert (a + b)[..|a| + n] == a + b[..n];
    }
  }

  lemma {:induction false} ControlsComeInOrder(a: seq<Tile>, b: seq<Tile>, t: Tile)
    ensures AllControls(a + b) == AllControls(a) + AllControls(b) && AllControls([t]) == t.controls
  {
    assert [t] == [] + [t];
    OneMoreTile([t], 0);
    if b == [] {
      assert a + b == a;
    } else {
      var n := |b| - 1;
      ControlsComeInOrder(a, b[..n], t);
      assert (a + b)[..|a| + n] == a + b[..n];
    }
  }

  lemma {:induction false} PointsAddUp(a: seq<Series>, b: seq<Series>, x: Series)
    ensures Points(a + b) == Points(a) + Points(b) && Points([x]) == |x.points|
  {
    assert [x][..0] == [];
    if b == [] {
      assert a + b == a;
    } else {
      var n := |b| - 1;
      PointsAddUp(a, b[..n], x);
      assert (a + b)[..|a| + n] == a + b[..n];
    }
  }

  predicate SameInputs(tile: Tile)
  {
    tile.basicInput == tile.advancedInput
  }

  /** The view of the tiles read: everything within its maximum, flagged exactly when something is missing. */
  ghost predicate Bounds(available: seq<Tile>, v: View)
  {
    var tiles := Lists.Take(available, MAX_TILES);
    && v.tileCount == |tiles|
    && v.series == Kept(AllSeries(tiles))
    && v.controls == Lists.Take(AllControls(tiles), MAX_CONTROLS)
    && v.tileCount <= 512 && |v.series| <= 512 && Points(v.series) <= 8192 && |v.controls| <= 8192
    && (!v.truncated <==>
          tiles == available && v.series == AllSeries(tiles) && v.controls == AllControls(tiles))
    && (!v.truncated <==>
          && |available| <= 512 && |AllSeries(available)| <= 512
          && Points(AllSeries(available)) <= 8192 && |AllControls(available)| <= 8192)
  }

  /** How keeping goes on through one tile, given what was kept before each of its series and at the end. */
  ghost predicate KeepsThrough(tile: seq<Series>, k: seq<seq<Series>>)
  {
    && |k| == |tile| + 1
    && forall j :: 0 <= j < |tile| ==> KeepsOne(k[j], tile[j], k[j + 1], k[|tile|])
  }

  ghost predicate KeepsOne(k: seq<Series>, x: Series, next: seq<Series>, last: seq<Series>)
  {
    && |k| <= MAX_SERIES
    && (|k| == MAX_SERIES ==> last == k)
    && Points(k + [x]) == Points(k) + |x.points|
    && next == if |k| < MAX_SERIES && Points(k) + |x.points| <= MAX_POINTS then k + [x] else k
  }

  lemma KeptThrough(before: seq<Series>, tile: seq<Series>) returns (k: seq<seq<Series>>)
    ensures KeepsThrough(tile, k) && k[0] == Kept(before) && k[|tile|] == Kept(before + tile)
  {
    k := seq(|tile| + 1, j requires 0 <= j <= |tile| => Kept(before + tile[..j]));
    assert before + tile[..0] == before && before + tile[..|tile|] == before + tile;
    forall j | 0 <= j < |tile| ensures KeepsOne(k[j], tile[j], k[j + 1], k[|tile|]) {
      KeptOnce(before, tile, j);
    }
  }

  lemma KeptOnce(before: seq<Series>, tile: seq<Series>, j: nat)
    requires j < |tile|
    ensures KeepsOne(Kept(before + tile[..j]), tile[j], Kept(before + tile[..j + 1]), Kept(before + tile))
  {
    var seen := before + tile[..j];
    assert before + tile[..j + 1] == seen + [tile[j]];
    assert before + tile == seen + tile[j..];
    KeptOneMore(seen, tile[j]);
    KeptOneMore(Kept(seen), tile[j]);
    KeptIsBounded(seen);
    KeptIsStable(seen, tile[j..]);
  }

  /** Keeps what fits of one tile's series: stop at the series maximum, skip what exceeds the point budget. */
  method KeepSeries(tile: seq<Series>, series0: seq<Series>, budget0: int, truncated0: bool, ghost before: seq<Series>)
    returns (series: seq<Series>, budget: int, truncated: bool)
    requires series0 == Kept(before) && budget0 + Points(series0) == MAX_POINTS
    ensures series == Kept(before + tile) && budget + Points(series) == MAX_POINTS
    ensures truncated <==> truncated0 || |series| - |series0| < |tile|
    ensures |series| - |series0| <= |tile|
  {
    series, budget, truncated := series0, budget0, truncated0;
    ghost var k := KeptThrough(before, tile);
    var j := 0;
    while j < |tile|
      invariant 0 <= j <= |tile|
      invariant series == k[j] && budget + Points(series) == MAX_POINTS
      invariant |series| - |series0| <= j
      invariant truncated <==> truncated0 || |series| - |series0| < j
    {
      var item := tile[j];
      assert KeepsOne(k[j], tile[j], k[j + 1], k[|tile|]);
      if |series| >= MAX_SERIES {
        truncated := true;
        break;
      }
      j := j + 1;
      if |item.points| > budget {
        truncated := true;
        continue;
      }
      series := series + [item];
      budget := budget - |item.points|;
    }
  }

  lemma OneMoreTile(tiles: seq<Tile>, i: nat)
    requires i < |tiles|
    ensures AllSeries(tiles[..i + 1]) == AllSeries(tiles[..i]) + tiles[i].series
    ensures AllControls(tiles[..i + 1]) == AllControls(tiles[..i]) + tiles[i].controls
  {
    assert tiles[..i + 1][..i] == tiles[..i];
  }

  /** One tile more than the maximum is asked for, to see whether there are more. */
  method ReadTiles(available: seq<Tile>) returns (rows: seq<Tile>, truncated: bool)
    ensures rows == Lists.Take(available, MAX_TILES)
    ensures truncated <==> rows != available
  {
    rows := Lists.Take(available, MAX_TILES + 1);
    truncated := |rows| > MAX_TILES;
    rows := Lists.Take(rows, MAX_TILES);
  }

  method Aggregate(available: seq<Tile>) returns (r: Result<View, AggregateError>)
    ensures r.Ok? <==> forall i :: 0 <= i < 512 && i < |available| ==>
      available[i].basicInput == available[i].advancedInput
    ensures r.Ok? ==> Bounds(available, r.value)
  {
    var rows, over := ReadTiles(available);
    assert forall i :: 0 <= i < |rows| ==> rows[i] in rows && rows[i] == available[i];
    r := AggregateRows(rows, over);
    if r.Ok? {
      NothingIsMissingIff(available, rows);
    }
  }

  lemma KeptNothing()
    ensures Kept([]) == [] && Points([]) == 0
  {
  }

  method AggregateRows(rows: seq<Tile>, over: bool) returns (r: Result<View, AggregateError>)
    ensures r.Ok? <==> forall tile :: tile in rows ==> SameInputs(tile)
    ensures r.Ok? ==>
      && r.value.tileCount == |rows|
      && r.value.series == Kept(AllSeries(rows))
      && r.value.controls == Lists.Take(AllControls(rows), MAX_CONTROLS)
      && (r.value.truncated <==>
            over || |r.value.series| < |AllSeries(rows)| || |r.value.controls| < |AllControls(rows)|)
  {
    hide Kept, Points;
    assert Kept([]) == [] && Points([]) == 0 by { KeptNothing(); }
    ghost var allSeries, allControls := [], [];
    var truncated, series, controls, budget := over, [], [], MAX_POINTS;
    for i := 0 to |rows|
      invariant forall k :: 0 <= k < i ==> SameInputs(rows[k])
      invariant allSeries == AllSeries(rows[..i]) && allControls == AllControls(rows[..i])
      invariant series == Kept(allSeries) && budget + Points(series) == MAX_POINTS && |series| <= |allSeries|
      invariant controls == Lists.Take(allControls, MAX_CONTROLS)
      invariant truncated <==> over || |series| < |allSeries| || |controls| < |allControls|
    {
      var tile := rows[i];
      if !SameInputs(tile) {
        return Err(DifferentInputs);
      }
      OneMoreTile(rows, i);
      series, budget, truncated := KeepSeries(tile.series, series, budget, truncated, allSeries);
      var remaining := MAX_CONTROLS - |controls|;
      if |tile.controls| > remaining {
        truncated := true;
      }
      controls := controls + Lists.Take(tile.controls, remaining);
      allSeries, allControls := allSeries + tile.series, allControls + tile.controls;
    }
    assert rows[..|rows|] == rows;
    r := Ok(View(|rows|, truncated, series, controls));
  }

  lemma NothingIsMissingIff(available: seq<Tile>, rows: seq<Tile>)
    requires rows == Lists.Take(available, MAX_TILES)
    ensures |Kept(AllSeries(rows))| <= MAX_SERIES && Points(Kept(AllSeries(rows))) <= MAX_POINTS
    ensures |Kept(AllSeries(rows))| <= |AllSeries(rows)|
    ensures |Kept(AllSeries(rows))| == |AllSeries(rows)| <==> Kept(AllSeries(rows)) == AllSeries(rows)
    ensures Kept(AllSeries(rows)) == AllSeries(rows)
            <==> |AllSeries(rows)| <= MAX_SERIES && Points(AllSeries(rows)) <= MAX_POINTS
    ensures rows == available <==> |available| <= MAX_TILES
  {
    KeptIsBounded(AllSeries(rows));
    EverythingIsKeptIffItFits(AllSeries(rows));
  }
}

/** Interpolated quantiles of the drift rates in one summary group. */
module Quantiles {
  import Lists

  predicate AtMost(a: real, b: real)
  {
    a <= b
  }

  /** Linear interpolation between the neighbours of a position in an ordered list. */
  function Interpolate(ordered: seq<real>, position: real): (r: real)
    requires 0.0 <= position <= (|ordered| - 1) as real
  {
    var lower := position.Floor;
    if lower as real == position then ordered[lower]
    else ordered[lower] + (ordered[lower + 1] - ordered[lower]) * (position - lower as real)
  }

  ghost predicate NonDecreasing(s: seq<real>)
  {
    forall i, j :: 0 <= i < j < |s| ==> s[i] <= s[j]
  }

  function Ordered(values: seq<real>): (r: seq<real>)
    ensures |r| == |values| && NonDecreasing(r)
    ensures forall v :: v in r <==> v in values
  {
    OrderedValues(values);
    Lists.Sort(AtMost, values)
  }

  lemma OrderedValues(values: seq<real>)
    ensures var r := Lists.Sort(AtMost, values);
            |r| == |values| && NonDecreasing(r) && forall v :: v in r <==> v in values
  {
    var r := Lists.Sort(AtMost, values);
    assert Lists.TotalPreorder(AtMost);
    Lists.SortIsOrderedPermutation(AtMost, values);
    forall i, j | 0 <= i < j < |r| ensures r[i] <= r[j] {
      assert AtMost(r[i], r[j]);
    }
    forall v ensures v in r <==> v in values {
      assert v in r <==> v in multiset(r);
    }
  }

  function Position(n: nat, fraction: real): (r: real)
    requires n > 0 && 0.0 <= fraction <= 1.0
    ensures 0.0 <= r <= (n - 1) as real
  {
    PositionIsInside(n, fraction);
    fraction * (n - 1) as real
  }

  function Quantile(values: seq<real>, fraction: real): (r: real)
    requires values != [] && 0.0 <= fraction <= 1.0
  {
    Interpolate(Ordered(values), Position(|values|, fraction))
  }

  /** `q` stands at the place `h` of a list: on a value, or between two neighbours in proportion. */
  ghost predicate StandsAt(o: seq<real>, h: real, q: real)
  {
    forall k :: 0 <= k < |o| && k as real <= h < k as real + 1.0 ==>
      if h == k as real then q == o[k]
      else k + 1 < |o| && q == (k as real + 1.0 - h) * o[k] + (h - k as real) * o[k + 1]
  }

  /** The quantile stands at its fraction of the way from the first to the last value in ascending order. */
  lemma QuantileByNeighbours(values: seq<real>, fraction: real)
    requires values != [] && 0.0 <= fraction <= 1.0
    ensures multiset(Ordered(values)) == multiset(values)
    ensures StandsAt(Ordered(values), fraction * (|values| - 1) as real, Quantile(values, fraction))
  {
    hide Ordered, Interpolate, StandsAt;
    OrderedBag(values);
    InterpolationStands(Ordered(values), Position(|values|, fraction));
  }

  lemma OrderedBag(values: seq<real>)
    ensures multiset(Ordered(values)) == multiset(values)
  {
    assert Lists.TotalPreorder(AtMost);
    Lists.SortIsOrderedPermutation(AtMost, values);
  }

  lemma InterpolationStands(o: seq<real>, h: real)
    requires 0.0 <= h <= (|o| - 1) as real
    ensures StandsAt(o, h, Interpolate(o, h))
  {
    forall k | 0 <= k < |o| && k as real <= h < k as real + 1.0
      ensures if h == k as real then Interpolate(o, h) == o[k]
              else k + 1 < |o| && Interpolate(o, h) == (k as real + 1.0 - h) * o[k] + (h - k as real) * o[k + 1]
    {
      FloorIsUnique(h, k);
      if h != k as real {
        MixtureOfNeighbours(o[k], o[k + 1], h, k);
      }
    }
  }

  lemma FloorIsUnique(h: real, k: int)
    requires k as real <= h < k as real + 1.0
    ensures h.Floor == k
  {
  }

  lemma MixtureOfNeighbours(a: real, b: real, h: real, k: int)
    ensures a + (b - a) * (h - k as real) == (k as real + 1.0 - h) * a + (h - k as real) * b
  {
    var t := h - k as real;
    assert (b - a) * t == b * t - a * t;
    assert (1.0 - t) * a == a - t * a;
  }

  lemma PositionIsInside(n: nat, fraction: real)
    requires n > 0 && 0.0 <= fraction <= 1.0
    ensures 0.0 <= fraction * (n - 1) as real <= (n - 1) as real
  {
  }

  lemma Weighted(a: real, b: real, s: real, t: real)
    requires a <= b && 0.0 <= s <= t <= 1.0
    ensures a <= a + (b - a) * s <= a + (b - a) * t <= b
  {
    assert (b - a) * s <= (b - a) * t <= (b - a) * 1.0;
  }

  lemma InterpolationStaysBetween(ordered: seq<real>, x: real)
    requires NonDecreasing(ordered) && 0.0 <= x <= (|ordered| - 1) as real
    ensures ordered[x.Floor] <= Interpolate(ordered, x)
    ensures x.Floor + 1 < |ordered| ==> Interpolate(ordered, x) <= ordered[x.Floor + 1]
  {
    var l := x.Floor;
    if l + 1 < |ordered| {
      Weighted(ordered[l], ordered[l + 1], x - l as real, 1.0);
    }
  }

  lemma InterpolationIsMonotone(ordered: seq<real>, x: real, y: real)
    requires NonDecreasing(ordered) && 0.0 <= x <= y <= (|ordered| - 1) as real
    ensures Interpolate(ordered, x) <= Interpolate(ordered, y)
  {
    var l, m := x.Floor, y.Floor;
    InterpolationStaysBetween(ordered, x);
    InterpolationStaysBetween(ordered, y);
    if l < m {
      assert ordered[l + 1] <= ordered[m];
    } else if l + 1 < |ordered| {
      Weighted(ordered[l], ordered[l + 1], x - l as real, y - l as real);
    }
  }

  /** The view's check that the three quantiles of a group are ordered never fails. */
  lemma QuantilesAreOrdered(values: seq<real>, f: real, g: real)
    requires values != [] && 0.0 <= f <= g <= 1.0
    ensures Quantile(values, f) <= Quantile(values, g)
  {
    PositionsClimb(|values|, f, g);
    InterpolationIsMonotone(Ordered(values), Position(|values|, f), Position(|values|, g));
  }

  lemma PositionsClimb(n: nat, f: real, g: real)
    requires n > 0 && 0.0 <= f <= g <= 1.0
    ensures Position(n, f) <= Position(n, g)
  {
    var top := (n - 1) as real;
    ProductIsNonNegative(g - f, top);
    assert g * top == f * top + (g - f) * top;
  }

  lemma ProductIsNonNegative(a: real, b: real)
    requires a >= 0.0 && b >= 0.0
    ensures a * b >= 0.0
  {
  }

  /** Quantiles are values of the list at the ends, so every quantile lies between its least and greatest. */
  lemma EveryQuantileIsInRange(values: seq<real>, f: real, lo: real, hi: real)
    requires values != [] && 0.0 <= f <= 1.0
    requires forall v :: v in values ==> lo <= v <= hi
    ensures lo <= Quantile(values, f) <= hi
  {
    var ordered := Ordered(values);
    assert ordered[0] in values && ordered[|ordered| - 1] in values;
    EndQuantiles(values);
    QuantilesAreOrdered(values, 0.0, f);
    QuantilesAreOrdered(values, f, 1.0);
  }

  lemma EndQuantiles(values: seq<real>)
    requires values != []
    ensures Quantile(values, 0.0) == Ordered(values)[0]
    ensures Quantile(values, 1.0) == Ordered(values)[|values| - 1]
  {
    assert Position(|values|, 0.0) == 0.0;
    assert Position(|values|, 1.0) == (|values| - 1) as real;
  }
}
