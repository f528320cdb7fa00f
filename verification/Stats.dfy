/** Interpolated percentiles of a sample of real numbers. */
module Stats {
  import opened Wrappers
  import opened Sequences

  predicate RealLeq(a: real, b: real) { a <= b }

  function Ordered(values: seq<real>): (r: seq<real>)
    ensures |r| == |values|
  {
    Sort(values, RealLeq)
  }

  function Ceil(x: real): int {
    if x == x.Floor as real then x.Floor else x.Floor + 1
  }

  /** The value of an ascending list at a position that may fall between two of its elements. */
  function At(ordered: seq<real>, position: real): real
    requires 0.0 <= position <= (|ordered| - 1) as real
  {
    var lower, upper := position.Floor, Ceil(position);
    if lower == upper then ordered[lower]
    else
      var weight := position - lower as real;
      ordered[lower] * (1.0 - weight) + ordered[upper] * weight
  }

  function Times(n: real, p: real): real { n * p }

  lemma TimesIsMonotone(n: real, p: real, q: real)
    requires 0.0 <= n && p <= q
    ensures Times(n, p) <= Times(n, q)
    ensures Times(n, 0.0) == 0.0 && Times(n, 1.0) == n
  {
    assert 0.0 <= n * (q - p) == n * q - n * p;
  }

  /** Where a fraction of the way through a list of this length lies. */
  function Position(length: nat, fraction: real): real {
    Times((length - 1) as real, fraction)
  }

  lemma PositionIsMonotone(length: nat, p: real, q: real)
    requires 1 <= length && 0.0 <= p <= q <= 1.0
    ensures 0.0 <= Position(length, p) <= Position(length, q) <= (length - 1) as real
  {
    hide Times;
    var span := (length - 1) as real;
    TimesIsMonotone(span, 0.0, p);
    TimesIsMonotone(span, p, q);
    TimesIsMonotone(span, q, 1.0);
  }

  function Percentile(values: seq<real>, fraction: real): Option<real>
    requires 0.0 <= fraction <= 1.0
  {
    if values == [] then None
    else if |values| == 1 then Some(Ordered(values)[0])
    else
      PositionIsMonotone(|values|, fraction, fraction);
      Some(At(Ordered(values), Position(|values|, fraction)))
  }

  ghost predicate Ascending(s: seq<real>) {
    forall i, j | 0 <= i <= j < |s| :: s[i] <= s[j]
  }

  lemma OrderedAscends(values: seq<real>)
    ensures |Ordered(values)| == |values| && Ascending(Ordered(values))
  {
    SortSorts(values, RealLeq);
    forall i, j | 0 <= i <= j < |Ordered(values)|
      ensures Ordered(values)[i] <= Ordered(values)[j]
    {
      if i < j {
        assert RealLeq(Ordered(values)[i], Ordered(values)[j]);
      }
    }
  }

  /** A weighted mean moves up with its weight when the upper end is the larger. */
  lemma BlendIsMonotone(a: real, b: real, v: real, w: real)
    requires a <= b && 0.0 <= v <= w <= 1.0
    ensures a <= a * (1.0 - v) + b * v <= a * (1.0 - w) + b * w <= b
  {
    var d := b - a;
    assert 0.0 <= d * v;
    assert 0.0 <= d * (w - v);
    assert 0.0 <= d * (1.0 - w);
    assert a * (1.0 - v) + b * v == a + d * v;
    assert a * (1.0 - w) + b * w == a + d * w;
  }

  /** The interpolated value stays between the two neighbours of its position. */
  lemma AtIsBetweenNeighbours(s: seq<real>, x: real)
    requires Ascending(s) && 0.0 <= x <= (|s| - 1) as real
    ensures s[x.Floor] <= At(s, x) <= s[Ceil(x)]
  {
    if x.Floor != Ceil(x) {
      var weight := x - x.Floor as real;
      BlendIsMonotone(s[x.Floor], s[Ceil(x)], weight, weight);
    }
  }

  lemma AtIsMonotone(s: seq<real>, x: real, y: real)
    requires Ascending(s) && 0.0 <= x <= y <= (|s| - 1) as real
    ensures At(s, x) <= At(s, y)
  {
    AtIsBetweenNeighbours(s, x);
    AtIsBetweenNeighbours(s, y);
    if x.Floor == y.Floor {
      if x.Floor != Ceil(x) {
        BlendIsMonotone(s[x.Floor], s[Ceil(x)], x - x.Floor as real, y - y.Floor as real);
      }
    } else {
      assert Ceil(x) <= y.Floor;
    }
  }

  /** The first and last of the ordered values are the extremes of the sample. */
  lemma OrderedEndsAreExtremes(values: seq<real>)
    requires values != []
    ensures var s, last := Ordered(values), |values| - 1;
            s[0] in values && s[last] in values && forall v | v in values :: s[0] <= v <= s[last]
  {
    hide Sort;
    var s, last := Ordered(values), |values| - 1;
    OrderedAscends(values);
    SortKeepsMembers(values, RealLeq, s[0]);
    SortKeepsMembers(values, RealLeq, s[last]);
    forall v | v in values
      ensures s[0] <= v <= s[last]
    {
      SortKeepsMembers(values, RealLeq, v);
      var k :| 0 <= k < |s| && s[k] == v;
    }
  }

  /** Percentiles lie between the least and the greatest value of the sample. */
  lemma PercentileIsWithinTheSample(values: seq<real>, fraction: real)
    requires values != [] && 0.0 <= fraction <= 1.0
    ensures Percentile(values, fraction).Some?
    ensures exists low, high | low in values && high in values ::
              && (forall v | v in values :: low <= v <= high)
              && low <= Percentile(values, fraction).value <= high
  {
    var s, last := Ordered(values), |values| - 1;
    assert s[0] <= Percentile(values, fraction).value <= s[last] by {
      hide Ordered, At, Position;
      OrderedAscends(values);
      if last > 0 {
        PositionIsMonotone(|values|, fraction, fraction);
        AtIsBetweenNeighbours(s, Position(|values|, fraction));
      }
    }
    hide Ordered, Percentile;
    OrderedEndsAreExtremes(values);
  }

  lemma PercentilesAreMonotone(values: seq<real>, p: real, q: real)
    requires values != [] && 0.0 <= p <= q <= 1.0
    ensures Percentile(values, p).Some? && Percentile(values, q).Some?
    ensures Percentile(values, p).value <= Percentile(values, q).value
  {
    hide Ordered, At, Position;
    OrderedAscends(values);
    if |values| > 1 {
      PositionIsMonotone(|values|, p, q);
      AtIsMonotone(Ordered(values), Position(|values|, p), Position(|values|, q));
    }
  }

  lemma RankAsFraction(k: real, n: real)
    requires 0.0 <= k <= n && 0.0 < n
    ensures 0.0 <= k / n <= 1.0 && n * (k / n) == k
  {}

  lemma AtAWholePosition(s: seq<real>, k: nat)
    requires k < |s|
    ensures At(s, k as real) == s[k]
  {
    assert (k as real).Floor == k;
  }

  /** At the fraction of rank k the percentile is the k-th smallest value itself. */
  lemma PercentileAtARankIsExact(values: seq<real>, k: nat)
    requires 2 <= |values| && k < |values|
    ensures 0.0 <= k as real / (|values| - 1) as real <= 1.0
    ensures Percentile(values, k as real / (|values| - 1) as real) == Some(Ordered(values)[k])
  {
    hide Ordered, At;
    var n := (|values| - 1) as real;
    assert k as real <= n;
    RankAsFraction(k as real, n);
    assert Times(n, k as real / n) == k as real;
    AtAWholePosition(Ordered(values), k);
    assert Position(|values|, k as real / n) == k as real;
  }

  lemma AtBetween(s: seq<real>, k: nat, w: real)
    requires k + 1 < |s| && 0.0 <= w <= 1.0
    ensures At(s, k as real + w) == s[k] * (1.0 - w) + s[k + 1] * w
  {
    var x := k as real + w;
    if w == 1.0 {
      assert x == (k + 1) as real && x.Floor == k + 1;
    } else {
      assert x.Floor == k && x - x.Floor as real == w;
    }
  }

  lemma Blend(a: real, b: real, w: real)
    ensures a * (1.0 - w) + b * w == a + w * (b - a)
  {
  }

  /** Between two neighbouring ranks the percentile moves along a straight line from one value to the next. */
  lemma PercentileInterpolates(values: seq<real>, k: nat, w: real)
    requires k + 1 < |values| && 0.0 <= w <= 1.0
    ensures var p := (k as real + w) / (|values| - 1) as real;
            && 0.0 <= p <= 1.0
            && Percentile(values, p) == Some(Ordered(values)[k] + w * (Ordered(values)[k + 1] - Ordered(values)[k]))
  {
    hide Ordered, At;
    var n, x := (|values| - 1) as real, k as real + w;
    assert x <= n;
    RankAsFraction(x, n);
    assert Times(n, x / n) == x;
    assert Position(|values|, x / n) == x;
    Blend(Ordered(values)[k], Ordered(values)[k + 1], w);
    AtBetween(Ordered(values), k, w);
    assert At(Ordered(values), x) == Ordered(values)[k] + w * (Ordered(values)[k + 1] - Ordered(values)[k]);
    PositionIsMonotone(|values|, x / n, x / n);
    assert At(Ordered(values), Position(|values|, x / n)) == At(Ordered(values), x);
    assert Percentile(values, x / n) == Some(At(Ordered(values), Position(|values|, x / n)));
  }

  // ----- Only the sample matters, not its order -----

  lemma FirstIsLeast(s: seq<real>, v: real)
    requires Ascending(s) && v in multiset(s)
    ensures s[0] <= v
  {
    var k :| 0 <= k < |s| && s[k] == v;
  }

  lemma FirstsAgree(a: seq<real>, b: seq<real>)
    requires Ascending(a) && Ascending(b) && multiset(a) == multiset(b) && a != []
    ensures b != [] && a[0] == b[0]
  {
    assert a[0] in multiset(a);
    assert b != [];
    assert b[0] in multiset(b);
    FirstIsLeast(a, b[0]);
    FirstIsLeast(b, a[0]);
  }

  lemma RestsAgree<T>(a: seq<T>, b: seq<T>)
    requires multiset(a) == multiset(b) && a != [] && b != [] && a[0] == b[0]
    ensures multiset(a[1..]) == multiset(b[1..])
  {
    assert a == [a[0]] + a[1..] && b == [b[0]] + b[1..];
    assert multiset(a[1..]) == multiset(a) - multiset{a[0]};
    assert multiset(b[1..]) == multiset(b) - multiset{b[0]};
  }

  /** An ascending list is determined by its members and their multiplicity. */
  lemma {:induction false} AscendingListsAreDetermined(a: seq<real>, b: seq<real>)
    requires Ascending(a) && Ascending(b) && multiset(a) == multiset(b)
    ensures a == b
    decreases |a|
  {
    if a == [] {
      assert |multiset(b)| == |b|;
    } else {
      FirstsAgree(a, b);
      RestsAgree(a, b);
      AscendingListsAreDetermined(a[1..], b[1..]);
      assert a == [a[0]] + a[1..] && b == [b[0]] + b[1..];
    }
  }

  lemma PercentileIgnoresOrder(a: seq<real>, b: seq<real>, fraction: real)
    requires multiset(a) == multiset(b) && 0.0 <= fraction <= 1.0
    ensures Percentile(a, fraction) == Percentile(b, fraction)
  {
    hide At, Position;
    assert |multiset(a)| == |a| && |multiset(b)| == |b|;
    SortPermutes(a, RealLeq);
    SortPermutes(b, RealLeq);
    OrderedAscends(a);
    OrderedAscends(b);
    AscendingListsAreDetermined(Ordered(a), Ordered(b));
  }

  // ----- Looking at the sample from the other end -----

  function Negated(values: seq<real>): (r: seq<real>)
    ensures |r| == |values| && forall i | 0 <= i < |r| :: r[i] == -values[i]
  {
    seq(|values|, i requires 0 <= i < |values| => -values[i])
  }

  /** The negated values, last one first. */
  function Mirrored(s: seq<real>): (r: seq<real>)
    ensures |r| == |s| && forall i | 0 <= i < |r| :: r[i] == -s[|s| - 1 - i]
  {
    seq(|s|, i requires 0 <= i < |s| => -s[|s| - 1 - i])
  }

  lemma CountOneMore(x: real, rest: seq<real>, v: real)
    ensures multiset([x] + rest)[v] == multiset(rest)[v] + if x == v then 1 else 0
    ensures multiset(rest + [x])[v] == multiset(rest)[v] + if x == v then 1 else 0
  {
  }

  lemma NegatedFirst(first: real, rest: seq<real>)
    ensures Negated([first] + rest) == [-first] + Negated(rest)
    ensures Mirrored([first] + rest) == Mirrored(rest) + [-first]
  {
  }

  lemma {:induction false} NegatedCounts(values: seq<real>, v: real)
    ensures multiset(Negated(values))[v] == multiset(values)[-v]
  {
    if values != [] {
      var first, rest := values[0], values[1..];
      NegatedCounts(rest, v);
      NegatedFirst(first, rest);
      hide Negated;
      CountOneMore(first, rest, -v);
      CountOneMore(-first, Negated(rest), v);
      assert values == [first] + rest;
    }
  }

  lemma {:induction false} MirroredCounts(s: seq<real>, v: real)
    ensures multiset(Mirrored(s))[v] == multiset(s)[-v]
  {
    if s != [] {
      var first, rest := s[0], s[1..];
      MirroredCounts(rest, v);
      NegatedFirst(first, rest);
      hide Mirrored;
      CountOneMore(first, rest, -v);
      CountOneMore(-first, Mirrored(rest), v);
      assert s == [first] + rest;
    }
  }

  lemma OrderedNegatedIsMirrored(values: seq<real>)
    ensures Ordered(Negated(values)) == Mirrored(Ordered(values))
  {
    var mirrored := Mirrored(Ordered(values));
    OrderedAscends(values);
    OrderedAscends(Negated(values));
    SortPermutes(values, RealLeq);
    SortPermutes(Negated(values), RealLeq);
    forall v ensures multiset(Ordered(Negated(values)))[v] == multiset(mirrored)[v] {
      NegatedCounts(values, v);
      MirroredCounts(Ordered(values), v);
    }
    assert multiset(Ordered(Negated(values))) == multiset(mirrored);
    AscendingListsAreDetermined(Ordered(Negated(values)), mirrored);
  }

  lemma AtMirrored(s: seq<real>, x: real)
    requires 0.0 <= x <= (|s| - 1) as real
    ensures At(Mirrored(s), (|s| - 1) as real - x) == -At(s, x)
  {
    hide At;
    var n, k := |s| - 1, x.Floor;
    if x == k as real {
      AtAWholePosition(s, k);
      AtAWholePosition(Mirrored(s), n - k);
      assert n as real - x == (n - k) as real;
    } else {
      var w := x - k as real;
      AtBetween(s, k, w);
      AtBetween(Mirrored(s), n - 1 - k, 1.0 - w);
      BlendMirrored(s[k], s[k + 1], w);
      assert x == k as real + w && n as real - x == (n - 1 - k) as real + (1.0 - w);
    }
  }

  lemma BlendMirrored(a: real, b: real, w: real)
    ensures (-b) * (1.0 - (1.0 - w)) + (-a) * (1.0 - w) == -(a * (1.0 - w) + b * w)
  {
  }

  /** The percentile of the negated sample at the opposite fraction is the negated percentile. */
  lemma PercentileIsSymmetric(values: seq<real>, p: real)
    requires values != [] && 0.0 <= p <= 1.0
    ensures Percentile(values, p).Some?
    ensures Percentile(Negated(values), 1.0 - p) == Some(-Percentile(values, p).value)
  {
    hide Ordered, At;
    OrderedNegatedIsMirrored(values);
    if |values| > 1 {
      PositionIsMonotone(|values|, p, p);
      var n := (|values| - 1) as real;
      assert Times(n, 1.0 - p) == n - Times(n, p);
      assert Position(|values|, 1.0 - p) == n - Position(|values|, p);
      AtMirrored(Ordered(values), Position(|values|, p));
    }
  }

  // ----- Summaries -----

  datatype MetricSummary = MetricSummary(
    count: nat, average: Option<real>, p50: Option<real>, p95: Option<real>, p99: Option<real>, maximum: Option<real>)

  function Largest(values: seq<real>): (m: real)
    requires values != []
    ensures m in values && forall v | v in values :: v <= m
  {
    if |values| == 1 then values[0]
    else
      var rest := Largest(values[1..]);
      assert values == [values[0]] + values[1..];
      if rest > values[0] then rest else values[0]
  }

  function Itself(v: real): real { v }

  function Average(values: seq<real>): Option<real> {
    if values == [] then None else Some(Sum(values, Itself) / |values| as real)
  }

  function Summarize(values: seq<real>): MetricSummary {
    if values == [] then MetricSummary(0, None, None, None, None, None)
    else MetricSummary(|values|, Average(values), Percentile(values, 0.5), Percentile(values, 0.95),
                       Percentile(values, 0.99), Some(Largest(values)))
  }

  lemma {:induction false} TotalIsAtMost(values: seq<real>, bound: real)
    requires forall i | 0 <= i < |values| :: values[i] <= bound
    ensures Sum(values, Itself) <= bound * |values| as real
  {
    if values != [] {
      var n := |values| - 1;
      TotalIsAtMost(values[..n], bound);
      assert bound * (n + 1) as real == bound * n as real + bound;
    }
  }

  lemma QuotientIsAtMost(total: real, n: real, bound: real)
    requires 0.0 < n && total <= bound * n
    ensures total / n <= bound
  {}

  lemma {:induction false} AverageIsAtMost(values: seq<real>, bound: real)
    requires values != [] && forall v | v in values :: v <= bound
    ensures Average(values).Some? && Average(values).value <= bound
  {
    hide Sum;
    forall i | 0 <= i < |values| ensures values[i] <= bound { assert values[i] in values; }
    TotalIsAtMost(values, bound);
    QuotientIsAtMost(Sum(values, Itself), |values| as real, bound);
  }

  /** Every summary of a non-empty sample is ordered, and its mean is at most its maximum. */
  lemma SummaryIsOrdered(values: seq<real>)
    requires values != []
    ensures var s := Summarize(values);
            && s.p50.Some? && s.p95.Some? && s.p99.Some? && s.maximum.Some? && s.average.Some?
            && s.p50.value <= s.p95.value <= s.p99.value <= s.maximum.value
            && s.average.value <= s.maximum.value
  {
    hide Percentile, Average, Sum, Largest;
    PercentilesAreMonotone(values, 0.5, 0.95);
    PercentilesAreMonotone(values, 0.95, 0.99);
    PercentileIsWithinTheSample(values, 0.5);
    PercentileIsWithinTheSample(values, 0.95);
    PercentileIsWithinTheSample(values, 0.99);
    AverageIsAtMost(values, Largest(values));
  }

  lemma QuotientTimes(total: real, n: real)
    requires 0.0 < n
    ensures total / n * n == total
  {
  }

  /** What a summary says of a non-empty sample. */
  lemma SummarySays(values: seq<real>)
    requires values != []
    ensures var s := Summarize(values);
            && s.count == |values|
            && s.p50 == Percentile(values, 0.5) && s.p95 == Percentile(values, 0.95)
            && s.p99 == Percentile(values, 0.99)
            && s.average.Some? && s.average.value * |values| as real == Sum(values, Itself)
            && s.maximum.Some? && s.maximum.value in values && forall v | v in values :: v <= s.maximum.value
  {
    hide Percentile, Sum, Largest;
    QuotientTimes(Sum(values, Itself), |values| as real);
  }
}
