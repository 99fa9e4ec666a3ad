/** The series analyzer of `get_trends`: from the interest-over-time column
    fetched for one keyword it derives the current, average and peak scores
    and a trend label. Python's float arithmetic is modelled with exact
    `real` arithmetic; the integer restatement of the comparisons is proved. */
module Series {
  import opened Wrappers

  /** The label put in `trend_direction`. */
  datatype Direction = NoData | InsufficientData | Rising | Falling | Stable
  {
    /** The string the API returns for this label. */
    function Label(): string
    {
      match this
      case NoData => "no_data"
      case InsufficientData => "insufficient_data"
      case Rising => "rising"
      case Falling => "falling"
      case Stable => "stable"
    }
  }

  /** Different labels are reported as different strings. */
  lemma LabelsAreDistinct(a: Direction, b: Direction)
    requires a != b
    ensures a.Label() != b.Label()
  {
  }

  /** The score fields of one single-keyword response. */
  datatype Summary = Summary(current: int, average: int, peak: int,
                             direction: Direction, dataPoints: seq<int>)

  /** Number of points the trend comparison needs (eight weekly points). */
  const TrendWindow := 8

  /** Python's `sum` over a list of integers. */
  function Sum(s: seq<int>): int
  {
    if s == [] then 0 else s[0] + Sum(s[1..])
  }

  /** Python's `max` over a non-empty list. */
  function Max(s: seq<int>): (m: int)
    requires |s| > 0
    ensures m in s
    ensures forall i :: 0 <= i < |s| ==> s[i] <= m
  {
    if |s| == 1 then s[0]
    else
      var rest := Max(s[1..]);
      if s[0] >= rest then s[0] else rest
  }

  /** The least element of a non-empty series (used to state bounds). */
  ghost function Min(s: seq<int>): (m: int)
    requires |s| > 0
    ensures m in s
    ensures forall i :: 0 <= i < |s| ==> m <= s[i]
  {
    if |s| == 1 then s[0]
    else
      var rest := Min(s[1..]);
      if s[0] <= rest then s[0] else rest
  }

  /** Python's `int(x)` on a float: truncation toward zero. */
  function TruncToInt(x: real): (n: int)
    ensures 0.0 <= x ==> n as real <= x < n as real + 1.0
    ensures x < 0.0 ==> n as real - 1.0 < x <= n as real
  {
    if x >= 0.0 then x.Floor else -((-x).Floor)
  }

  /** `int(sum(data) / len(data))`. */
  function Average(s: seq<int>): int
    requires |s| > 0
  {
    TruncToInt(Sum(s) as real / |s| as real)
  }

  /** `sum(data[-4:])`, the last four points. */
  function RecentSum(s: seq<int>): int
    requires |s| >= TrendWindow
  {
    Sum(s[|s| - 4..])
  }

  /** `sum(data[-8:-4])`, the four points before them. */
  function PreviousSum(s: seq<int>): int
    requires |s| >= TrendWindow
  {
    Sum(s[|s| - 8..|s| - 4])
  }

  /** The trend label of a non-empty series: the mean of the last four
      points against the mean of the four before them, with a 20% band. */
  function Trend(s: seq<int>): (d: Direction)
    ensures d != NoData
    ensures d == InsufficientData <==> |s| < TrendWindow
    ensures |s| >= TrendWindow ==>
              (d == Rising <==> 5 * RecentSum(s) > 6 * PreviousSum(s))
    ensures |s| >= TrendWindow ==>
              (d == Falling <==> 5 * RecentSum(s) <= 6 * PreviousSum(s)
                                 && 5 * RecentSum(s) < 4 * PreviousSum(s))
    ensures |s| >= TrendWindow ==>
              (d == Stable <==> 4 * PreviousSum(s) <= 5 * RecentSum(s) <= 6 * PreviousSum(s))
  {
    if |s| >= TrendWindow then
      var recentAvg := RecentSum(s) as real / 4.0;
      var previousAvg := PreviousSum(s) as real / 4.0;
      if recentAvg > previousAvg * 1.2 then Rising
      else if recentAvg < previousAvg * 0.8 then Falling
      else Stable
    else InsufficientData
  }

  /** The response for a missing or empty column. */
  const NoDataSummary := Summary(0, 0, 0, NoData, [])

  /** The analysis of `get_trends`. `column` is None when the provider's
      frame is empty or has no column for the keyword; `Some(data)` is the
      column as a list. */
  function Analyze(column: Option<seq<int>>): (r: Summary)
    ensures r.direction == NoData <==> column == None || column == Some([])
    ensures r.direction == NoData ==> r == NoDataSummary
    ensures column.Some? && column.value != [] ==>
              var s := column.value;
              && r.dataPoints == s
              && r.current == s[|s| - 1]
              && r.peak in s
              && (forall i :: 0 <= i < |s| ==> s[i] <= r.peak)
              && r.average == Average(s)
              && Min(s) <= r.average <= r.peak
              && r.direction == Trend(s)
              && (r.direction == InsufficientData <==> |s| < TrendWindow)
  {
    match column
    case None => NoDataSummary
    case Some(data) =>
      if data == [] then NoDataSummary
      else
        AverageWithinRange(data);
        Summary(data[|data| - 1], Average(data), Max(data), Trend(data), data)
  }

  // ---------------------------------------------------------------------
  // Lemmas about the analysis

  /** Every element is at least `lo`, so the sum is at least `|s| * lo`;
      likewise for an upper bound `hi`. */
  lemma {:induction false} SumBounds(s: seq<int>, lo: int, hi: int)
    requires forall i :: 0 <= i < |s| ==> lo <= s[i] <= hi
    ensures |s| * lo <= Sum(s) <= |s| * hi
  {
    if s != [] {
      SumBounds(s[1..], lo, hi);
      assert |s| * lo == (|s| - 1) * lo + lo;
      assert |s| * hi == (|s| - 1) * hi + hi;
    }
  }

  /** Integer products and their real counterparts agree. */
  lemma ProductAsReal(a: int, b: int)
    ensures (a * b) as real == (a as real) * (b as real)
  {
  }

  /** Dividing by a positive `n` keeps the bounds that `n` times them give. */
  lemma QuotientBounds(total: real, n: real, lo: real, hi: real)
    requires n > 0.0
    requires n * lo <= total <= n * hi
    ensures lo <= total / n <= hi
  {
    assert total == (total / n) * n;
  }

  /** The strict upper bound of `QuotientBounds`. */
  lemma QuotientBelow(total: real, n: real, hi: real)
    requires n > 0.0
    requires total < n * hi
    ensures total / n < hi
  {
    assert total == (total / n) * n;
  }

  /** A real lying between two integers truncates to a value between them. */
  lemma TruncWithin(x: real, lo: int, hi: int)
    requires lo as real <= x <= hi as real
    ensures lo <= TruncToInt(x) <= hi
  {
  }

  /** A non-negative real truncates to the integer just below it. */
  lemma TruncOfNonNegative(x: real, q: int)
    requires 0 <= q
    requires q as real <= x < q as real + 1.0
    ensures TruncToInt(x) == q
  {
  }

  /** A truncated quotient keeps the bounds of its numerator. */
  lemma TruncatedQuotientWithin(total: int, n: int, lo: int, hi: int)
    requires 0 < n
    requires n * lo <= total <= n * hi
    ensures lo <= TruncToInt(total as real / n as real) <= hi
  {
    ProductAsReal(n, lo);
    ProductAsReal(n, hi);
    QuotientBounds(total as real, n as real, lo as real, hi as real);
    TruncWithin(total as real / n as real, lo, hi);
  }

  /** The truncated mean lies between the least and the greatest point. */
  lemma AverageWithinRange(s: seq<int>)
    requires |s| > 0
    ensures Min(s) <= Average(s) <= Max(s)
  {
    SumBounds(s, Min(s), Max(s));
    TruncatedQuotientWithin(Sum(s), |s|, Min(s), Max(s));
  }

  /** For a non-negative total, `int(total / n)` is integer division. */
  lemma TruncatedQuotient(total: int, n: int)
    requires 0 <= total && 0 < n
    ensures TruncToInt(total as real / n as real) == total / n
  {
    var q := total / n;
    assert n * q <= total < n * (q + 1);
    ProductAsReal(n, q);
    ProductAsReal(n, q + 1);
    QuotientBounds(total as real, n as real, q as real, (q + 1) as real);
    QuotientBelow(total as real, n as real, (q + 1) as real);
    TruncOfNonNegative(total as real / n as real, q);
  }

  /** On non-negative scores, `int(sum / len)` is integer division. */
  lemma AverageIsIntegerDivision(s: seq<int>)
    requires |s| > 0
    requires forall i :: 0 <= i < |s| ==> 0 <= s[i]
    ensures Average(s) == Sum(s) / |s|
  {
    SumBounds(s, 0, Max(s));
    TruncatedQuotient(Sum(s), |s|);
  }

  /** Scores on the provider's 0-100 scale give fields on that scale. */
  lemma ScoresStayOnScale(s: seq<int>)
    requires |s| > 0
    requires forall i :: 0 <= i < |s| ==> 0 <= s[i] <= 100
    ensures var r := Analyze(Some(s));
            0 <= r.current <= 100 && 0 <= r.average <= 100 && 0 <= r.peak <= 100
  {
    AverageWithinRange(s);
  }

  /** The label of a long series is decided by its last eight points. */
  lemma TrendDependsOnLastEight(s: seq<int>, t: seq<int>)
    requires |s| >= TrendWindow && |t| >= TrendWindow
    requires s[|s| - 8..] == t[|t| - 8..]
    ensures Trend(s) == Trend(t)
  {
    assert s[|s| - 4..] == s[|s| - 8..][4..];
    assert t[|t| - 4..] == t[|t| - 8..][4..];
    assert s[|s| - 8..|s| - 4] == s[|s| - 8..][..4];
    assert t[|t| - 8..|t| - 4] == t[|t| - 8..][..4];
  }

  /** A series of one repeated value sums to its length times that value. */
  lemma {:induction false} SumOfConstant(s: seq<int>, c: int)
    requires forall i :: 0 <= i < |s| ==> s[i] == c
    ensures Sum(s) == |s| * c
  {
    if s != [] {
      SumOfConstant(s[1..], c);
    }
  }

  /** A long constant series of non-negative scores is labelled stable. */
  lemma ConstantSeriesIsStable(s: seq<int>, c: int)
    requires |s| >= TrendWindow && 0 <= c
    requires forall i :: 0 <= i < |s| ==> s[i] == c
    ensures Trend(s) == Stable
  {
    SumOfConstant(s[|s| - 4..], c);
    SumOfConstant(s[|s| - 8..|s| - 4], c);
  }

  /** On non-negative scores the rising and falling conditions never both
      hold, so the order of the two tests does not matter there. */
  lemma RisingAndFallingExclusive(s: seq<int>)
    requires |s| >= TrendWindow
    requires forall i :: 0 <= i < |s| ==> 0 <= s[i]
    ensures !(5 * RecentSum(s) > 6 * PreviousSum(s) && 5 * RecentSum(s) < 4 * PreviousSum(s))
  {
    SumBounds(s[|s| - 8..|s| - 4], 0, Max(s));
  }

  /** Eight points climbing from 10 to 80: the last four average 65, the
      four before them 25, so the series is labelled rising. */
  lemma RisingExample()
    ensures Trend([10, 20, 30, 40, 50, 60, 70, 80]) == Rising
  {
    var s := [10, 20, 30, 40, 50, 60, 70, 80];
    assert RecentSum(s) == 260 by {
      assert s[4..] == [50, 60, 70, 80];
      assert Sum([80]) == 80;
      assert Sum([70, 80]) == 150;
      assert Sum([60, 70, 80]) == 210;
    }
    assert PreviousSum(s) == 100 by {
      assert s[0..4] == [10, 20, 30, 40];
      assert Sum([40]) == 40;
      assert Sum([30, 40]) == 70;
      assert Sum([20, 30, 40]) == 90;
    }
  }

  /** Three points: fields computed, trend not decided. */
  lemma ShortSeriesExample()
    ensures Analyze(Some([10, 20, 30])) == Summary(30, 20, 30, InsufficientData, [10, 20, 30])
  {
    var s := [10, 20, 30];
    assert Sum(s) == 60;
    AverageIsIntegerDivision(s);
  }
}
