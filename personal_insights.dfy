/** `processData` of the personal insights panel: the chart series and the summary figures. */
module PersonalInsights {
  import opened Seqs
  import opened Sorting
  import opened Rounding
  import opened Records
  import Streak

  /** One point of the charts: the short date and weekday, and the two scores. */
  datatype ChartPoint = ChartPoint(date: string, confidence: int, recommendation: int, dayOfWeek: string)

  /** A JavaScript number that `Math.round` can produce from a quotient. */
  datatype Percent = Whole(value: int) | PosInfinity | NegInfinity | NotANumber

  /** The averages are in tenths. */
  datatype InsightStats = InsightStats(
    totalReflections: nat,
    avgConfidence: int,
    avgRecommendation: int,
    streak: nat,
    improvementRate: Percent)

  /** The chart series: one point per reflection, in the order given. */
  function ChartSeries(rs: seq<Reflection>, cal: Calendar): (points: seq<ChartPoint>)
    ensures |points| == |rs|
    ensures forall i :: 0 <= i < |rs| ==>
      points[i].confidence == rs[i].confidenceLevel && points[i].recommendation == rs[i].recommendationScore
    ensures forall i :: 0 <= i < |rs| ==>
      points[i].date == cal.monthDay(rs[i].bootcampDate) && points[i].dayOfWeek == cal.weekday(rs[i].bootcampDate)
  {
    seq(|rs|, i requires 0 <= i < |rs| =>
      ChartPoint(cal.monthDay(rs[i].bootcampDate), rs[i].confidenceLevel, rs[i].recommendationScore,
                 cal.weekday(rs[i].bootcampDate)))
  }

  /**
   * The change from the first confidence score to the last, as a whole
   * percentage of the first: `Math.round((last - first) / first * 100)`,
   * 0 for fewer than two scores. Dividing by a first score of 0 gives an
   * infinity, or NaN when the last is 0 too.
   */
  function ImprovementRate(scores: seq<int>): (p: Percent)
    ensures |scores| < 2 ==> p == Whole(0)
    ensures |scores| >= 2 && scores[0] != 0 ==> p.Whole?
    ensures |scores| >= 2 && scores[0] > 0 ==> (
      var d, n := scores[|scores| - 1] - scores[0], scores[0];
      2 * n * p.value - n <= 200 * d < 2 * n * p.value + n)
    ensures |scores| >= 2 && scores[0] < 0 ==> (
      var d, n := scores[|scores| - 1] - scores[0], scores[0];
      2 * n * p.value + n < 200 * d <= 2 * n * p.value - n)
    ensures |scores| >= 2 && scores[0] == 0 ==>
      p == if scores[|scores| - 1] > 0 then PosInfinity else if scores[|scores| - 1] < 0 then NegInfinity else NotANumber
  {
    if |scores| < 2 then Whole(0)
    else
      var first, last := scores[0], scores[|scores| - 1];
      if first != 0 then Whole(RoundHalfUp(100 * (last - first), first))
      else if last > first then PosInfinity
      else if last < first then NegInfinity
      else NotANumber
  }

  /** For scores on the form's scale of 1 to 10 the rate has the sign of the change. */
  lemma ImprovementRateSign(scores: seq<int>)
    requires |scores| >= 2
    requires 1 <= scores[0] <= 10
    ensures ImprovementRate(scores).Whole?
    ensures var d, r := scores[|scores| - 1] - scores[0], ImprovementRate(scores).value;
      (d > 0 <==> r > 0) && (d < 0 <==> r < 0) && (d == 0 <==> r == 0)
  {
    var n, d, r := scores[0], scores[|scores| - 1] - scores[0], ImprovementRate(scores).value;
    assert 2 * n * r - n <= 200 * d < 2 * n * r + n;
    if r <= 0 {
      assert n * r <= 0;
    }
    if r >= 0 {
      assert n * r >= 0;
    }
    if r >= 1 {
      assert n * r >= n;
    }
    if r <= -1 {
      assert n * r <= -n;
    }
  }

  /**
   * `calculateStreak` of the panel: none for no reflections, otherwise the
   * streak over the distinct `toDateString` labels sorted as strings.
   */
  method CalculateStreak(rs: seq<Reflection>, cal: Calendar, today: int) returns (streak: nat)
    ensures |rs| == 0 ==> streak == 0
    ensures streak == Streak.LabelStreak(DateLabels(rs, cal), cal.dayNumber, today)
    ensures streak <= |Elements(DateLabels(rs, cal))|
  {
    Streak.LabelStreakBound(DateLabels(rs, cal), cal.dayNumber, today);
    if |rs| == 0 {
      return 0;
    }
    var dates := DateLabels(rs, cal);
    var uniqueDates := SortStrings(Distinct(dates));
    streak := Streak.CalculateStreak(uniqueDates, cal.dayNumber, today);
  }

  /**
   * `processData`: the chart series and the summary. Averages are 0 for no
   * reflections and otherwise the mean to one decimal, within the range of
   * the scores.
   */
  method ProcessData(rs: seq<Reflection>, cal: Calendar, today: int)
    returns (chart: seq<ChartPoint>, stats: InsightStats)
    ensures chart == ChartSeries(rs, cal)
    ensures stats.totalReflections == |rs|
    ensures stats.avgConfidence == Average(Confidences(rs))
    ensures stats.avgRecommendation == Average(Recommendations(rs))
    ensures |rs| > 0 ==> 10 * Min(Confidences(rs)) <= stats.avgConfidence <= 10 * Max(Confidences(rs))
    ensures |rs| > 0 ==> 10 * Min(Recommendations(rs)) <= stats.avgRecommendation <= 10 * Max(Recommendations(rs))
    ensures stats.improvementRate == ImprovementRate(Confidences(rs))
    ensures stats.streak == Streak.LabelStreak(DateLabels(rs, cal), cal.dayNumber, today)
  {
    chart := ChartSeries(rs, cal);
    var totalReflections := |rs|;
    var avgConfidence := Average(Confidences(rs));
    var avgRecommendation := Average(Recommendations(rs));
    if |rs| > 0 {
      AverageWithinRange(Confidences(rs));
      AverageWithinRange(Recommendations(rs));
    }
    var improvementRate := ImprovementRate(Confidences(rs));
    var streak := CalculateStreak(rs, cal, today);
    stats := InsightStats(totalReflections, avgConfidence, avgRecommendation, streak, improvementRate);
  }
}
