/** `calculateStats` on the journal page: the summary shown above the reflections. */
module JournalStats {
  import opened Seqs
  import opened Sorting
  import opened Text
  import opened Rounding
  import opened Records
  import Keywords
  import Streak

  /** `avgConfidence` is in tenths; `topKeywords` holds at most five words. */
  datatype SearchStats = SearchStats(
    totalReflections: nat,
    avgConfidence: int,
    topKeywords: seq<string>,
    learningStreak: nat)

  /** One reflection's text for keyword extraction: its three answers and its session, space-separated. */
  function ReflectionText(r: Reflection): string {
    r.keyLearnings + " " + r.practicalApplications + " " + r.successMoment + " " + r.bootcampSession
  }

  /** All the reflections' texts joined with spaces. */
  function AllText(rs: seq<Reflection>): string {
    Join(seq(|rs|, i requires 0 <= i < |rs| => ReflectionText(rs[i])), " ")
  }

  /** `keywords.slice(0, 5)`. */
  function Top5(keywords: seq<string>): (r: seq<string>)
    ensures |r| <= 5
    ensures r <= keywords
    ensures |keywords| >= 5 ==> |r| == 5
    ensures |keywords| < 5 ==> r == keywords
  {
    if |keywords| <= 5 then keywords else keywords[..5]
  }

  /**
   * `calculateStats`: the number of reflections, their mean confidence to one
   * decimal, the five most frequent keywords and the learning streak over the
   * distinct dates sorted as strings. `today` is the current day number.
   */
  method CalculateStats(rs: seq<Reflection>, cal: Calendar, today: int) returns (stats: SearchStats)
    ensures stats.totalReflections == |rs|
    ensures stats.avgConfidence == Average(Confidences(rs))
    ensures |rs| == 0 ==> stats.avgConfidence == 0
    ensures |rs| > 0 ==> 10 * Min(Confidences(rs)) <= stats.avgConfidence <= 10 * Max(Confidences(rs))
    ensures stats.topKeywords == Top5(Keywords.Ranked(Keywords.Candidates(AllText(rs))))
    ensures stats.learningStreak == Streak.LabelStreak(DateLabels(rs, cal), cal.dayNumber, today)
    ensures stats.learningStreak <= |Elements(DateLabels(rs, cal))|
  {
    var totalReflections := |rs|;
    var avgConfidence := Average(Confidences(rs));
    if |rs| > 0 {
      AverageWithinRange(Confidences(rs));
    }

    var allText := AllText(rs);
    var keywords := Keywords.ExtractKeywords(allText);

    var dates := DateLabels(rs, cal);
    var uniqueDates := SortStrings(Distinct(dates));
    var streak := Streak.CalculateStreak(uniqueDates, cal.dayNumber, today);
    Streak.LabelStreakBound(dates, cal.dayNumber, today);

    stats := SearchStats(totalReflections, avgConfidence, Top5(keywords), streak);
  }

  /** The keywords shown are well formed, distinct and among the most frequent first. */
  lemma TopKeywordsWellFormed(text: string)
    ensures var top := Top5(Keywords.Ranked(Keywords.Candidates(text)));
      && (forall w :: w in top ==> Keywords.IsKeyword(w))
      && NoDuplicates(top)
      && (forall i, j :: 0 <= i < j < |top| ==>
            multiset(Keywords.Candidates(text))[top[i]] >= multiset(Keywords.Candidates(text))[top[j]])
  {
    var words := Keywords.Candidates(text);
    Keywords.KeywordsWellFormed(text);
    TopRanked(words);
  }

  lemma TopRanked(words: seq<string>)
    ensures var ranked := Keywords.Ranked(words); var top := Top5(ranked);
      && (forall w :: w in top ==> w in ranked)
      && NoDuplicates(top)
      && (forall i, j :: 0 <= i < j < |top| ==> multiset(words)[top[i]] >= multiset(words)[top[j]])
  {
    Keywords.RankedNoDuplicates(words);
    Keywords.RankedByFrequency(words);
    TopKeepsOrder(Keywords.Ranked(words), multiset(words));
  }

  /** The first five of a list without repeats, ordered by descending count, are so too. */
  lemma TopKeepsOrder(ranked: seq<string>, counts: multiset<string>)
    requires NoDuplicates(ranked)
    requires forall i, j :: 0 <= i < j < |ranked| ==> counts[ranked[i]] >= counts[ranked[j]]
    ensures var top := Top5(ranked);
      && (forall w :: w in top ==> w in ranked)
      && NoDuplicates(top)
      && (forall i, j :: 0 <= i < j < |top| ==> counts[top[i]] >= counts[top[j]])
  {
    var top := Top5(ranked);
    assert forall i :: 0 <= i < |top| ==> top[i] == ranked[i];
  }
}
