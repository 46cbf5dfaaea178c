/**
 * The learning streak (journal page and personal insights): walking a list of
 * dates from its end, count how many read today, today - 1, today - 2, ... and
 * stop at the first that does not.
 */
module Streak {
  import opened Seqs
  import opened Sorting

  /** The day numbers of date strings, as `new Date(dates[i])` reads them. */
  function DaysOf(dates: seq<string>, dayNumber: string -> int): (days: seq<int>)
    ensures |days| == |dates|
    ensures forall i :: 0 <= i < |dates| ==> days[i] == dayNumber(dates[i])
  {
    seq(|dates|, i requires 0 <= i < |dates| => dayNumber(dates[i]))
  }

  /** The last `k` days, read from the end, are today, today - 1, ..., today - (k - 1). */
  ghost predicate EndsWithRun(days: seq<int>, today: int, k: nat) {
    k <= |days| && forall i :: |days| - k <= i < |days| ==> days[i] == today - (|days| - 1 - i)
  }

  function StreakFrom(days: seq<int>, today: int, k: nat): (r: nat)
    requires EndsWithRun(days, today, k)
    ensures k <= r <= |days|
    ensures EndsWithRun(days, today, r)
    ensures r < |days| ==> days[|days| - 1 - r] != today - r
    decreases |days| - k
  {
    if k == |days| || days[|days| - 1 - k] != today - k then k
    else StreakFrom(days, today, k + 1)
  }

  /** The number of days matched from the end of `days` before the first mismatch. */
  function Streak(days: seq<int>, today: int): (r: nat)
    ensures r <= |days|
    ensures EndsWithRun(days, today, r)
    ensures r < |days| ==> days[|days| - 1 - r] != today - r
  {
    StreakFrom(days, today, 0)
  }

  /** The streak is `k` exactly when the last `k` days run back from today and the one before them does not continue the run. */
  lemma StreakCharacterized(days: seq<int>, today: int, k: nat)
    ensures Streak(days, today) == k
        <==> EndsWithRun(days, today, k) && (k < |days| ==> days[|days| - 1 - k] != today - k)
  {
  }

  /**
   * `calculateStreak`: the loop runs `i` down from the last index and counts
   * while `today - day(dates[i])` equals the count so far.
   */
  method CalculateStreak(dates: seq<string>, dayNumber: string -> int, today: int) returns (streak: nat)
    ensures streak == Streak(DaysOf(dates, dayNumber), today)
    ensures streak <= |dates|
  {
    if |dates| == 0 {
      return 0;
    }
    ghost var days := DaysOf(dates, dayNumber);
    streak := 0;
    var i := |dates| - 1;
    while i >= 0
      invariant -1 <= i < |dates|
      invariant streak == |dates| - 1 - i
      invariant EndsWithRun(days, today, streak)
    {
      var daysDiff := today - dayNumber(dates[i]);
      if daysDiff == streak {
        streak := streak + 1;
      } else {
        break;
      }
      i := i - 1;
    }
    StreakCharacterized(days, today, streak);
  }

  /**
   * The streak as both pages compute it: the distinct `toDateString` labels,
   * sorted as strings, read back as days. String order puts "Fri" before
   * "Mon" before "Sat", so the list is not in date order.
   */
  function LabelStreak(labels: seq<string>, dayNumber: string -> int, today: int): nat {
    Streak(DaysOf(SortStrings(Distinct(labels)), dayNumber), today)
  }

  /** The streak never exceeds the number of distinct dates. */
  lemma LabelStreakBound(labels: seq<string>, dayNumber: string -> int, today: int)
    ensures LabelStreak(labels, dayNumber, today) <= |Elements(labels)|
  {
    DistinctCardinality(labels);
  }

  function Identity(d: int): int {
    d
  }

  /** The streak over the distinct days in ascending date order, as the sort was evidently meant to give. */
  function ChronologicalStreak(days: seq<int>, today: int): nat {
    Streak(SortBy(Distinct(days), Identity), today)
  }

  predicate StrictlyIncreasing(s: seq<int>) {
    forall i, j :: 0 <= i < j < |s| ==> s[i] < s[j]
  }

  /** In increasing days none after today, the run back from today has length `k` iff the `k` days up to today all occur. */
  lemma {:induction false} RunIffPresent(s: seq<int>, today: int, k: nat)
    requires StrictlyIncreasing(s)
    requires forall i :: 0 <= i < |s| ==> s[i] <= today
    ensures EndsWithRun(s, today, k) <==> forall d :: today - k < d <= today ==> d in s
    decreases k
  {
    var n := |s|;
    if EndsWithRun(s, today, k) {
      forall d | today - k < d <= today ensures d in s {
        assert s[n - 1 - (today - d)] == d;
      }
    }
    if k > 0 && forall d :: today - k < d <= today ==> d in s {
      RunIffPresent(s, today, k - 1);
      assert today - (k - 1) in s;
      var p :| 0 <= p < n && s[p] == today - (k - 1);
      var q := n - k;
      assert 0 <= q && s[q] == today - (k - 1) by {
        if k == 1 {
          assert s[p] <= s[n - 1];
        } else {
          assert s[q + 1] == today - (k - 2);
          assert p <= q;
          assert s[p] <= s[q] < s[q + 1];
        }
      }
      forall i | n - k <= i < n ensures s[i] == today - (n - 1 - i) {
        if i > q {
          assert EndsWithRun(s, today, k - 1);
        }
      }
    }
  }

  /** Sorting distinct days ascending gives a strictly increasing list of the same days. */
  lemma SortedDistinctDays(days: seq<int>)
    ensures StrictlyIncreasing(SortBy(Distinct(days), Identity))
    ensures forall d :: d in SortBy(Distinct(days), Identity) <==> d in days
  {
    var d := Distinct(days);
    var s := SortBy(d, Identity);
    PermutationNoDuplicates(d, s);
    SameElements(d, s);
    AscendingWithoutRepeats(s);
  }

  lemma AscendingWithoutRepeats(s: seq<int>)
    requires SortedBy(s, Identity)
    requires NoDuplicates(s)
    ensures StrictlyIncreasing(s)
  {
    forall i, j | 0 <= i < j < |s| ensures s[i] < s[j] {
      assert Identity(s[i]) <= Identity(s[j]);
    }
  }

  /**
   * With dates in ascending order the streak counts exactly the consecutive
   * days up to today on which there is a date, provided none is after today.
   */
  lemma ChronologicalStreakCounts(days: seq<int>, today: int, k: nat)
    requires forall i :: 0 <= i < |days| ==> days[i] <= today
    ensures ChronologicalStreak(days, today) == k
        <==> (forall d :: today - k < d <= today ==> d in days) && today - k !in days
  {
    var s := SortBy(Distinct(days), Identity);
    SortedDistinctDays(days);
    SameDaysNotAfter(s, days, today);
    IncreasingStreak(s, today, k);
  }

  /** A sequence holding the same values as `days` holds none after today either. */
  lemma SameDaysNotAfter(s: seq<int>, days: seq<int>, today: int)
    requires forall i :: 0 <= i < |days| ==> days[i] <= today
    requires forall d :: d in s <==> d in days
    ensures forall i :: 0 <= i < |s| ==> s[i] <= today
  {
    forall i | 0 <= i < |s| ensures s[i] <= today {
      var d := s[i];
      assert d in s;
      assert d in days;
      var j :| 0 <= j < |days| && days[j] == d;
    }
  }

  /** Over increasing days none after today, the streak is `k` iff the `k` days up to today occur and the day before them does not. */
  lemma IncreasingStreak(s: seq<int>, today: int, k: nat)
    requires StrictlyIncreasing(s)
    requires forall i :: 0 <= i < |s| ==> s[i] <= today
    ensures Streak(s, today) == k
        <==> (forall d :: today - k < d <= today ==> d in s) && today - k !in s
  {
    RunIffPresent(s, today, k);
    RunIffPresent(s, today, k + 1);
    StreakCharacterized(s, today, k);
    if k < |s| && EndsWithRun(s, today, k) && s[|s| - 1 - k] == today - k {
      assert today - k in s;
    }
  }

  /**
   * Someone who wrote on Sunday 7 and Monday 8 January 2024 (days 19729 and
   * 19730) has, on the Monday, a two-day streak; sorting "Mon Jan 08 2024"
   * before "Sun Jan 07 2024" makes the pages report none.
   */
  lemma WeekdayOrderBreaksStreak()
    ensures LabelStreak(["Sun Jan 07 2024", "Mon Jan 08 2024"], ExampleDayNumber, 19730) == 0
    ensures ChronologicalStreak([19729, 19730], 19730) == 2
  {
    ExampleLabelStreak();
    ExampleChronologicalStreak();
  }

  lemma ExampleChronologicalStreak()
    ensures ChronologicalStreak([19729, 19730], 19730) == 2
  {
    var days := [19729, 19730];
    assert forall d :: 19728 < d <= 19730 ==> d in days by {
      forall d | 19728 < d <= 19730 ensures d in days {
        assert d == days[d - 19729];
      }
    }
    assert 19728 !in days;
    RunOfPresentDays(days, 19730, 2);
  }

  /** The direction of `ChronologicalStreakCounts` that computes a streak from the days present. */
  lemma RunOfPresentDays(days: seq<int>, today: int, k: nat)
    requires forall i :: 0 <= i < |days| ==> days[i] <= today
    requires forall d :: today - k < d <= today ==> d in days
    requires today - k !in days
    ensures ChronologicalStreak(days, today) == k
  {
    ChronologicalStreakCounts(days, today, k);
  }

  lemma ExampleLabelStreak()
    ensures LabelStreak(["Sun Jan 07 2024", "Mon Jan 08 2024"], ExampleDayNumber, 19730) == 0
  {
    var sun, mon := "Sun Jan 07 2024", "Mon Jan 08 2024";
    assert sun != mon by { assert sun[0] != mon[0]; }
    DistinctPair(sun, mon);
    SortedPair(sun, mon);
    var days := DaysOf([mon, sun], ExampleDayNumber);
    assert days[1] == 19729;
  }

  /** The day numbers of the two dates of the example: 8 January 2024 is day 19730 of the Unix epoch. */
  function ExampleDayNumber(date: string): int {
    if date == "Mon Jan 08 2024" then 19730 else 19729
  }

  lemma DistinctPair(a: string, b: string)
    requires a != b
    ensures Distinct([a, b]) == [a, b]
  {
    assert [a, b][..1] == [a];
  }

  lemma SortedPair(a: string, b: string)
    requires a != [] && b != [] && b[0] < a[0]
    ensures SortStrings([a, b]) == [b, a]
  {
    assert [a, b][..1] == [a] && [a][..0] == [];
    assert SortStrings([a]) == [a];
    assert !LexLe(a, b);
    assert InsertString([a], b) == [b, a] by {
      assert [a][..0] == [];
    }
  }
}
