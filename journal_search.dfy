/**
 * Searching, filtering and sorting the reflections on the journal page
 * (`filterReflections`), the filter settings the page keeps
 * (`handleFilterChange`, `clearFilters`) and the confidence label.
 */
module JournalSearch {
  import opened Seqs
  import opened Sorting
  import opened Text
  import opened Records

  datatype DateRange = AllDates | Week | Month | Quarter | Year

  datatype Level = Low | Medium | High

  datatype ConfidenceRange = AllLevels | Only(level: Level)

  /** `relevance` has no case of its own in the comparator and sorts like `recent`. */
  datatype SortOrder = Recent | Oldest | ByConfidence | Relevance

  datatype SearchFilters = SearchFilters(
    searchTerm: string,
    dateRange: DateRange,
    confidenceRange: ConfidenceRange,
    sortBy: SortOrder)

  /** A call `handleFilterChange(key, value)`: the key together with its new value. */
  datatype FilterChange =
    | SetSearchTerm(term: string)
    | SetDateRange(range: DateRange)
    | SetConfidenceRange(confidence: ConfidenceRange)
    | SetSortBy(order: SortOrder)

  // ---- Confidence levels ----------------------------------------------------

  /** `getConfidenceLabel`. */
  function ConfidenceLabel(confidence: int): string {
    if confidence >= 8 then "High" else if confidence >= 5 then "Medium" else "Low"
  }

  function LevelName(level: Level): string {
    match level
    case Low => "Low"
    case Medium => "Medium"
    case High => "High"
  }

  /** The buckets of the confidence filter. */
  predicate InBucket(level: Level, confidence: int) {
    match level
    case Low => confidence <= 4
    case Medium => 5 <= confidence <= 7
    case High => confidence >= 8
  }

  /**
   * A score lies in a bucket exactly when the label names that bucket; since
   * the label is one of the three, the buckets partition the integers.
   */
  lemma BucketMatchesLabel(level: Level, confidence: int)
    ensures InBucket(level, confidence) <==> ConfidenceLabel(confidence) == LevelName(level)
  {
  }

  lemma BucketsPartition(confidence: int)
    ensures exists level :: InBucket(level, confidence)
    ensures forall l1: Level, l2: Level :: InBucket(l1, confidence) && InBucket(l2, confidence) ==> l1 == l2
  {
    var level := if confidence >= 8 then High else if confidence >= 5 then Medium else Low;
    assert InBucket(level, confidence);
  }

  // ---- The filter settings ----------------------------------------------

  /** The settings the page starts with and `clearFilters` restores. */
  function ClearFilters(): (f: SearchFilters)
    ensures f.searchTerm == [] && f.dateRange == AllDates && f.confidenceRange == AllLevels
    ensures f.sortBy == Recent
  {
    SearchFilters("", AllDates, AllLevels, Recent)
  }

  /** `handleFilterChange`: the named setting takes the new value and the others keep theirs. */
  function HandleFilterChange(f: SearchFilters, change: FilterChange): (g: SearchFilters)
    ensures change.SetSearchTerm? ==> g == f.(searchTerm := change.term)
    ensures change.SetDateRange? ==> g == f.(dateRange := change.range)
    ensures change.SetConfidenceRange? ==> g == f.(confidenceRange := change.confidence)
    ensures change.SetSortBy? ==> g == f.(sortBy := change.order)
  {
    match change
    case SetSearchTerm(term) => SearchFilters(term, f.dateRange, f.confidenceRange, f.sortBy)
    case SetDateRange(range) => SearchFilters(f.searchTerm, range, f.confidenceRange, f.sortBy)
    case SetConfidenceRange(c) => SearchFilters(f.searchTerm, f.dateRange, c, f.sortBy)
    case SetSortBy(order) => SearchFilters(f.searchTerm, f.dateRange, f.confidenceRange, order)
  }

  /** Which setting a change names. */
  function Setting(change: FilterChange): nat {
    match change
    case SetSearchTerm(_) => 0
    case SetDateRange(_) => 1
    case SetConfidenceRange(_) => 2
    case SetSortBy(_) => 3
  }

  /** Changes to different settings can be made in either order, and a later change to the same setting wins. */
  lemma FilterChangesCommute(f: SearchFilters, a: FilterChange, b: FilterChange)
    ensures Setting(a) != Setting(b)
      ==> HandleFilterChange(HandleFilterChange(f, a), b) == HandleFilterChange(HandleFilterChange(f, b), a)
    ensures Setting(a) == Setting(b)
      ==> HandleFilterChange(HandleFilterChange(f, a), b) == HandleFilterChange(f, b)
  {
  }

  // ---- What passes each filter --------------------------------------------

  /** Case-insensitive search over the four text fields, for a lowercased term. */
  predicate MatchesTerm(r: Reflection, term: string) {
    Contains(ToLower(r.keyLearnings), term)
    || Contains(ToLower(r.practicalApplications), term)
    || Contains(ToLower(r.successMoment), term)
    || Contains(ToLower(r.bootcampSession), term)
  }

  /** An empty search term filters nothing. */
  predicate PassesSearch(f: SearchFilters, r: Reflection) {
    f.searchTerm == [] || MatchesTerm(r, ToLower(f.searchTerm))
  }

  /** `cutoff` is the time the selected range starts, which the page reads from the clock. */
  predicate PassesDate(f: SearchFilters, cutoff: int, cal: Calendar, r: Reflection) {
    f.dateRange == AllDates || cal.timeOf(r.bootcampDate) >= cutoff
  }

  predicate PassesConfidence(f: SearchFilters, r: Reflection) {
    match f.confidenceRange
    case AllLevels => true
    case Only(level) => InBucket(level, r.confidenceLevel)
  }

  predicate Passes(f: SearchFilters, cutoff: int, cal: Calendar, r: Reflection) {
    PassesSearch(f, r) && PassesDate(f, cutoff, cal, r) && PassesConfidence(f, r)
  }

  /** The comparator of each order, as an ascending key. */
  function SortKey(order: SortOrder, cal: Calendar, r: Reflection): int {
    match order
    case Oldest => cal.timeOf(r.createdAt)
    case ByConfidence => -r.confidenceLevel
    case Recent => -cal.timeOf(r.createdAt)
    case Relevance => -cal.timeOf(r.createdAt)
  }

  /** The reflections that pass every filter, in their original order. */
  function Selected(rs: seq<Reflection>, f: SearchFilters, cutoff: int, cal: Calendar): seq<Reflection> {
    Filter(rs, r => Passes(f, cutoff, cal, r))
  }

  /** What the page shows: the selected reflections, stably sorted by the chosen order. */
  function Shown(rs: seq<Reflection>, f: SearchFilters, cutoff: int, cal: Calendar): seq<Reflection> {
    SortBy(Selected(rs, f, cutoff, cal), r => SortKey(f.sortBy, cal, r))
  }

  /**
   * `filterReflections`: narrows a copy of the list by each active filter in
   * turn, then sorts it.
   */
  method FilterReflections(rs: seq<Reflection>, filters: SearchFilters, cutoff: int, cal: Calendar)
    returns (filtered: seq<Reflection>)
    ensures filtered == Shown(rs, filters, cutoff, cal)
  {
    filtered := rs;
    if filters.searchTerm != [] {
      var term := ToLower(filters.searchTerm);
      filtered := Filter(filtered, r => MatchesTerm(r, term));
      FilterExtensional(rs, r => MatchesTerm(r, term), r => PassesSearch(filters, r));
    } else {
      FilterKeepsAll(rs, r => PassesSearch(filters, r));
    }
    assert filtered == Filter(rs, r => PassesSearch(filters, r));

    ghost var before := filtered;
    if filters.dateRange != AllDates {
      filtered := Filter(filtered, (r: Reflection) => cal.timeOf(r.bootcampDate) >= cutoff);
      FilterExtensional(before, (r: Reflection) => cal.timeOf(r.bootcampDate) >= cutoff, r => PassesDate(filters, cutoff, cal, r));
    } else {
      FilterKeepsAll(before, r => PassesDate(filters, cutoff, cal, r));
    }
    assert filtered == Filter(before, r => PassesDate(filters, cutoff, cal, r));
    FilterFilter(rs, r => PassesSearch(filters, r), r => PassesDate(filters, cutoff, cal, r),
                 r => PassesSearch(filters, r) && PassesDate(filters, cutoff, cal, r));

    before := filtered;
    if filters.confidenceRange != AllLevels {
      filtered := Filter(filtered, r => PassesConfidence(filters, r));
    } else {
      FilterKeepsAll(before, r => PassesConfidence(filters, r));
    }
    FilterFilter(rs, r => PassesSearch(filters, r) && PassesDate(filters, cutoff, cal, r),
                 r => PassesConfidence(filters, r), r => Passes(filters, cutoff, cal, r));
    assert filtered == Selected(rs, filters, cutoff, cal);

    filtered := SortBy(filtered, r => SortKey(filters.sortBy, cal, r));
  }

  // ---- Properties ---------------------------------------------------------

  /**
   * The page shows each reflection that passes every filter, as many times as
   * it occurs in the list, and nothing else.
   */
  lemma ShownExactly(rs: seq<Reflection>, f: SearchFilters, cutoff: int, cal: Calendar)
    ensures forall r ::
      multiset(Shown(rs, f, cutoff, cal))[r] == if Passes(f, cutoff, cal, r) then multiset(rs)[r] else 0
    ensures IsSubsequence(Selected(rs, f, cutoff, cal), rs)
  {
    FilterCounts(rs, r => Passes(f, cutoff, cal, r));
  }

  /** What the chosen order promises about two reflections shown in that order. */
  predicate InOrder(order: SortOrder, cal: Calendar, a: Reflection, b: Reflection) {
    match order
    case Recent => cal.timeOf(a.createdAt) >= cal.timeOf(b.createdAt)
    case Relevance => cal.timeOf(a.createdAt) >= cal.timeOf(b.createdAt)
    case Oldest => cal.timeOf(a.createdAt) <= cal.timeOf(b.createdAt)
    case ByConfidence => a.confidenceLevel >= b.confidenceLevel
  }

  /** Newest first for `recent` and `relevance`, oldest first for `oldest`, most confident first for `confidence`. */
  lemma ShownOrder(rs: seq<Reflection>, f: SearchFilters, cutoff: int, cal: Calendar)
    ensures var s := Shown(rs, f, cutoff, cal);
      forall i, j :: 0 <= i < j < |s| ==> InOrder(f.sortBy, cal, s[i], s[j])
  {
    var s := Shown(rs, f, cutoff, cal);
    forall i, j | 0 <= i < j < |s| ensures InOrder(f.sortBy, cal, s[i], s[j]) {
      assert SortKey(f.sortBy, cal, s[i]) <= SortKey(f.sortBy, cal, s[j]);
    }
  }

  /** Reflections that tie under the chosen order keep the order they had in the list. */
  lemma ShownStable(rs: seq<Reflection>, f: SearchFilters, cutoff: int, cal: Calendar, v: int)
    ensures WithKey(Shown(rs, f, cutoff, cal), r => SortKey(f.sortBy, cal, r), v)
         == WithKey(Selected(rs, f, cutoff, cal), r => SortKey(f.sortBy, cal, r), v)
  {
    SortByStable(Selected(rs, f, cutoff, cal), r => SortKey(f.sortBy, cal, r), v);
  }

  /** Choosing `relevance` shows the same list as choosing `recent`. */
  lemma RelevanceIsRecent(rs: seq<Reflection>, f: SearchFilters, cutoff: int, cal: Calendar)
    ensures Shown(rs, f.(sortBy := Relevance), cutoff, cal) == Shown(rs, f.(sortBy := Recent), cutoff, cal)
  {
    var g, h := f.(sortBy := Relevance), f.(sortBy := Recent);
    FilterExtensional(rs, r => Passes(g, cutoff, cal, r), r => Passes(h, cutoff, cal, r));
    SortByExtensional(Selected(rs, g, cutoff, cal), r => SortKey(g.sortBy, cal, r), r => SortKey(h.sortBy, cal, r));
  }

  /** With the cleared settings every reflection is shown, newest first. */
  lemma ClearedFiltersKeepAll(rs: seq<Reflection>, cutoff: int, cal: Calendar)
    ensures Selected(rs, ClearFilters(), cutoff, cal) == rs
    ensures multiset(Shown(rs, ClearFilters(), cutoff, cal)) == multiset(rs)
  {
    FilterKeepsAll(rs, r => Passes(ClearFilters(), cutoff, cal, r));
  }

  /** Filtering and sorting what is already shown changes nothing. */
  lemma ShownIdempotent(rs: seq<Reflection>, f: SearchFilters, cutoff: int, cal: Calendar)
    ensures Shown(Shown(rs, f, cutoff, cal), f, cutoff, cal) == Shown(rs, f, cutoff, cal)
  {
    var s := Shown(rs, f, cutoff, cal);
    var selected := Selected(rs, f, cutoff, cal);
    forall i | 0 <= i < |s| ensures Passes(f, cutoff, cal, s[i]) {
      assert s[i] in multiset(selected);
      var k :| 0 <= k < |selected| && selected[k] == s[i];
    }
    FilterKeepsAll(s, r => Passes(f, cutoff, cal, r));
    SortBySorted(s, r => SortKey(f.sortBy, cal, r));
  }
}
