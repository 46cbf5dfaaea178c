# Reflections on AI: a verified model of the client-side analytics

Reflections on AI is a small web application. Bootcamp participants record
self-assessments ("reflections"), and participants keep free-form journal
entries. This project models the computations the pages carry out on the
rows they fetch, and proves properties of them:

- the participant's **journal page**:
  - the search filters, their reset and their one-key updates;
  - filtering and sorting the reflection list;
  - the summary statistics: total, mean confidence, top five keywords and
    learning streak;
  - the keyword extraction and the streak count;
- the **personal insights** panel: the chart series, the two averages, the
  improvement rate and its own streak count;
- the **admin dashboard**:
  - the per-team metrics table;
  - the overall averages;
  - the CSV export text;
- the **journal-entry** page and the **journal-entry form** component:
  - tag parsing;
  - the record saved from the form, and insert versus update;
  - the not-logged-in path and the status messages;
  - the edit loader;
  - the form state under input changes, Clear and a successful save.

The store, authentication and the browser are not modelled. Every value the
pages get from them is a parameter:

- the fetched rows;
- the signed-in user;
- the error the store answers with;
- the JavaScript `Date` functions. These are a `Records.Calendar` value, and
  "today" and the date-range cutoff are plain numbers.

Modules, one per source file, plus the shared library they use:

- `Text`: split, join, trim, whitespace tokens, ASCII lower case, number
  formatting.
- `Seqs`: filter, order-preserving de-duplication, sums and bounds.
- `Sorting`: the stable insertion sort that stands for `Array.prototype.sort`
  with a comparator, and the character-code string order that stands for
  `sort()` without one.
- `JsObjects`: the order in which `Object.entries` lists the keys of a plain
  object. Canonical array-index keys come first, in numeric order, then the
  other keys in insertion order.
- `Rounding`: `Math.round(x * 10) / 10` and `Number(x.toFixed(1))` on exact
  rationals, in tenths.
- `Records`: the reflection and profile rows, and the date functions.
- `Keywords`, `Streak`, `JournalSearch`, `JournalStats`: the journal page.
- `PersonalInsights`: the personal insights panel.
- `AdminPage`: the admin dashboard.
- `JournalEntries`: the journal-entry page.
- `EntryForm`: the journal-entry form component.

Where the source mutates state, the model does too:

- The keyword counter and the team tally are methods over `map` state with
  loop invariants. Each loop's body is a method of its own (`CountWord`,
  `AddToTeam`), as the `forEach` callback is in the source.
- The streak loops are `while` loops.
- The entry form is a class whose fields are the form state.

Each method is proved against a specification function. The lemmas then
state what the pages promise about that function.

## Model

| member | source | states |
|---|---|---|
| Keywords.CountWords | src/app/journal/page.tsx:119-122 | after the loop the map holds exactly the words of the text, each with its number of occurrences, and the keys in the order they were first added |
| Keywords.CountWord | src/app/journal/page.tsx:120-122 | one `forEach` step: if the counts were right for the words seen so far, they are right with one more word, and a new word is added after the existing keys |
| Keywords.ExtractKeywords | src/app/journal/page.tsx:110-127 | the result is the ranking of the candidate words of the text (`Ranked(Candidates(text))`) |
| Keywords.RankWords | src/app/journal/page.tsx:119-126 | counting then sorting `Object.entries` by descending count yields `Ranked(words)` |
| Keywords.CandidatesWellFormed | src/app/journal/page.tsx:114-117 | every candidate word is longer than three characters, not a stop word, and made of lower-case word characters |
| Keywords.Frequencies | src/app/journal/page.tsx:119-124 | the entries list each distinct word once, in `Object.entries` key order, with its number of occurrences |
| Keywords.CountedEntries | src/app/journal/page.tsx:119-124 | the map built by the loop, listed in `Object.entries` order, is exactly `Frequencies(words)` |
| Keywords.RankedElements | src/app/journal/page.tsx:124-126 | a word is ranked if and only if it occurs in the input |
| Keywords.RankedNoDuplicates | src/app/journal/page.tsx:124-126 | no word is ranked twice |
| Keywords.RankedByFrequency | src/app/journal/page.tsx:124-126 | ranked words are in non-increasing order of occurrence count, and entries with equal counts keep the order `Object.entries` lists them in (the sort is stable) |
| Keywords.KeywordsWellFormed | src/app/journal/page.tsx:110-127 | every extracted keyword passes the length and stop-word filter |
| Keywords.NoCandidatesNoKeywords | src/app/journal/page.tsx:117-126 | a text with no candidate words yields no keywords |
| Keywords.EmptyTextNoKeywords | src/app/journal/page.tsx:114-117 | the empty text has no candidate words |
| JournalStats.Top5 | src/app/journal/page.tsx:105 | `slice(0, 5)`: a prefix of at most five, exactly five when there are that many, everything when there are fewer |
| JournalStats.CalculateStats | src/app/journal/page.tsx:84-108 | the total is the number of reflections; the mean confidence is rounded to tenths, is 0 for none, and lies between the lowest and highest score; the keywords are the top five of the joined text; the streak is the label streak and never exceeds the number of distinct dates |
| JournalStats.TopKeywordsWellFormed | src/app/journal/page.tsx:95-105 | the top keywords are distinct, each is longer than three characters and not a stop word, and they are in non-increasing order of frequency in the text |
| JournalStats.TopKeepsOrder | src/app/journal/page.tsx:105 | a prefix of a duplicate-free list in descending count order keeps both properties |
| Streak.StreakFrom | src/app/journal/page.tsx:135-144 | scanning from the newest date, the run of dates one day apart from today ends at the first date that breaks it |
| Streak.Streak | src/app/journal/page.tsx:129-147 | the streak is the length of the run ending today at the end of the list, and the date before the run (if any) breaks it |
| Streak.StreakCharacterized | src/app/journal/page.tsx:129-147 | the streak is k if and only if the last k days are today, today-1, … and the (k+1)-th from the end is not |
| Streak.CalculateStreak | src/app/journal/page.tsx:129-147 | the backward loop with `break` computes `Streak` of the day numbers and never exceeds the number of dates |
| Streak.LabelStreakBound | src/app/journal/page.tsx:98-100 | the streak of the sorted, de-duplicated date labels is at most the number of distinct labels |
| Streak.RunIffPresent | src/app/journal/page.tsx:135-144 | on strictly increasing days not after today, a run of k is present if and only if each of the k days ending today occurs |
| Streak.SortedDistinctDays | src/app/journal/page.tsx:99 | de-duplicating then sorting day numbers gives a strictly increasing list with the same days |
| Streak.ChronologicalStreakCounts | src/app/journal/page.tsx:98-100 | with chronological sorting and no date after today, the streak is k if and only if the k days ending today all have a reflection and the day before them does not |
| Streak.WeekdayOrderBreaksStreak | src/app/journal/page.tsx:98-100 | two reflections on consecutive days labelled "Sun Jan 07 2024" and "Mon Jan 08 2024" give a streak of 0 as written, and 2 when sorted by date |
| JournalSearch.BucketMatchesLabel | src/app/journal/page.tsx:186-196 | a confidence score passes the low, medium or high filter if and only if `getConfidenceLabel` (lines 233-237) gives that level's name |
| JournalSearch.BucketsPartition | src/app/journal/page.tsx:190-192 | every score is in exactly one of the three confidence buckets |
| JournalSearch.ClearFilters | src/app/journal/page.tsx:218-225 | the cleared filters have an empty search term, all dates, all levels, most recent first |
| JournalSearch.HandleFilterChange | src/app/journal/page.tsx:214-216 | a change replaces the one named filter and leaves the other three as they were |
| JournalSearch.FilterChangesCommute | src/app/journal/page.tsx:214-216 | changes to different filters can be applied in either order; a second change to the same filter overrides the first |
| JournalSearch.FilterReflections | src/app/journal/page.tsx:149-212 | the search, date and confidence filters in turn, then the sort, compute `Shown` |
| JournalSearch.ShownExactly | src/app/journal/page.tsx:149-212 | a reflection is shown as often as it occurs in the input if it passes all three filters, and not at all otherwise; before sorting, the filtered list is a subsequence of the input |
| JournalSearch.ShownOrder | src/app/journal/page.tsx:198-209 | the shown list is ordered as the chosen sort asks: newest first, oldest first or most confident first |
| JournalSearch.ShownStable | src/app/journal/page.tsx:198-209 | reflections with equal sort keys keep their input order |
| JournalSearch.RelevanceIsRecent | src/app/journal/page.tsx:205-207 | "relevance" sorts exactly like "recent" |
| JournalSearch.ClearedFiltersKeepAll | src/app/journal/page.tsx:149-225 | with cleared filters every reflection is shown, only reordered |
| JournalSearch.ShownIdempotent | src/app/journal/page.tsx:149-212 | filtering and sorting an already shown list changes nothing |
| PersonalInsights.ChartSeries | src/components/PersonalInsights.tsx:67-77 | one chart point per reflection, in order, with its two scores, short date and weekday |
| PersonalInsights.ImprovementRate | src/components/PersonalInsights.tsx:91-93 | 0 for fewer than two reflections; otherwise the change from first to last confidence, as a percentage of the first, rounded half up; an infinity or NaN when the first score is 0 |
| PersonalInsights.ImprovementRateSign | src/components/PersonalInsights.tsx:91-93 | for a first score between 1 and 10 the rate is a whole number with the sign of the change, and 0 exactly when the scores are equal |
| PersonalInsights.CalculateStreak | src/components/PersonalInsights.tsx:107-128 | 0 for no reflections; otherwise the label streak of the sorted, de-duplicated date labels, at most the number of distinct labels |
| PersonalInsights.ProcessData | src/components/PersonalInsights.tsx:65-105 | the chart is the chart series; the total is the count; both averages are rounded to tenths, are 0 for none and lie between the lowest and highest score; the improvement rate and the streak are as above |
| AdminPage.TeamsOf | src/app/admin/page.tsx:108 | each reflection's team is the profile's team, or "No Team" when that is missing or empty |
| AdminPage.CalculateTeamMetrics | src/app/admin/page.tsx:104-125 | the tally loop followed by `Object.entries(...).map` computes `TeamTable`: one row per team, in `Object.entries` key order, with the count and the two averages |
| AdminPage.AddToTeam | src/app/admin/page.tsx:107-115 | one `forEach` step: if the team totals were right for the reflections seen so far, they are right with one more; a new team is added after the existing keys |
| AdminPage.TableOfTally | src/app/admin/page.tsx:117-122 | once the loop has tallied every reflection, listing its map through `Object.entries` gives `TeamTable` |
| AdminPage.TotalsAreSums | src/app/admin/page.tsx:109-114 | a team's count and totals are the number of its members and the sums of their two scores |
| AdminPage.TeamRowsDistinct | src/app/admin/page.tsx:117-122 | no team has two rows |
| AdminPage.EveryTeamHasRow | src/app/admin/page.tsx:107-122 | every reflection's team has a row |
| AdminPage.EveryRowHasReflection | src/app/admin/page.tsx:107-122 | every row belongs to the team of some reflection |
| AdminPage.TeamRowsAreMeans | src/app/admin/page.tsx:117-122 | each row's count is its number of members, and its averages are their mean scores to one decimal, between the members' lowest and highest score |
| AdminPage.RowIsMean | src/app/admin/page.tsx:119-121 | for a team that occurs, its row's count and averages are those of its members |
| AdminPage.CountsAddUp | src/app/admin/page.tsx:104-125 | the row counts add up to the number of reflections |
| AdminPage.OverallAverages | src/app/admin/page.tsx:192-198 | the total is the number of reflections; both averages are 0 for none, and otherwise the mean to one decimal, between the lowest and highest score |
| AdminPage.CsvFields | src/app/admin/page.tsx:148-160 | eleven fields per reflection, one under each header |
| AdminPage.CsvFieldsWithoutProfile | src/app/admin/page.tsx:149-151 | without a profile the name field is a single space and the email and team are empty |
| AdminPage.Quote | src/app/admin/page.tsx:163 | a field is wrapped in double quotes and otherwise left as it is |
| AdminPage.CsvRows | src/app/admin/page.tsx:148-163 | one CSV line per reflection, in order |
| AdminPage.HeadersClean | src/app/admin/page.tsx:134-146 | no header contains a comma, a double quote or a line break |
| AdminPage.CsvHeaderCells | src/app/admin/page.tsx:162-163 | splitting the header line at commas gives back the eleven quoted headers |
| AdminPage.CsvCells | src/app/admin/page.tsx:163 | a row whose fields contain no comma splits at commas into exactly its quoted fields |
| AdminPage.RowsUnbroken | src/app/admin/page.tsx:148-163 | when no field contains a line break, no row does |
| AdminPage.CsvLines | src/app/admin/page.tsx:162-164 | when no field contains a line break, the export splits at line breaks into the header line followed by one line per reflection |
| Rounding.Average | src/components/PersonalInsights.tsx:83-88 | `Math.round(mean * 10) / 10` in tenths: the rounded value is within half a tenth of the exact mean, rounding halves up; 0 for no scores |
| Rounding.FixedAverage | src/app/admin/page.tsx:193-198 | `toFixed(1)` of the mean in tenths: within half a tenth of the exact mean; 0 for no scores |
| Rounding.AverageWithinRange | src/app/journal/page.tsx:86-104 | the rounded mean lies between the lowest and highest score |
| Rounding.FixedAverageWithinRange | src/app/admin/page.tsx:193-198 | the `toFixed(1)` mean lies between the lowest and highest score |
| Rounding.FixedMatchesRoundForNonNegative | src/app/admin/page.tsx:120-121 | for non-negative totals `toFixed(1)` and `Math.round(x * 10) / 10` agree |
| JsObjects.KeyOrder | src/app/journal/page.tsx:124 | `Object.entries` lists exactly the object's keys: array-index keys in numeric order, then the rest in insertion order |
| JsObjects.EntryKeys | src/app/admin/page.tsx:117 | the listed keys are those added, each once |
| JsObjects.InsertionOrderWithoutIndices | src/app/admin/page.tsx:117 | with no array-index keys the listing is the insertion order |
| JournalEntries.ParsedTagsWellFormed | src/app/new-journal-entry/page.tsx:69-72 | every parsed tag is non-empty and has no surrounding white space |
| JournalEntries.ParsedTagsExactly | src/app/new-journal-entry/page.tsx:69-72 | a string is a parsed tag if and only if it is non-empty and is the trimmed form of one of the comma-separated pieces |
| JournalEntries.TagsField | src/app/new-journal-entry/page.tsx:79 | no tags are saved as null, otherwise the tag list as parsed |
| JournalEntries.BuildEntry | src/app/new-journal-entry/page.tsx:74-80 | the record carries the user's id, the trimmed content, the trimmed title or null when it trims to nothing, the mood or null when empty, and the parsed tags or null |
| JournalEntries.SavedTextTrimmed | src/app/new-journal-entry/page.tsx:76-77 | the saved title and content have no surrounding white space, and a saved title is never empty |
| JournalEntries.SavedTagsWellFormed | src/app/new-journal-entry/page.tsx:69-79 | saved tags are a non-empty list of non-empty trimmed strings |
| JournalEntries.SubmitEntryCases | src/app/new-journal-entry/page.tsx:62-92 | without a user nothing is saved and the log-in message is the answer; with one, an entry being edited is updated under its id and otherwise a new entry is inserted, both with the record built from the form |
| JournalEntries.SaveMessage | src/app/new-journal-entry/page.tsx:94-97 | a store error gives "Error saving journal entry: " and its message; otherwise "updated" when editing and "saved" when new |
| JournalEntries.LoadForEdit | src/app/new-journal-entry/page.tsx:42-46 | a loaded entry fills each field with its value or "" when null, and the tags with their list joined by ", " |
| JournalEntries.TagsRoundTrip | src/app/new-journal-entry/page.tsx:46 | a stored tag list of non-empty, trimmed, comma-free tags survives loading for editing and saving unchanged |
| EntryForm.InitialData | src/components/JournalEntryForm.tsx:19-24 | the initial fields are those of the entry being edited, read like the edit loader, or four empty strings |
| EntryForm.Form.constructor | src/components/JournalEntryForm.tsx:19-27 | a new form holds the initial data and an empty message |
| EntryForm.WithFieldChangesOnlyField | src/components/JournalEntryForm.tsx:125-127 | an input change puts the value in the named field and leaves every other field as it was |
| EntryForm.Form.HandleInputChange | src/components/JournalEntryForm.tsx:125-127 | the form's data becomes the old data with the named field replaced; the message is unchanged |
| EntryForm.Form.Clear | src/components/JournalEntryForm.tsx:227-230 | the four fields become empty |
| EntryForm.Form.HandleSubmit | src/components/JournalEntryForm.tsx:54-123 | the request is the one built from the fields before the call; without a user the message is the log-in message and nothing changes; otherwise the message is the save message, the fields are emptied after a successful save of a new entry (lines 105-112) and left as they were in every other case |
| Text.TrimDropsOnlySpace | src/app/new-journal-entry/page.tsx:71 | trimming removes white space from both ends only: the result is a slice of the input, and everything cut off is white space |
| Text.TrimIdempotent | src/app/new-journal-entry/page.tsx:71-76 | trimming twice is trimming once |
| Text.SplitJoin | src/app/new-journal-entry/page.tsx:70 | joining pieces that do not contain the separator and splitting again gives the pieces back |
| Seqs.FilterCounts | src/app/journal/page.tsx:155-195 | a filter keeps each element that passes as often as it occurs, and no other |
| Sorting.SortByStable | src/app/journal/page.tsx:199-209 | the comparator sort keeps elements with equal keys in their input order |
| Sorting.SortBySorted | src/app/journal/page.tsx:199-209 | a list already ordered by the key is left unchanged |
| Sorting.SortStrings | src/app/journal/page.tsx:99 | `sort()` without a comparator returns a permutation of its input in character-code order (code points, which agree with UTF-16 code-unit order below U+FFFF) |

## Left out

- Reading and writing the data store, authentication and sign-out, routing,
  loading spinners and the `loading` flag are not modelled. The fetched rows,
  the user and the store's error are parameters.
- The Supabase client, the authentication pages, the landing page and the
  reflection form are not part of this model.
- JavaScript `Date` is not part of this model. Parsing, `toDateString`,
  `toLocaleString`, `toLocaleDateString` and `getTime` are the functions of a
  `Records.Calendar`. "Today" is a day number, and the date-range cutoff is a
  time value passed in. Time zones and daylight saving time are ignored.
- Streak.CalculateStreak: the source's day difference
  `Math.floor((today - date) / 86400000)` is taken as the difference of two
  day numbers. This is exact only when no daylight-saving change lies between
  the two dates.
- The filter values in `handleFilterChange` and the field names in
  `handleInputChange` are datatypes. Any other string key the source would
  accept is out of scope.
- Floating point is not modelled. Scores are integers, and averages are exact
  rationals rounded to tenths and kept as integers. `toFixed(1)` rounds the
  exact mean half away from zero. The binary representation that can make a
  real `toFixed` round a `.x5` down is not modelled.
- AdminPage.OverallAverages: the source's `toFixed(1)` yields a string, and the
  model keeps its numeric value in tenths.
- Lower-casing maps the letters A-Z only. JavaScript's `toLowerCase` also maps
  other letters, some of them to ASCII (the Kelvin sign becomes "k"), which
  the keyword extraction and the search would then see. `\w` is the ASCII
  class, as in JavaScript without the `u` flag. `\s` and `trim` use the full
  JavaScript white-space set. Strings are compared by code point, which agrees
  with `sort()`'s UTF-16 code-unit order except for characters above U+FFFF.
- Keys that look like array indices get the JavaScript `Object.entries` order.
  The names that a plain object inherits from `Object.prototype` are ordinary
  keys in the model's maps. The source misbehaves on them, as the next two
  lines say.
- Keywords.CountWord, Keywords.RankWords: the word "constructor" (and
  `__proto__`, the only other inherited name that survives lower-casing) is
  counted like any other word. In the source, `frequency[word] || 0` finds the
  inherited value. For "constructor" the count becomes a string ending in "1",
  the comparator's `b - a` gives NaN, and that word's place in the ranking is
  left to the sort implementation. For `__proto__` the assignment is ignored
  and the word never reaches the ranking.
- AdminPage.AddToTeam, AdminPage.CalculateTeamMetrics: a team named after an
  inherited member (`constructor`, `hasOwnProperty`, `isPrototypeOf`,
  `propertyIsEnumerable`, `toLocaleString`, `toString`, `valueOf`,
  `__defineGetter__`, `__defineSetter__`, `__lookupGetter__`,
  `__lookupSetter__`, `__proto__`) gets its own row in the model. In the
  source `!teamData[team]` is false for it, so the row is never created. Its
  counts are written onto the shared inherited object, and its reflections
  are missing from the table, so the row counts then do not add up to the
  number of reflections.
- Null profile, name, email and team columns are the empty string. Every read
  of them in the core is `field || default`. The required text columns,
  `reflection.key_learnings` among them, are declared non-null.
- JournalStats.AllText, JournalSearch.PassesSearch: a null `bootcamp_session`
  is read as the empty string here too. Two reads of it in the journal page
  have no default, though. The keyword text (src/app/journal/page.tsx:92)
  renders it as the word "null", which is then a keyword candidate. The search
  (src/app/journal/page.tsx:159) calls `toLowerCase()` on it and throws when a
  search term is set and the first three fields do not match. The column is
  declared `string`, but the admin export guards it with `|| ''`.
- AdminPage.CsvFields: an `Invalid Date` for a malformed timestamp is whatever
  `Calendar.localeString` answers. Quoting does not escape inner quotes, as
  in the source. No CSV reader is modelled, so there is no parse round trip
  beyond the comma and line splits proved here.
- The Blob download, the file name, `window.URL` and the DOM are not modelled.
- The form's draft autosave to `localStorage`, loading the draft on mount,
  the `setTimeout` calls that navigate or call `onSuccess`, and the disabled
  state of the submit button are not modelled.
- EntryForm.Form.HandleSubmit: the `catch` path for a thrown error is covered
  by the same `storeError` parameter as the store's returned error, since
  both set the same message. Whether the store call succeeded is a parameter,
  not something the model computes.
- JournalEntries.TagsRoundTrip: a stored empty tag list comes back as null. An
  empty list joins to "" and parses to no tags. The lemma therefore requires
  a non-empty list.
- AdminPage.Row: the guard for a team with no reflections cannot be reached.
  Every team in the map has a count of at least one.
- `recharts` rendering, colours and icons are not modelled.
- The `seen` parameters of `Keywords.CountWord` and `AdminPage.AddToTeam` are
  ghost. They name the prefix already processed and are not in the source.

## Findings

| source | as written | input that shows it | evidently intended | confidence | as-written member | corrected member |
|---|---|---|---|---|---|---|
| src/app/journal/page.tsx:98-100 (and src/components/PersonalInsights.tsx:110-111) | the `toDateString()` labels are sorted as strings, so they are ordered by weekday name, not by date, before the newest-first streak scan | two reflections on consecutive days ending today, "Sun Jan 07 2024" and "Mon Jan 08 2024": the string sort puts "Mon …" before "Sun …", and the scan starts at Sunday, one day before today, giving a streak of 0 | a streak of 2: days sorted chronologically, so the run of consecutive days ending today is counted. The page members keep the string sort, as written | not executed | Streak.WeekdayOrderBreaksStreak | Streak.ChronologicalStreakCounts |
