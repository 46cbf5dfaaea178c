/**
 * The admin dashboard: reflections grouped by team with each team's size and
 * averages, the averages over all reflections, and the CSV export.
 */
module AdminPage {
  import opened Seqs
  import opened Text
  import opened Rounding
  import opened Records
  import opened JsObjects

  const NoTeam: string := "No Team"

  /** The team a reflection is counted under: a missing profile or an empty team both give "No Team". */
  function TeamOf(r: Reflection): string {
    if r.profile.Some? && r.profile.value.team != "" then r.profile.value.team else NoTeam
  }

  function TeamsOf(rs: seq<Reflection>): (teams: seq<string>)
    ensures |teams| == |rs|
    ensures forall i :: 0 <= i < |rs| ==> teams[i] == TeamOf(rs[i])
  {
    seq(|rs|, i requires 0 <= i < |rs| => TeamOf(rs[i]))
  }

  function InTeam(team: string): Reflection -> bool {
    r => TeamOf(r) == team
  }

  /** The reflections counted under `team`, in their order. */
  function Members(rs: seq<Reflection>, team: string): (m: seq<Reflection>)
    ensures forall i :: 0 <= i < |m| ==> TeamOf(m[i]) == team
  {
    Filter(rs, InTeam(team))
  }

  /** The running totals kept per team in `teamData`. */
  datatype Totals = Totals(count: nat, totalConfidence: int, totalRecommendation: int)

  /** One row of the team table; the averages are `toFixed(1)` values held in tenths. */
  datatype TeamMetrics = TeamMetrics(team: string, count: nat, avgConfidence: int, avgRecommendation: int)

  /** The row of a team from its totals. */
  function Row(team: string, d: Totals): (row: TeamMetrics)
    ensures row.team == team
  {
    if d.count == 0 then TeamMetrics(team, 0, 0, 0)
    else TeamMetrics(team, d.count, FixedTenths(d.totalConfidence, d.count), FixedTenths(d.totalRecommendation, d.count))
  }

  /** The team table: one row per team, in the order `Object.entries` lists the teams. */
  ghost function TeamTable(rs: seq<Reflection>): (table: seq<TeamMetrics>)
    ensures |table| == |EntryKeys(TeamsOf(rs))|
    ensures forall k :: 0 <= k < |table| ==> table[k] == Row(EntryKeys(TeamsOf(rs))[k], TotalsOf(rs, EntryKeys(TeamsOf(rs))[k]))
  {
    var teams := EntryKeys(TeamsOf(rs));
    seq(|teams|, k requires 0 <= k < |teams| => Row(teams[k], TotalsOf(rs, teams[k])))
  }

  /**
   * `calculateTeamMetrics`: one pass adds each reflection to its team's
   * totals, creating them on first sight; then each team's entry becomes a row.
   */
  method CalculateTeamMetrics(rs: seq<Reflection>) returns (metrics: seq<TeamMetrics>)
    ensures metrics == TeamTable(rs)
  {
    var teamData: map<string, Totals> := map[];
    var added: seq<string> := [];
    for i := 0 to |rs|
      invariant added == Distinct(TeamsOf(rs[..i]))
      invariant forall t :: t in teamData <==> t in added
      invariant forall t :: t in teamData ==> teamData[t] == TotalsOf(rs[..i], t)
    {
      PrefixNext(rs, i);
      teamData, added := AddToTeam(teamData, added, rs[..i], rs[i]);
    }
    TableOfTally(rs, teamData, added);
    metrics := Rows(KeyOrder(added), teamData);
  }

  /** `Object.entries(teamData).map(...)`: the row of each team, in the order given. */
  function Rows(teams: seq<string>, teamData: map<string, Totals>): (rows: seq<TeamMetrics>)
    requires forall k :: 0 <= k < |teams| ==> teams[k] in teamData
  {
    seq(|teams|, k requires 0 <= k < |teams| => Row(teams[k], teamData[teams[k]]))
  }

  /** The rows of the finished tally are the team table. */
  lemma TableOfTally(rs: seq<Reflection>, teamData: map<string, Totals>, added: seq<string>)
    requires added == Distinct(TeamsOf(rs[..|rs|]))
    requires forall t :: t in teamData <==> t in added
    requires forall t :: t in teamData ==> teamData[t] == TotalsOf(rs[..|rs|], t)
    ensures forall k :: 0 <= k < |KeyOrder(added)| ==> KeyOrder(added)[k] in teamData
    ensures Rows(KeyOrder(added), teamData) == TeamTable(rs)
  {
    assert rs[..|rs|] == rs;
    var teams := KeyOrder(added);
    forall k | 0 <= k < |teams| ensures teams[k] in teamData {
      assert teams[k] in multiset(added);
    }
    var rows, table := Rows(teams, teamData), TeamTable(rs);
    assert |rows| == |table|;
    forall k | 0 <= k < |rows| ensures rows[k] == table[k] {
      assert teamData[teams[k]] == TotalsOf(rs, teams[k]);
    }
  }

  lemma PrefixNext<T>(s: seq<T>, i: int)
    requires 0 <= i < |s|
    ensures s[..i + 1] == s[..i] + [s[i]]
  {
  }

  /**
   * The `forEach` callback: creates the totals of the reflection's team on
   * first sight, then adds the reflection to them. `seen` are the reflections
   * already added; `added` lists the teams in the order they were created.
   */
  method AddToTeam(teamData: map<string, Totals>, added: seq<string>, ghost seen: seq<Reflection>, r: Reflection)
    returns (teamData': map<string, Totals>, added': seq<string>)
    requires added == Distinct(TeamsOf(seen))
    requires forall t :: t in teamData <==> t in added
    requires forall t :: t in teamData ==> teamData[t] == TotalsOf(seen, t)
    ensures added' == Distinct(TeamsOf(seen + [r]))
    ensures forall t :: t in teamData' <==> t in added'
    ensures forall t :: t in teamData' ==> teamData'[t] == TotalsOf(seen + [r], t)
  {
    var team := TeamOf(r);
    NextKeys(seen, r, teamData, added);
    teamData', added' := teamData, added;
    if team !in teamData' {
      NoMembers(seen, team);
      teamData' := teamData'[team := Totals(0, 0, 0)];
      added' := added' + [team];
    }
    var d := teamData'[team];
    NextTotals(seen, r, teamData', d);
    teamData' := teamData'[team := Totals(d.count + 1, d.totalConfidence + r.confidenceLevel,
                                          d.totalRecommendation + r.recommendationScore)];
  }

  lemma NextKeys(s: seq<Reflection>, r: Reflection, teamData: map<string, Totals>, added: seq<string>)
    requires added == Distinct(TeamsOf(s))
    requires forall t :: t in teamData <==> t in added
    ensures var added' := if TeamOf(r) in teamData then added else added + [TeamOf(r)];
      added' == Distinct(TeamsOf(s + [r]))
  {
    var team := TeamOf(r);
    assert TeamsOf(s + [r]) == TeamsOf(s) + [team];
    DistinctAppend(TeamsOf(s), team);
  }

  lemma NextTotals(s: seq<Reflection>, r: Reflection, teamData: map<string, Totals>, d: Totals)
    requires forall t :: t in teamData ==> teamData[t] == TotalsOf(s, t)
    requires d == TotalsOf(s, TeamOf(r))
    ensures var after := teamData[TeamOf(r) := Totals(d.count + 1, d.totalConfidence + r.confidenceLevel, d.totalRecommendation + r.recommendationScore)];
      forall t :: t in after ==> after[t] == TotalsOf(s + [r], t)
  {
    var team := TeamOf(r);
    var after := teamData[team := Totals(d.count + 1, d.totalConfidence + r.confidenceLevel, d.totalRecommendation + r.recommendationScore)];
    forall t | t in after ensures after[t] == TotalsOf(s + [r], t) {
      TotalsAppend(s, r, t);
    }
  }

  /** Folding `rs` into `teamData` gives, for `team`, these totals. */
  ghost function TotalsOf(rs: seq<Reflection>, team: string): Totals
    decreases |rs|
  {
    if rs == [] then Totals(0, 0, 0)
    else
      var d, r := TotalsOf(rs[..|rs| - 1], team), rs[|rs| - 1];
      if TeamOf(r) == team
      then Totals(d.count + 1, d.totalConfidence + r.confidenceLevel, d.totalRecommendation + r.recommendationScore)
      else d
  }

  lemma TotalsAppend(rs: seq<Reflection>, r: Reflection, team: string)
    ensures var d := TotalsOf(rs, team);
      TotalsOf(rs + [r], team)
        == if TeamOf(r) == team
           then Totals(d.count + 1, d.totalConfidence + r.confidenceLevel, d.totalRecommendation + r.recommendationScore)
           else d
  {
    assert (rs + [r])[..|rs|] == rs;
  }

  /** A team no reflection belongs to has nothing counted. */
  lemma {:induction false} NoMembers(rs: seq<Reflection>, team: string)
    requires team !in TeamsOf(rs)
    ensures TotalsOf(rs, team) == Totals(0, 0, 0)
    decreases |rs|
  {
    if rs != [] {
      var s := rs[..|rs| - 1];
      assert TeamsOf(s) == TeamsOf(rs)[..|rs| - 1];
      assert TeamsOf(rs)[|rs| - 1] == TeamOf(rs[|rs| - 1]);
      NoMembers(s, team);
    }
  }

  lemma MembersAppend(rs: seq<Reflection>, r: Reflection, team: string)
    ensures Members(rs + [r], team) == Members(rs, team) + (if TeamOf(r) == team then [r] else [])
  {
    FilterAppend(rs, r, InTeam(team));
  }

  lemma ScoresAppend(m: seq<Reflection>, r: Reflection)
    ensures Sum(Confidences(m + [r])) == Sum(Confidences(m)) + r.confidenceLevel
    ensures Sum(Recommendations(m + [r])) == Sum(Recommendations(m)) + r.recommendationScore
  {
    assert Confidences(m + [r]) == Confidences(m) + [r.confidenceLevel];
    assert Recommendations(m + [r]) == Recommendations(m) + [r.recommendationScore];
    SumAppend(Confidences(m), r.confidenceLevel);
    SumAppend(Recommendations(m), r.recommendationScore);
  }

  /** A team's totals count its members and add up their two scores. */
  lemma {:induction false} TotalsAreSums(rs: seq<Reflection>, team: string)
    ensures var m := Members(rs, team);
      TotalsOf(rs, team) == Totals(|m|, Sum(Confidences(m)), Sum(Recommendations(m)))
    decreases |rs|
  {
    if rs == [] {
      assert Members(rs, team) == [];
    } else {
      var s, r := rs[..|rs| - 1], rs[|rs| - 1];
      assert rs == s + [r];
      var m := Members(s, team);
      TotalsAreSums(s, team);
      TotalsAppend(s, r, team);
      MembersAppend(s, r, team);
      if TeamOf(r) == team {
        ScoresAppend(m, r);
        assert Members(s + [r], team) == m + [r];
      } else {
        assert Members(s + [r], team) == m;
      }
    }
  }

  // ---- Properties of the team table ------------------------------------------

  /** No team has two rows. */
  lemma TeamRowsDistinct(rs: seq<Reflection>)
    ensures var table := TeamTable(rs);
      forall k, l :: 0 <= k < l < |table| ==> table[k].team != table[l].team
  {
    var table, teams := TeamTable(rs), EntryKeys(TeamsOf(rs));
    forall k, l | 0 <= k < l < |table| ensures table[k].team != table[l].team {
      assert teams[k] != teams[l];
    }
  }

  /** Every reflection's team has a row (so, by `TeamRowsDistinct`, exactly one). */
  lemma EveryTeamHasRow(rs: seq<Reflection>, i: int)
    requires 0 <= i < |rs|
    ensures exists k :: 0 <= k < |TeamTable(rs)| && TeamTable(rs)[k].team == TeamOf(rs[i])
  {
    var teams := EntryKeys(TeamsOf(rs));
    assert TeamsOf(rs)[i] == TeamOf(rs[i]);
    assert TeamOf(rs[i]) in teams;
    var k :| 0 <= k < |teams| && teams[k] == TeamOf(rs[i]);
    assert TeamTable(rs)[k].team == teams[k];
  }

  /** Every row is the team of some reflection. */
  lemma EveryRowHasReflection(rs: seq<Reflection>, k: int)
    requires 0 <= k < |TeamTable(rs)|
    ensures exists i :: 0 <= i < |rs| && TeamOf(rs[i]) == TeamTable(rs)[k].team
  {
    var teams := EntryKeys(TeamsOf(rs));
    assert teams[k] in TeamsOf(rs);
    var i :| 0 <= i < |rs| && TeamsOf(rs)[i] == teams[k];
    assert TeamOf(rs[i]) == TeamTable(rs)[k].team;
  }

  /**
   * Each row counts the reflections of its team, at least one, and its
   * averages are their means to one decimal, so they lie between the team's
   * lowest and highest scores.
   */
  lemma TeamRowsAreMeans(rs: seq<Reflection>)
    ensures var table := TeamTable(rs);
      forall k :: 0 <= k < |table| ==>
        var m := Members(rs, table[k].team);
        var n, conf, rec := |m|, Confidences(m), Recommendations(m);
        && table[k].count == n > 0
        && 2 * n * table[k].avgConfidence - n <= 20 * Sum(conf) <= 2 * n * table[k].avgConfidence + n
        && 2 * n * table[k].avgRecommendation - n <= 20 * Sum(rec) <= 2 * n * table[k].avgRecommendation + n
        && 10 * Min(conf) <= table[k].avgConfidence <= 10 * Max(conf)
        && 10 * Min(rec) <= table[k].avgRecommendation <= 10 * Max(rec)
  {
    var table, teams := TeamTable(rs), EntryKeys(TeamsOf(rs));
    forall k | 0 <= k < |table|
      ensures var m := Members(rs, table[k].team);
        var n, conf, rec := |m|, Confidences(m), Recommendations(m);
        && table[k].count == n > 0
        && 2 * n * table[k].avgConfidence - n <= 20 * Sum(conf) <= 2 * n * table[k].avgConfidence + n
        && 2 * n * table[k].avgRecommendation - n <= 20 * Sum(rec) <= 2 * n * table[k].avgRecommendation + n
        && 10 * Min(conf) <= table[k].avgConfidence <= 10 * Max(conf)
        && 10 * Min(rec) <= table[k].avgRecommendation <= 10 * Max(rec)
    {
      assert teams[k] in TeamsOf(rs);
      RowIsMean(rs, teams[k]);
    }
  }

  lemma RowIsMean(rs: seq<Reflection>, team: string)
    requires team in TeamsOf(rs)
    ensures var m, row := Members(rs, team), Row(team, TotalsOf(rs, team));
      var n, conf, rec := |m|, Confidences(m), Recommendations(m);
      && row.count == n > 0
      && 2 * n * row.avgConfidence - n <= 20 * Sum(conf) <= 2 * n * row.avgConfidence + n
      && 2 * n * row.avgRecommendation - n <= 20 * Sum(rec) <= 2 * n * row.avgRecommendation + n
      && 10 * Min(conf) <= row.avgConfidence <= 10 * Max(conf)
      && 10 * Min(rec) <= row.avgRecommendation <= 10 * Max(rec)
  {
    var m := Members(rs, team);
    var i :| 0 <= i < |rs| && TeamsOf(rs)[i] == team;
    FilterCounts(rs, InTeam(team));
    assert rs[i] in multiset(rs);
    assert rs[i] in multiset(m);
    TotalsAreSums(rs, team);
    FixedAverageWithinRange(Confidences(m));
    FixedAverageWithinRange(Recommendations(m));
  }

  function Counts(table: seq<TeamMetrics>): (counts: seq<int>)
    ensures |counts| == |table|
    ensures forall k :: 0 <= k < |table| ==> counts[k] == table[k].count
  {
    seq(|table|, k requires 0 <= k < |table| => table[k].count as int)
  }

  ghost function MemberCounts(rs: seq<Reflection>, teams: seq<string>): seq<int> {
    seq(|teams|, k requires 0 <= k < |teams| => |Members(rs, teams[k])|)
  }

  /** The team sizes add up to the number of reflections. */
  lemma CountsAddUp(rs: seq<Reflection>)
    ensures Sum(Counts(TeamTable(rs))) == |rs|
  {
    var table, teams := TeamTable(rs), EntryKeys(TeamsOf(rs));
    forall k | 0 <= k < |teams| ensures table[k].count == |Members(rs, teams[k])| {
      TotalsAreSums(rs, teams[k]);
    }
    assert Counts(table) == MemberCounts(rs, teams);
    forall i | 0 <= i < |rs| ensures TeamOf(rs[i]) in teams {
      assert TeamsOf(rs)[i] == TeamOf(rs[i]);
    }
    MemberCountsCover(rs, teams);
  }

  lemma {:induction false} MemberCountsCover(rs: seq<Reflection>, teams: seq<string>)
    requires NoDuplicates(teams)
    requires forall i :: 0 <= i < |rs| ==> TeamOf(rs[i]) in teams
    ensures Sum(MemberCounts(rs, teams)) == |rs|
    decreases |rs|
  {
    if rs == [] {
      var counts := MemberCounts(rs, teams);
      SumBetween(counts, 0, 0);
    } else {
      var s, r := rs[..|rs| - 1], rs[|rs| - 1];
      assert rs == s + [r];
      MemberCountsCover(s, teams);
      MemberCountsAppend(s, r, teams);
    }
  }

  lemma {:induction false} MemberCountsAppend(rs: seq<Reflection>, r: Reflection, teams: seq<string>)
    requires NoDuplicates(teams)
    ensures Sum(MemberCounts(rs + [r], teams)) == Sum(MemberCounts(rs, teams)) + (if TeamOf(r) in teams then 1 else 0)
    decreases |teams|
  {
    if teams != [] {
      var u, t := teams[..|teams| - 1], teams[|teams| - 1];
      assert teams == u + [t];
      assert t !in u;
      MemberCountsSnoc(rs + [r], u, t);
      MemberCountsSnoc(rs, u, t);
      MemberCountsAppend(rs, r, u);
      MembersAppend(rs, r, t);
    }
  }

  lemma MemberCountsSnoc(rs: seq<Reflection>, teams: seq<string>, t: string)
    ensures Sum(MemberCounts(rs, teams + [t])) == Sum(MemberCounts(rs, teams)) + |Members(rs, t)|
  {
    assert MemberCounts(rs, teams + [t]) == MemberCounts(rs, teams) + [|Members(rs, t)|];
    SumAppend(MemberCounts(rs, teams), |Members(rs, t)|);
  }

  // ---- Overall averages --------------------------------------------------------

  /** The three figures over all reflections; the averages are `toFixed(1)` values held in tenths. */
  datatype Overview = Overview(totalResponses: nat, avgConfidence: int, avgRecommendation: int)

  /** The total and the two averages shown above the table: 0 when there are no reflections. */
  function OverallAverages(rs: seq<Reflection>): (o: Overview)
    ensures o.totalResponses == |rs|
    ensures |rs| == 0 ==> o.avgConfidence == 0 && o.avgRecommendation == 0
    ensures |rs| > 0 ==>
      var n, conf, rec := |rs|, Confidences(rs), Recommendations(rs);
      && 2 * n * o.avgConfidence - n <= 20 * Sum(conf) <= 2 * n * o.avgConfidence + n
      && 2 * n * o.avgRecommendation - n <= 20 * Sum(rec) <= 2 * n * o.avgRecommendation + n
      && 10 * Min(conf) <= o.avgConfidence <= 10 * Max(conf)
      && 10 * Min(rec) <= o.avgRecommendation <= 10 * Max(rec)
  {
    var conf, rec := Confidences(rs), Recommendations(rs);
    if |rs| == 0 then Overview(0, 0, 0)
    else
      FixedAverageWithinRange(conf);
      FixedAverageWithinRange(rec);
      Overview(|rs|, FixedAverage(conf), FixedAverage(rec))
  }

  // ---- CSV export --------------------------------------------------------------

  const CsvHeaders: seq<string> := [
    "Name", "Email", "Team", "Bootcamp Date", "Session", "Key Learnings",
    "Practical Applications", "Success Moment", "Confidence Level",
    "Recommendation Score", "Submitted At"]

  function FirstName(r: Reflection): string {
    if r.profile.Some? then r.profile.value.firstName else ""
  }

  function LastName(r: Reflection): string {
    if r.profile.Some? then r.profile.value.lastName else ""
  }

  function Email(r: Reflection): string {
    if r.profile.Some? then r.profile.value.email else ""
  }

  function ProfileTeam(r: Reflection): string {
    if r.profile.Some? then r.profile.value.team else ""
  }

  /** No comma, double quote or line break: nothing a CSV reader would take for structure. */
  predicate Clean(s: string) {
    forall k :: 0 <= k < |s| ==> s[k] != ',' && s[k] != '"' && s[k] != '\n'
  }

  /** The column names are clean. */
  lemma HeadersClean()
    ensures forall j :: 0 <= j < |CsvHeaders| ==> Clean(CsvHeaders[j])
  {
    FirstHeadersClean();
    LastHeadersClean();
  }

  lemma FirstHeadersClean()
    ensures forall j :: 0 <= j < 6 ==> Clean(CsvHeaders[j])
  {
    assert Clean(CsvHeaders[0]) && Clean(CsvHeaders[1]) && Clean(CsvHeaders[2]);
    assert Clean(CsvHeaders[3]) && Clean(CsvHeaders[4]) && Clean(CsvHeaders[5]);
  }

  lemma LastHeadersClean()
    ensures forall j :: 6 <= j < 11 ==> Clean(CsvHeaders[j])
  {
    assert Clean(CsvHeaders[6]) && Clean(CsvHeaders[7]) && Clean(CsvHeaders[8]);
    assert Clean(CsvHeaders[9]) && Clean(CsvHeaders[10]);
  }

  lemma CleanAvoids(s: string)
    requires Clean(s)
    ensures ',' !in s && '"' !in s && '\n' !in s
  {
    forall c | c in s ensures c != ',' && c != '"' && c != '\n' {
      var k :| 0 <= k < |s| && s[k] == c;
    }
  }

  /** The exported fields of a reflection, one under each header. */
  function CsvFields(r: Reflection, cal: Calendar): (fields: seq<string>)
    ensures |fields| == |CsvHeaders| == 11
  {
    [FirstName(r) + " " + LastName(r), Email(r), ProfileTeam(r), r.bootcampDate, r.bootcampSession,
     r.keyLearnings, r.practicalApplications, r.successMoment,
     IntToString(r.confidenceLevel), IntToString(r.recommendationScore), cal.localeString(r.createdAt)]
  }

  /** A field between double quotes; quotes, commas and newlines inside it are left as they are. */
  function Quote(field: string): (q: string)
    ensures |q| == |field| + 2 && q[0] == q[|q| - 1] == '"' && q[1..|q| - 1] == field
  {
    "\"" + field + "\""
  }

  function QuoteAll(fields: seq<string>): (quoted: seq<string>)
    ensures |quoted| == |fields|
    ensures forall i :: 0 <= i < |fields| ==> quoted[i] == Quote(fields[i])
  {
    seq(|fields|, i requires 0 <= i < |fields| => Quote(fields[i]))
  }

  function CsvRow(fields: seq<string>): string {
    Join(QuoteAll(fields), ",")
  }

  function CsvRows(rs: seq<Reflection>, cal: Calendar): (rows: seq<string>)
    ensures |rows| == |rs|
    ensures forall i :: 0 <= i < |rs| ==> rows[i] == CsvRow(CsvFields(rs[i], cal))
  {
    seq(|rs|, i requires 0 <= i < |rs| => CsvRow(CsvFields(rs[i], cal)))
  }

  /** The file `exportToCSV` downloads: the header line, then one line per reflection. */
  function CsvContent(rs: seq<Reflection>, cal: Calendar): string {
    Join([CsvRow(CsvHeaders)] + CsvRows(rs, cal), "\n")
  }

  /** Without a profile the name is a single space and the email and team are empty. */
  lemma CsvFieldsWithoutProfile(r: Reflection, cal: Calendar)
    requires r.profile.None?
    ensures var fields := CsvFields(r, cal);
      fields[0] == " " && fields[1] == "" && fields[2] == ""
  {
  }

  /** A row holds no character that none of its fields holds, other than quotes and commas. */
  lemma RowAvoids(fields: seq<string>, c: char)
    requires c != '"' && c != ','
    requires forall i :: 0 <= i < |fields| ==> c !in fields[i]
    ensures c !in CsvRow(fields)
  {
    var quoted := QuoteAll(fields);
    forall i | 0 <= i < |quoted| ensures c !in quoted[i] {
      assert quoted[i] == "\"" + fields[i] + "\"";
    }
    JoinAvoids(quoted, ",", c);
  }

  /**
   * When no field holds a line break, the file splits into the header line
   * followed by the reflections' lines, in order.
   */
  lemma CsvLines(rs: seq<Reflection>, cal: Calendar)
    requires forall i, j :: 0 <= i < |rs| && 0 <= j < |CsvHeaders| ==> '\n' !in CsvFields(rs[i], cal)[j]
    ensures var lines := Split(CsvContent(rs, cal), '\n');
      && |lines| == |rs| + 1
      && lines[0] == CsvRow(CsvHeaders)
      && forall i :: 0 <= i < |rs| ==> lines[i + 1] == CsvRow(CsvFields(rs[i], cal))
  {
    var rows := CsvRows(rs, cal);
    var parts := [CsvRow(CsvHeaders)] + rows;
    HeaderRowUnbroken();
    RowsUnbroken(rs, cal);
    forall k | 0 <= k < |parts| ensures '\n' !in parts[k] {
      if k > 0 {
        assert parts[k] == rows[k - 1];
      }
    }
    SplitJoin(parts, '\n');
  }

  lemma HeaderRowUnbroken()
    ensures '\n' !in CsvRow(CsvHeaders)
  {
    HeadersClean();
    forall j | 0 <= j < |CsvHeaders| ensures '\n' !in CsvHeaders[j] {
      CleanAvoids(CsvHeaders[j]);
    }
    RowAvoids(CsvHeaders, '\n');
  }

  lemma RowsUnbroken(rs: seq<Reflection>, cal: Calendar)
    requires forall i, j :: 0 <= i < |rs| && 0 <= j < |CsvHeaders| ==> '\n' !in CsvFields(rs[i], cal)[j]
    ensures forall i :: 0 <= i < |rs| ==> '\n' !in CsvRows(rs, cal)[i]
  {
    forall i | 0 <= i < |rs| ensures '\n' !in CsvRows(rs, cal)[i] {
      RowAvoids(CsvFields(rs[i], cal), '\n');
    }
  }

  /**
   * When no field holds a comma, a line splits on commas into its fields,
   * each between double quotes, in header order.
   */
  lemma CsvCells(fields: seq<string>)
    requires |fields| > 0
    requires forall i :: 0 <= i < |fields| ==> ',' !in fields[i]
    ensures var cells := Split(CsvRow(fields), ',');
      |cells| == |fields| && forall i :: 0 <= i < |fields| ==> cells[i] == Quote(fields[i])
  {
    var quoted := QuoteAll(fields);
    forall i | 0 <= i < |quoted| ensures ',' !in quoted[i] {
      assert quoted[i] == "\"" + fields[i] + "\"";
    }
    SplitJoin(quoted, ',');
  }

  /** The header line splits into the eleven quoted column names. */
  lemma CsvHeaderCells()
    ensures Split(CsvRow(CsvHeaders), ',') == QuoteAll(CsvHeaders)
  {
    HeadersClean();
    forall j | 0 <= j < |CsvHeaders| ensures ',' !in CsvHeaders[j] {
      CleanAvoids(CsvHeaders[j]);
    }
    CsvCells(CsvHeaders);
  }
}
