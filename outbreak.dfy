/**
 * The outbreak alert engine: case reports for one location inside a time
 * window are grouped by disease and counted, each disease gets a severity
 * tier, the location gets one overall alert level, and the whole is returned
 * as an alert summary.
 *
 * Timestamps are milliseconds since the epoch; "now" is a parameter.
 */
module Outbreak {
  import opened Wrappers
  import Decimal
  import opened Sequences

  /** A stored case report (the `Report` schema: disease, location, timestamps). */
  datatype Report = Report(disease: string, location: string, timestamp: nat)

  /** One output document of the aggregation: a disease, the location and its number of cases. */
  datatype DiseaseCount = DiseaseCount(disease: string, location: string, count: nat)

  /** Severity tiers, in increasing order of urgency. */
  datatype Severity = Low | Moderate | High | Critical {
    function Rank(): nat
    {
      match this
      case Low => 0
      case Moderate => 1
      case High => 2
      case Critical => 3
    }

    /** The string the controller sends. */
    function Name(): string
    {
      match this
      case Low => "LOW"
      case Moderate => "MODERATE"
      case High => "HIGH"
      case Critical => "CRITICAL"
    }
  }

  /** The trend is a fixed placeholder. */
  datatype Trend = Stable

  datatype Alert = Alert(disease: string, location: string, count: nat,
                         severity: Severity, trend: Trend, lastReported: int)

  datatype AlertSummary = AlertSummary(location: string, timeframe: string, alerts: seq<Alert>,
                                       totalReports: nat, alertLevel: Severity)

  /** The JSON body of a successful response: `success`, `data` and `message`, sent with status 200. */
  datatype AlertsResponse = AlertsResponse(status: nat, success: bool, data: AlertSummary, message: string)

  const DefaultHoursBack: nat := 24
  const MillisPerHour: nat := 3_600_000
  const CriticalThreshold: nat := 15
  const HighThreshold: nat := 10
  const ModerateThreshold: nat := 8

  // ---------------------------------------------------------------------------
  // Severity of one disease and alert level of a location

  /** `calculateSeverity`: thresholds 15, 10 and 8 are closed lower bounds. */
  function CalculateSeverity(count: nat): (s: Severity)
    ensures s == Critical <==> count >= CriticalThreshold
    ensures s == High <==> HighThreshold <= count < CriticalThreshold
    ensures s == Moderate <==> ModerateThreshold <= count < HighThreshold
    ensures s == Low <==> count < ModerateThreshold
  {
    if count >= CriticalThreshold then Critical
    else if count >= HighThreshold then High
    else if count >= ModerateThreshold then Moderate
    else Low
  }

  /** A larger count never yields a lower tier. */
  lemma SeverityMonotone(c: nat, d: nat)
    requires c <= d
    ensures CalculateSeverity(c).Rank() <= CalculateSeverity(d).Rank()
  {
  }

  /** `alerts.some(alert => alert.count >= threshold)`. */
  function SomeCountAtLeast(alerts: seq<Alert>, threshold: nat): (b: bool)
    ensures b <==> exists i :: 0 <= i < |alerts| && alerts[i].count >= threshold
  {
    if alerts == [] then false
    else alerts[0].count >= threshold || SomeCountAtLeast(alerts[1..], threshold)
  }

  /** `getOverallAlertLevel`. */
  function OverallAlertLevel(alerts: seq<Alert>): (level: Severity)
    ensures level == Critical <==> exists i :: 0 <= i < |alerts| && alerts[i].count >= CriticalThreshold
    ensures level == High <==>
              (forall i :: 0 <= i < |alerts| ==> alerts[i].count < CriticalThreshold) &&
              (exists i :: 0 <= i < |alerts| && alerts[i].count >= HighThreshold)
    ensures level == Moderate <==>
              (forall i :: 0 <= i < |alerts| ==> alerts[i].count < HighThreshold) && |alerts| > 0
    ensures level == Low <==> alerts == []
  {
    if SomeCountAtLeast(alerts, CriticalThreshold) then Critical
    else if SomeCountAtLeast(alerts, HighThreshold) then High
    else if |alerts| > 0 then Moderate
    else Low
  }

  function MaxSeverity(a: Severity, b: Severity): Severity
  {
    if a.Rank() >= b.Rank() then a else b
  }

  /** The highest tier among the alerts' counts (Low for none). */
  function WorstTier(alerts: seq<Alert>): Severity
  {
    if alerts == [] then Low
    else MaxSeverity(CalculateSeverity(alerts[0].count), WorstTier(alerts[1..]))
  }

  lemma {:induction false} WorstTierBounds(alerts: seq<Alert>)
    ensures forall i :: 0 <= i < |alerts| ==> CalculateSeverity(alerts[i].count).Rank() <= WorstTier(alerts).Rank()
    ensures alerts != [] ==> exists i :: 0 <= i < |alerts| && WorstTier(alerts) == CalculateSeverity(alerts[i].count)
  {
    if alerts != [] {
      WorstTierBounds(alerts[1..]);
      forall i | 0 <= i < |alerts|
        ensures CalculateSeverity(alerts[i].count).Rank() <= WorstTier(alerts).Rank()
      {
        if i > 0 {
          assert alerts[i] == alerts[1..][i - 1];
        }
      }
      if alerts[1..] != [] && WorstTier(alerts) != CalculateSeverity(alerts[0].count) {
        var j :| 0 <= j < |alerts[1..]| && WorstTier(alerts[1..]) == CalculateSeverity(alerts[1..][j].count);
        assert alerts[1..][j] == alerts[j + 1];
      }
    }
  }

  /**
   * The overall level is the worst tier of any alert, raised to MODERATE as
   * soon as there is any alert at all.
   */
  lemma AlertLevelIsWorstTier(alerts: seq<Alert>)
    ensures OverallAlertLevel(alerts) ==
              if alerts == [] then Low else MaxSeverity(Moderate, WorstTier(alerts))
  {
    WorstTierBounds(alerts);
  }

  /**
   * `b` dominates `a` when `b` has an alert whenever `a` has one and every
   * count in `a` is matched or exceeded by some count in `b`.
   */
  ghost predicate Dominates(b: seq<Alert>, a: seq<Alert>)
  {
    (a != [] ==> b != []) &&
    forall i :: 0 <= i < |a| ==> exists j :: 0 <= j < |b| && b[j].count >= a[i].count
  }

  /** The overall level is monotone under domination. */
  lemma AlertLevelMonotone(a: seq<Alert>, b: seq<Alert>)
    requires Dominates(b, a)
    ensures OverallAlertLevel(a).Rank() <= OverallAlertLevel(b).Rank()
  {
    if OverallAlertLevel(a) == Critical {
      var i :| 0 <= i < |a| && a[i].count >= CriticalThreshold;
      var j :| 0 <= j < |b| && b[j].count >= a[i].count;
    } else if OverallAlertLevel(a) == High {
      var i :| 0 <= i < |a| && a[i].count >= HighThreshold;
      var j :| 0 <= j < |b| && b[j].count >= a[i].count;
    }
  }

  /** Raising one alert's count never lowers the overall level. */
  lemma AlertLevelMonotoneInCount(alerts: seq<Alert>, k: nat, c: nat)
    requires k < |alerts| && alerts[k].count <= c
    ensures OverallAlertLevel(alerts).Rank() <= OverallAlertLevel(alerts[k := alerts[k].(count := c)]).Rank()
  {
    var b := alerts[k := alerts[k].(count := c)];
    forall i | 0 <= i < |alerts| ensures exists j :: 0 <= j < |b| && b[j].count >= alerts[i].count {
      assert b[i].count >= alerts[i].count;
    }
    AlertLevelMonotone(alerts, b);
  }

  /** Adding an alert, anywhere in the sequence, never lowers the overall level. */
  lemma AlertLevelMonotoneInAlerts(alerts: seq<Alert>, k: nat, x: Alert)
    requires k <= |alerts|
    ensures OverallAlertLevel(alerts).Rank() <= OverallAlertLevel(alerts[..k] + [x] + alerts[k..]).Rank()
  {
    var b := alerts[..k] + [x] + alerts[k..];
    forall i | 0 <= i < |alerts| ensures exists j :: 0 <= j < |b| && b[j].count >= alerts[i].count {
      var w := if i < k then i else i + 1;
      assert b[w] == alerts[i];
    }
    assert b[k] == x;
    AlertLevelMonotone(alerts, b);
  }

  // ---------------------------------------------------------------------------
  // The time window

  /** `req.query.hours || 24`. */
  function HoursBack(hours: Option<nat>): (h: nat)
    ensures hours.None? ==> h == DefaultHoursBack
    ensures hours.Some? ==> h == hours.value
  {
    match hours
    case None => DefaultHoursBack
    case Some(n) => n
  }

  /** The cutoff: the current time moved back by `hoursBack` hours. */
  function Cutoff(now: int, hoursBack: nat): (c: int)
    ensures c <= now
    ensures c + hoursBack * MillisPerHour == now
  {
    now - hoursBack * MillisPerHour
  }

  /** `$match`: the report is for the location and at or after the cutoff. */
  predicate Matches(r: Report, location: string, cutoff: int)
  {
    r.location == location && r.timestamp >= cutoff
  }

  /** A report falls in the window when it is at most `hoursBack` hours old (or from the future). */
  lemma InWindowIff(r: Report, location: string, now: int, hoursBack: nat)
    ensures Matches(r, location, Cutoff(now, hoursBack)) <==>
              r.location == location && now - r.timestamp <= hoursBack * MillisPerHour
  {
  }

  /**
   * `Last ${hoursBack} hours`: the number is written as a canonical numeral
   * (no leading zero) and can be read back from the text.
   */
  function Timeframe(hoursBack: nat): (t: string)
    ensures |t| > 11 && t[..5] == "Last " && t[|t| - 6..] == " hours"
    ensures Decimal.AllDigits(t[5..|t| - 6]) && Decimal.Parse(t[5..|t| - 6]) == hoursBack
    ensures |t| > 12 ==> t[5] != '0'
  {
    var digits := Decimal.Show(hoursBack);
    var t := "Last " + digits + " hours";
    assert t[5..|t| - 6] == digits;
    Decimal.ParseShow(hoursBack);
    t
  }

  // ---------------------------------------------------------------------------
  // The aggregation pipeline: $match, $group, $project, $sort

  /** The `$match` stage, keeping the reports' order. */
  function MatchStage(reports: seq<Report>, location: string, cutoff: int): (ms: seq<Report>)
    ensures forall r :: r in ms <==> r in reports && Matches(r, location, cutoff)
    ensures |ms| <= |reports|
  {
    if reports == [] then []
    else
      var last := reports[|reports| - 1];
      MatchStage(reports[..|reports| - 1], location, cutoff) + (if Matches(last, location, cutoff) then [last] else [])
  }

  /** How many of the reports name `disease`. */
  function CountDisease(ms: seq<Report>, disease: string): nat
  {
    if ms == [] then 0
    else CountDisease(ms[..|ms| - 1], disease) + (if ms[|ms| - 1].disease == disease then 1 else 0)
  }

  /** How many reports name `disease`, are for `location` and are at or after `cutoff`. */
  function CasesInWindow(reports: seq<Report>, location: string, cutoff: int, disease: string): (n: nat)
    ensures n <= |reports|
  {
    if reports == [] then 0
    else
      var last := reports[|reports| - 1];
      CasesInWindow(reports[..|reports| - 1], location, cutoff, disease) +
        (if last.disease == disease && Matches(last, location, cutoff) then 1 else 0)
  }

  /** The entry for `disease`, if the accumulated groups have one. */
  function FindDisease(gs: seq<DiseaseCount>, disease: string): (k: Option<nat>)
    ensures k.None? <==> forall i :: 0 <= i < |gs| ==> gs[i].disease != disease
    ensures k.Some? ==> k.value < |gs| && gs[k.value].disease == disease
  {
    if gs == [] then None
    else if gs[0].disease == disease then Some(0)
    else match FindDisease(gs[1..], disease)
      case None => None
      case Some(k) => Some(k + 1)
  }

  /**
   * One step of `$group`: count the report in its disease's entry, or open a
   * new entry whose location is the report's (`$first: "$location"`).
   */
  function AddToGroup(gs: seq<DiseaseCount>, r: Report): (res: seq<DiseaseCount>)
    ensures |gs| <= |res| <= |gs| + 1
    ensures exists i :: 0 <= i < |res| && res[i].disease == r.disease
    ensures forall i :: 0 <= i < |gs| && gs[i].disease != r.disease ==> res[i] == gs[i]
  {
    match FindDisease(gs, r.disease)
    case Some(k) =>
      var res := gs[k := gs[k].(count := gs[k].count + 1)];
      assert res[k].disease == r.disease;
      res
    case None =>
      var res := gs + [DiseaseCount(r.disease, r.location, 1)];
      assert res[|gs|].disease == r.disease;
      res
  }

  /** The `$group` and `$project` stages: one entry per disease, in order of first appearance. */
  function GroupStage(ms: seq<Report>): (gs: seq<DiseaseCount>)
    ensures |gs| <= |ms|
  {
    if ms == [] then [] else AddToGroup(GroupStage(ms[..|ms| - 1]), ms[|ms| - 1])
  }

  /** Insert `x` before the first entry whose count is not larger than its own. */
  function InsertByCount(x: DiseaseCount, s: seq<DiseaseCount>): (r: seq<DiseaseCount>)
    ensures |r| == |s| + 1 && x in r
  {
    if s == [] || s[0].count <= x.count then [x] + s
    else [s[0]] + InsertByCount(x, s[1..])
  }

  /** The `$sort: { count: -1 }` stage, as a stable insertion sort. */
  function SortStage(gs: seq<DiseaseCount>): (r: seq<DiseaseCount>)
    ensures |r| == |gs|
  {
    if gs == [] then [] else InsertByCount(gs[0], SortStage(gs[1..]))
  }

  /**
   * `getOutbreakCasesForLocation`: the whole pipeline. It yields exactly the
   * grouping by disease of the reports in the window, and its counts add up
   * to the number of those reports.
   */
  function Aggregate(reports: seq<Report>, location: string, cutoff: int): (gs: seq<DiseaseCount>)
    ensures IsGrouping(reports, location, cutoff, gs)
    ensures SumCounts(gs) == |MatchStage(reports, location, cutoff)|
  {
    var ms := MatchStage(reports, location, cutoff);
    var groups := GroupStage(ms);
    assert forall r :: r in ms ==> r.location == location;
    GroupStageCorrect(ms, location);
    SortStageCorrect(groups);
    SortStageDistinct(groups);
    GroupInvariantReordered(ms, location, groups, SortStage(groups));
    InvariantIsGrouping(reports, location, cutoff, SortStage(groups));
    SortStage(groups)
  }

  /** Sum of the counts (`reduce((sum, item) => sum + item.count, 0)`). */
  function SumCounts(gs: seq<DiseaseCount>): nat
  {
    if gs == [] then 0 else gs[0].count + SumCounts(gs[1..])
  }

  ghost predicate DistinctDiseases(gs: seq<DiseaseCount>)
  {
    forall i, j :: 0 <= i < j < |gs| ==> gs[i].disease != gs[j].disease
  }

  ghost predicate NonIncreasing(gs: seq<DiseaseCount>)
  {
    forall i, j :: 0 <= i < j < |gs| ==> gs[i].count >= gs[j].count
  }

  /**
   * What the aggregation promises of its output `gs`: one entry per distinct
   * disease with a case in the window, each carrying the location and the
   * number of such cases, ordered by non-increasing count.
   */
  ghost predicate IsGrouping(reports: seq<Report>, location: string, cutoff: int, gs: seq<DiseaseCount>)
  {
    && DistinctDiseases(gs)
    && NonIncreasing(gs)
    && (forall i :: 0 <= i < |gs| ==>
          gs[i].location == location && gs[i].count >= 1 &&
          gs[i].count == CasesInWindow(reports, location, cutoff, gs[i].disease))
    && (forall d :: CasesInWindow(reports, location, cutoff, d) > 0 ==>
          exists i :: 0 <= i < |gs| && gs[i].disease == d)
  }

  // Lemmas about the stages

  lemma {:induction false} CountMatchStage(reports: seq<Report>, location: string, cutoff: int, d: string)
    ensures CountDisease(MatchStage(reports, location, cutoff), d) == CasesInWindow(reports, location, cutoff, d)
  {
    if reports != [] {
      var init := reports[..|reports| - 1];
      var last := reports[|reports| - 1];
      var prev := MatchStage(init, location, cutoff);
      CountMatchStage(init, location, cutoff, d);
      if Matches(last, location, cutoff) {
        assert (prev + [last])[..|prev|] == prev;
      } else {
        assert prev + [] == prev;
      }
    }
  }

  lemma {:induction false} SumAppend(gs: seq<DiseaseCount>, x: DiseaseCount)
    ensures SumCounts(gs + [x]) == SumCounts(gs) + x.count
  {
    if gs != [] {
      assert (gs + [x])[1..] == gs[1..] + [x];
      SumAppend(gs[1..], x);
    }
  }

  lemma {:induction false} SumUpdate(gs: seq<DiseaseCount>, k: nat, x: DiseaseCount)
    requires k < |gs|
    ensures SumCounts(gs[k := x]) + gs[k].count == SumCounts(gs) + x.count
  {
    if k > 0 {
      assert gs[k := x][1..] == gs[1..][k - 1 := x];
      SumUpdate(gs[1..], k - 1, x);
    }
  }

  /** Every entry carries the location and the number of reports of its disease, at least one. */
  ghost predicate CountsMatch(ms: seq<Report>, location: string, gs: seq<DiseaseCount>)
  {
    forall i :: 0 <= i < |gs| ==>
      gs[i].location == location && gs[i].count >= 1 && gs[i].count == CountDisease(ms, gs[i].disease)
  }

  /** Every disease among the reports has an entry. */
  ghost predicate Covers(ms: seq<Report>, gs: seq<DiseaseCount>)
  {
    forall d :: CountDisease(ms, d) > 0 ==> exists i :: 0 <= i < |gs| && gs[i].disease == d
  }

  /** What the grouping stage keeps true of the reports `ms` it has seen so far. */
  ghost predicate GroupInvariant(ms: seq<Report>, location: string, gs: seq<DiseaseCount>)
  {
    DistinctDiseases(gs) && CountsMatch(ms, location, gs) && Covers(ms, gs) && SumCounts(gs) == |ms|
  }

  lemma CountDiseaseStep(ms: seq<Report>, r: Report, d: string)
    ensures CountDisease(ms + [r], d) == CountDisease(ms, d) + (if r.disease == d then 1 else 0)
  {
    assert (ms + [r])[..|ms|] == ms;
  }

  lemma ExistingGroupCounts(ms: seq<Report>, location: string, gs: seq<DiseaseCount>, r: Report, k: nat)
    requires DistinctDiseases(gs) && CountsMatch(ms, location, gs)
    requires k < |gs| && gs[k].disease == r.disease
    ensures CountsMatch(ms + [r], location, gs[k := gs[k].(count := gs[k].count + 1)])
  {
    var gs' := gs[k := gs[k].(count := gs[k].count + 1)];
    forall i | 0 <= i < |gs'|
      ensures gs'[i].location == location && gs'[i].count >= 1 && gs'[i].count == CountDisease(ms + [r], gs'[i].disease)
    {
      CountDiseaseStep(ms, r, gs'[i].disease);
    }
  }

  lemma ExistingGroupCovers(ms: seq<Report>, gs: seq<DiseaseCount>, r: Report, k: nat)
    requires Covers(ms, gs)
    requires k < |gs| && gs[k].disease == r.disease
    ensures Covers(ms + [r], gs[k := gs[k].(count := gs[k].count + 1)])
  {
    var gs' := gs[k := gs[k].(count := gs[k].count + 1)];
    forall d | CountDisease(ms + [r], d) > 0 ensures exists i :: 0 <= i < |gs'| && gs'[i].disease == d {
      CountDiseaseStep(ms, r, d);
      if d == r.disease {
        assert gs'[k].disease == d;
      } else {
        var i :| 0 <= i < |gs| && gs[i].disease == d;
        assert gs'[i].disease == d;
      }
    }
  }

  /** One report counted into an existing entry keeps the invariant. */
  lemma AddToExistingGroup(ms: seq<Report>, location: string, gs: seq<DiseaseCount>, r: Report, k: nat)
    requires GroupInvariant(ms, location, gs)
    requires k < |gs| && gs[k].disease == r.disease
    ensures GroupInvariant(ms + [r], location, gs[k := gs[k].(count := gs[k].count + 1)])
  {
    var gs' := gs[k := gs[k].(count := gs[k].count + 1)];
    assert forall i :: 0 <= i < |gs| ==> gs'[i].disease == gs[i].disease;
    ExistingGroupCounts(ms, location, gs, r, k);
    ExistingGroupCovers(ms, gs, r, k);
    SumUpdate(gs, k, gs[k].(count := gs[k].count + 1));
  }

  lemma NewGroupCounts(ms: seq<Report>, location: string, gs: seq<DiseaseCount>, r: Report)
    requires CountsMatch(ms, location, gs)
    requires r.location == location && CountDisease(ms, r.disease) == 0
    requires forall i :: 0 <= i < |gs| ==> gs[i].disease != r.disease
    ensures CountsMatch(ms + [r], location, gs + [DiseaseCount(r.disease, r.location, 1)])
  {
    var gs' := gs + [DiseaseCount(r.disease, r.location, 1)];
    forall i | 0 <= i < |gs'|
      ensures gs'[i].location == location && gs'[i].count >= 1 && gs'[i].count == CountDisease(ms + [r], gs'[i].disease)
    {
      CountDiseaseStep(ms, r, gs'[i].disease);
    }
  }

  lemma NewGroupCovers(ms: seq<Report>, gs: seq<DiseaseCount>, r: Report)
    requires Covers(ms, gs)
    ensures Covers(ms + [r], gs + [DiseaseCount(r.disease, r.location, 1)])
  {
    var gs' := gs + [DiseaseCount(r.disease, r.location, 1)];
    forall d | CountDisease(ms + [r], d) > 0 ensures exists i :: 0 <= i < |gs'| && gs'[i].disease == d {
      CountDiseaseStep(ms, r, d);
      if d == r.disease {
        assert gs'[|gs|].disease == d;
      } else {
        var i :| 0 <= i < |gs| && gs[i].disease == d;
        assert gs'[i].disease == d;
      }
    }
  }

  lemma NewGroupDistinct(gs: seq<DiseaseCount>, x: DiseaseCount)
    requires DistinctDiseases(gs)
    requires forall i :: 0 <= i < |gs| ==> gs[i].disease != x.disease
    ensures DistinctDiseases(gs + [x])
  {
  }

  /** A report of a disease not seen yet opens a new entry and keeps the invariant. */
  lemma AddNewGroup(ms: seq<Report>, location: string, gs: seq<DiseaseCount>, r: Report)
    requires GroupInvariant(ms, location, gs)
    requires r.location == location
    requires forall i :: 0 <= i < |gs| ==> gs[i].disease != r.disease
    ensures GroupInvariant(ms + [r], location, gs + [DiseaseCount(r.disease, r.location, 1)])
  {
    var x := DiseaseCount(r.disease, r.location, 1);
    assert CountDisease(ms, r.disease) == 0;
    NewGroupDistinct(gs, x);
    NewGroupCounts(ms, location, gs, r);
    NewGroupCovers(ms, gs, r);
    SumAppend(gs, x);
  }

  /** The grouping of reports that all carry `location`. */
  lemma {:induction false} GroupStageCorrect(ms: seq<Report>, location: string)
    requires forall r :: r in ms ==> r.location == location
    ensures GroupInvariant(ms, location, GroupStage(ms))
  {
    if ms != [] {
      var init := ms[..|ms| - 1];
      var r := ms[|ms| - 1];
      assert ms == init + [r];
      forall q | q in init ensures q.location == location {
        assert q in ms;
      }
      GroupStageCorrect(init, location);
      var prev := GroupStage(init);
      assert GroupStage(ms) == AddToGroup(prev, r);
      match FindDisease(prev, r.disease)
      case Some(k) => AddToExistingGroup(init, location, prev, r, k);
      case None => AddNewGroup(init, location, prev, r);
    }
  }

  lemma {:induction false} InsertByCountPermutes(x: DiseaseCount, s: seq<DiseaseCount>)
    ensures multiset(InsertByCount(x, s)) == multiset(s) + multiset{x}
    ensures SumCounts(InsertByCount(x, s)) == SumCounts(s) + x.count
  {
    if s != [] && s[0].count > x.count {
      InsertByCountPermutes(x, s[1..]);
      assert s == [s[0]] + s[1..];
    }
  }

  lemma {:induction false} InsertByCountSorted(x: DiseaseCount, s: seq<DiseaseCount>)
    requires NonIncreasing(s)
    ensures NonIncreasing(InsertByCount(x, s))
  {
    if s != [] && s[0].count > x.count {
      var rest := InsertByCount(x, s[1..]);
      InsertByCountSorted(x, s[1..]);
      assert rest[0].count <= s[0].count by {
        if s[1..] != [] && s[1..][0].count > x.count {
          assert rest[0] == s[1];
        }
      }
      var t := [s[0]] + rest;
      forall i, j | 0 <= i < j < |t| ensures t[i].count >= t[j].count {
        if i == 0 && j > 1 {
          assert rest[0].count >= rest[j - 1].count;
        }
      }
    }
  }

  lemma DistinctTail(s: seq<DiseaseCount>)
    requires s != [] && DistinctDiseases(s)
    ensures DistinctDiseases(s[1..])
  {
    forall i, j | 0 <= i < j < |s[1..]| ensures s[1..][i].disease != s[1..][j].disease {
      assert s[1..][i] == s[i + 1] && s[1..][j] == s[j + 1];
    }
  }

  /** The entries after an insertion are the inserted one and the old ones. */
  lemma {:induction false} InsertByCountMembers(x: DiseaseCount, s: seq<DiseaseCount>)
    ensures forall e :: e in InsertByCount(x, s) <==> e == x || e in s
  {
    if s != [] && s[0].count > x.count {
      InsertByCountMembers(x, s[1..]);
      assert s == [s[0]] + s[1..];
    }
  }

  lemma {:induction false} InsertByCountDistinct(x: DiseaseCount, s: seq<DiseaseCount>)
    requires DistinctDiseases(s)
    requires forall e :: e in s ==> e.disease != x.disease
    ensures DistinctDiseases(InsertByCount(x, s))
  {
    if s != [] && s[0].count > x.count {
      var rest := InsertByCount(x, s[1..]);
      DistinctTail(s);
      InsertByCountDistinct(x, s[1..]);
      InsertByCountMembers(x, s[1..]);
      forall j | 0 <= j < |rest| ensures s[0].disease != rest[j].disease {
        assert rest[j] in rest;
        if rest[j] != x {
          var m :| 0 <= m < |s[1..]| && s[1..][m] == rest[j];
          assert s[m + 1] == rest[j];
        }
      }
      var t := [s[0]] + rest;
      forall i, j | 0 <= i < j < |t| ensures t[i].disease != t[j].disease {
        if i > 0 {
          assert t[i] == rest[i - 1] && t[j] == rest[j - 1];
        }
      }
    }
  }

  lemma {:induction false} SortStageCorrect(gs: seq<DiseaseCount>)
    ensures multiset(SortStage(gs)) == multiset(gs)
    ensures SumCounts(SortStage(gs)) == SumCounts(gs)
    ensures NonIncreasing(SortStage(gs))
  {
    if gs != [] {
      var rest := SortStage(gs[1..]);
      SortStageCorrect(gs[1..]);
      InsertByCountPermutes(gs[0], rest);
      InsertByCountSorted(gs[0], rest);
      assert gs == [gs[0]] + gs[1..];
    }
  }

  lemma {:induction false} SortStageDistinct(gs: seq<DiseaseCount>)
    requires DistinctDiseases(gs)
    ensures DistinctDiseases(SortStage(gs))
  {
    if gs != [] {
      var rest := SortStage(gs[1..]);
      DistinctTail(gs);
      SortStageDistinct(gs[1..]);
      SortStageCorrect(gs[1..]);
      forall e | e in rest ensures e.disease != gs[0].disease {
        assert e in multiset(gs[1..]);
        var m :| 0 <= m < |gs[1..]| && gs[1..][m] == e;
        assert gs[m + 1] == e;
      }
      InsertByCountDistinct(gs[0], rest);
    }
  }

  /** Reordering the groups, without changing which entries there are, keeps the invariant. */
  lemma GroupInvariantReordered(ms: seq<Report>, location: string, gs: seq<DiseaseCount>, t: seq<DiseaseCount>)
    requires GroupInvariant(ms, location, gs)
    requires multiset(t) == multiset(gs) && SumCounts(t) == SumCounts(gs) && DistinctDiseases(t)
    ensures GroupInvariant(ms, location, t)
  {
    forall i | 0 <= i < |t|
      ensures t[i].location == location && t[i].count >= 1 && t[i].count == CountDisease(ms, t[i].disease)
    {
      assert t[i] in multiset(gs);
    }
    forall d | CountDisease(ms, d) > 0 ensures exists i :: 0 <= i < |t| && t[i].disease == d {
      var j :| 0 <= j < |gs| && gs[j].disease == d;
      assert gs[j] in multiset(t);
    }
  }

  /** Groups of the matched reports, sorted, are the grouping the aggregation promises. */
  lemma InvariantIsGrouping(reports: seq<Report>, location: string, cutoff: int, gs: seq<DiseaseCount>)
    requires GroupInvariant(MatchStage(reports, location, cutoff), location, gs) && NonIncreasing(gs)
    ensures IsGrouping(reports, location, cutoff, gs)
  {
    var ms := MatchStage(reports, location, cutoff);
    forall d ensures CountDisease(ms, d) == CasesInWindow(reports, location, cutoff, d) {
      CountMatchStage(reports, location, cutoff, d);
    }
  }

  /** Widening the window never lowers the number of cases of any disease. */
  lemma {:induction false} CasesMonotoneInWindow(reports: seq<Report>, location: string, now: int,
                                                 h1: nat, h2: nat, d: string)
    requires h1 <= h2
    ensures CasesInWindow(reports, location, Cutoff(now, h1), d) <= CasesInWindow(reports, location, Cutoff(now, h2), d)
  {
    if reports != [] {
      assert h1 * MillisPerHour <= h2 * MillisPerHour;
      CasesMonotoneInWindow(reports[..|reports| - 1], location, now, h1, h2, d);
    }
  }

  // ---------------------------------------------------------------------------
  // Alert and summary assembly

  /** The entry an alert was made from. */
  function EntryOf(a: Alert): DiseaseCount
  {
    DiseaseCount(a.disease, a.location, a.count)
  }

  function Entries(alerts: seq<Alert>): (gs: seq<DiseaseCount>)
    ensures |gs| == |alerts|
    ensures forall i :: 0 <= i < |alerts| ==> gs[i] == EntryOf(alerts[i])
  {
    if alerts == [] then [] else [EntryOf(alerts[0])] + Entries(alerts[1..])
  }

  /**
   * `filter(item => item.count >= 1)`: every occurrence of an entry with a
   * case is kept, every other entry is dropped, and the order is kept.
   */
  function WithCases(gs: seq<DiseaseCount>): (r: seq<DiseaseCount>)
    ensures forall x :: multiset(r)[x] == if x.count >= 1 then multiset(gs)[x] else 0
    ensures IsSubsequence(r, gs)
    ensures (forall i :: 0 <= i < |gs| ==> gs[i].count >= 1) ==> r == gs
  {
    if gs == [] then []
    else
      var init := gs[..|gs| - 1];
      var last := gs[|gs| - 1];
      var rest := WithCases(init);
      assert gs == init + [last];
      SubsequenceSnoc(rest, init, last);
      assert multiset(gs) == multiset(init) + multiset{last};
      if last.count >= 1 then
        assert multiset(rest + [last]) == multiset(rest) + multiset{last};
        rest + [last]
      else rest
  }

  /**
   * The `.map(...)` step over entries already filtered: entry `i` becomes an
   * alert stamped with `clock(first + i)`, the time its own `new Date()` reads.
   */
  function AlertsFrom(es: seq<DiseaseCount>, clock: nat -> int, first: nat): (alerts: seq<Alert>)
    ensures |alerts| == |es|
    ensures forall i :: 0 <= i < |es| ==>
              alerts[i] == Alert(es[i].disease, es[i].location, es[i].count,
                                 CalculateSeverity(es[i].count), Stable, clock(first + i))
  {
    if es == [] then []
    else
      [Alert(es[0].disease, es[0].location, es[0].count, CalculateSeverity(es[0].count), Stable, clock(first))]
      + AlertsFrom(es[1..], clock, first + 1)
  }

  /**
   * `outbreakData.filter(item => item.count >= 1).map(...)`: the alerts are
   * the entries with at least one case, in order, each with its severity,
   * the STABLE placeholder trend and, as `lastReported`, the clock reading
   * taken when that alert was built (`clock(i)` for the `i`-th alert).
   */
  function MakeAlerts(gs: seq<DiseaseCount>, clock: nat -> int): (alerts: seq<Alert>)
    ensures Entries(alerts) == WithCases(gs)
    ensures forall i :: 0 <= i < |alerts| ==>
              alerts[i].severity == CalculateSeverity(alerts[i].count) &&
              alerts[i].trend == Stable && alerts[i].lastReported == clock(i)
  {
    AlertsFrom(WithCases(gs), clock, 0)
  }

  lemma {:induction false} SumWithCases(gs: seq<DiseaseCount>)
    ensures SumCounts(WithCases(gs)) <= SumCounts(gs)
  {
    if gs != [] {
      var init := gs[..|gs| - 1];
      var last := gs[|gs| - 1];
      assert gs == init + [last];
      SumWithCases(init);
      SumAppend(init, last);
      if last.count >= 1 {
        SumAppend(WithCases(init), last);
      }
    }
  }

  /** `totalReports` covers every grouped entry, so it is never less than the alerts' own sum. */
  lemma TotalCoversAlerts(gs: seq<DiseaseCount>, clock: nat -> int)
    ensures SumCounts(Entries(MakeAlerts(gs, clock))) <= SumCounts(gs)
  {
    SumWithCases(gs);
  }

  /**
   * `getAlerts` for a location and the optional `hours` query value. `now` is
   * the time read for the cutoff; `clock(i)` is the separate reading taken
   * when the `i`-th alert is built.
   */
  function GetAlerts(reports: seq<Report>, location: string, hours: Option<nat>, now: int, clock: nat -> int)
    : (resp: AlertsResponse)
    ensures resp.status == 200 && resp.success && resp.message == "Alerts fetched successfully"
    ensures resp.data.location == location
    ensures resp.data.timeframe == Timeframe(HoursBack(hours))
    ensures IsGrouping(reports, location, Cutoff(now, HoursBack(hours)), Entries(resp.data.alerts))
    ensures forall i :: 0 <= i < |resp.data.alerts| ==>
              resp.data.alerts[i].severity == CalculateSeverity(resp.data.alerts[i].count) &&
              resp.data.alerts[i].trend == Stable && resp.data.alerts[i].lastReported == clock(i)
    ensures resp.data.totalReports == |MatchStage(reports, location, Cutoff(now, HoursBack(hours)))|
    ensures resp.data.alertLevel == OverallAlertLevel(resp.data.alerts)
  {
    var hoursBack := HoursBack(hours);
    var cutoff := Cutoff(now, hoursBack);
    var data := Aggregate(reports, location, cutoff);
    var alerts := MakeAlerts(data, clock);
    assert Entries(alerts) == data;
    var summary := AlertSummary(location, Timeframe(hoursBack), alerts, SumCounts(data), OverallAlertLevel(alerts));
    AlertsResponse(200, true, summary, "Alerts fetched successfully")
  }
}
