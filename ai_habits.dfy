/** AIService.analyzeHabits and AIService.generateHabitRecommendations:
    weekday consistency, day-to-day streaks, an efficiency trend, and the
    advice assembled from them. */
module Habits {
  import opened Common
  import opened Dict
  import opened Records
  import opened PatternAnalysis

  // ---- Consistency -------------------------------------------------------

  datatype Consistency = Consistency(averageDaysPerWeek: real, mostFrequentDay: string, leastFrequentDay: string)

  function OnLabel(cal: Calendar, day: string): Activity -> bool
  {
    (a: Activity) => cal.weekdayName(a.startTime) == day
  }

  /** `dayCount` for the first n weekday labels. */
  function DayCounts(xs: seq<Activity>, cal: Calendar, n: nat): (r: seq<int>)
    requires n <= 7
    ensures |r| == n
    ensures forall d :: 0 <= d < n ==> r[d] == |Filter(xs, OnLabel(cal, WeekDays[d]))|
  {
    if n == 0 then [] else DayCounts(xs, cal, n - 1) + [|Filter(xs, OnLabel(cal, WeekDays[n - 1]))|]
  }

  /** Math.max(...s). */
  function MaxOf(s: seq<int>): (m: int)
    requires |s| > 0
    ensures m in s && forall i :: 0 <= i < |s| ==> s[i] <= m
  {
    if |s| == 1 then s[0] else Max(MaxOf(s[..|s| - 1]), s[|s| - 1])
  }

  /** Math.min(...s). */
  function MinOf(s: seq<int>): (m: int)
    requires |s| > 0
    ensures m in s && forall i :: 0 <= i < |s| ==> m <= s[i]
  {
    if |s| == 1 then s[0] else Min(MinOf(s[..|s| - 1]), s[|s| - 1])
  }

  /** Array.prototype.indexOf: the first index holding x, or -1. */
  function IndexOf(s: seq<int>, x: int): (i: int)
    ensures -1 <= i < |s|
    ensures i >= 0 ==> s[i] == x && forall j :: 0 <= j < i ==> s[j] != x
    ensures i == -1 <==> x !in s
  {
    if s == [] then -1
    else if s[0] == x then 0
    else
      var j := IndexOf(s[1..], x);
      assert x in s[1..] ==> x in s;
      assert x in s && s[0] != x ==> x in s[1..];
      if j == -1 then -1 else j + 1
  }

  function ConsistencyOf(acts: seq<Activity>, cal: Calendar, t: ActivityType): Consistency
  {
    var counts := DayCounts(OfType(acts, t.id), cal, 7);
    Consistency(
      SumInts(counts) as real / 7.0,
      WeekDays[IndexOf(counts, MaxOf(counts))],
      WeekDays[IndexOf(counts, MinOf(counts))])
  }

  function ConsistencyFn(acts: seq<Activity>, cal: Calendar): ActivityType -> Consistency
  {
    t => ConsistencyOf(acts, cal, t)
  }

  /** `indexOf(Math.max(...s))` is the first index holding the largest value. */
  lemma FirstMax(s: seq<int>)
    requires |s| > 0
    ensures var i := IndexOf(s, MaxOf(s));
      0 <= i < |s| && (forall j :: 0 <= j < |s| ==> s[j] <= s[i]) && (forall j :: 0 <= j < i ==> s[j] < s[i])
  {
  }

  /** `indexOf(Math.min(...s))` is the first index holding the smallest value. */
  lemma FirstMin(s: seq<int>)
    requires |s| > 0
    ensures var i := IndexOf(s, MinOf(s));
      0 <= i < |s| && (forall j :: 0 <= j < |s| ==> s[i] <= s[j]) && (forall j :: 0 <= j < i ==> s[i] < s[j])
  {
  }

  /** The two days of the entry are the labels at the indices `indexOf` finds. */
  lemma ConsistencyDays(acts: seq<Activity>, cal: Calendar, t: ActivityType)
    ensures var counts := DayCounts(OfType(acts, t.id), cal, 7);
      && ConsistencyOf(acts, cal, t).mostFrequentDay == WeekDays[IndexOf(counts, MaxOf(counts))]
      && ConsistencyOf(acts, cal, t).leastFrequentDay == WeekDays[IndexOf(counts, MinOf(counts))]
  {
  }

  /** The most frequent day is the first label whose count (DayCounts: the
      type's records formatted as that label) is the largest. */
  lemma MostFrequentDay(acts: seq<Activity>, cal: Calendar, t: ActivityType)
    ensures var counts := DayCounts(OfType(acts, t.id), cal, 7);
      exists i :: (0 <= i < 7 && ConsistencyOf(acts, cal, t).mostFrequentDay == WeekDays[i]
        && (forall d :: 0 <= d < 7 ==> counts[d] <= counts[i])
        && (forall d :: 0 <= d < i ==> counts[d] < counts[i]))
  {
    var counts := DayCounts(OfType(acts, t.id), cal, 7);
    FirstMax(counts);
    ConsistencyDays(acts, cal, t);
  }

  /** The least frequent day is the first label whose count is the smallest. */
  lemma LeastFrequentDay(acts: seq<Activity>, cal: Calendar, t: ActivityType)
    ensures var counts := DayCounts(OfType(acts, t.id), cal, 7);
      exists i :: (0 <= i < 7 && ConsistencyOf(acts, cal, t).leastFrequentDay == WeekDays[i]
        && (forall d :: 0 <= d < 7 ==> counts[i] <= counts[d])
        && (forall d :: 0 <= d < i ==> counts[i] < counts[d]))
  {
    var counts := DayCounts(OfType(acts, t.id), cal, 7);
    FirstMin(counts);
    ConsistencyDays(acts, cal, t);
  }

  /** The average is the number of the type's records carrying one of the
      seven labels, divided by 7: it counts records, not distinct days. */
  lemma AverageDaysPerWeek(acts: seq<Activity>, cal: Calendar, t: ActivityType)
    ensures ConsistencyOf(acts, cal, t).averageDaysPerWeek
      == |Filter(OfType(acts, t.id), HasWeekLabel(cal))| as real / 7.0
  {
    DayCountsTotal(OfType(acts, t.id), cal);
  }

  function HasWeekLabel(cal: Calendar): Activity -> bool
  {
    (a: Activity) => cal.weekdayName(a.startTime) in WeekDays
  }

  lemma {:induction false} DayCountsEmpty(cal: Calendar, n: nat)
    requires n <= 7
    ensures SumInts(DayCounts([], cal, n)) == 0
  {
    if n > 0 {
      DayCountsEmpty(cal, n - 1);
      var a := DayCounts([], cal, n - 1);
      assert (a + [0])[..|a|] == a;
    }
  }

  /** The last label of the first n is not among the first n - 1. */
  lemma LabelsSplit(n: nat, day: string)
    requires 0 < n <= 7
    ensures day in WeekDays[..n] <==> day in WeekDays[..n - 1] || day == WeekDays[n - 1]
    ensures day == WeekDays[n - 1] ==> day !in WeekDays[..n - 1]
  {
    WeekDaysDistinct();
    assert WeekDays[..n] == WeekDays[..n - 1] + [WeekDays[n - 1]];
  }

  lemma SumSnoc(s: seq<int>, x: int)
    ensures SumInts(s + [x]) == SumInts(s) + x
  {
    assert (s + [x])[..|s|] == s;
  }

  /** One more record raises exactly the count of its own label. */
  lemma {:induction false} DayCountsSnoc(xs: seq<Activity>, a: Activity, cal: Calendar, n: nat)
    requires n <= 7
    ensures SumInts(DayCounts(xs + [a], cal, n))
      == SumInts(DayCounts(xs, cal, n)) + if cal.weekdayName(a.startTime) in WeekDays[..n] then 1 else 0
  {
    if n > 0 {
      DayCountsSnoc(xs, a, cal, n - 1);
      var p := OnLabel(cal, WeekDays[n - 1]);
      FilterSnoc(xs, a, p);
      SumSnoc(DayCounts(xs + [a], cal, n - 1), |Filter(xs + [a], p)|);
      SumSnoc(DayCounts(xs, cal, n - 1), |Filter(xs, p)|);
      LabelsSplit(n, cal.weekdayName(a.startTime));
    }
  }

  /** `averageDaysPerWeek` counts records, not days: the day counts add up to
      the number of the type's records whose formatted weekday is one of the
      seven labels. */
  lemma {:induction false} DayCountsTotal(xs: seq<Activity>, cal: Calendar)
    ensures SumInts(DayCounts(xs, cal, 7)) == |Filter(xs, HasWeekLabel(cal))|
  {
    if xs == [] {
      DayCountsEmpty(cal, 7);
    } else {
      var init := xs[..|xs| - 1];
      var a := xs[|xs| - 1];
      assert xs == init + [a];
      DayCountsTotal(init, cal);
      DayCountsSnoc(init, a, cal, 7);
      assert WeekDays[..7] == WeekDays;
      FilterSnoc(init, a, HasWeekLabel(cal));
    }
  }

  /** When the formatter never yields one of the seven labels (zh-CN 'EEEE'
      gives '星期日'…'星期六', not '周日'…'周六'), every day count is 0, both
      days are '周日' and the average is 0. */
  lemma WideNamesNeverCounted(acts: seq<Activity>, cal: Calendar, t: ActivityType)
    requires forall x :: cal.weekdayName(x) !in WeekDays
    ensures forall d :: 0 <= d < 7 ==> DayCounts(OfType(acts, t.id), cal, 7)[d] == 0
    ensures ConsistencyOf(acts, cal, t) == Consistency(0.0, "周日", "周日")
  {
    var xs := OfType(acts, t.id);
    var counts := DayCounts(xs, cal, 7);
    forall d | 0 <= d < 7
      ensures counts[d] == 0
    {
      FilterNone(xs, OnLabel(cal, WeekDays[d]));
    }
    assert MaxOf(counts) == 0 && MinOf(counts) == 0;
    assert IndexOf(counts, 0) == 0;
    FilterNone(xs, HasWeekLabel(cal));
    DayCountsTotal(xs, cal);
  }

  /** When every formatted weekday is one of the seven labels (zh-CN 'EEE'),
      each of the type's records is counted on exactly one day: the counts add
      up to the number of its records. */
  lemma LabelledNamesAllCounted(acts: seq<Activity>, cal: Calendar, t: ActivityType)
    requires forall x :: cal.weekdayName(x) in WeekDays
    ensures SumInts(DayCounts(OfType(acts, t.id), cal, 7)) == |OfType(acts, t.id)|
    ensures ConsistencyOf(acts, cal, t).averageDaysPerWeek == |OfType(acts, t.id)| as real / 7.0
  {
    var xs := OfType(acts, t.id);
    FilterAll(xs, HasWeekLabel(cal));
    DayCountsTotal(xs, cal);
  }

  // ---- Streaks -------------------------------------------------------------

  datatype Streak = Streak(currentStreak: int, maxStreak: int)

  /** currentStreak, maxStreak and lastDate during the scan. */
  datatype ScanState = ScanState(current: int, maxStreak: int, last: Option<int>)

  /** One record of the scan. `/` on a positive divisor rounds down, as Math.floor does. */
  function StreakStep(s: ScanState, a: Activity): ScanState
  {
    if s.last.Some? then
      if (a.startTime - s.last.value) / DayMs == 1 then
        ScanState(s.current + 1, Max(s.maxStreak, s.current + 1), Some(a.startTime))
      else
        ScanState(1, s.maxStreak, Some(a.startTime))
    else
      ScanState(1, s.maxStreak, Some(a.startTime))
  }

  function StreakScan(xs: seq<Activity>): ScanState
  {
    if xs == [] then ScanState(0, 0, None) else StreakStep(StreakScan(xs[..|xs| - 1]), xs[|xs| - 1])
  }

  /** The type's records in start-time order. */
  function SortedOfType(acts: seq<Activity>, id: int): seq<Activity>
  {
    SortBy(OfType(acts, id), StartOf)
  }

  function StreakOf(acts: seq<Activity>, t: ActivityType): Streak
  {
    var s := StreakScan(SortedOfType(acts, t.id));
    Streak(s.current, s.maxStreak)
  }

  function StreakFn(acts: seq<Activity>): ActivityType -> Streak
  {
    t => StreakOf(acts, t)
  }

  /** The `typeActivities.forEach` scan. */
  method ScanStreak(xs: seq<Activity>) returns (currentStreak: int, maxStreak: int)
    ensures currentStreak == StreakScan(xs).current && maxStreak == StreakScan(xs).maxStreak
    ensures xs == [] <==> currentStreak == 0
    ensures currentStreak <= Max(maxStreak, 1)
  {
    currentStreak, maxStreak := 0, 0;
    var lastDate: Option<int> := None;
    for i := 0 to |xs|
      invariant ScanState(currentStreak, maxStreak, lastDate) == StreakScan(xs[..i])
    {
      var activityDate := xs[i].startTime;
      if lastDate.Some? {
        var dayDiff := (activityDate - lastDate.value) / DayMs;
        if dayDiff == 1 {
          currentStreak := currentStreak + 1;
          maxStreak := Max(maxStreak, currentStreak);
        } else {
          currentStreak := 1;
        }
      } else {
        currentStreak := 1;
      }
      lastDate := Some(activityDate);
      assert xs[..i + 1][..i] == xs[..i];
    }
    assert xs[..|xs|] == xs;
    StreakBounds(xs);
  }

  /** The current streak is 0 exactly for no records and otherwise at least
      1; it never exceeds max(maxStreak, 1); the maximum is 0 until the
      first increment and at least 2 afterwards; neither exceeds the count. */
  lemma {:induction false} StreakBounds(xs: seq<Activity>)
    ensures var s := StreakScan(xs);
      && (xs == [] <==> s.current == 0)
      && 0 <= s.current <= Max(s.maxStreak, 1)
      && (s.maxStreak == 0 || s.maxStreak >= 2)
      && s.current <= |xs| && s.maxStreak <= |xs|
      && (xs == [] <==> s.last.None?)
  {
    if xs != [] {
      StreakBounds(xs[..|xs| - 1]);
    }
  }

  /** A single record gives a current streak of 1 and a maximum of 0. */
  lemma SingleRecordStreak(a: Activity)
    ensures StreakScan([a]) == ScanState(1, 0, Some(a.startTime))
  {
    assert [a][..0] == [];
  }

  /** Each start falls on the day after the previous one. */
  ghost predicate DailyChain(xs: seq<Activity>)
  {
    forall k :: 0 <= k < |xs| - 1 ==> (xs[k + 1].startTime - xs[k].startTime) / DayMs == 1
  }

  /** n >= 2 records on consecutive days give (n, n). */
  lemma {:induction false} ConsecutiveDays(xs: seq<Activity>)
    requires |xs| >= 1 && DailyChain(xs)
    ensures StreakScan(xs).current == |xs|
    ensures StreakScan(xs).maxStreak == if |xs| >= 2 then |xs| else 0
    ensures StreakScan(xs).last == Some(xs[|xs| - 1].startTime)
  {
    if |xs| == 1 {
      SingleRecordStreak(xs[0]);
      assert xs == [xs[0]];
    } else {
      var init := xs[..|xs| - 1];
      assert DailyChain(init) by {
        forall k | 0 <= k < |init| - 1 ensures (init[k + 1].startTime - init[k].startTime) / DayMs == 1 {
          assert init[k] == xs[k] && init[k + 1] == xs[k + 1];
        }
      }
      ConsecutiveDays(init);
      assert init[|init| - 1] == xs[|xs| - 2];
    }
  }

  // ---- Efficiency trend ------------------------------------------------------

  datatype Trend = Improving | Declining

  datatype Improvement = Improvement(efficiencyChange: real, trend: Trend)

  /** Over sorted records: the first five (or fewer) summed and divided by 5
      always, against the last five averaged over their own count. */
  function ImprovementOf(xs: seq<Activity>): (r: Option<Improvement>)
    ensures r.Some? <==> |xs| >= 2
    ensures r.Some? ==> (r.value.trend == Improving <==> r.value.efficiencyChange > 0.0)
  {
    if |xs| >= 2 then
      var k := Min(5, |xs|);
      var recent := xs[|xs| - k..];
      var oldEfficiency := TotalScore(xs[..k]) as real / 5.0;
      var newEfficiency := TotalScore(recent) as real / |recent| as real;
      Some(Improvement(newEfficiency - oldEfficiency, if newEfficiency > oldEfficiency then Improving else Declining))
    else None
  }

  /** The fixed divisor 5 understates the old mean of a short history: with
      two to four records of one positive score the trend reads as improving. */
  lemma ShortUniformHistoryImproves(xs: seq<Activity>, s: int)
    requires 2 <= |xs| < 5 && s > 0
    requires forall a :: a in xs ==> a.efficiencyScore == s
    ensures ImprovementOf(xs).Some? && ImprovementOf(xs).value.trend == Improving
  {
    var n := |xs|;
    assert xs[..Min(5, n)] == xs && xs[n - Min(5, n)..] == xs;
    TotalScoreBounds(xs, s, s);
    MeanWithin(TotalScore(xs), n, s, s);
    assert TotalScore(xs) < 5 * s;
    assert (TotalScore(xs) as real) / 5.0 < s as real;
  }

  // ---- analyzeHabits ---------------------------------------------------------

  datatype RecKind = ConsistencyRec | StreakRec | ImprovementRec

  datatype Priority = High | Medium

  /** An entry of `habits.recommendations`; the message text is not modelled. */
  datatype Recommendation = Recommendation(kind: RecKind, activityType: string, priority: Priority)

  function ConsistencyRecs(d: Dict<string, Consistency>): seq<Recommendation>
  {
    if d == [] then []
    else
      var e := d[|d| - 1];
      ConsistencyRecs(d[..|d| - 1])
        + (if e.value.averageDaysPerWeek < 3.0 then [Recommendation(ConsistencyRec, e.key, High)] else [])
  }

  function StreakRecs(d: Dict<string, Streak>): seq<Recommendation>
  {
    if d == [] then []
    else
      var e := d[|d| - 1];
      StreakRecs(d[..|d| - 1])
        + (if 0 < e.value.currentStreak < 3 then [Recommendation(StreakRec, e.key, Medium)] else [])
  }

  function DecliningRecs(d: Dict<string, Improvement>): seq<Recommendation>
  {
    if d == [] then []
    else
      var e := d[|d| - 1];
      DecliningRecs(d[..|d| - 1])
        + (if e.value.trend == Declining then [Recommendation(ImprovementRec, e.key, High)] else [])
  }

  datatype HabitReport = HabitReport(
    consistency: Dict<string, Consistency>,
    streaks: Dict<string, Streak>,
    improvements: Dict<string, Improvement>,
    recommendations: seq<Recommendation>)

  /** `habits.improvements`: an entry only for types with at least two records. */
  function Improvements(acts: seq<Activity>, types: seq<ActivityType>): Dict<string, Improvement>
  {
    if types == [] then []
    else
      var t := types[|types| - 1];
      var rest := Improvements(acts, types[..|types| - 1]);
      match ImprovementOf(SortedOfType(acts, t.id))
      case Some(imp) => Put(rest, t.name, imp)
      case None => rest
  }

  function HabitsOf(acts: seq<Activity>, types: seq<ActivityType>, cal: Calendar): HabitReport
  {
    var consistency := Tabulate(types, TypeName, ConsistencyFn(acts, cal));
    var streaks := Tabulate(types, TypeName, StreakFn(acts));
    var improvements := Improvements(acts, types);
    HabitReport(consistency, streaks, improvements,
      ConsistencyRecs(consistency) + StreakRecs(streaks) + DecliningRecs(improvements))
  }

  method FillStreaks(acts: seq<Activity>, types: seq<ActivityType>) returns (streaks: Dict<string, Streak>)
    ensures streaks == Tabulate(types, TypeName, StreakFn(acts))
  {
    streaks := [];
    for i := 0 to |types|
      invariant streaks == Tabulate(types[..i], TypeName, StreakFn(acts))
    {
      var t := types[i];
      var currentStreak, maxStreak := ScanStreak(SortedOfType(acts, t.id));
      assert types[..i + 1][..i] == types[..i];
      streaks := Put(streaks, t.name, Streak(currentStreak, maxStreak));
    }
    assert types[..|types|] == types;
  }

  method FillImprovements(acts: seq<Activity>, types: seq<ActivityType>) returns (improvements: Dict<string, Improvement>)
    ensures improvements == Improvements(acts, types)
  {
    improvements := [];
    for i := 0 to |types|
      invariant improvements == Improvements(acts, types[..i])
    {
      var t := types[i];
      var imp := ImprovementOf(SortedOfType(acts, t.id));
      assert types[..i + 1][..i] == types[..i];
      if imp.Some? {
        improvements := Put(improvements, t.name, imp.value);
      }
    }
    assert types[..|types|] == types;
  }

  method PushConsistencyRecs(d: Dict<string, Consistency>, head: seq<Recommendation>) returns (recs: seq<Recommendation>)
    ensures recs == head + ConsistencyRecs(d)
  {
    recs := head;
    for k := 0 to |d|
      invariant recs == head + ConsistencyRecs(d[..k])
    {
      var e := d[k];
      assert d[..k + 1][..k] == d[..k];
      if e.value.averageDaysPerWeek < 3.0 {
        recs := recs + [Recommendation(ConsistencyRec, e.key, High)];
      }
    }
    assert d[..|d|] == d;
  }

  method PushStreakRecs(d: Dict<string, Streak>, head: seq<Recommendation>) returns (recs: seq<Recommendation>)
    ensures recs == head + StreakRecs(d)
  {
    recs := head;
    for k := 0 to |d|
      invariant recs == head + StreakRecs(d[..k])
    {
      var e := d[k];
      assert d[..k + 1][..k] == d[..k];
      if 0 < e.value.currentStreak < 3 {
        recs := recs + [Recommendation(StreakRec, e.key, Medium)];
      }
    }
    assert d[..|d|] == d;
  }

  method PushDecliningRecs(d: Dict<string, Improvement>, head: seq<Recommendation>) returns (recs: seq<Recommendation>)
    ensures recs == head + DecliningRecs(d)
  {
    recs := head;
    for k := 0 to |d|
      invariant recs == head + DecliningRecs(d[..k])
    {
      var e := d[k];
      assert d[..k + 1][..k] == d[..k];
      if e.value.trend == Declining {
        recs := recs + [Recommendation(ImprovementRec, e.key, High)];
      }
    }
    assert d[..|d|] == d;
  }

  method AnalyzeHabits(acts: seq<Activity>, types: seq<ActivityType>, cal: Calendar) returns (habits: HabitReport)
    ensures habits == HabitsOf(acts, types, cal)
  {
    var consistency := FillByName(types, ConsistencyFn(acts, cal));
    var streaks := FillStreaks(acts, types);
    var improvements := FillImprovements(acts, types);
    var recommendations := PushConsistencyRecs(consistency, []);
    assert recommendations == ConsistencyRecs(consistency);
    recommendations := PushStreakRecs(streaks, recommendations);
    recommendations := PushDecliningRecs(improvements, recommendations);
    habits := HabitReport(consistency, streaks, improvements, recommendations);
    ghost var expected := HabitsOf(acts, types, cal);
    assert expected.consistency == consistency;
    assert expected.streaks == streaks;
    assert expected.improvements == improvements;
    assert expected.recommendations == recommendations;
  }

  /** On analysed history, a type that is the last of its name has a current
      streak of 0 exactly when it has no records. */
  lemma StreakZeroIffNoRecords(acts: seq<Activity>, types: seq<ActivityType>, cal: Calendar, i: int)
    requires LastWithKey(types, TypeName, i)
    ensures Get(HabitsOf(acts, types, cal).streaks, types[i].name) == Some(StreakOf(acts, types[i]))
    ensures StreakOf(acts, types[i]).currentStreak == 0 <==> OfType(acts, types[i].id) == []
  {
    TabulateGet(types, TypeName, StreakFn(acts), i);
    var xs := OfType(acts, types[i].id);
    SortByFacts(xs, StartOf);
    StreakBounds(SortBy(xs, StartOf));
  }

  // ---- generateHabitRecommendations -------------------------------------------

  datatype AdviceKind = ConsistencyAdvice | StreakRestart | StreakRecord | General

  /** An entry of the returned list; suggestion and benefit texts are not modelled. */
  datatype Advice = Advice(kind: AdviceKind, activityType: string)

  function ConsistencyAdvices(d: Dict<string, Consistency>): seq<Advice>
  {
    if d == [] then []
    else
      var e := d[|d| - 1];
      ConsistencyAdvices(d[..|d| - 1])
        + (if e.value.averageDaysPerWeek < 3.0 then [Advice(ConsistencyAdvice, e.key)] else [])
  }

  /** Restart when the current streak is 0, otherwise a record hint when it is below half the maximum. */
  function StreakAdvices(d: Dict<string, Streak>): seq<Advice>
  {
    if d == [] then []
    else
      var e := d[|d| - 1];
      StreakAdvices(d[..|d| - 1])
        + (if e.value.currentStreak == 0 then [Advice(StreakRestart, e.key)]
           else if e.value.currentStreak as real < e.value.maxStreak as real / 2.0 then [Advice(StreakRecord, e.key)]
           else [])
  }

  const GeneralAdvice: Advice := Advice(General, "所有活动")

  function HabitAdvice(h: HabitReport): seq<Advice>
  {
    var r := ConsistencyAdvices(h.consistency) + StreakAdvices(h.streaks);
    if r == [] then [GeneralAdvice] else r
  }

  /** The type list argument is not read. */
  method GenerateHabitRecommendations(h: HabitReport, types: seq<ActivityType>) returns (recommendations: seq<Advice>)
    ensures recommendations == HabitAdvice(h)
    ensures |recommendations| >= 1
  {
    recommendations := [];
    for k := 0 to |h.consistency|
      invariant recommendations == ConsistencyAdvices(h.consistency[..k])
    {
      var e := h.consistency[k];
      assert h.consistency[..k + 1][..k] == h.consistency[..k];
      if e.value.averageDaysPerWeek < 3.0 {
        recommendations := recommendations + [Advice(ConsistencyAdvice, e.key)];
      }
    }
    assert h.consistency[..|h.consistency|] == h.consistency;
    var head := recommendations;
    for k := 0 to |h.streaks|
      invariant recommendations == head + StreakAdvices(h.streaks[..k])
    {
      var e := h.streaks[k];
      assert h.streaks[..k + 1][..k] == h.streaks[..k];
      if e.value.currentStreak == 0 {
        recommendations := recommendations + [Advice(StreakRestart, e.key)];
      } else if e.value.currentStreak as real < e.value.maxStreak as real / 2.0 {
        recommendations := recommendations + [Advice(StreakRecord, e.key)];
      }
    }
    assert h.streaks[..|h.streaks|] == h.streaks;
    if |recommendations| == 0 {
      recommendations := recommendations + [GeneralAdvice];
    }
  }

  lemma {:induction false} ConsistencyAdvicesNone(d: Dict<string, Consistency>)
    ensures ConsistencyAdvices(d) == [] <==> forall k :: 0 <= k < |d| ==> d[k].value.averageDaysPerWeek >= 3.0
    ensures forall k :: 0 <= k < |ConsistencyAdvices(d)| ==> ConsistencyAdvices(d)[k].kind == ConsistencyAdvice
  {
    if d != [] {
      var init := d[..|d| - 1];
      var e := d[|d| - 1];
      ConsistencyAdvicesNone(init);
      var head := ConsistencyAdvices(init);
      var tail := if e.value.averageDaysPerWeek < 3.0 then [Advice(ConsistencyAdvice, e.key)] else [];
      assert ConsistencyAdvices(d) == head + tail;
      assert (forall k :: 0 <= k < |d| ==> d[k].value.averageDaysPerWeek >= 3.0)
        <==> (forall k :: 0 <= k < |init| ==> init[k].value.averageDaysPerWeek >= 3.0) && e.value.averageDaysPerWeek >= 3.0;
    }
  }

  lemma {:induction false} StreakAdvicesNone(d: Dict<string, Streak>)
    ensures StreakAdvices(d) == [] <==> forall k :: 0 <= k < |d| ==>
      d[k].value.currentStreak != 0 && d[k].value.currentStreak as real >= d[k].value.maxStreak as real / 2.0
    ensures forall k :: 0 <= k < |StreakAdvices(d)| ==> StreakAdvices(d)[k].kind != General
  {
    if d != [] {
      StreakAdvicesNone(d[..|d| - 1]);
    }
  }

  /** The list is never empty, and the general entry appears, alone, exactly
      when no consistency entry is below 3 and no streak is 0 or below half its maximum. */
  lemma GeneralAdviceExactly(h: HabitReport)
    ensures |HabitAdvice(h)| >= 1
    ensures GeneralAdvice in HabitAdvice(h) <==>
      && (forall k :: 0 <= k < |h.consistency| ==> h.consistency[k].value.averageDaysPerWeek >= 3.0)
      && (forall k :: 0 <= k < |h.streaks| ==>
            h.streaks[k].value.currentStreak != 0
            && h.streaks[k].value.currentStreak as real >= h.streaks[k].value.maxStreak as real / 2.0)
    ensures GeneralAdvice in HabitAdvice(h) ==> HabitAdvice(h) == [GeneralAdvice]
  {
    ConsistencyAdvicesNone(h.consistency);
    StreakAdvicesNone(h.streaks);
    var r := ConsistencyAdvices(h.consistency) + StreakAdvices(h.streaks);
    if r != [] {
      assert forall k :: 0 <= k < |r| ==> r[k].kind != General;
    }
  }
}
