/** AIService.analyzeTimePatterns: per-type daily averages, weekday totals,
    mean efficiency, and mean efficiency by starting hour. */
module PatternAnalysis {
  import opened Common
  import opened Dict
  import opened Records

  /** The `patterns` object. Keys of the inner objects are type names; the
      hourly table has one object per hour 0..23. An efficiency of None is
      the 0/0 the program computes for a type without records. */
  datatype TimePatterns = TimePatterns(
    dailyAverages: Dict<string, real>,
    weeklyPatterns: Dict<string, Dict<string, int>>,
    efficiencyByType: Dict<string, Option<real>>,
    preferredTimeSlots: seq<Dict<string, real>>)

  // ---- One cell of each table ------------------------------------------

  /** Total minutes of the type, always divided by seven days. */
  function DailyAverage(acts: seq<Activity>, t: ActivityType): real
  {
    TotalMinutes(OfType(acts, t.id)) as real / 7.0
  }

  function DailyAverageFn(acts: seq<Activity>): ActivityType -> real
  {
    t => DailyAverage(acts, t)
  }

  function OnWeekdayOfType(cal: Calendar, day: string, id: int): Activity -> bool
  {
    (a: Activity) => cal.weekdayName(a.startTime) == day && a.typeId == id
  }

  /** Minutes of the type's records whose formatted weekday equals `day`. */
  function WeekdayMinutes(acts: seq<Activity>, cal: Calendar, day: string, t: ActivityType): int
  {
    TotalMinutes(Filter(acts, OnWeekdayOfType(cal, day, t.id)))
  }

  function WeekdayMinutesFn(acts: seq<Activity>, cal: Calendar, day: string): ActivityType -> int
  {
    t => WeekdayMinutes(acts, cal, day, t)
  }

  /** `weeklyPatterns[day]`. */
  function WeekdayRow(acts: seq<Activity>, types: seq<ActivityType>, cal: Calendar, day: string): Dict<string, int>
  {
    Tabulate(types, TypeName, WeekdayMinutesFn(acts, cal, day))
  }

  function WeekdayRowFn(acts: seq<Activity>, types: seq<ActivityType>, cal: Calendar): string -> Dict<string, int>
  {
    day => WeekdayRow(acts, types, cal, day)
  }

  function Label(day: string): string { day }

  /** Mean score of the type's records; None for the 0/0 of a type without records. */
  function MeanEfficiency(acts: seq<Activity>, t: ActivityType): Option<real>
  {
    var xs := OfType(acts, t.id);
    if |xs| == 0 then None else Some(TotalScore(xs) as real / |xs| as real)
  }

  function MeanEfficiencyFn(acts: seq<Activity>): ActivityType -> Option<real>
  {
    t => MeanEfficiency(acts, t)
  }

  function InHourOfType(cal: Calendar, h: Hour, id: int): Activity -> bool
  {
    (a: Activity) => HourOf(cal, a.startTime) == h && a.typeId == id
  }

  /** Mean score of the type's records starting in hour h; the divisor is
      `length || 1`, so an hour without records scores 0. */
  function HourEfficiency(acts: seq<Activity>, cal: Calendar, h: Hour, t: ActivityType): real
  {
    var xs := Filter(acts, InHourOfType(cal, h, t.id));
    TotalScore(xs) as real / (if |xs| == 0 then 1 else |xs|) as real
  }

  function HourEfficiencyFn(acts: seq<Activity>, cal: Calendar, h: Hour): ActivityType -> real
  {
    t => HourEfficiency(acts, cal, h, t)
  }

  function HourRow(acts: seq<Activity>, types: seq<ActivityType>, cal: Calendar, h: Hour): Dict<string, real>
  {
    Tabulate(types, TypeName, HourEfficiencyFn(acts, cal, h))
  }

  /** The first n objects of `preferredTimeSlots`. */
  function HourTable(acts: seq<Activity>, types: seq<ActivityType>, cal: Calendar, n: nat): (r: seq<Dict<string, real>>)
    requires n <= 24
    ensures |r| == n
    ensures forall h :: 0 <= h < n ==> r[h] == HourRow(acts, types, cal, h)
  {
    if n == 0 then [] else HourTable(acts, types, cal, n - 1) + [HourRow(acts, types, cal, n - 1)]
  }

  /** The patterns object the method below fills. */
  function Analysis(acts: seq<Activity>, types: seq<ActivityType>, cal: Calendar): TimePatterns
  {
    TimePatterns(
      Tabulate(types, TypeName, DailyAverageFn(acts)),
      Tabulate(WeekDays, Label, WeekdayRowFn(acts, types, cal)),
      Tabulate(types, TypeName, MeanEfficiencyFn(acts)),
      HourTable(acts, types, cal, 24))
  }

  // ---- The method --------------------------------------------------------

  /** Fills a type-name-keyed object cell by cell, in the order of `types`. */
  method FillByName<V>(types: seq<ActivityType>, f: ActivityType -> V) returns (obj: Dict<string, V>)
    ensures obj == Tabulate(types, TypeName, f)
  {
    obj := [];
    for i := 0 to |types|
      invariant obj == Tabulate(types[..i], TypeName, f)
    {
      assert types[..i + 1][..i] == types[..i];
      obj := Put(obj, types[i].name, f(types[i]));
    }
    assert types[..|types|] == types;
  }

  method FillWeekly(acts: seq<Activity>, types: seq<ActivityType>, cal: Calendar)
    returns (weeklyPatterns: Dict<string, Dict<string, int>>)
    ensures weeklyPatterns == Tabulate(WeekDays, Label, WeekdayRowFn(acts, types, cal))
  {
    weeklyPatterns := [];
    for d := 0 to |WeekDays|
      invariant weeklyPatterns == Tabulate(WeekDays[..d], Label, WeekdayRowFn(acts, types, cal))
    {
      var day := WeekDays[d];
      var row := FillByName(types, WeekdayMinutesFn(acts, cal, day));
      assert WeekDays[..d + 1][..d] == WeekDays[..d];
      weeklyPatterns := Put(weeklyPatterns, day, row);
    }
    assert WeekDays[..|WeekDays|] == WeekDays;
  }

  method FillHours(acts: seq<Activity>, types: seq<ActivityType>, cal: Calendar)
    returns (preferredTimeSlots: seq<Dict<string, real>>)
    ensures preferredTimeSlots == HourTable(acts, types, cal, 24)
  {
    preferredTimeSlots := [];
    for hour := 0 to 24
      invariant preferredTimeSlots == HourTable(acts, types, cal, hour)
    {
      var row := FillByName(types, HourEfficiencyFn(acts, cal, hour));
      preferredTimeSlots := preferredTimeSlots + [row];
    }
  }

  method AnalyzeTimePatterns(acts: seq<Activity>, types: seq<ActivityType>, cal: Calendar)
    returns (patterns: TimePatterns)
    ensures patterns == Analysis(acts, types, cal)
  {
    var dailyAverages := FillByName(types, DailyAverageFn(acts));
    var weeklyPatterns := FillWeekly(acts, types, cal);
    var efficiencyByType := FillByName(types, MeanEfficiencyFn(acts));
    var preferredTimeSlots := FillHours(acts, types, cal);
    patterns := TimePatterns(dailyAverages, weeklyPatterns, efficiencyByType, preferredTimeSlots);
  }

  // ---- What the tables hold ----------------------------------------------

  /** The cells of a type that is the last of its name: the daily average
      (its total over seven days, whatever the span of the history) and the
      mean score, which is undefined exactly when it has no records. */
  lemma TypeCells(acts: seq<Activity>, types: seq<ActivityType>, cal: Calendar, i: int)
    requires LastWithKey(types, TypeName, i)
    ensures Get(Analysis(acts, types, cal).dailyAverages, types[i].name) == Some(DailyAverage(acts, types[i]))
    ensures Get(Analysis(acts, types, cal).efficiencyByType, types[i].name) == Some(MeanEfficiency(acts, types[i]))
    ensures MeanEfficiency(acts, types[i]).None? <==> OfType(acts, types[i].id) == []
  {
    TabulateGet(types, TypeName, DailyAverageFn(acts), i);
    TabulateGet(types, TypeName, MeanEfficiencyFn(acts), i);
  }

  /** Every hour has a cell for every type name, holding the mean of the
      last type of that name. */
  lemma HourCells(acts: seq<Activity>, types: seq<ActivityType>, cal: Calendar, i: int)
    requires LastWithKey(types, TypeName, i)
    ensures var p := Analysis(acts, types, cal);
      |p.preferredTimeSlots| == 24 &&
      forall h: Hour :: Get(p.preferredTimeSlots[h], types[i].name) == Some(HourEfficiency(acts, cal, h, types[i]))
  {
    forall h: Hour ensures Get(HourRow(acts, types, cal, h), types[i].name) == Some(HourEfficiency(acts, cal, h, types[i])) {
      TabulateGet(types, TypeName, HourEfficiencyFn(acts, cal, h), i);
    }
  }

  lemma WeekDaysDistinct()
    ensures forall d :: 0 <= d < 7 ==> LastWithKey(WeekDays, Label, d)
  {
  }

  /** The weekly table has a row for each of the seven labels, and each row a
      cell for every type name. */
  lemma WeekdayCells(acts: seq<Activity>, types: seq<ActivityType>, cal: Calendar, i: int, d: int)
    requires LastWithKey(types, TypeName, i) && 0 <= d < 7
    ensures Get(Analysis(acts, types, cal).weeklyPatterns, WeekDays[d]) == Some(WeekdayRow(acts, types, cal, WeekDays[d]))
    ensures Get(WeekdayRow(acts, types, cal, WeekDays[d]), types[i].name) == Some(WeekdayMinutes(acts, cal, WeekDays[d], types[i]))
  {
    WeekDaysDistinct();
    TabulateGet(WeekDays, Label, WeekdayRowFn(acts, types, cal), d);
    TabulateGet(types, TypeName, WeekdayMinutesFn(acts, cal, WeekDays[d]), i);
  }

  /** A weekday cell sums only matching records: it is 0 when no record of the
      type is formatted as that weekday. In particular, when the formatter's
      names never equal the labels '周日'…'周六', every weekday cell is 0. */
  lemma WeekdayMinutesNoMatch(acts: seq<Activity>, cal: Calendar, day: string, t: ActivityType)
    requires forall a :: a in acts && a.typeId == t.id ==> cal.weekdayName(a.startTime) != day
    ensures WeekdayMinutes(acts, cal, day, t) == 0
  {
    FilterNone(acts, OnWeekdayOfType(cal, day, t.id));
  }

  /** An hour without records of the type scores 0 rather than 0/0. */
  lemma HourEfficiencyNoMatch(acts: seq<Activity>, cal: Calendar, h: Hour, t: ActivityType)
    requires forall a :: a in acts && a.typeId == t.id ==> HourOf(cal, a.startTime) != h
    ensures HourEfficiency(acts, cal, h, t) == 0.0
  {
    FilterNone(acts, InHourOfType(cal, h, t.id));
  }

  /** With scores on the 1..5 rating scale, a defined mean lies in [1, 5]
      and an hourly mean in [0, 5]. */
  lemma EfficiencyWithinScale(acts: seq<Activity>, cal: Calendar, t: ActivityType)
    requires forall a :: a in acts ==> 1 <= a.efficiencyScore <= 5
    ensures MeanEfficiency(acts, t).Some? ==> 1.0 <= MeanEfficiency(acts, t).value <= 5.0
    ensures forall h: Hour :: 0.0 <= HourEfficiency(acts, cal, h, t) <= 5.0
  {
    var xs := OfType(acts, t.id);
    forall a | a in xs ensures 1 <= a.efficiencyScore <= 5 {
      FilterMembers(acts, HasType(t.id), a);
    }
    TotalScoreBounds(xs, 1, 5);
    if xs != [] {
      MeanWithin(TotalScore(xs), |xs|, 1, 5);
    }
    forall h: Hour ensures 0.0 <= HourEfficiency(acts, cal, h, t) <= 5.0 {
      var ys := Filter(acts, InHourOfType(cal, h, t.id));
      forall a | a in ys ensures 1 <= a.efficiencyScore <= 5 {
        FilterMembers(acts, InHourOfType(cal, h, t.id), a);
      }
      TotalScoreBounds(ys, 1, 5);
      if ys != [] {
        MeanWithin(TotalScore(ys), |ys|, 0, 5);
      }
    }
  }

  /** Uniform history (seven records of two hours scored 5 give a daily
      average of 120 minutes and an efficiency of 5): n records of the type,
      each of d minutes and score s, give n*d/7 and s. */
  lemma {:induction false} UniformHistory(acts: seq<Activity>, t: ActivityType, d: int, s: int)
    requires forall a :: a in acts && a.typeId == t.id ==> Duration(a) == d && a.efficiencyScore == s
    ensures TotalMinutes(OfType(acts, t.id)) == |OfType(acts, t.id)| * d
    ensures OfType(acts, t.id) != [] ==> MeanEfficiency(acts, t) == Some(s as real)
  {
    var xs := OfType(acts, t.id);
    forall a | a in xs ensures Duration(a) == d && a.efficiencyScore == s {
      FilterMembers(acts, HasType(t.id), a);
    }
    UniformTotals(xs, d, s);
    if xs != [] {
      MeanWithin(TotalScore(xs), |xs|, s, s);
    }
  }

  lemma {:induction false} UniformTotals(xs: seq<Activity>, d: int, s: int)
    requires forall a :: a in xs ==> Duration(a) == d && a.efficiencyScore == s
    ensures TotalMinutes(xs) == |xs| * d && TotalScore(xs) == |xs| * s
  {
    if xs != [] {
      UniformTotals(xs[..|xs| - 1], d, s);
      assert xs[|xs| - 1] in xs;
    }
  }

  // ---- The best hour is at least as good as the type's mean ------------

  /** Score total and record count of the type in hour h. */
  function HourScore(acts: seq<Activity>, cal: Calendar, id: int, h: Hour): int
  {
    TotalScore(Filter(acts, InHourOfType(cal, h, id)))
  }

  function HourCount(acts: seq<Activity>, cal: Calendar, id: int, h: Hour): int
  {
    |Filter(acts, InHourOfType(cal, h, id))|
  }

  /** Score total and record count of the type over hours 0..n-1. */
  function HourScores(acts: seq<Activity>, cal: Calendar, id: int, n: nat): int
    requires n <= 24
  {
    if n == 0 then 0 else HourScores(acts, cal, id, n - 1) + HourScore(acts, cal, id, n - 1)
  }

  function HourCounts(acts: seq<Activity>, cal: Calendar, id: int, n: nat): int
    requires n <= 24
  {
    if n == 0 then 0 else HourCounts(acts, cal, id, n - 1) + HourCount(acts, cal, id, n - 1)
  }

  lemma {:induction false} HourSumsEmpty(cal: Calendar, id: int, n: nat)
    requires n <= 24
    ensures HourScores([], cal, id, n) == 0 && HourCounts([], cal, id, n) == 0
  {
    if n > 0 {
      HourSumsEmpty(cal, id, n - 1);
    }
  }

  /** One more record adds its score and a count of one to the hour it starts in. */
  lemma {:induction false} HourSumsSnoc(acts: seq<Activity>, a: Activity, cal: Calendar, id: int, n: nat)
    requires n <= 24
    ensures HourScores(acts + [a], cal, id, n)
      == HourScores(acts, cal, id, n) + if a.typeId == id && HourOf(cal, a.startTime) < n then a.efficiencyScore else 0
    ensures HourCounts(acts + [a], cal, id, n)
      == HourCounts(acts, cal, id, n) + if a.typeId == id && HourOf(cal, a.startTime) < n then 1 else 0
  {
    if n > 0 {
      HourSumsSnoc(acts, a, cal, id, n - 1);
      var p := InHourOfType(cal, n - 1, id);
      FilterSnoc(acts, a, p);
      TotalScoreAppend(Filter(acts, p), if p(a) then [a] else []);
    }
  }

  /** Every record of the type starts in exactly one hour, so the hourly
      totals and counts add up to the type's totals. */
  lemma {:induction false} HourSumsTotal(acts: seq<Activity>, cal: Calendar, id: int)
    ensures HourScores(acts, cal, id, 24) == TotalScore(OfType(acts, id))
    ensures HourCounts(acts, cal, id, 24) == |OfType(acts, id)|
  {
    if acts == [] {
      HourSumsEmpty(cal, id, 24);
    } else {
      var init := acts[..|acts| - 1];
      var a := acts[|acts| - 1];
      assert acts == init + [a];
      HourSumsTotal(init, cal, id);
      HourSumsSnoc(init, a, cal, id, 24);
      FilterSnoc(init, a, HasType(id));
      TotalScoreAppend(OfType(init, id), if a.typeId == id then [a] else []);
    }
  }

  /** An hour's mean bounded by m bounds its total by m times its count. */
  lemma HourBound(acts: seq<Activity>, cal: Calendar, t: ActivityType, h: Hour, m: real)
    requires HourEfficiency(acts, cal, h, t) <= m
    ensures HourScore(acts, cal, t.id, h) as real <= Scale(HourCount(acts, cal, t.id, h), m)
  {
    var xs := Filter(acts, InHourOfType(cal, h, t.id));
    var sc, c := TotalScore(xs) as real, |xs| as real;
    if xs != [] {
      assert HourEfficiency(acts, cal, h, t) == sc / c;
      DivAtMost(sc, c, m);
    } else {
      assert sc == 0.0 && c == 0.0;
    }
  }

  lemma HourBounds(acts: seq<Activity>, cal: Calendar, t: ActivityType, m: real)
    requires forall h: Hour :: HourEfficiency(acts, cal, h, t) <= m
    ensures forall h: Hour :: HourScore(acts, cal, t.id, h) as real <= Scale(HourCount(acts, cal, t.id, h), m)
  {
    forall h: Hour ensures HourScore(acts, cal, t.id, h) as real <= Scale(HourCount(acts, cal, t.id, h), m) {
      HourBound(acts, cal, t, h, m);
    }
  }

  lemma {:induction false} HourSumsBound(acts: seq<Activity>, cal: Calendar, id: int, m: real, n: nat)
    requires n <= 24
    requires forall h: Hour :: HourScore(acts, cal, id, h) as real <= Scale(HourCount(acts, cal, id, h), m)
    ensures HourScores(acts, cal, id, n) as real <= Scale(HourCounts(acts, cal, id, n), m)
  {
    if n > 0 {
      HourSumsBound(acts, cal, id, m, n - 1);
      var s1, c1 := HourScores(acts, cal, id, n - 1), HourCounts(acts, cal, id, n - 1);
      var s2, c2 := HourScore(acts, cal, id, n - 1), HourCount(acts, cal, id, n - 1);
      AddBounds(HourScores(acts, cal, id, n), HourCounts(acts, cal, id, n), s1, c1, s2, c2, m);
    }
  }

  /** The best hourly mean is at least the overall mean: no bound on the
      hourly means can be lower than the mean over all of the type's records. */
  lemma MeanAtMostBestHour(acts: seq<Activity>, cal: Calendar, t: ActivityType, m: real)
    requires forall h: Hour :: HourEfficiency(acts, cal, h, t) <= m
    requires MeanEfficiency(acts, t).Some?
    ensures MeanEfficiency(acts, t).value <= m
  {
    var xs := OfType(acts, t.id);
    HourBounds(acts, cal, t, m);
    HourSumsBound(acts, cal, t.id, m, 24);
    HourSumsTotal(acts, cal, t.id);
    var sc, c := TotalScore(xs), |xs|;
    assert sc as real <= Scale(c, m);
    AtMostDiv(sc as real, c as real, m);
  }
}
