/** AIService.generateSchedule and AIService.generateEfficiencyTips: one
    proposal per type at its best hour, and tips for low-efficiency types. */
module Scheduler {
  import opened Common
  import opened Dict
  import opened Records
  import opened PatternAnalysis

  // ---- Reading the patterns object -------------------------------------

  /** `(preferredTimeSlots[h] && preferredTimeSlots[h][name]) || 0`. */
  function HourEff(p: TimePatterns, h: int, name: string): real
  {
    if 0 <= h < |p.preferredTimeSlots| then GetOr(p.preferredTimeSlots[h], name, 0.0) else 0.0
  }

  /** `efficiencyByType[name] || 0`: a missing or undefined (0/0) efficiency reads as 0. */
  function Efficiency(p: TimePatterns, name: string): real
  {
    var v := Get(p.efficiencyByType, name);
    if v.Some? && v.value.Some? then v.value.value else 0.0
  }

  // ---- The best-hour scan ------------------------------------------------

  datatype Best = Best(hour: Hour, efficiency: real)

  /** bestHour and bestEfficiency after the scan has looked at hours 0..n-1. */
  function BestScan(p: TimePatterns, name: string, n: nat): Best
    requires n <= 24
  {
    if n == 0 then Best(0, 0.0)
    else
      var b := BestScan(p, name, n - 1);
      if HourEff(p, n - 1, name) > b.efficiency then Best(n - 1, HourEff(p, n - 1, name)) else b
  }

  /** The scan keeps the earliest hour holding the strict maximum among hours
      with a positive efficiency, and stays at hour 0 when no hour is positive. */
  lemma {:induction false} BestScanArgmax(p: TimePatterns, name: string, n: nat)
    requires n <= 24
    ensures var b := BestScan(p, name, n);
      && b.efficiency >= 0.0
      && (forall h :: 0 <= h < n ==> HourEff(p, h, name) <= b.efficiency)
      && (b.efficiency > 0.0 ==> b.hour < n && HourEff(p, b.hour, name) == b.efficiency)
      && (b.efficiency > 0.0 ==> forall h :: 0 <= h < b.hour ==> HourEff(p, h, name) < b.efficiency)
      && (b.efficiency == 0.0 ==> b.hour == 0)
  {
    if n > 0 {
      BestScanArgmax(p, name, n - 1);
    }
  }

  /** The `for (let hour = 0; hour < 24; hour++)` loop. */
  method BestHour(p: TimePatterns, name: string) returns (bestHour: Hour, bestEfficiency: real)
    ensures Best(bestHour, bestEfficiency) == BestScan(p, name, 24)
    ensures bestEfficiency >= 0.0
    ensures forall h :: 0 <= h < 24 ==> HourEff(p, h, name) <= bestEfficiency
    ensures bestEfficiency > 0.0 ==> HourEff(p, bestHour, name) == bestEfficiency
    ensures bestEfficiency > 0.0 ==> forall h :: 0 <= h < bestHour ==> HourEff(p, h, name) < bestEfficiency
    ensures bestEfficiency == 0.0 ==> bestHour == 0
  {
    bestHour, bestEfficiency := 0, 0.0;
    for hour := 0 to 24
      invariant Best(bestHour, bestEfficiency) == BestScan(p, name, hour)
    {
      var hourEfficiency := HourEff(p, hour, name);
      if hourEfficiency > bestEfficiency {
        bestEfficiency := hourEfficiency;
        bestHour := hour;
      }
    }
    BestScanArgmax(p, name, 24);
  }

  // ---- Schedule items ----------------------------------------------------

  datatype ScheduleItem = ScheduleItem(
    typeId: int,
    typeName: string,
    suggestedStartTime: int,
    suggestedDuration: int,
    confidence: real)

  function ItemStart(it: ScheduleItem): int { it.suggestedStartTime }

  /** `weeklyPatterns[weekday of date] || {}`. */
  function DayPatterns(p: TimePatterns, cal: Calendar, date: int): Dict<string, int>
  {
    GetOr(p.weeklyPatterns, cal.weekdayName(date), [])
  }

  /** The weekday total when it exceeds 1.2 times the daily average, the daily average otherwise. */
  function SuggestedDuration(p: TimePatterns, cal: Calendar, date: int, name: string): (r: real)
    ensures var daily := GetOr(p.dailyAverages, name, 0.0);
      var daySpecific := GetOr(DayPatterns(p, cal, date), name, 0) as real;
      && (r == daySpecific <==> daySpecific > daily * 1.2 || daySpecific == daily)
      && (r != daySpecific ==> r == daily)
      && (daily >= 0.0 ==> r >= daily)
  {
    var daily := GetOr(p.dailyAverages, name, 0.0);
    var daySpecific := GetOr(DayPatterns(p, cal, date), name, 0) as real;
    if daySpecific > daily * 1.2 then daySpecific else daily
  }

  function HasPositiveDuration(p: TimePatterns, cal: Calendar, date: int): ActivityType -> bool
  {
    (t: ActivityType) => SuggestedDuration(p, cal, date, t.name) > 0.0
  }

  /** The object pushed for a type: confidence min(1, efficiency/5) is at most
      1, and not negative when the efficiency is not. */
  function ItemFor(p: TimePatterns, cal: Calendar, date: int, t: ActivityType): (r: ScheduleItem)
    ensures r.typeId == t.id && r.typeName == t.name
    ensures r.confidence <= 1.0
    ensures Efficiency(p, t.name) >= 0.0 ==> r.confidence >= 0.0
    ensures Efficiency(p, t.name) >= 5.0 ==> r.confidence == 1.0
    ensures SuggestedDuration(p, cal, date, t.name) > 0.0 ==> r.suggestedDuration >= 0
  {
    ScheduleItem(
      t.id,
      t.name,
      cal.atHour(date, BestScan(p, t.name, 24).hour),
      Round(SuggestedDuration(p, cal, date, t.name)),
      MinReal(1.0, Efficiency(p, t.name) / 5.0))
  }

  /** The unsorted `schedule` after the forEach over the types. */
  function Proposals(p: TimePatterns, types: seq<ActivityType>, cal: Calendar, date: int): seq<ScheduleItem>
  {
    if types == [] then []
    else
      var t := types[|types| - 1];
      Proposals(p, types[..|types| - 1], cal, date)
        + (if SuggestedDuration(p, cal, date, t.name) > 0.0 then [ItemFor(p, cal, date, t)] else [])
  }

  /** The returned schedule: the proposals sorted by start time. */
  function Schedule(p: TimePatterns, types: seq<ActivityType>, cal: Calendar, date: int): seq<ScheduleItem>
  {
    SortBy(Proposals(p, types, cal, date), ItemStart)
  }

  method GenerateSchedule(p: TimePatterns, types: seq<ActivityType>, cal: Calendar, date: int)
    returns (schedule: seq<ScheduleItem>)
    ensures schedule == Schedule(p, types, cal, date)
    ensures SortedBy(schedule, ItemStart)
    ensures multiset(schedule) == multiset(Proposals(p, types, cal, date))
  {
    var dayPatterns := DayPatterns(p, cal, date);
    schedule := [];
    for i := 0 to |types|
      invariant schedule == Proposals(p, types[..i], cal, date)
    {
      var t := types[i];
      var dailyAverage := GetOr(p.dailyAverages, t.name, 0.0);
      var daySpecificTime := GetOr(dayPatterns, t.name, 0) as real;
      var efficiency := Efficiency(p, t.name);
      var suggestedDuration := if daySpecificTime > dailyAverage * 1.2 then daySpecificTime else dailyAverage;
      var bestHour, bestEfficiency := BestHour(p, t.name);
      assert types[..i + 1][..i] == types[..i];
      if suggestedDuration > 0.0 {
        schedule := schedule + [ScheduleItem(t.id, t.name, cal.atHour(date, bestHour),
          Round(suggestedDuration), MinReal(1.0, efficiency / 5.0))];
      }
    }
    assert types[..|types|] == types;
    schedule := SortBy(schedule, ItemStart);
    SortByFacts(Proposals(p, types, cal, date), ItemStart);
  }

  /** The proposals are, in order, one item for each type whose suggested
      duration is positive, and nothing else. */
  lemma {:induction false} ProposalsAreFiltered(p: TimePatterns, types: seq<ActivityType>, cal: Calendar, date: int)
    ensures var props := Proposals(p, types, cal, date);
      var kept := Filter(types, HasPositiveDuration(p, cal, date));
      |props| == |kept| && forall k :: 0 <= k < |props| ==> props[k] == ItemFor(p, cal, date, kept[k])
  {
    if types != [] {
      var init := types[..|types| - 1];
      var t := types[|types| - 1];
      assert types == init + [t];
      ProposalsAreFiltered(p, init, cal, date);
      FilterSnoc(init, t, HasPositiveDuration(p, cal, date));
    }
  }

  /** Every scheduled item belongs to a type with a positive suggested
      duration, starts at that type's best hour on the given date, and has
      a confidence of at most 1; the items are in start-time order. */
  lemma ScheduleItems(p: TimePatterns, types: seq<ActivityType>, cal: Calendar, date: int)
    ensures var s := Schedule(p, types, cal, date);
      && SortedBy(s, ItemStart)
      && |s| <= |types|
      && forall it :: it in s ==>
           && it.confidence <= 1.0
           && exists t :: t in types && SuggestedDuration(p, cal, date, t.name) > 0.0 && it == ItemFor(p, cal, date, t)
  {
    var props := Proposals(p, types, cal, date);
    var kept := Filter(types, HasPositiveDuration(p, cal, date));
    SortByFacts(props, ItemStart);
    ProposalsAreFiltered(p, types, cal, date);
    forall it | it in Schedule(p, types, cal, date)
      ensures exists t :: t in types && SuggestedDuration(p, cal, date, t.name) > 0.0 && it == ItemFor(p, cal, date, t)
    {
      assert it in multiset(props);
      var k :| 0 <= k < |props| && props[k] == it;
      FilterMembers(types, HasPositiveDuration(p, cal, date), kept[k]);
    }
  }

  /** With no history at all, every suggested duration is 0 and the schedule is empty. */
  lemma EmptyHistory(types: seq<ActivityType>, cal: Calendar, date: int)
    ensures Schedule(Analysis([], types, cal), types, cal, date) == []
  {
    var p := Analysis([], types, cal);
    forall t | t in types ensures SuggestedDuration(p, cal, date, t.name) <= 0.0 {
      TabulateValue(types, TypeName, DailyAverageFn([]), t.name);
      var day := cal.weekdayName(date);
      TabulateValue(WeekDays, Label, WeekdayRowFn([], types, cal), day);
      if Get(p.weeklyPatterns, day).Some? {
        var row := Get(p.weeklyPatterns, day).value;
        assert row == WeekdayRow([], types, cal, day);
        TabulateValue(types, TypeName, WeekdayMinutesFn([], cal, day), t.name);
      }
    }
    FilterNone(types, HasPositiveDuration(p, cal, date));
    ProposalsAreFiltered(p, types, cal, date);
  }

  /** When the formatter never yields one of the seven labels (zh-CN 'EEEE'),
      the weekday lookup finds no row, so every suggestion falls back to the
      daily average whenever that average is not negative. */
  lemma WideNamesUseDailyAverage(acts: seq<Activity>, types: seq<ActivityType>, cal: Calendar, date: int, name: string)
    requires forall x :: cal.weekdayName(x) !in WeekDays
    ensures DayPatterns(Analysis(acts, types, cal), cal, date) == []
    ensures var p := Analysis(acts, types, cal);
      GetOr(p.dailyAverages, name, 0.0) >= 0.0 ==> SuggestedDuration(p, cal, date, name) == GetOr(p.dailyAverages, name, 0.0)
  {
    var day := cal.weekdayName(date);
    forall i | 0 <= i < |WeekDays|
      ensures Label(WeekDays[i]) != day
    {
      assert WeekDays[i] in WeekDays;
    }
    TabulateMissing(WeekDays, Label, WeekdayRowFn(acts, types, cal), day);
  }

  // ---- Efficiency tips -----------------------------------------------------

  /** A tip; the suggestion text carries the type name and best hour. */
  datatype Tip = Tip(typeId: int, typeName: string, currentEfficiency: real, bestHour: Hour, improvement: int)

  /** `efficiency < 3` on a defined efficiency: undefined and 0/0 compare false. */
  function LowEfficiency(p: TimePatterns): ActivityType -> bool
  {
    (t: ActivityType) =>
      var v := Get(p.efficiencyByType, t.name);
      v.Some? && v.value.Some? && v.value.value < 3.0
  }

  /** The tip pushed for a low-efficiency type: improvement is 20 times the
      distance from the current to the best hourly efficiency, rounded. */
  function TipFor(p: TimePatterns, t: ActivityType): (r: Tip)
    requires LowEfficiency(p)(t)
    ensures r.typeId == t.id && r.typeName == t.name && r.currentEfficiency < 3.0
    ensures Get(p.efficiencyByType, t.name) == Some(Some(r.currentEfficiency))
    ensures r.bestHour == BestScan(p, t.name, 24).hour
    ensures r.currentEfficiency <= BestScan(p, t.name, 24).efficiency ==> r.improvement >= 0
  {
    var e := Get(p.efficiencyByType, t.name).value.value;
    var b := BestScan(p, t.name, 24);
    Tip(t.id, t.name, e, b.hour, Round((b.efficiency - e) * 20.0))
  }

  function Tips(p: TimePatterns, types: seq<ActivityType>): seq<Tip>
  {
    if types == [] then []
    else
      var t := types[|types| - 1];
      Tips(p, types[..|types| - 1]) + (if LowEfficiency(p)(t) then [TipFor(p, t)] else [])
  }

  /** The tips loop; reading `preferredTimeSlots[hour][name]` without a guard
      needs all 24 hourly objects. */
  method GenerateEfficiencyTips(p: TimePatterns, types: seq<ActivityType>) returns (tips: seq<Tip>)
    requires |p.preferredTimeSlots| >= 24
    ensures tips == Tips(p, types)
  {
    tips := [];
    for i := 0 to |types|
      invariant tips == Tips(p, types[..i])
    {
      var t := types[i];
      assert types[..i + 1][..i] == types[..i];
      var efficiency := Get(p.efficiencyByType, t.name);
      if efficiency.Some? && efficiency.value.Some? && efficiency.value.value < 3.0 {
        var e := efficiency.value.value;
        var bestHour, bestEfficiency := BestHour(p, t.name);
        tips := tips + [Tip(t.id, t.name, e, bestHour, Round((bestEfficiency - e) * 20.0))];
      }
    }
    assert types[..|types|] == types;
  }

  /** A tip is produced for exactly the types whose efficiency is defined and below 3, in order. */
  lemma {:induction false} TipsAreFiltered(p: TimePatterns, types: seq<ActivityType>)
    ensures var tips := Tips(p, types);
      var low := Filter(types, LowEfficiency(p));
      |tips| == |low| && forall k :: 0 <= k < |tips| ==> LowEfficiency(p)(low[k]) && tips[k] == TipFor(p, low[k])
  {
    if types != [] {
      var init := types[..|types| - 1];
      var t := types[|types| - 1];
      assert types == init + [t];
      TipsAreFiltered(p, init);
      FilterSnoc(init, t, LowEfficiency(p));
    }
  }

  /** On analysed history, a type without records (0/0 efficiency) gets no tip. */
  lemma NoRecordsNoTip(acts: seq<Activity>, types: seq<ActivityType>, cal: Calendar, i: int)
    requires LastWithKey(types, TypeName, i)
    requires OfType(acts, types[i].id) == []
    ensures !LowEfficiency(Analysis(acts, types, cal))(types[i])
  {
    TypeCells(acts, types, cal, i);
  }

  /** On analysed history, a type whose records average below 3 gets a tip,
      and the improvement it promises is never negative: the best hourly
      mean is at least the type's overall mean. */
  lemma TipImprovementNonNegative(acts: seq<Activity>, types: seq<ActivityType>, cal: Calendar, i: int)
    requires LastWithKey(types, TypeName, i)
    requires MeanEfficiency(acts, types[i]).Some? && MeanEfficiency(acts, types[i]).value < 3.0
    ensures LowEfficiency(Analysis(acts, types, cal))(types[i])
    ensures TipFor(Analysis(acts, types, cal), types[i]).improvement >= 0
  {
    var p := Analysis(acts, types, cal);
    var t := types[i];
    var b := BestScan(p, t.name, 24);
    TypeCells(acts, types, cal, i);
    HourCells(acts, types, cal, i);
    BestScanArgmax(p, t.name, 24);
    forall h: Hour ensures HourEfficiency(acts, cal, h, t) <= b.efficiency {
      assert HourEff(p, h, t.name) == HourEfficiency(acts, cal, h, t);
    }
    MeanAtMostBestHour(acts, cal, t, b.efficiency);
  }
}
