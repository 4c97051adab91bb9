/** The statistics page's chart data: hours per type name (pie), hours per
    type for each day of the week (bars), and the mean score per day. */
module Statistics {
  import opened Common
  import opened Dict
  import opened Records
  import opened Dashboard

  // ---- Pie: hours per type name --------------------------------------------------

  datatype Slice = Slice(name: string, value: int)

  /** Whole minutes to hours as the charts show them: `Math.round(m / 60)`. */
  function Hours(minutes: int): int
  {
    Round(minutes as real / 60.0)
  }

  /** `Array.from(typeMap.entries()).map(([name, value]) => ...)`. */
  function Slices(typeMap: Dict<string, int>): (r: seq<Slice>)
    ensures |r| == |typeMap|
    ensures forall i :: 0 <= i < |r| ==> r[i].name == typeMap[i].key
  {
    if typeMap == [] then [] else [Slice(typeMap[0].key, Hours(typeMap[0].value))] + Slices(typeMap[1..])
  }

  /** `pieData`: the type map fills exactly as the dashboard's per-type minutes, over every record. */
  function PieData(acts: seq<Activity>, types: seq<ActivityType>): seq<Slice>
  {
    Slices(TypeDurations(acts, types))
  }

  method ComputePieData(acts: seq<Activity>, types: seq<ActivityType>) returns (pie: seq<Slice>)
    ensures pie == PieData(acts, types)
  {
    var typeMap := AccumulateTypeDurations(acts, types);
    pie := [];
    for i := 0 to |typeMap|
      invariant pie == Slices(typeMap[..i])
    {
      SlicesSnoc(typeMap[..i], typeMap[i]);
      assert typeMap[..i + 1] == typeMap[..i] + [typeMap[i]];
      pie := pie + [Slice(typeMap[i].key, Hours(typeMap[i].value))];
    }
    assert typeMap[..|typeMap|] == typeMap;
  }

  lemma {:induction false} SlicesSnoc(d: Dict<string, int>, e: Entry<string, int>)
    ensures Slices(d + [e]) == Slices(d) + [Slice(e.key, Hours(e.value))]
  {
    if d != [] {
      assert (d + [e])[1..] == d[1..] + [e];
      SlicesSnoc(d[1..], e);
    }
  }

  lemma {:induction false} SlicesValue(d: Dict<string, int>, i: nat)
    requires i < |d|
    ensures Slices(d)[i] == Slice(d[i].key, Hours(d[i].value))
  {
    if i > 0 {
      SlicesValue(d[1..], i - 1);
    }
  }

  /** One slice per type name that some record resolves to, no name twice,
      and its value is the rounded hours of that name's records. */
  lemma PieDataFacts(acts: seq<Activity>, types: seq<ActivityType>, i: nat)
    requires i < |PieData(acts, types)|
    ensures var s := PieData(acts, types)[i];
      && s.value == Hours(TotalMinutes(Filter(acts, ResolvesTo(types, s.name))))
      && (exists j :: 0 <= j < |acts| && ResolvesTo(types, s.name)(acts[j]))
      && (forall k :: 0 <= k < |PieData(acts, types)| && k != i ==> PieData(acts, types)[k].name != s.name)
  {
    var d := TypeDurations(acts, types);
    var name := d[i].key;
    SlicesValue(d, i);
    TypeDurationsUnique(acts, types);
    GetAt(d, i);
    TypeDurationsValue(acts, types, name);
    TypeDurationsKeys(acts, types, name);
  }

  /** Every name that some record resolves to has a slice. */
  lemma PieDataComplete(acts: seq<Activity>, types: seq<ActivityType>, name: string)
    requires exists j :: 0 <= j < |acts| && ResolvesTo(types, name)(acts[j])
    ensures exists i :: 0 <= i < |PieData(acts, types)| && PieData(acts, types)[i].name == name
  {
    var d := TypeDurations(acts, types);
    TypeDurationsKeys(acts, types, name);
    GetPresent(d, name);
    KeysShape(d);
    var i :| 0 <= i < |Keys(d)| && Keys(d)[i] == name;
    assert PieData(acts, types)[i].name == name;
  }

  lemma {:induction false} TypeDurationsUnique(todays: seq<Activity>, types: seq<ActivityType>)
    ensures UniqueKeys(TypeDurations(todays, types))
  {
    if todays != [] {
      var init := todays[..|todays| - 1];
      var a := todays[|todays| - 1];
      var d := TypeDurations(init, types);
      TypeDurationsUnique(init, types);
      assert todays == init + [a];
      TypeDurationsSnoc(init, a, types);
      var found := FindType(types, a.typeId);
      if found.Some? {
        PutUnique(d, found.value.name, GetOr(d, found.value.name, 0) + Duration(a));
      }
    }
  }

  // ---- Bars: hours per type for each day ------------------------------------------

  /** A bar row maps "name" to the weekday label and each type name to hours. */
  datatype BarValue = Label(text: string) | HoursValue(hours: int)

  /** Records starting on the calendar day of `day`. */
  function OnDay(cal: Calendar, day: int): Activity -> bool
  {
    (a: Activity) => cal.dayKey(a.startTime) == cal.dayKey(day)
  }

  /** The rounded hours of one type's records among a day's records. */
  function TypeHours(dayActs: seq<Activity>, t: ActivityType): int
  {
    Hours(TotalMinutes(Filter(dayActs, HasType(t.id))))
  }

  /** `result[type.name] = ...` for each type in order, over a row that starts as `{ name: label }`. */
  function FillRow(row: Dict<string, BarValue>, types: seq<ActivityType>, dayActs: seq<Activity>): Dict<string, BarValue>
  {
    if types == [] then row
    else
      var t := types[|types| - 1];
      Put(FillRow(row, types[..|types| - 1], dayActs), t.name, HoursValue(TypeHours(dayActs, t)))
  }

  function BarRow(acts: seq<Activity>, types: seq<ActivityType>, cal: Calendar, day: int): Dict<string, BarValue>
  {
    FillRow([Entry("name", Label(cal.weekdayName(day)))], types, Filter(acts, OnDay(cal, day)))
  }

  /** `barData`: one row per day of the week. */
  function BarData(acts: seq<Activity>, types: seq<ActivityType>, cal: Calendar, days: seq<int>): (r: seq<Dict<string, BarValue>>)
    ensures |r| == |days|
  {
    if days == [] then []
    else BarData(acts, types, cal, days[..|days| - 1]) + [BarRow(acts, types, cal, days[|days| - 1])]
  }

  method ComputeBarRow(acts: seq<Activity>, types: seq<ActivityType>, cal: Calendar, day: int) returns (row: Dict<string, BarValue>)
    ensures row == BarRow(acts, types, cal, day)
  {
    var dayActs := Filter(acts, OnDay(cal, day));
    row := [Entry("name", Label(cal.weekdayName(day)))];
    ghost var start := row;
    for i := 0 to |types|
      invariant row == FillRow(start, types[..i], dayActs)
    {
      assert types[..i + 1][..i] == types[..i];
      row := Put(row, types[i].name, HoursValue(TypeHours(dayActs, types[i])));
    }
    assert types[..|types|] == types;
  }

  method ComputeBarData(acts: seq<Activity>, types: seq<ActivityType>, cal: Calendar, days: seq<int>)
    returns (bars: seq<Dict<string, BarValue>>)
    ensures bars == BarData(acts, types, cal, days)
  {
    bars := [];
    for i := 0 to |days|
      invariant bars == BarData(acts, types, cal, days[..i])
    {
      assert days[..i + 1][..i] == days[..i];
      var row := ComputeBarRow(acts, types, cal, days[i]);
      bars := bars + [row];
    }
    assert days[..|days|] == days;
  }

  /** Filling keeps the keys it had and adds every type's name. */
  lemma {:induction false} FillRowKeys(row: Dict<string, BarValue>, types: seq<ActivityType>, dayActs: seq<Activity>, k: string)
    ensures Get(FillRow(row, types, dayActs), k).Some? <==> Get(row, k).Some? || exists i :: 0 <= i < |types| && types[i].name == k
  {
    if types != [] {
      var init := types[..|types| - 1];
      var t := types[|types| - 1];
      FillRowKeys(row, init, dayActs, k);
      PutGet(FillRow(row, init, dayActs), t.name, HoursValue(TypeHours(dayActs, t)), k);
      if exists i :: 0 <= i < |types| && types[i].name == k {
        var i :| 0 <= i < |types| && types[i].name == k;
        if i < |init| {
          assert init[i] == types[i];
        }
      }
      if exists i :: 0 <= i < |init| && init[i].name == k {
        var i :| 0 <= i < |init| && init[i].name == k;
        assert types[i] == init[i];
      }
    }
  }

  /** The value under a type name comes from the last type carrying that name. */
  lemma {:induction false} FillRowValue(row: Dict<string, BarValue>, types: seq<ActivityType>, dayActs: seq<Activity>, i: int)
    requires LastWithKey(types, TypeName, i)
    ensures Get(FillRow(row, types, dayActs), types[i].name) == Some(HoursValue(TypeHours(dayActs, types[i])))
  {
    var n := |types| - 1;
    var init := types[..n];
    PutGet(FillRow(row, init, dayActs), types[n].name, HoursValue(TypeHours(dayActs, types[n])), types[i].name);
    if i < n {
      assert init[i] == types[i];
      FillRowValue(row, init, dayActs, i);
    }
  }

  /** A key no type carries keeps its value. */
  lemma {:induction false} FillRowOther(row: Dict<string, BarValue>, types: seq<ActivityType>, dayActs: seq<Activity>, k: string)
    requires forall i :: 0 <= i < |types| ==> types[i].name != k
    ensures Get(FillRow(row, types, dayActs), k) == Get(row, k)
  {
    if types != [] {
      var init := types[..|types| - 1];
      FillRowOther(row, init, dayActs, k);
      PutGet(FillRow(row, init, dayActs), types[|types| - 1].name, HoursValue(TypeHours(dayActs, types[|types| - 1])), k);
    }
  }

  /** Each row carries a key for every type name, holding the rounded hours
      of that type's records starting on that day; the weekday label
      survives unless a type is itself named "name". */
  lemma BarRowFacts(acts: seq<Activity>, types: seq<ActivityType>, cal: Calendar, day: int, i: int)
    requires LastWithKey(types, TypeName, i)
    ensures var row := BarRow(acts, types, cal, day);
      && (forall k :: Get(row, k).Some? <==> k == "name" || exists j :: 0 <= j < |types| && types[j].name == k)
      && Get(row, types[i].name) == Some(HoursValue(Hours(TotalMinutes(Filter(Filter(acts, OnDay(cal, day)), HasType(types[i].id))))))
      && ((forall j :: 0 <= j < |types| ==> types[j].name != "name") ==> Get(row, "name") == Some(Label(cal.weekdayName(day))))
  {
    var start := [Entry("name", Label(cal.weekdayName(day)))];
    var dayActs := Filter(acts, OnDay(cal, day));
    forall k ensures Get(BarRow(acts, types, cal, day), k).Some? <==> k == "name" || exists j :: 0 <= j < |types| && types[j].name == k {
      FillRowKeys(start, types, dayActs, k);
    }
    FillRowValue(start, types, dayActs, i);
    if forall j :: 0 <= j < |types| ==> types[j].name != "name" {
      FillRowOther(start, types, dayActs, "name");
    }
  }

  /** Rows line up with the days given. */
  lemma {:induction false} BarDataRows(acts: seq<Activity>, types: seq<ActivityType>, cal: Calendar, days: seq<int>, d: nat)
    requires d < |days|
    ensures BarData(acts, types, cal, days)[d] == BarRow(acts, types, cal, days[d])
  {
    if d < |days| - 1 {
      assert days[..|days| - 1][d] == days[d];
      BarDataRows(acts, types, cal, days[..|days| - 1], d);
    }
  }

  /** A record is counted on at most one day: the day of its start. */
  lemma CountedOnOneDay(a: Activity, cal: Calendar, day1: int, day2: int)
    requires OnDay(cal, day1)(a) && OnDay(cal, day2)(a)
    ensures cal.dayKey(day1) == cal.dayKey(day2)
  {
  }

  // ---- Mean score per day -------------------------------------------------------

  datatype EfficiencyPoint = EfficiencyPoint(name: string, efficiency: real)

  /** x has at most one decimal: ten times x is a whole number. */
  predicate WholeTenths(x: real)
  {
    (x * 10.0).Floor as real == x * 10.0
  }

  /** The day's mean score, 0 without records, rounded to one decimal. */
  function DayEfficiency(dayActs: seq<Activity>): real
  {
    var avg := if |dayActs| > 0 then TotalScore(dayActs) as real / |dayActs| as real else 0.0;
    Round(avg * 10.0) as real / 10.0
  }

  /** `efficiencyData`: one point per day, labelled with the day's formatted
      weekday. Every point is a whole number of tenths. A day on which no
      record starts scores 0; a day with records scores within 0.05 of the
      mean score of that day's records, and with scores on the 1..5 rating
      scale within 1..5. */
  function EfficiencyData(acts: seq<Activity>, cal: Calendar, days: seq<int>): (r: seq<EfficiencyPoint>)
    ensures |r| == |days|
    ensures forall d :: 0 <= d < |days| ==> r[d].name == cal.weekdayName(days[d])
    ensures forall d :: 0 <= d < |days| ==> WholeTenths(r[d].efficiency)
    ensures forall d :: 0 <= d < |days| && (forall a :: a in acts ==> cal.dayKey(a.startTime) != cal.dayKey(days[d])) ==>
      r[d].efficiency == 0.0
    ensures forall d :: 0 <= d < |days| && Filter(acts, OnDay(cal, days[d])) != [] ==>
      var dayActs := Filter(acts, OnDay(cal, days[d]));
      var avg := TotalScore(dayActs) as real / |dayActs| as real;
      avg - 0.05 < r[d].efficiency <= avg + 0.05
    ensures (forall a :: a in acts ==> 1 <= a.efficiencyScore <= 5) ==>
      forall d :: 0 <= d < |days| && Filter(acts, OnDay(cal, days[d])) != [] ==> 1.0 <= r[d].efficiency <= 5.0
  {
    EfficiencyPoints(acts, cal, days);
    seq(|days|, d requires 0 <= d < |days| => EfficiencyPoint(cal.weekdayName(days[d]), DayEfficiency(Filter(acts, OnDay(cal, days[d])))))
  }

  /** DayEfficiencyRounded and DayEfficiencyBounds applied to each day's records. */
  lemma EfficiencyPoints(acts: seq<Activity>, cal: Calendar, days: seq<int>)
    ensures forall d :: 0 <= d < |days| ==> WholeTenths(DayEfficiency(Filter(acts, OnDay(cal, days[d]))))
    ensures forall d :: 0 <= d < |days| && (forall a :: a in acts ==> cal.dayKey(a.startTime) != cal.dayKey(days[d])) ==>
      DayEfficiency(Filter(acts, OnDay(cal, days[d]))) == 0.0
    ensures forall d :: 0 <= d < |days| && Filter(acts, OnDay(cal, days[d])) != [] ==>
      var dayActs := Filter(acts, OnDay(cal, days[d]));
      var avg := TotalScore(dayActs) as real / |dayActs| as real;
      avg - 0.05 < DayEfficiency(dayActs) <= avg + 0.05
    ensures (forall a :: a in acts ==> 1 <= a.efficiencyScore <= 5) ==>
      forall d :: 0 <= d < |days| && Filter(acts, OnDay(cal, days[d])) != [] ==>
        1.0 <= DayEfficiency(Filter(acts, OnDay(cal, days[d]))) <= 5.0
  {
    forall d | 0 <= d < |days|
      ensures WholeTenths(DayEfficiency(Filter(acts, OnDay(cal, days[d]))))
      ensures (forall a :: a in acts ==> cal.dayKey(a.startTime) != cal.dayKey(days[d])) ==>
        DayEfficiency(Filter(acts, OnDay(cal, days[d]))) == 0.0
      ensures Filter(acts, OnDay(cal, days[d])) != [] ==>
        var dayActs := Filter(acts, OnDay(cal, days[d]));
        var avg := TotalScore(dayActs) as real / |dayActs| as real;
        avg - 0.05 < DayEfficiency(dayActs) <= avg + 0.05
    {
      DayEfficiencyRounded(Filter(acts, OnDay(cal, days[d])));
      if forall a :: a in acts ==> cal.dayKey(a.startTime) != cal.dayKey(days[d]) {
        FilterNone(acts, OnDay(cal, days[d]));
      }
    }
    if forall a :: a in acts ==> 1 <= a.efficiencyScore <= 5 {
      forall d | 0 <= d < |days| && Filter(acts, OnDay(cal, days[d])) != []
        ensures 1.0 <= DayEfficiency(Filter(acts, OnDay(cal, days[d]))) <= 5.0
      {
        var dayActs := Filter(acts, OnDay(cal, days[d]));
        forall a | a in dayActs ensures 1 <= a.efficiencyScore <= 5 {
          FilterMembers(acts, OnDay(cal, days[d]), a);
        }
        DayEfficiencyBounds(dayActs);
      }
    }
  }

  /** Whatever the scores, a point is a whole number of tenths: 0 for a day
      without records, otherwise within 0.05 of the mean, a half-tenth
      rounded up. */
  lemma DayEfficiencyRounded(dayActs: seq<Activity>)
    ensures WholeTenths(DayEfficiency(dayActs))
    ensures dayActs == [] ==> DayEfficiency(dayActs) == 0.0
    ensures dayActs != [] ==>
      var avg := TotalScore(dayActs) as real / |dayActs| as real;
      avg - 0.05 < DayEfficiency(dayActs) <= avg + 0.05
  {
    var avg := if |dayActs| > 0 then TotalScore(dayActs) as real / |dayActs| as real else 0.0;
    var k := Round(avg * 10.0);
    assert DayEfficiency(dayActs) == k as real / 10.0;
    assert DayEfficiency(dayActs) * 10.0 == k as real;
    if dayActs == [] {
      RoundOfInt(0);
    }
  }

  /** A day without records scores 0; otherwise, with scores within 1..5,
      the point lies within 1..5 and within 0.05 of the true mean. */
  lemma DayEfficiencyBounds(dayActs: seq<Activity>)
    requires forall a :: a in dayActs ==> 1 <= a.efficiencyScore <= 5
    ensures dayActs == [] ==> DayEfficiency(dayActs) == 0.0
    ensures dayActs != [] ==> 1.0 <= DayEfficiency(dayActs) <= 5.0
    ensures dayActs != [] ==>
      var avg := TotalScore(dayActs) as real / |dayActs| as real;
      avg - 0.05 < DayEfficiency(dayActs) <= avg + 0.05
  {
    if dayActs != [] {
      var avg := TotalScore(dayActs) as real / |dayActs| as real;
      TotalScoreBounds(dayActs, 1, 5);
      MeanWithin(TotalScore(dayActs), |dayActs|, 1, 5);
      RoundMonotone(10.0, avg * 10.0);
      RoundMonotone(avg * 10.0, 50.0);
      RoundOfInt(10);
      RoundOfInt(50);
    }
  }
}
