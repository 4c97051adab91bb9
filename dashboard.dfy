/** The dashboard's memos: today's activities in start order, their total
    minutes, minutes per type name, the mean efficiency, and the way a
    number of minutes is shown as hours and minutes. */
module Dashboard {
  import opened Common
  import opened Dict
  import opened Records

  // ---- Today's activities ------------------------------------------------------

  /** `isToday(new Date(a.startTime))`, with `now` the current time. */
  function StartsOn(cal: Calendar, now: int): Activity -> bool
  {
    (a: Activity) => cal.dayKey(a.startTime) == cal.dayKey(now)
  }

  /** `todayActivities`: the day's records sorted by start time. */
  function TodayActivities(acts: seq<Activity>, cal: Calendar, now: int): seq<Activity>
  {
    SortBy(Filter(acts, StartsOn(cal, now)), StartOf)
  }

  /** Today's list holds exactly the records starting today, each as often
      as in the store, in ascending start order. */
  lemma TodayActivitiesFacts(acts: seq<Activity>, cal: Calendar, now: int)
    ensures var r := TodayActivities(acts, cal, now);
      && SortedBy(r, StartOf)
      && multiset(r) == multiset(Filter(acts, StartsOn(cal, now)))
      && (forall a :: a in r <==> a in acts && cal.dayKey(a.startTime) == cal.dayKey(now))
  {
    var f := Filter(acts, StartsOn(cal, now));
    SortByFacts(f, StartOf);
    forall a ensures a in TodayActivities(acts, cal, now) <==> a in acts && cal.dayKey(a.startTime) == cal.dayKey(now) {
      FilterMembers(acts, StartsOn(cal, now), a);
      assert a in TodayActivities(acts, cal, now) <==> a in multiset(f);
    }
  }

  /** The total of a list does not depend on its order. */
  lemma {:induction false} TotalMinutesPermutation(a: seq<Activity>, b: seq<Activity>)
    requires multiset(a) == multiset(b)
    ensures TotalMinutes(a) == TotalMinutes(b)
    decreases |a|
  {
    if a == [] {
      assert |multiset(b)| == 0;
    } else {
      var init := a[..|a| - 1];
      var x := a[|a| - 1];
      assert a == init + [x];
      assert x in multiset(b);
      var i :| 0 <= i < |b| && b[i] == x;
      var rest := b[..i] + b[i + 1..];
      assert b == b[..i] + [x] + b[i + 1..];
      assert multiset(b) == multiset(b[..i]) + multiset{x} + multiset(b[i + 1..]);
      assert multiset(a) == multiset(init) + multiset{x};
      assert multiset(rest) == multiset(b[..i]) + multiset(b[i + 1..]);
      assert multiset(init) + multiset{x} == multiset(rest) + multiset{x};
      assert multiset(init) == (multiset(init) + multiset{x}) - multiset{x};
      assert multiset(rest) == (multiset(rest) + multiset{x}) - multiset{x};
      TotalMinutesPermutation(init, rest);
      TotalMinutesAppend(b[..i] + [x], b[i + 1..]);
      TotalMinutesAppend(b[..i], [x]);
      TotalMinutesAppend(b[..i], b[i + 1..]);
      assert TotalMinutes([x]) == Duration(x) by {
        assert [x][..0] == [];
      }
    }
  }

  /** `totalDuration`: the whole minutes of today's records. */
  function TotalDuration(acts: seq<Activity>, cal: Calendar, now: int): int
  {
    TotalMinutes(TodayActivities(acts, cal, now))
  }

  /** The total is that of the records starting today, whatever their order. */
  lemma TotalDurationOfToday(acts: seq<Activity>, cal: Calendar, now: int)
    ensures TotalDuration(acts, cal, now) == TotalMinutes(Filter(acts, StartsOn(cal, now)))
  {
    SortByFacts(Filter(acts, StartsOn(cal, now)), StartOf);
    TotalMinutesPermutation(TodayActivities(acts, cal, now), Filter(acts, StartsOn(cal, now)));
  }

  // ---- Minutes per type name ---------------------------------------------------

  /** `typeDurations` as a value: records whose typeId resolves add their
      minutes under the type's name; the others are skipped. */
  function TypeDurations(todays: seq<Activity>, types: seq<ActivityType>): Dict<string, int>
  {
    if todays == [] then []
    else
      var a := todays[|todays| - 1];
      var d := TypeDurations(todays[..|todays| - 1], types);
      match FindType(types, a.typeId)
      case Some(t) => Add(d, t.name, Duration(a))
      case None => d
  }

  method AccumulateTypeDurations(todays: seq<Activity>, types: seq<ActivityType>) returns (durations: Dict<string, int>)
    ensures durations == TypeDurations(todays, types)
  {
    durations := [];
    for i := 0 to |todays|
      invariant durations == TypeDurations(todays[..i], types)
    {
      assert todays[..i + 1][..i] == todays[..i];
      var found := FindType(types, todays[i].typeId);
      if found.Some? {
        durations := Add(durations, found.value.name, Duration(todays[i]));
      }
    }
    assert todays[..|todays|] == todays;
  }

  function Resolves(types: seq<ActivityType>): Activity -> bool
  {
    (a: Activity) => FindType(types, a.typeId).Some?
  }

  function ResolvesTo(types: seq<ActivityType>, name: string): Activity -> bool
  {
    (a: Activity) => FindType(types, a.typeId).Some? && FindType(types, a.typeId).value.name == name
  }

  lemma AddGetOr(d: Dict<string, int>, k: string, x: int, k': string)
    ensures GetOr(Add(d, k, x), k', 0) == GetOr(d, k', 0) + (if k' == k then x else 0)
    ensures Get(Add(d, k, x), k').Some? <==> Get(d, k').Some? || k' == k
  {
    PutGet(d, k, GetOr(d, k, 0) + x, k');
  }

  /** One more record: its minutes go under its type's name, if its type resolves. */
  lemma TypeDurationsSnoc(init: seq<Activity>, a: Activity, types: seq<ActivityType>)
    ensures TypeDurations(init + [a], types) ==
      match FindType(types, a.typeId)
      case Some(t) => Add(TypeDurations(init, types), t.name, Duration(a))
      case None => TypeDurations(init, types)
  {
    assert (init + [a])[..|init|] == init;
  }

  /** A name's value is the total minutes of the records whose type has that name. */
  lemma {:induction false} TypeDurationsValue(todays: seq<Activity>, types: seq<ActivityType>, name: string)
    ensures GetOr(TypeDurations(todays, types), name, 0) == TotalMinutes(Filter(todays, ResolvesTo(types, name)))
  {
    if todays != [] {
      var init := todays[..|todays| - 1];
      var a := todays[|todays| - 1];
      assert todays == init + [a];
      TypeDurationsValue(init, types, name);
      TypeDurationsSnoc(init, a, types);
      FilterSnoc(init, a, ResolvesTo(types, name));
      var f := Filter(init, ResolvesTo(types, name));
      var found := FindType(types, a.typeId);
      if found.Some? {
        AddGetOr(TypeDurations(init, types), found.value.name, Duration(a), name);
        if found.value.name == name {
          assert (f + [a])[..|f|] == f;
          assert Filter(todays, ResolvesTo(types, name)) == f + [a];
        } else {
          assert Filter(todays, ResolvesTo(types, name)) == f;
        }
      } else {
        assert Filter(todays, ResolvesTo(types, name)) == f;
      }
    }
  }

  /** A name appears exactly when some record resolves to a type of that name. */
  lemma {:induction false} TypeDurationsKeys(todays: seq<Activity>, types: seq<ActivityType>, name: string)
    ensures Get(TypeDurations(todays, types), name).Some? <==> exists i :: 0 <= i < |todays| && ResolvesTo(types, name)(todays[i])
  {
    if todays != [] {
      var init := todays[..|todays| - 1];
      var a := todays[|todays| - 1];
      TypeDurationsKeys(init, types, name);
      if FindType(types, a.typeId).Some? {
        AddGetOr(TypeDurations(init, types), FindType(types, a.typeId).value.name, Duration(a), name);
      }
      if exists i :: 0 <= i < |todays| && ResolvesTo(types, name)(todays[i]) {
        var i :| 0 <= i < |todays| && ResolvesTo(types, name)(todays[i]);
        if i < |init| {
          assert init[i] == todays[i];
        }
      }
      if exists i :: 0 <= i < |init| && ResolvesTo(types, name)(init[i]) {
        var i :| 0 <= i < |init| && ResolvesTo(types, name)(init[i]);
        assert todays[i] == init[i];
      }
    }
  }

  /** The values add up to the minutes of the records whose type resolves. */
  lemma {:induction false} TypeDurationsTotal(todays: seq<Activity>, types: seq<ActivityType>)
    ensures SumValues(TypeDurations(todays, types)) == TotalMinutes(Filter(todays, Resolves(types)))
  {
    if todays != [] {
      var init := todays[..|todays| - 1];
      var a := todays[|todays| - 1];
      assert todays == init + [a];
      TypeDurationsTotal(init, types);
      TypeDurationsSnoc(init, a, types);
      FilterSnoc(init, a, Resolves(types));
      var f := Filter(init, Resolves(types));
      var found := FindType(types, a.typeId);
      if found.Some? {
        AddSum(TypeDurations(init, types), found.value.name, Duration(a));
        assert (f + [a])[..|f|] == f;
        assert Filter(todays, Resolves(types)) == f + [a];
      } else {
        assert Filter(todays, Resolves(types)) == f;
      }
    }
  }

  /** With non-negative durations the per-type minutes never exceed the day's total. */
  lemma TypeDurationsBound(todays: seq<Activity>, types: seq<ActivityType>)
    requires forall a :: a in todays ==> a.startTime <= a.endTime
    ensures SumValues(TypeDurations(todays, types)) <= TotalMinutes(todays)
  {
    TypeDurationsTotal(todays, types);
    TotalMinutesFilter(todays, Resolves(types));
  }

  // ---- Mean efficiency ------------------------------------------------------------

  /** `averageEfficiency`: 0 for an empty day, otherwise the mean score, the
      value that times the number of records gives their total score. */
  function AverageEfficiency(todays: seq<Activity>): (r: real)
    ensures todays == [] ==> r == 0.0
    ensures todays != [] ==> r * |todays| as real == TotalScore(todays) as real
  {
    if |todays| == 0 then 0.0 else TotalScore(todays) as real / |todays| as real
  }

  /** Scores within 1..5 give a mean within 1..5 on a day with records. */
  lemma AverageEfficiencyWithinScale(todays: seq<Activity>)
    requires todays != []
    requires forall a :: a in todays ==> 1 <= a.efficiencyScore <= 5
    ensures 1.0 <= AverageEfficiency(todays) <= 5.0
  {
    TotalScoreBounds(todays, 1, 5);
    MeanWithin(TotalScore(todays), |todays|, 1, 5);
  }

  // ---- Hours and minutes ---------------------------------------------------------

  datatype HoursMinutes = HoursMinutes(hours: int, minutes: int)

  /** The display as written: `Math.round(total / 60)` hours and `total % 60` minutes. */
  function ShownAsWritten(total: int): HoursMinutes
  {
    HoursMinutes(Round(total as real / 60.0), JsRem(total, 60))
  }

  /** Rounding the hours overstates by an hour once 30 or more minutes remain. */
  lemma ShownAsWrittenOverstates(total: nat)
    ensures var s := ShownAsWritten(total);
      s.hours * 60 + s.minutes == if total % 60 < 30 then total else total + 60
  {
    var q, m := total / 60, total % 60;
    assert total == q * 60 + m;
    assert JsRem(total, 60) == m by {
      DivFloor(total, 60);
    }
    assert total as real / 60.0 == q as real + m as real / 60.0;
    if m < 30 {
      assert Round(total as real / 60.0) == q;
    } else {
      assert Round(total as real / 60.0) == q + 1;
    }
  }

  /** 90 minutes are shown as 2 h 30 min. */
  lemma NinetyMinutesShowTwoHours()
    ensures ShownAsWritten(90) == HoursMinutes(2, 30)
    ensures 2 * 60 + 30 != 90
  {
    ShownAsWrittenOverstates(90);
  }

  /** The intended display: whole hours and the remaining minutes, which add back up to the total. */
  function Shown(total: int): (s: HoursMinutes)
    ensures s.hours * 60 + s.minutes == total
    ensures total >= 0 ==> 0 <= s.minutes < 60 && s.hours >= 0
  {
    HoursMinutes(TruncDiv(total, 60), JsRem(total, 60))
  }
}
