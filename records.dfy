/** The records every page and the analysis service read: activity records,
    activity types, and the calendar facts the program takes from date-fns. */
module Records {
  import opened Common

  /** An activity record; times are milliseconds since the epoch. */
  datatype Activity = Activity(
    id: int,
    typeId: int,
    startTime: int,
    endTime: int,
    description: string,
    efficiencyScore: int)

  datatype ActivityType = ActivityType(id: int, name: string, colorCode: string)

  type Hour = h: int | 0 <= h < 24

  /** Minutes since local midnight: what `format(t, 'HH:mm')` shows. */
  type ClockMinute = m: int | 0 <= m < 1440

  /** The local-time facts the program obtains from `Date` and date-fns. */
  datatype Calendar = Calendar(
    clockMinute: int -> ClockMinute,  // format(t, 'HH:mm') read as minutes
    weekdayName: int -> string,       // format(t, 'EEEE', { locale: zhCN })
    dayKey: int -> string,            // format(t, 'yyyy-MM-dd')
    atHour: (int, Hour) -> int)       // new Date(d.setHours(h, 0, 0, 0))

  /** `new Date(t).getHours()`. */
  function HourOf(cal: Calendar, t: int): Hour
  {
    cal.clockMinute(t) / 60
  }

  /** The weekday labels that the analysis service compares formatted weekdays with. */
  const WeekDays: seq<string> := ["周日", "周一", "周二", "周三", "周四", "周五", "周六"]

  /** differenceInMinutes(endTime, startTime) of one record. */
  function Duration(a: Activity): int
  {
    DiffMinutes(a.endTime, a.startTime)
  }

  function StartOf(a: Activity): int { a.startTime }
  function TypeName(t: ActivityType): string { t.name }

  function HasType(id: int): Activity -> bool
  {
    (a: Activity) => a.typeId == id
  }

  /** `activities.filter(a => a.typeId === id)`. */
  function OfType(acts: seq<Activity>, id: int): seq<Activity>
  {
    Filter(acts, HasType(id))
  }

  /** `reduce((sum, a) => sum + differenceInMinutes(a.endTime, a.startTime), 0)`. */
  function TotalMinutes(acts: seq<Activity>): int
  {
    if acts == [] then 0 else TotalMinutes(acts[..|acts| - 1]) + Duration(acts[|acts| - 1])
  }

  /** `reduce((sum, a) => sum + a.efficiencyScore, 0)`. */
  function TotalScore(acts: seq<Activity>): int
  {
    if acts == [] then 0 else TotalScore(acts[..|acts| - 1]) + acts[|acts| - 1].efficiencyScore
  }

  /** `activityTypes.find(t => t.id === id)`: the first type with that id. */
  function FindType(types: seq<ActivityType>, id: int): (r: Option<ActivityType>)
    ensures r.Some? ==> r.value in types && r.value.id == id
    ensures r.None? <==> forall t :: t in types ==> t.id != id
  {
    if types == [] then None
    else if types[0].id == id then Some(types[0])
    else FindType(types[1..], id)
  }

  /** The type `find` returns is the first one with the id: at the first index
      carrying the id, the result is the type held there. */
  lemma {:induction false} FindTypeFirst(types: seq<ActivityType>, id: int, i: int)
    requires 0 <= i < |types| && types[i].id == id
    requires forall j :: 0 <= j < i ==> types[j].id != id
    ensures FindType(types, id) == Some(types[i])
  {
    if i > 0 {
      FindTypeFirst(types[1..], id, i - 1);
    }
  }

  lemma {:induction false} TotalMinutesAppend(s: seq<Activity>, t: seq<Activity>)
    ensures TotalMinutes(s + t) == TotalMinutes(s) + TotalMinutes(t)
  {
    if t != [] {
      assert (s + t)[..|s + t| - 1] == s + t[..|t| - 1];
      TotalMinutesAppend(s, t[..|t| - 1]);
    } else {
      assert s + t == s;
    }
  }

  lemma {:induction false} TotalScoreAppend(s: seq<Activity>, t: seq<Activity>)
    ensures TotalScore(s + t) == TotalScore(s) + TotalScore(t)
  {
    if t != [] {
      assert (s + t)[..|s + t| - 1] == s + t[..|t| - 1];
      TotalScoreAppend(s, t[..|t| - 1]);
    } else {
      assert s + t == s;
    }
  }

  /** Scores within [lo, hi] sum to a value within [n*lo, n*hi]. */
  lemma {:induction false} TotalScoreBounds(acts: seq<Activity>, lo: int, hi: int)
    requires forall a :: a in acts ==> lo <= a.efficiencyScore <= hi
    ensures |acts| * lo <= TotalScore(acts) <= |acts| * hi
  {
    if acts != [] {
      TotalScoreBounds(acts[..|acts| - 1], lo, hi);
      assert acts[|acts| - 1] in acts;
    }
  }

  /** Non-negative durations give a non-negative total. */
  lemma {:induction false} TotalMinutesNonNegative(acts: seq<Activity>)
    requires forall a :: a in acts ==> a.startTime <= a.endTime
    ensures TotalMinutes(acts) >= 0
  {
    if acts != [] {
      TotalMinutesNonNegative(acts[..|acts| - 1]);
      assert acts[|acts| - 1] in acts;
    }
  }

  /** Filtering out records with non-negative durations cannot raise the total. */
  lemma {:induction false} TotalMinutesFilter(acts: seq<Activity>, p: Activity -> bool)
    requires forall a :: a in acts ==> a.startTime <= a.endTime
    ensures TotalMinutes(Filter(acts, p)) <= TotalMinutes(acts)
  {
    if acts != [] {
      var init := acts[..|acts| - 1];
      var last := acts[|acts| - 1];
      assert acts == init + [last];
      FilterSnoc(init, last, p);
      TotalMinutesFilter(init, p);
      TotalMinutesAppend(Filter(init, p), if p(last) then [last] else []);
      assert last in acts;
    }
  }
}
