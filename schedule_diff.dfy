/** The AI schedule page's comparison and analysis views: the slot map of a
    schedule, the list of differences between today's schedule and the
    schedule generated for another date, and the distributions of one
    schedule over periods of the day and over type names. */
module ScheduleDiff {
  import opened Common
  import opened Dict
  import opened Records
  import opened Scheduler

  // ---- Slot maps ----------------------------------------------------------------

  /** One value of a slot map; clock times are minutes since midnight. */
  datatype Slot = Slot(startTime: ClockMinute, endTime: ClockMinute, duration: int, typeName: string, confidence: real)

  function ItemTypeId(it: ScheduleItem): int { it.typeId }

  /** The slot of one item: its start and `addMinutes(start, duration)` read as HH:mm. */
  function SlotOf(cal: Calendar): ScheduleItem -> Slot
  {
    (it: ScheduleItem) => Slot(cal.clockMinute(it.suggestedStartTime),
      cal.clockMinute(it.suggestedStartTime + it.suggestedDuration * MinuteMs),
      it.suggestedDuration, it.typeName, it.confidence)
  }

  /** The map `createTimeSlotMap` builds, keyed by typeId. */
  function SlotMap(schedule: seq<ScheduleItem>, cal: Calendar): Dict<int, Slot>
  {
    Tabulate(schedule, ItemTypeId, SlotOf(cal))
  }

  method CreateTimeSlotMap(schedule: seq<ScheduleItem>, cal: Calendar) returns (timeSlots: Dict<int, Slot>)
    ensures timeSlots == SlotMap(schedule, cal)
  {
    timeSlots := [];
    for i := 0 to |schedule|
      invariant timeSlots == SlotMap(schedule[..i], cal)
    {
      assert schedule[..i + 1][..i] == schedule[..i];
      timeSlots := Put(timeSlots, schedule[i].typeId, SlotOf(cal)(schedule[i]));
    }
    assert schedule[..|schedule|] == schedule;
  }

  ghost predicate InSchedule(schedule: seq<ScheduleItem>, id: int)
  {
    exists i :: 0 <= i < |schedule| && schedule[i].typeId == id
  }

  /** A slot map has one entry per typeId of the schedule, and the item
      that comes last with a typeId decides that entry. */
  lemma SlotMapLastWins(schedule: seq<ScheduleItem>, cal: Calendar, i: int)
    requires LastWithKey(schedule, ItemTypeId, i)
    ensures UniqueKeys(SlotMap(schedule, cal))
    ensures Get(SlotMap(schedule, cal), schedule[i].typeId) == Some(SlotOf(cal)(schedule[i]))
  {
    TabulateUnique(schedule, ItemTypeId, SlotOf(cal));
    TabulateGet(schedule, ItemTypeId, SlotOf(cal), i);
  }

  /** A typeId has a slot exactly when some item of the schedule carries it. */
  lemma SlotMapKeys(schedule: seq<ScheduleItem>, cal: Calendar, id: int)
    ensures Get(SlotMap(schedule, cal), id).Some? <==> InSchedule(schedule, id)
  {
    TabulateKeys(schedule, ItemTypeId, SlotOf(cal), id);
    GetPresent(SlotMap(schedule, cal), id);
  }

  // ---- Differences --------------------------------------------------------------

  datatype DiffKind = New | Removed | TimeChange | DurationChange | ConfidenceChange

  /** What the details text reports, before it is rendered to a string. */
  datatype Detail =
    | Planned(startTime: ClockMinute, endTime: ClockMinute, duration: int)
    | TimeShift(fromClock: ClockMinute, toClock: ClockMinute, minutes: int)
    | DurationShift(from: int, to: int, change: int)
    | ConfidenceShift(fromPercent: int, toPercent: int)

  /** One entry of the comparison list. The typeId is not displayed; it
      records which slot the entry is about. */
  datatype Difference = Difference(kind: DiffKind, typeId: int, typeName: string, details: Detail, confidence: real)

  function AbsInt(x: int): nat { if x < 0 then -x else x }
  function AbsReal(x: real): real { if x < 0.0 then -x else x }

  function PlannedEntry(kind: DiffKind, e: Entry<int, Slot>): Difference
  {
    Difference(kind, e.key, e.value.typeName, Planned(e.value.startTime, e.value.endTime, e.value.duration), e.value.confidence)
  }

  /** The entries of `from` whose typeId `other` lacks, reported as `kind`. */
  function Unmatched(from: Dict<int, Slot>, other: Dict<int, Slot>, kind: DiffKind): seq<Difference>
  {
    if from == [] then []
    else
      var e := from[|from| - 1];
      Unmatched(from[..|from| - 1], other, kind) + (if Get(other, e.key).None? then [PlannedEntry(kind, e)] else [])
  }

  /** The start-time, duration and confidence checks for a typeId in both schedules. */
  function ChangesFor(id: int, t: Slot, c: Slot): seq<Difference>
  {
    var timeDiff := AbsInt(t.startTime - c.startTime);
    var durationDiff := AbsInt(t.duration - c.duration);
    var confidenceDiff := AbsReal(t.confidence - c.confidence);
    (if timeDiff > 30 then [Difference(TimeChange, id, t.typeName, TimeShift(c.startTime, t.startTime, timeDiff), t.confidence)] else [])
    + (if durationDiff > 30 then [Difference(DurationChange, id, t.typeName, DurationShift(c.duration, t.duration, durationDiff), t.confidence)] else [])
    + (if confidenceDiff > 0.2 then [Difference(ConfidenceChange, id, t.typeName,
          ConfidenceShift(Round(c.confidence * 100.0), Round(t.confidence * 100.0)), t.confidence)] else [])
  }

  function Changes(today: Dict<int, Slot>, compare: Dict<int, Slot>): seq<Difference>
  {
    if today == [] then []
    else
      var e := today[|today| - 1];
      Changes(today[..|today| - 1], compare)
        + (match Get(compare, e.key) case Some(c) => ChangesFor(e.key, e.value, c) case None => [])
  }

  /** The list before sorting: new types, removed types, then the changes. */
  function Unsorted(today: Dict<int, Slot>, compare: Dict<int, Slot>): seq<Difference>
  {
    Unmatched(compare, today, New) + Unmatched(today, compare, Removed) + Changes(today, compare)
  }

  const TimeKey: string := "调整为"

  /** The comparator's key: the third space-separated word of a time
      entry's details, which is always "调整为", and "00:00" otherwise. */
  function SortKey(d: Difference): string
  {
    if d.kind == TimeChange then TimeKey else "00:00"
  }

  /** The comparator as a rank: `timeKeyFirst` says whether the locale
      orders "调整为" before "00:00". */
  function Rank(timeKeyFirst: bool): Difference -> int
  {
    (d: Difference) => if (SortKey(d) == TimeKey) == timeKeyFirst then 0 else 1
  }

  function ScheduleDifferences(schedule: seq<ScheduleItem>, compareSchedule: seq<ScheduleItem>, cal: Calendar, timeKeyFirst: bool)
    : seq<Difference>
  {
    SortBy(Unsorted(SlotMap(schedule, cal), SlotMap(compareSchedule, cal)), Rank(timeKeyFirst))
  }

  /** One pass over `from`, pushing a `kind` entry for each typeId `other` lacks. */
  method PushUnmatched(differences: seq<Difference>, from: Dict<int, Slot>, other: Dict<int, Slot>, kind: DiffKind)
    returns (pushed: seq<Difference>)
    ensures pushed == differences + Unmatched(from, other, kind)
  {
    pushed := differences;
    for i := 0 to |from|
      invariant pushed == differences + Unmatched(from[..i], other, kind)
    {
      assert from[..i + 1][..i] == from[..i];
      if Get(other, from[i].key).None? {
        pushed := pushed + [PlannedEntry(kind, from[i])];
      }
    }
    assert from[..|from|] == from;
  }

  /** The three checks on one typeId present in both schedules. */
  method PushChecks(differences: seq<Difference>, id: int, t: Slot, c: Slot) returns (pushed: seq<Difference>)
    ensures pushed == differences + ChangesFor(id, t, c)
  {
    pushed := differences;
    var timeDiff := AbsInt(t.startTime - c.startTime);
    if timeDiff > 30 {
      pushed := pushed + [Difference(TimeChange, id, t.typeName, TimeShift(c.startTime, t.startTime, timeDiff), t.confidence)];
    }
    var durationDiff := AbsInt(t.duration - c.duration);
    if durationDiff > 30 {
      pushed := pushed + [Difference(DurationChange, id, t.typeName, DurationShift(c.duration, t.duration, durationDiff), t.confidence)];
    }
    var confidenceDiff := AbsReal(t.confidence - c.confidence);
    if confidenceDiff > 0.2 {
      pushed := pushed + [Difference(ConfidenceChange, id, t.typeName,
        ConfidenceShift(Round(c.confidence * 100.0), Round(t.confidence * 100.0)), t.confidence)];
    }
  }

  /** One more slot of today's map adds its checks, when the other map has its typeId. */
  lemma ChangesStep(today: Dict<int, Slot>, compare: Dict<int, Slot>, i: int)
    requires 0 <= i < |today|
    ensures Changes(today[..i + 1], compare) == Changes(today[..i], compare)
      + match Get(compare, today[i].key) case Some(c) => ChangesFor(today[i].key, today[i].value, c) case None => []
  {
    assert today[..i + 1][..i] == today[..i];
  }

  /** The pass over today's slots comparing each shared typeId. */
  method PushChanges(differences: seq<Difference>, today: Dict<int, Slot>, compare: Dict<int, Slot>)
    returns (pushed: seq<Difference>)
    ensures pushed == differences + Changes(today, compare)
  {
    pushed := differences;
    for i := 0 to |today|
      invariant pushed == differences + Changes(today[..i], compare)
    {
      ChangesStep(today, compare, i);
      var found := Get(compare, today[i].key);
      if found.Some? {
        pushed := PushChecks(pushed, today[i].key, today[i].value, found.value);
      }
    }
    assert today[..|today|] == today;
  }

  /** getScheduleDifferences: three passes pushing entries, then the sort. */
  method GetScheduleDifferences(schedule: seq<ScheduleItem>, compareSchedule: seq<ScheduleItem>, cal: Calendar, timeKeyFirst: bool)
    returns (differences: seq<Difference>)
    ensures differences == ScheduleDifferences(schedule, compareSchedule, cal, timeKeyFirst)
  {
    var todaySlots := CreateTimeSlotMap(schedule, cal);
    var compareSlots := CreateTimeSlotMap(compareSchedule, cal);
    differences := PushUnmatched([], compareSlots, todaySlots, New);
    assert differences == Unmatched(compareSlots, todaySlots, New);
    differences := PushUnmatched(differences, todaySlots, compareSlots, Removed);
    differences := PushChanges(differences, todaySlots, compareSlots);
    differences := SortBy(differences, Rank(timeKeyFirst));
  }

  // ---- What the differences say ----------------------------------------------------

  lemma {:induction false} UnmatchedIff(from: Dict<int, Slot>, other: Dict<int, Slot>, kind: DiffKind, id: int)
    ensures forall d :: d in Unmatched(from, other, kind) ==> d.kind == kind
    ensures (exists d :: d in Unmatched(from, other, kind) && d.typeId == id) <==> Get(from, id).Some? && Get(other, id).None?
  {
    if from != [] {
      var init := from[..|from| - 1];
      var e := from[|from| - 1];
      assert from == init + [e];
      UnmatchedIff(init, other, kind, id);
      GetSnoc(init, e, id);
      if Get(from, id).Some? && Get(other, id).None? && Get(init, id).None? {
        assert PlannedEntry(kind, e) in Unmatched(from, other, kind);
      }
    }
  }

  lemma ChangesForShape(id: int, t: Slot, c: Slot)
    ensures forall d :: d in ChangesFor(id, t, c) ==> d.typeId == id && d.kind != New && d.kind != Removed
    ensures (exists d :: d in ChangesFor(id, t, c) && d.kind == TimeChange) <==> AbsInt(t.startTime - c.startTime) > 30
    ensures (exists d :: d in ChangesFor(id, t, c) && d.kind == DurationChange) <==> AbsInt(t.duration - c.duration) > 30
    ensures (exists d :: d in ChangesFor(id, t, c) && d.kind == ConfidenceChange) <==> AbsReal(t.confidence - c.confidence) > 0.2
  {
  }

  /** The entries Changes reports about a typeId are exactly those of the
      checks on that typeId's two slots. */
  lemma {:induction false} ChangesAt(today: Dict<int, Slot>, compare: Dict<int, Slot>, id: int)
    requires UniqueKeys(today)
    ensures forall d :: d in Changes(today, compare) ==> d.kind != New && d.kind != Removed
    ensures forall d :: d in Changes(today, compare) && d.typeId == id ==>
      Get(today, id).Some? && Get(compare, id).Some? && d in ChangesFor(id, Get(today, id).value, Get(compare, id).value)
    ensures Get(today, id).Some? && Get(compare, id).Some? ==>
      forall d :: d in ChangesFor(id, Get(today, id).value, Get(compare, id).value) ==> d in Changes(today, compare)
  {
    if today != [] {
      var init := today[..|today| - 1];
      var e := today[|today| - 1];
      assert today == init + [e];
      assert UniqueKeys(init);
      ChangesAt(init, compare, id);
      GetSnoc(init, e, id);
      var tail := match Get(compare, e.key) case Some(c) => ChangesFor(e.key, e.value, c) case None => [];
      assert Changes(today, compare) == Changes(init, compare) + tail;
      if Get(compare, e.key).Some? {
        ChangesForShape(e.key, e.value, Get(compare, e.key).value);
      }
      if e.key == id {
        assert Get(init, id).None? by {
          if Get(init, id).Some? {
            GetPresent(init, id);
            KeysShape(init);
          }
        }
      }
    }
  }

  /** Sorting keeps exactly the entries it was given. */
  lemma SortedMembers(u: seq<Difference>, timeKeyFirst: bool, d: Difference)
    ensures d in SortBy(u, Rank(timeKeyFirst)) <==> d in u
  {
    SortByFacts(u, Rank(timeKeyFirst));
    assert d in multiset(SortBy(u, Rank(timeKeyFirst))) <==> d in multiset(u);
  }

  /** A 'new' entry exists for a typeId exactly when only the compared
      schedule has it, a 'removed' entry exactly when only today's has it. */
  lemma NewAndRemoved(schedule: seq<ScheduleItem>, compareSchedule: seq<ScheduleItem>, cal: Calendar, timeKeyFirst: bool, id: int)
    ensures var r := ScheduleDifferences(schedule, compareSchedule, cal, timeKeyFirst);
      (exists d :: d in r && d.kind == New && d.typeId == id) <==> InSchedule(compareSchedule, id) && !InSchedule(schedule, id)
    ensures var r := ScheduleDifferences(schedule, compareSchedule, cal, timeKeyFirst);
      (exists d :: d in r && d.kind == Removed && d.typeId == id) <==> InSchedule(schedule, id) && !InSchedule(compareSchedule, id)
  {
    var today := SlotMap(schedule, cal);
    var compare := SlotMap(compareSchedule, cal);
    var u := Unsorted(today, compare);
    var r := ScheduleDifferences(schedule, compareSchedule, cal, timeKeyFirst);
    SlotMapKeys(schedule, cal, id);
    SlotMapKeys(compareSchedule, cal, id);
    TabulateUnique(schedule, ItemTypeId, SlotOf(cal));
    UnmatchedIff(compare, today, New, id);
    UnmatchedIff(today, compare, Removed, id);
    ChangesAt(today, compare, id);
    forall d ensures d in r <==> d in u {
      SortedMembers(u, timeKeyFirst, d);
    }
  }

  /** Before sorting, the entries about a typeId in both schedules are exactly its checks. */
  lemma UnsortedShared(today: Dict<int, Slot>, compare: Dict<int, Slot>, id: int)
    requires UniqueKeys(today)
    requires Get(today, id).Some? && Get(compare, id).Some?
    ensures forall d :: d in Unsorted(today, compare) && d.typeId == id <==> d in ChangesFor(id, Get(today, id).value, Get(compare, id).value)
  {
    UnmatchedIff(compare, today, New, id);
    UnmatchedIff(today, compare, Removed, id);
    ChangesAt(today, compare, id);
    ChangesForShape(id, Get(today, id).value, Get(compare, id).value);
  }

  /** For a typeId in both schedules, with slots t today and c in the
      compared schedule, each check reports exactly when its threshold is exceeded. */
  lemma SharedChanges(schedule: seq<ScheduleItem>, compareSchedule: seq<ScheduleItem>, cal: Calendar, timeKeyFirst: bool,
                      id: int, t: Slot, c: Slot)
    requires Get(SlotMap(schedule, cal), id) == Some(t) && Get(SlotMap(compareSchedule, cal), id) == Some(c)
    ensures (exists d :: d in ScheduleDifferences(schedule, compareSchedule, cal, timeKeyFirst) && d.kind == TimeChange && d.typeId == id)
      <==> AbsInt(t.startTime - c.startTime) > 30
    ensures (exists d :: d in ScheduleDifferences(schedule, compareSchedule, cal, timeKeyFirst) && d.kind == DurationChange && d.typeId == id)
      <==> AbsInt(t.duration - c.duration) > 30
    ensures (exists d :: d in ScheduleDifferences(schedule, compareSchedule, cal, timeKeyFirst) && d.kind == ConfidenceChange && d.typeId == id)
      <==> AbsReal(t.confidence - c.confidence) > 0.2
  {
    var today := SlotMap(schedule, cal);
    var compare := SlotMap(compareSchedule, cal);
    var u := Unsorted(today, compare);
    var r := ScheduleDifferences(schedule, compareSchedule, cal, timeKeyFirst);
    var checks := ChangesFor(id, t, c);
    TabulateUnique(schedule, ItemTypeId, SlotOf(cal));
    UnsortedShared(today, compare, id);
    SortedAbout(u, timeKeyFirst, id, checks);
    ChangesForShape(id, t, c);
    KindAbout(r, checks, id, TimeChange);
    KindAbout(r, checks, id, DurationChange);
    KindAbout(r, checks, id, ConfidenceChange);
  }

  lemma KindAbout(r: seq<Difference>, about: seq<Difference>, id: int, k: DiffKind)
    requires forall d :: d in r && d.typeId == id <==> d in about
    ensures (exists d :: d in r && d.kind == k && d.typeId == id) <==> (exists d :: d in about && d.kind == k)
  {
  }

  lemma SortedAbout(u: seq<Difference>, timeKeyFirst: bool, id: int, about: seq<Difference>)
    requires forall d :: d in u && d.typeId == id <==> d in about
    ensures forall d :: d in SortBy(u, Rank(timeKeyFirst)) && d.typeId == id <==> d in about
  {
    forall d | d in about ensures d in SortBy(u, Rank(timeKeyFirst)) {
      SortedMembers(u, timeKeyFirst, d);
    }
    forall d | d in SortBy(u, Rank(timeKeyFirst)) && d.typeId == id ensures d in about {
      SortedMembers(u, timeKeyFirst, d);
    }
  }

  lemma {:induction false} UnmatchedNone(from: Dict<int, Slot>, other: Dict<int, Slot>, kind: DiffKind)
    requires forall i :: 0 <= i < |from| ==> Get(other, from[i].key).Some?
    ensures Unmatched(from, other, kind) == []
  {
    if from != [] {
      UnmatchedNone(from[..|from| - 1], other, kind);
    }
  }

  lemma {:induction false} ChangesNone(today: Dict<int, Slot>, compare: Dict<int, Slot>)
    requires forall i :: 0 <= i < |today| ==> Get(compare, today[i].key) == Some(today[i].value)
    ensures Changes(today, compare) == []
  {
    if today != [] {
      ChangesNone(today[..|today| - 1], compare);
    }
  }

  /** Comparing a schedule with itself reports nothing. */
  lemma SelfCompareEmpty(schedule: seq<ScheduleItem>, cal: Calendar, timeKeyFirst: bool)
    ensures ScheduleDifferences(schedule, schedule, cal, timeKeyFirst) == []
  {
    var slots := SlotMap(schedule, cal);
    TabulateUnique(schedule, ItemTypeId, SlotOf(cal));
    forall i | 0 <= i < |slots| ensures Get(slots, slots[i].key) == Some(slots[i].value) {
      GetAt(slots, i);
    }
    UnmatchedNone(slots, slots, New);
    UnmatchedNone(slots, slots, Removed);
    ChangesNone(slots, slots);
  }

  /** The sort keeps every entry and puts the time entries in one block:
      after all others unless the locale orders "调整为" first. */
  lemma DifferencesOrdered(schedule: seq<ScheduleItem>, compareSchedule: seq<ScheduleItem>, cal: Calendar, timeKeyFirst: bool)
    ensures var r := ScheduleDifferences(schedule, compareSchedule, cal, timeKeyFirst);
      && multiset(r) == multiset(Unsorted(SlotMap(schedule, cal), SlotMap(compareSchedule, cal)))
      && (forall i, j :: 0 <= i < j < |r| && r[i].kind == TimeChange && r[j].kind != TimeChange ==> timeKeyFirst)
      && (forall i, j :: 0 <= i < j < |r| && r[i].kind != TimeChange && r[j].kind == TimeChange ==> !timeKeyFirst)
  {
    var u := Unsorted(SlotMap(schedule, cal), SlotMap(compareSchedule, cal));
    SortByFacts(u, Rank(timeKeyFirst));
  }

  // ---- Distributions ---------------------------------------------------------------

  datatype TimeDistribution = TimeDistribution(morning: nat, afternoon: nat, evening: nat, night: nat)

  /** Items whose start hour lies in [lo, hi). */
  function StartsBetween(cal: Calendar, lo: int, hi: int): ScheduleItem -> bool
  {
    (it: ScheduleItem) => lo <= HourOf(cal, it.suggestedStartTime) < hi
  }

  function StartsAtNight(cal: Calendar): ScheduleItem -> bool
  {
    (it: ScheduleItem) => HourOf(cal, it.suggestedStartTime) >= 22 || HourOf(cal, it.suggestedStartTime) < 6
  }

  /** `timeDistribution`: four filter counts. */
  function Distribution(schedule: seq<ScheduleItem>, cal: Calendar): TimeDistribution
  {
    TimeDistribution(
      |Filter(schedule, StartsBetween(cal, 6, 12))|,
      |Filter(schedule, StartsBetween(cal, 12, 18))|,
      |Filter(schedule, StartsBetween(cal, 18, 22))|,
      |Filter(schedule, StartsAtNight(cal))|)
  }

  function Total(t: TimeDistribution): nat
  {
    t.morning + t.afternoon + t.evening + t.night
  }

  /** Every item's start hour lies in exactly one of the four periods. */
  lemma OnePeriod(cal: Calendar, it: ScheduleItem)
    ensures (if StartsBetween(cal, 6, 12)(it) then 1 else 0) + (if StartsBetween(cal, 12, 18)(it) then 1 else 0)
      + (if StartsBetween(cal, 18, 22)(it) then 1 else 0) + (if StartsAtNight(cal)(it) then 1 else 0) == 1
  {
  }

  /** The four counts add up to the number of items. */
  lemma {:induction false} DistributionTotal(schedule: seq<ScheduleItem>, cal: Calendar)
    ensures Total(Distribution(schedule, cal)) == |schedule|
  {
    if schedule != [] {
      var init := schedule[..|schedule| - 1];
      var it := schedule[|schedule| - 1];
      assert schedule == init + [it];
      DistributionTotal(init, cal);
      FilterSnoc(init, it, StartsBetween(cal, 6, 12));
      FilterSnoc(init, it, StartsBetween(cal, 12, 18));
      FilterSnoc(init, it, StartsBetween(cal, 18, 22));
      FilterSnoc(init, it, StartsAtNight(cal));
      OnePeriod(cal, it);
    }
  }

  /** `typeDistribution`: suggested minutes accumulated by type name. */
  function TypeDistribution(schedule: seq<ScheduleItem>): Dict<string, int>
  {
    if schedule == [] then []
    else
      var it := schedule[|schedule| - 1];
      Add(TypeDistribution(schedule[..|schedule| - 1]), it.typeName, it.suggestedDuration)
  }

  /** Sum of suggested durations. */
  function SuggestedTotal(schedule: seq<ScheduleItem>): int
  {
    if schedule == [] then 0
    else SuggestedTotal(schedule[..|schedule| - 1]) + schedule[|schedule| - 1].suggestedDuration
  }

  function Named(name: string): ScheduleItem -> bool
  {
    (it: ScheduleItem) => it.typeName == name
  }

  lemma AddGet(d: Dict<string, int>, k: string, x: int, k': string)
    ensures Get(Add(d, k, x), k') == if k' == k then Some(GetOr(d, k, 0) + x) else Get(d, k')
  {
    PutGet(d, k, GetOr(d, k, 0) + x, k');
  }

  /** Each name's value is the total suggested minutes of the items with that name. */
  lemma {:induction false} TypeDistributionValue(schedule: seq<ScheduleItem>, name: string)
    ensures GetOr(TypeDistribution(schedule), name, 0) == SuggestedTotal(Filter(schedule, Named(name)))
  {
    if schedule != [] {
      var init := schedule[..|schedule| - 1];
      var it := schedule[|schedule| - 1];
      assert schedule == init + [it];
      TypeDistributionValue(init, name);
      AddGet(TypeDistribution(init), it.typeName, it.suggestedDuration, name);
      FilterSnoc(init, it, Named(name));
      var f := Filter(init, Named(name));
      assert (f + [it])[..|f|] == f;
      if it.typeName == name {
        assert SuggestedTotal(f + [it]) == SuggestedTotal(f) + it.suggestedDuration;
        assert GetOr(TypeDistribution(schedule), name, 0) == GetOr(TypeDistribution(init), name, 0) + it.suggestedDuration;
      } else {
        assert Filter(schedule, Named(name)) == f + [] == f;
        assert GetOr(TypeDistribution(schedule), name, 0) == GetOr(TypeDistribution(init), name, 0);
      }
    }
  }

  /** A name is present exactly when an item carries it. */
  lemma {:induction false} TypeDistributionKeys(schedule: seq<ScheduleItem>, name: string)
    ensures Get(TypeDistribution(schedule), name).Some? <==> exists i :: 0 <= i < |schedule| && schedule[i].typeName == name
  {
    if schedule != [] {
      var init := schedule[..|schedule| - 1];
      var it := schedule[|schedule| - 1];
      TypeDistributionKeys(init, name);
      AddGet(TypeDistribution(init), it.typeName, it.suggestedDuration, name);
      if exists i :: 0 <= i < |schedule| && schedule[i].typeName == name {
        var i :| 0 <= i < |schedule| && schedule[i].typeName == name;
        if i < |init| {
          assert init[i] == schedule[i];
        }
      }
      if exists i :: 0 <= i < |init| && init[i].typeName == name {
        var i :| 0 <= i < |init| && init[i].typeName == name;
        assert schedule[i] == init[i];
      }
    }
  }

  /** The values add up to the schedule's total suggested minutes. */
  lemma {:induction false} TypeDistributionTotal(schedule: seq<ScheduleItem>)
    ensures SumValues(TypeDistribution(schedule)) == SuggestedTotal(schedule)
  {
    if schedule != [] {
      var init := schedule[..|schedule| - 1];
      var it := schedule[|schedule| - 1];
      TypeDistributionTotal(init);
      AddSum(TypeDistribution(init), it.typeName, it.suggestedDuration);
    }
  }
}
