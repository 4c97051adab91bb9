/** The application state and its reducer (appReducer), and the rule that
    ensures the '未记录' (unrecorded) type exists after start-up. */
module AppState {
  import opened Common
  import opened Records

  /** A settings value: the stored settings are flags and short texts. */
  datatype SettingValue = Flag(on: bool) | Text(text: string)

  datatype AppState = AppState(
    activities: seq<Activity>,
    activityTypes: seq<ActivityType>,
    settings: map<string, SettingValue>,
    loading: bool,
    error: Option<string>)

  const InitialState: AppState := AppState([], [],
    map["notificationsEnabled" := Flag(true), "darkMode" := Flag(false), "dailySummaryTime" := Text("20:00")],
    true, None)

  /** The dispatched actions; Unknown stands for any other `type` string. */
  datatype Action =
    | SetLoading(loading: bool)
    | SetError(error: Option<string>)
    | SetActivities(activities: seq<Activity>)
    | AddActivity(activity: Activity)
    | UpdateActivity(activity: Activity)
    | DeleteActivity(id: int)
    | SetActivityTypes(types: seq<ActivityType>)
    | AddActivityType(activityType: ActivityType)
    | UpdateActivityType(activityType: ActivityType)
    | DeleteActivityType(id: int)
    | UpdateSettings(payload: map<string, SettingValue>)
    | Unknown(name: string)

  // ---- List operations by id ---------------------------------------------

  /** `s.map(x => x.id === p.id ? p : x)`. */
  function ReplaceById<T>(s: seq<T>, p: T, idOf: T -> int): (r: seq<T>)
    ensures |r| == |s|
  {
    if s == [] then []
    else [if idOf(s[0]) == idOf(p) then p else s[0]] + ReplaceById(s[1..], p, idOf)
  }

  function IdIsNot<T>(id: int, idOf: T -> int): T -> bool
  {
    x => idOf(x) != id
  }

  /** `s.filter(x => x.id !== id)`. */
  function RemoveById<T>(s: seq<T>, id: int, idOf: T -> int): seq<T>
  {
    Filter(s, IdIsNot(id, idOf))
  }

  /** r keeps some of the elements of s, in their order. */
  ghost predicate Subsequence<T>(r: seq<T>, s: seq<T>)
    decreases |s|
  {
    if r == [] then true
    else if s == [] then false
    else if r[0] == s[0] then Subsequence(r[1..], s[1..])
    else Subsequence(r, s[1..])
  }

  /** Replacing keeps length and order: positions whose id matches hold the
      payload, every other position is unchanged. */
  lemma {:induction false} ReplaceFacts<T>(s: seq<T>, p: T, idOf: T -> int)
    ensures var r := ReplaceById(s, p, idOf);
      && (forall i :: 0 <= i < |s| && idOf(s[i]) == idOf(p) ==> r[i] == p)
      && (forall i :: 0 <= i < |s| && idOf(s[i]) != idOf(p) ==> r[i] == s[i])
  {
    if s != [] {
      ReplaceFacts(s[1..], p, idOf);
      var r := ReplaceById(s, p, idOf);
      assert forall i :: 1 <= i < |s| ==> r[i] == ReplaceById(s[1..], p, idOf)[i - 1] && s[i] == s[1..][i - 1];
    }
  }

  /** Replacing an id that no element carries changes nothing. */
  lemma {:induction false} ReplaceAbsent<T>(s: seq<T>, p: T, idOf: T -> int)
    requires forall i :: 0 <= i < |s| ==> idOf(s[i]) != idOf(p)
    ensures ReplaceById(s, p, idOf) == s
  {
    if s != [] {
      ReplaceAbsent(s[1..], p, idOf);
    }
  }

  lemma {:induction false} FilterSubsequence<T>(s: seq<T>, q: T -> bool)
    ensures Subsequence(Filter(s, q), s)
  {
    if s != [] {
      FilterSubsequence(s[1..], q);
      var r := Filter(s, q);
      if !q(s[0]) && r != [] {
        assert q(r[0]);
      }
    }
  }

  /** Deleting leaves no element with the id, keeps every other element, and
      keeps the survivors in their order; deleting an absent id changes nothing. */
  lemma RemoveFacts<T>(s: seq<T>, id: int, idOf: T -> int)
    ensures var r := RemoveById(s, id, idOf);
      && (forall i :: 0 <= i < |r| ==> idOf(r[i]) != id)
      && (forall x :: x in r <==> x in s && idOf(x) != id)
      && Subsequence(r, s)
      && ((forall i :: 0 <= i < |s| ==> idOf(s[i]) != id) ==> r == s)
  {
    forall x ensures x in RemoveById(s, id, idOf) <==> x in s && idOf(x) != id {
      FilterMembers(s, IdIsNot(id, idOf), x);
    }
    FilterSubsequence(s, IdIsNot(id, idOf));
    if forall i :: 0 <= i < |s| ==> idOf(s[i]) != id {
      FilterAll(s, IdIsNot(id, idOf));
    }
  }

  // ---- The reducer ------------------------------------------------------------

  function ActivityId(a: Activity): int { a.id }
  function TypeId(t: ActivityType): int { t.id }

  /** appReducer: each action rewrites only its own field; an unknown action
      returns the state unchanged. */
  function Reduce(s: AppState, action: Action): (r: AppState)
    ensures !action.SetLoading? ==> r.loading == s.loading
    ensures !action.SetError? ==> r.error == s.error
    ensures !(action.SetActivities? || action.AddActivity? || action.UpdateActivity? || action.DeleteActivity?)
      ==> r.activities == s.activities
    ensures !(action.SetActivityTypes? || action.AddActivityType? || action.UpdateActivityType? || action.DeleteActivityType?)
      ==> r.activityTypes == s.activityTypes
    ensures !action.UpdateSettings? ==> r.settings == s.settings
    ensures action.Unknown? ==> r == s
  {
    match action
    case SetLoading(b) => s.(loading := b)
    case SetError(e) => s.(error := e)
    case SetActivities(acts) => s.(activities := acts)
    case AddActivity(a) => s.(activities := s.activities + [a])
    case UpdateActivity(a) => s.(activities := ReplaceById(s.activities, a, ActivityId))
    case DeleteActivity(id) => s.(activities := RemoveById(s.activities, id, ActivityId))
    case SetActivityTypes(ts) => s.(activityTypes := ts)
    case AddActivityType(t) => s.(activityTypes := s.activityTypes + [t])
    case UpdateActivityType(t) => s.(activityTypes := ReplaceById(s.activityTypes, t, TypeId))
    case DeleteActivityType(id) => s.(activityTypes := RemoveById(s.activityTypes, id, TypeId))
    case UpdateSettings(payload) => s.(settings := s.settings + payload)
    case Unknown(_) => s
  }

  /** Adding appends the payload: one more element, the old ones unchanged in front. */
  lemma AddAppends(s: AppState, a: Activity, t: ActivityType)
    ensures var r := Reduce(s, AddActivity(a));
      |r.activities| == |s.activities| + 1 && r.activities[..|s.activities|] == s.activities
      && r.activities[|s.activities|] == a
    ensures var r := Reduce(s, AddActivityType(t));
      |r.activityTypes| == |s.activityTypes| + 1 && r.activityTypes[..|s.activityTypes|] == s.activityTypes
      && r.activityTypes[|s.activityTypes|] == t
  {
    assert (s.activities + [a])[..|s.activities|] == s.activities;
    assert (s.activityTypes + [t])[..|s.activityTypes|] == s.activityTypes;
  }

  /** Updating keeps length and order and replaces exactly the records with the payload's id. */
  lemma UpdateReplaces(s: AppState, a: Activity, t: ActivityType)
    ensures var r := Reduce(s, UpdateActivity(a)).activities;
      && |r| == |s.activities|
      && (forall i :: 0 <= i < |r| ==> r[i] == if s.activities[i].id == a.id then a else s.activities[i])
    ensures var r := Reduce(s, UpdateActivityType(t)).activityTypes;
      && |r| == |s.activityTypes|
      && (forall i :: 0 <= i < |r| ==> r[i] == if s.activityTypes[i].id == t.id then t else s.activityTypes[i])
  {
    ReplaceFacts(s.activities, a, ActivityId);
    ReplaceFacts(s.activityTypes, t, TypeId);
  }

  /** Deleting removes every element with the id and keeps the others, in order. */
  lemma DeleteRemoves(s: AppState, id: int)
    ensures var r := Reduce(s, DeleteActivity(id)).activities;
      && (forall i :: 0 <= i < |r| ==> r[i].id != id)
      && (forall a :: a in r <==> a in s.activities && a.id != id)
      && Subsequence(r, s.activities)
    ensures var r := Reduce(s, DeleteActivityType(id)).activityTypes;
      && (forall i :: 0 <= i < |r| ==> r[i].id != id)
      && (forall t :: t in r <==> t in s.activityTypes && t.id != id)
      && Subsequence(r, s.activityTypes)
  {
    RemoveFacts(s.activities, id, ActivityId);
    RemoveFacts(s.activityTypes, id, TypeId);
  }

  /** Merging settings overrides exactly the payload's keys and keeps the rest. */
  lemma SettingsMerge(s: AppState, payload: map<string, SettingValue>)
    ensures var r := Reduce(s, UpdateSettings(payload)).settings;
      && r.Keys == s.settings.Keys + payload.Keys
      && (forall k :: k in payload ==> r[k] == payload[k])
      && (forall k :: k in s.settings && k !in payload ==> r[k] == s.settings[k])
  {
  }

  // ---- Default types at start-up ---------------------------------------------

  const UnrecordedName: string := "未记录"

  /** The six default types (name, colour), '未记录' first. */
  const DefaultTypes: seq<(string, string)> := [
    (UnrecordedName, "#9E9E9E"), ("工作", "#FF5722"), ("学习", "#2196F3"),
    ("运动", "#4CAF50"), ("休息", "#9C27B0"), ("娱乐", "#FFC107")]

  function DefaultsFrom(idFor: nat -> int, n: nat): (r: seq<ActivityType>)
    requires n <= |DefaultTypes|
    ensures |r| == n
    ensures forall k :: 0 <= k < n ==> r[k] == ActivityType(idFor(k), DefaultTypes[k].0, DefaultTypes[k].1)
  {
    if n == 0 then [] else DefaultsFrom(idFor, n - 1) + [ActivityType(idFor(n - 1), DefaultTypes[n - 1].0, DefaultTypes[n - 1].1)]
  }

  ghost predicate HasUnrecorded(types: seq<ActivityType>)
  {
    exists i :: 0 <= i < |types| && types[i].name == UnrecordedName
  }

  /** `types.some(t => t.name === '未记录')`. */
  function SomeUnrecorded(types: seq<ActivityType>): (b: bool)
    ensures b <==> HasUnrecorded(types)
  {
    if types == [] then false
    else if types[0].name == UnrecordedName then true
    else
      var b := SomeUnrecorded(types[1..]);
      assert HasUnrecorded(types[1..]) ==> HasUnrecorded(types) by {
        if HasUnrecorded(types[1..]) {
          var i :| 0 <= i < |types[1..]| && types[1..][i].name == UnrecordedName;
          assert types[i + 1].name == UnrecordedName;
        }
      }
      assert HasUnrecorded(types) && types[0].name != UnrecordedName ==> HasUnrecorded(types[1..]) by {
        if HasUnrecorded(types) && types[0].name != UnrecordedName {
          var i :| 0 <= i < |types| && types[i].name == UnrecordedName;
          assert types[1..][i - 1].name == UnrecordedName;
        }
      }
      b
  }

  /** The type list initializeApp stores: the six defaults when nothing was
      loaded, the loaded list with '未记录' appended when it lacks one, the
      loaded list otherwise. `idFor(k)` is the id the database assigns to the
      k-th type added. */
  function EnsureUnrecorded(loaded: seq<ActivityType>, idFor: nat -> int): seq<ActivityType>
  {
    if |loaded| == 0 then DefaultsFrom(idFor, |DefaultTypes|)
    else if SomeUnrecorded(loaded) then loaded
    else loaded + [ActivityType(idFor(0), UnrecordedName, DefaultTypes[0].1)]
  }

  /** After start-up a type named '未记录' exists; the loaded types are kept
      in front, and at most one type is added unless nothing was loaded. */
  lemma UnrecordedExists(loaded: seq<ActivityType>, idFor: nat -> int)
    ensures var r := EnsureUnrecorded(loaded, idFor);
      && HasUnrecorded(r)
      && (|loaded| == 0 ==> |r| == 6 && forall k :: 0 <= k < 6 ==> r[k].name == DefaultTypes[k].0)
      && (|loaded| > 0 ==> r[..|loaded|] == loaded && |r| <= |loaded| + 1)
      && (|loaded| > 0 && HasUnrecorded(loaded) ==> r == loaded)
  {
    var r := EnsureUnrecorded(loaded, idFor);
    if |loaded| == 0 {
      assert r[0].name == UnrecordedName;
    } else if !SomeUnrecorded(loaded) {
      assert r[|loaded|].name == UnrecordedName;
      assert r[..|loaded|] == loaded;
    }
  }
}
