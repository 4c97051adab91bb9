/** The activity record page: the timer display, the form check, the
    timer's running/paused flags and the form reset after a submit. */
module ActivityRecordPage {
  import opened Common
  import opened Text

  // ---- Timer display ----------------------------------------------------------------

  function DigitChar(d: int): char
    requires 0 <= d < 10
  {
    (48 + d) as char
  }

  function DigitValue(c: char): int
  {
    c as int - 48
  }

  /** `n.toString()` for a non-negative integer. */
  function NatStr(n: nat): (s: string)
    ensures |s| >= 1
    decreases n
  {
    if n < 10 then [DigitChar(n)] else NatStr(n / 10) + [DigitChar(n % 10)]
  }

  /** `padStart(2, '0')`. */
  function PadStart2(s: string): (r: string)
    ensures |r| == if |s| >= 2 then |s| else 2
  {
    if |s| >= 2 then s else seq(2 - |s|, _ => '0') + s
  }

  function Pad2(n: nat): string
  {
    PadStart2(NatStr(n))
  }

  /** The hours, minutes and seconds `formatTime` prints. */
  datatype Clock = Clock(hours: nat, minutes: nat, seconds: nat)

  function ClockOf(elapsed: nat): (c: Clock)
    ensures c.minutes < 60 && c.seconds < 60
    ensures c.hours * 3600 + c.minutes * 60 + c.seconds == elapsed
  {
    Clock(elapsed / 3600, (elapsed % 3600) / 60, elapsed % 60)
  }

  /** `formatTime(seconds)`: "HH:MM:SS", each field padded to two digits. */
  function FormatTime(elapsed: nat): string
  {
    var c := ClockOf(elapsed);
    Pad2(c.hours) + ":" + Pad2(c.minutes) + ":" + Pad2(c.seconds)
  }

  /** Reads "HH:MM:SS" back to seconds. */
  function ParseClock(s: string): int
    requires |s| == 8
  {
    (DigitValue(s[0]) * 10 + DigitValue(s[1])) * 3600
      + (DigitValue(s[3]) * 10 + DigitValue(s[4])) * 60
      + DigitValue(s[6]) * 10 + DigitValue(s[7])
  }

  lemma Pad2Small(n: nat)
    requires n < 100
    ensures Pad2(n) == [DigitChar(n / 10), DigitChar(n % 10)]
  {
    if n >= 10 {
      assert NatStr(n / 10) == [DigitChar(n / 10)];
    }
  }

  /** Below 100 hours the display is exactly eight characters "HH:MM:SS"
      with digits around two colons, and it reads back to the same count. */
  lemma FormatTimeRoundTrip(elapsed: nat)
    requires elapsed < 360000
    ensures var s := FormatTime(elapsed);
      && |s| == 8 && s[2] == ':' && s[5] == ':'
      && (forall i :: 0 <= i < 8 && i != 2 && i != 5 ==> '0' <= s[i] <= '9')
      && ParseClock(s) == elapsed
  {
    var c := ClockOf(elapsed);
    Pad2Small(c.hours);
    Pad2Small(c.minutes);
    Pad2Small(c.seconds);
    var s := FormatTime(elapsed);
    assert s == [DigitChar(c.hours / 10), DigitChar(c.hours % 10), ':',
                 DigitChar(c.minutes / 10), DigitChar(c.minutes % 10), ':',
                 DigitChar(c.seconds / 10), DigitChar(c.seconds % 10)];
  }

  /** From 100 hours on, the hours field is wider than two characters. */
  lemma FormatTimeLong(elapsed: nat)
    requires elapsed >= 360000
    ensures |FormatTime(elapsed)| > 8
  {
    var h := ClockOf(elapsed).hours;
    assert h >= 100;
    assert |NatStr(h)| >= 3 by {
      assert NatStr(h) == NatStr(h / 10) + [DigitChar(h % 10)];
      assert h / 10 >= 10;
      assert NatStr(h / 10) == NatStr(h / 10 / 10) + [DigitChar(h / 10 % 10)];
    }
  }

  // ---- The form check ---------------------------------------------------------------

  datatype FormError = MissingDescription | MissingType | EndNotAfterStart

  /** The message each failed check shows. */
  function Message(e: FormError): string
  {
    match e
    case MissingDescription => "请输入活动描述"
    case MissingType => "请选择活动类型"
    case EndNotAfterStart => "结束时间必须晚于开始时间"
  }

  /** `validateForm`: the first failing check, or None when all pass. */
  function Validate(description: string, typeId: Option<int>, startTime: int, endTime: int): (r: Option<FormError>)
    ensures r.None? <==> Trim(description) != [] && typeId.Some? && startTime < endTime
    ensures r == Some(MissingDescription) <==> Trim(description) == []
    ensures r == Some(MissingType) <==> Trim(description) != [] && typeId.None?
    ensures r == Some(EndNotAfterStart) <==> Trim(description) != [] && typeId.Some? && startTime >= endTime
  {
    if Trim(description) == [] then Some(MissingDescription)
    else if typeId.None? then Some(MissingType)
    else if startTime >= endTime then Some(EndNotAfterStart)
    else None
  }

  /** A description of white space only never passes, whatever the other fields hold. */
  lemma BlankDescriptionRejected(description: string, typeId: Option<int>, startTime: int, endTime: int)
    requires forall i :: 0 <= i < |description| ==> IsWhite(description[i])
    ensures Validate(description, typeId, startTime, endTime) == Some(MissingDescription)
  {
    TrimEmpty(description);
  }

  // ---- Form times -------------------------------------------------------------------

  /** The instant `new Date(field)` reads from a datetime field that was set to
      `new Date().toISOString().slice(0, 16)` at `now`: the UTC wall clock cut
      to the minute, read back as local time because the string carries no
      offset. `offsetMinutes` is the local zone's offset east of UTC (480
      under UTC+8). The result lies the offset before `now`, to within the
      minute the cut drops. */
  function FieldInstant(now: int, offsetMinutes: int): (r: int)
    ensures r + offsetMinutes * MinuteMs <= now < r + offsetMinutes * MinuteMs + MinuteMs
    ensures (r + offsetMinutes * MinuteMs) % MinuteMs == 0
  {
    (now / MinuteMs) * MinuteMs - offsetMinutes * MinuteMs
  }

  /** The shift cancels out of a span: two field readings lie as far apart
      as their instants, to within a minute. */
  lemma FieldSpan(a: int, b: int, offsetMinutes: int)
    ensures b - a - MinuteMs < FieldInstant(b, offsetMinutes) - FieldInstant(a, offsetMinutes) < b - a + MinuteMs
  {
  }

  /** The local day of an instant in a zone `offsetMinutes` east of UTC. */
  function LocalDay(instant: int, offsetMinutes: int): int
  {
    (instant + offsetMinutes * MinuteMs) / DayMs
  }

  /** Under UTC+8, a field filled at 02:00 local time on 1 January 1970 (18:00
      UTC the day before) reads back as 18:00 local on 31 December: the form's
      time lands on the previous local day, eight hours early. */
  lemma FieldPreviousDay()
    ensures var now := -6 * 60 * MinuteMs;
      && LocalDay(now, 480) == 0
      && LocalDay(FieldInstant(now, 480), 480) == -1
      && FieldInstant(now, 480) == now - 480 * MinuteMs
  {
  }

  // ---- The page state ---------------------------------------------------------------

  datatype TimeMode = Manual | Timer

  /** What a submit hands to the store. */
  datatype NewActivity = NewActivity(startTime: int, endTime: int, description: string, typeId: int, efficiencyScore: int)

  /** The page's state hooks. Form times are the instants `new Date(field)`
      reads from the datetime fields; a field the page fills itself holds
      FieldInstant of the clock in the zone `offsetMinutes` east of UTC. The
      empty type selection is None. */
  class RecordPage {
    const offsetMinutes: int
    var startTime: int
    var endTime: int
    var description: string
    var typeId: Option<int>
    var efficiencyScore: int
    var error: string
    var success: bool
    var timeMode: TimeMode
    var timerRunning: bool
    var timerPaused: bool
    var elapsedTime: nat

    /** The timer is only ever paused while it runs. */
    predicate Valid()
      reads this
    {
      timerPaused ==> timerRunning
    }

    constructor (now: int, offsetMinutes: int)
      ensures Valid() && this.offsetMinutes == offsetMinutes
      ensures startTime == FieldInstant(now, offsetMinutes) && endTime == FieldInstant(now, offsetMinutes)
      ensures description == "" && typeId.None? && efficiencyScore == 3
      ensures error == "" && !success && timeMode == Manual
      ensures !timerRunning && !timerPaused && elapsedTime == 0
    {
      this.offsetMinutes := offsetMinutes;
      startTime, endTime := FieldInstant(now, offsetMinutes), FieldInstant(now, offsetMinutes);
      description, typeId, efficiencyScore := "", None, 3;
      error, success := "", false;
      timeMode := Manual;
      timerRunning, timerPaused, elapsedTime := false, false, 0;
    }

    /** `startTimer`: no effect while running; otherwise runs unpaused, the start
        field set from the clock at `now`. */
    method StartTimer(now: int)
      requires Valid()
      modifies this
      ensures Valid()
      ensures old(timerRunning) ==> timerPaused == old(timerPaused) && startTime == old(startTime)
      ensures !old(timerRunning) ==> !timerPaused && startTime == FieldInstant(now, offsetMinutes)
      ensures timerRunning
      ensures endTime == old(endTime) && description == old(description) && typeId == old(typeId)
      ensures efficiencyScore == old(efficiencyScore) && elapsedTime == old(elapsedTime)
      ensures error == old(error) && success == old(success) && timeMode == old(timeMode)
    {
      if !timerRunning {
        timerRunning := true;
        timerPaused := false;
        startTime := FieldInstant(now, offsetMinutes);
      }
    }

    /** `pauseTimer`: flips the paused flag while running, nothing otherwise. */
    method PauseTimer()
      requires Valid()
      modifies this
      ensures Valid()
      ensures timerRunning == old(timerRunning)
      ensures timerPaused == if old(timerRunning) then !old(timerPaused) else old(timerPaused)
      ensures startTime == old(startTime) && endTime == old(endTime) && description == old(description)
      ensures typeId == old(typeId) && efficiencyScore == old(efficiencyScore) && elapsedTime == old(elapsedTime)
      ensures error == old(error) && success == old(success) && timeMode == old(timeMode)
    {
      if timerRunning && !timerPaused {
        timerPaused := true;
      } else if timerRunning && timerPaused {
        timerPaused := false;
      }
    }

    /** `stopTimer`: always ends stopped and unpaused, the end field set from the clock at `now`. */
    method StopTimer(now: int)
      modifies this
      ensures Valid()
      ensures !timerRunning && !timerPaused && endTime == FieldInstant(now, offsetMinutes)
      ensures startTime == old(startTime) && description == old(description) && typeId == old(typeId)
      ensures efficiencyScore == old(efficiencyScore) && elapsedTime == old(elapsedTime)
      ensures error == old(error) && success == old(success) && timeMode == old(timeMode)
    {
      timerRunning := false;
      timerPaused := false;
      endTime := FieldInstant(now, offsetMinutes);
    }

    /** One interval callback: it exists only while the timer runs unpaused. */
    method Tick()
      requires Valid()
      modifies this
      ensures Valid()
      ensures elapsedTime == if timerRunning && !timerPaused then old(elapsedTime) + 1 else old(elapsedTime)
      ensures timerRunning == old(timerRunning) && timerPaused == old(timerPaused)
      ensures startTime == old(startTime) && endTime == old(endTime) && description == old(description)
      ensures typeId == old(typeId) && efficiencyScore == old(efficiencyScore)
      ensures error == old(error) && success == old(success) && timeMode == old(timeMode)
    {
      if timerRunning && !timerPaused {
        elapsedTime := elapsedTime + 1;
      }
    }

    /** `handleTimeModeChange`: a null mode is ignored; switching to manual
        stops a running timer, which sets the end field from the clock at `now`. */
    method ChangeTimeMode(newMode: Option<TimeMode>, now: int)
      requires Valid()
      modifies this
      ensures Valid()
      ensures newMode.None? ==> timeMode == old(timeMode) && timerRunning == old(timerRunning) && timerPaused == old(timerPaused)
      ensures newMode.Some? ==> timeMode == newMode.value
      ensures newMode == Some(Manual) ==> !timerRunning && !timerPaused
      ensures newMode == Some(Timer) ==> timerRunning == old(timerRunning) && timerPaused == old(timerPaused)
      ensures newMode == Some(Manual) && old(timerRunning) ==> endTime == FieldInstant(now, offsetMinutes)
      ensures !(newMode == Some(Manual) && old(timerRunning)) ==> endTime == old(endTime)
      ensures startTime == old(startTime) && description == old(description) && typeId == old(typeId)
      ensures efficiencyScore == old(efficiencyScore) && elapsedTime == old(elapsedTime)
      ensures error == old(error) && success == old(success)
    {
      if newMode.Some? {
        timeMode := newMode.value;
        if newMode.value == Manual && timerRunning {
          StopTimer(now);
        }
      }
    }

    /** `handleSubmit`. A failed check sets its message and changes nothing
        else. Otherwise the record goes to the store; `storeError` is the
        store's rejection, if any, which is shown. On success the form resets
        to an empty description, no type and score 3, both fields set from
        the clock at `now`, and the elapsed
        time to 0, while the timer flags stay as they were. */
    method Submit(now: int, storeError: Option<string>) returns (sent: Option<NewActivity>)
      requires Valid()
      modifies this
      ensures Valid()
      ensures timerRunning == old(timerRunning) && timerPaused == old(timerPaused) && timeMode == old(timeMode)
      ensures old(Validate(description, typeId, startTime, endTime)).Some? ==>
        (sent.None? && error == Message(old(Validate(description, typeId, startTime, endTime)).value) && success == old(success)
         && description == old(description) && typeId == old(typeId) && startTime == old(startTime)
         && endTime == old(endTime) && efficiencyScore == old(efficiencyScore) && elapsedTime == old(elapsedTime))
      ensures old(Validate(description, typeId, startTime, endTime)).None? ==>
        sent == Some(NewActivity(old(startTime), old(endTime), old(description), old(typeId).value, old(efficiencyScore)))
      ensures old(Validate(description, typeId, startTime, endTime)).None? && storeError.Some? ==>
        (error == storeError.value && success == old(success)
         && description == old(description) && typeId == old(typeId) && startTime == old(startTime)
         && endTime == old(endTime) && efficiencyScore == old(efficiencyScore) && elapsedTime == old(elapsedTime))
      ensures old(Validate(description, typeId, startTime, endTime)).None? && storeError.None? ==>
        (error == "" && success && description == "" && typeId.None? && efficiencyScore == 3
         && startTime == FieldInstant(now, offsetMinutes) && endTime == FieldInstant(now, offsetMinutes) && elapsedTime == 0)
    {
      var check := Validate(description, typeId, startTime, endTime);
      if check.Some? {
        error := Message(check.value);
        sent := None;
        return;
      }
      sent := Some(NewActivity(startTime, endTime, description, typeId.value, efficiencyScore));
      if storeError.Some? {
        error := storeError.value;
        return;
      }
      startTime, endTime := FieldInstant(now, offsetMinutes), FieldInstant(now, offsetMinutes);
      description, typeId, efficiencyScore := "", None, 3;
      success := true;
      error := "";
      elapsedTime := 0;
    }
  }
}
