/**
 * The countdown of `StudyTimer.js`: the choice of a duration, start, pause,
 * reset, the one-second tick that completes the session at zero, the label of
 * the primary button, and `formatTime`.
 */
module Timer {
  import opened Common
  import opened Numbers

  /** The minutes of the preset buttons. */
  const PresetMinutes: seq<nat> := [25, 45, 60, 90]

  const Placeholder := "--:--:--"

  /** One field of the clock: `k.toString().padStart(2, '0')`. */
  function Field(k: nat): string {
    PadStart2(NatToString(k))
  }

  /** Hours, minutes and seconds, each as a field, joined by colons. */
  function Clock(h: nat, m: nat, sec: nat): string {
    Field(h) + ":" + Field(m) + ":" + Field(sec)
  }

  /**
   * `formatTime(seconds)`: the placeholder for null or 0, otherwise the clock
   * of the seconds.
   */
  function FormatTime(seconds: Option<nat>): (r: string)
    ensures r == Placeholder <==> seconds == None || seconds == Some(0)
  {
    if seconds.None? || seconds.value == 0 then Placeholder
    else
      var n := seconds.value;
      var h := NatToString(n / 3600);
      assert Field(n / 3600)[|Field(n / 3600)| - |h|..] == h;
      assert Clock(n / 3600, n % 3600 / 60, n % 60)[0] == Field(n / 3600)[0];
      Clock(n / 3600, n % 3600 / 60, n % 60)
  }

  /**
   * Reads a clock `H…H:MM:SS` (at least two hour digits, exactly two minute and
   * two second digits) back into seconds.
   */
  function ParseClock(s: string): Option<nat> {
    if |s| >= 8 && s[|s| - 6] == ':' && s[|s| - 3] == ':' then
      FieldsValue(s[..|s| - 6], s[|s| - 5..|s| - 3], s[|s| - 2..])
    else None
  }

  /** The seconds that hour, minute and second fields stand for; minutes and seconds must be below 60. */
  function FieldsValue(hh: string, mm: string, ss: string): Option<nat> {
    if AllDigits(hh) && AllDigits(mm) && AllDigits(ss) && DigitsValue(mm) < 60 && DigitsValue(ss) < 60 then
      Some(DigitsValue(hh) * 3600 + DigitsValue(mm) * 60 + DigitsValue(ss))
    else None
  }

  lemma ClockArithmetic(n: nat)
    ensures n % 3600 / 60 < 60 && n % 60 < 60
    ensures n / 3600 * 3600 + n % 3600 / 60 * 60 + n % 60 == n
  {
    var r := n % 3600;
    assert n == n / 3600 * 3600 + r;
    assert r == r / 60 * 60 + r % 60;
    assert n % 60 == r % 60 by {
      assert n == (n / 3600 * 60) * 60 + r;
    }
  }

  /** A field reads back as the number it shows; below 100 it is two digits wide. */
  lemma FieldValue(k: nat)
    ensures |Field(k)| >= 2 && AllDigits(Field(k)) && DigitsValue(Field(k)) == k
    ensures k < 100 ==> |Field(k)| == 2
  {
    NatToStringRoundTrip(k);
    PadStart2Value(NatToString(k));
  }

  lemma ParseJoinedFields(hh: string, mm: string, ss: string)
    requires |hh| >= 2 && |mm| == 2 && |ss| == 2
    ensures ParseClock(hh + ":" + mm + ":" + ss) == FieldsValue(hh, mm, ss)
  {
    var s := hh + ":" + mm + ":" + ss;
    assert s[|s| - 6] == ':' && s[|s| - 3] == ':';
    assert s[..|s| - 6] == hh;
    assert s[|s| - 5..|s| - 3] == mm;
    assert s[|s| - 2..] == ss;
  }

  /** Hours, minutes below 60 and seconds below 60 shown as a clock read back as their total in seconds. */
  lemma ClockRoundTrip(h: nat, m: nat, sec: nat)
    requires m < 60 && sec < 60
    ensures ParseClock(Clock(h, m, sec)) == Some(h * 3600 + m * 60 + sec)
  {
    FieldValue(h);
    FieldValue(m);
    FieldValue(sec);
    ParseJoinedFields(Field(h), Field(m), Field(sec));
  }

  /**
   * A positive number of seconds is written as a clock whose fields read back
   * as hours, minutes in 0..59 and seconds in 0..59 adding up to the number.
   */
  lemma FormatTimeRoundTrip(n: nat)
    requires n > 0
    ensures ParseClock(FormatTime(Some(n))) == Some(n)
  {
    ClockArithmetic(n);
    ClockRoundTrip(n / 3600, n % 3600 / 60, n % 60);
    assert FormatTime(Some(n)) == Clock(n / 3600, n % 3600 / 60, n % 60);
  }

  /** A number below ten is shown with one leading zero. */
  lemma FieldOfOneDigit(d: nat)
    requires d < 10
    ensures Field(d) == ['0', DigitChar(d)]
  {
    assert NatToString(d) == [DigitChar(d)];
    assert Zeros(1) == ['0'];
  }

  /** A number from ten to ninety-nine is shown as its two digits. */
  lemma FieldOfTwoDigits(n: nat)
    requires 10 <= n < 100
    ensures Field(n) == [DigitChar(n / 10), DigitChar(n % 10)]
  {
    assert NatToString(n / 10) == [DigitChar(n / 10)];
  }

  /** Twenty-five minutes is shown as 00:25:00. */
  lemma FormatTimeExample()
    ensures FormatTime(Some(1500)) == "00:25:00"
  {
    var zero, twentyFive := Field(0), Field(25);
    FieldOfOneDigit(0);
    FieldOfTwoDigits(25);
    assert DigitChar(0) == '0' && DigitChar(2) == '2' && DigitChar(5) == '5';
    assert zero == "00" && twentyFive == "25";
    assert 1500 / 3600 == 0 && 1500 % 3600 / 60 == 25 && 1500 % 60 == 0;
    assert Clock(0, 25, 0) == zero + ":" + twentyFive + ":" + zero;
  }

  /** What the Custom button's prompt answered: None when it was cancelled. */
  datatype Choice = Preset(minutes: nat) | Custom(answer: Option<string>)

  /**
   * `customMinutes && !isNaN(customMinutes) && customMinutes > 0`: the
   * answer is non-empty text that reads as a positive number of minutes.
   */
  function CustomMinutes(answer: Option<string>): (r: Option<nat>)
    ensures r.Some? ==> r.value > 0
    ensures r.Some? ==> answer.Some? && NumberValue(answer.value) == Some(r.value as int)
  {
    if answer.Some? && answer.value != "" && NumberValue(answer.value).Some? && NumberValue(answer.value).value > 0
    then Some(NumberValue(answer.value).value as nat)
    else None
  }

  /** A cancelled prompt, empty text, zero and text that is not a number are all turned down. */
  lemma CustomMinutesRejects(answer: Option<string>)
    requires answer == None || answer == Some("") || answer == Some("0") || answer == Some("abc")
    ensures CustomMinutes(answer) == None
  {
    if answer == Some("0") {
      NumberValueRoundTrip(0);
      assert NatToString(0) == "0";
    }
    if answer == Some("abc") {
      NumberValueNaN("abc");
    }
  }

  /** A positive whole number typed into the prompt is taken as that many minutes. */
  lemma CustomMinutesAccepts(m: nat)
    requires m > 0
    ensures CustomMinutes(Some(NatToString(m))) == Some(m)
  {
    NumberValueRoundTrip(m);
  }

  /** The state of the `StudyTimer` component. */
  class StudyTimer {
    var selectedTime: Option<nat>  // minutes
    var timeLeft: Option<nat>      // seconds
    var isRunning: bool
    var isComplete: bool

    /**
     * A duration is chosen exactly when a remaining time is set; the remaining
     * time never exceeds the duration; it is positive while running; the
     * session is complete exactly when it has reached zero.
     */
    ghost predicate Valid()
      reads this
    {
      && (selectedTime.None? <==> timeLeft.None?)
      && (selectedTime.Some? ==> selectedTime.value > 0 && timeLeft.value <= selectedTime.value * 60)
      && (isRunning ==> timeLeft.Some? && timeLeft.value > 0)
      && (isComplete <==> timeLeft == Some(0))
    }

    /** Nothing chosen yet: the selection screen. */
    constructor()
      ensures Valid()
      ensures selectedTime == None && timeLeft == None && !isRunning && !isComplete
    {
      selectedTime, timeLeft, isRunning, isComplete := None, None, false, false;
    }

    /**
     * `handleTimeSelect`: a preset, or the prompt's answer, sets the duration
     * and the full remaining time; the countdown does not start. A rejected
     * answer changes nothing. The buttons exist only on the selection screen.
     */
    method HandleTimeSelect(choice: Choice)
      requires Valid()
      requires selectedTime == None
      requires choice.Preset? ==> choice.minutes in PresetMinutes
      modifies this
      ensures Valid()
      ensures choice.Preset? ==>
        selectedTime == Some(choice.minutes) && timeLeft == Some(choice.minutes * 60) && !isRunning && !isComplete
      ensures choice.Custom? && CustomMinutes(choice.answer).Some? ==>
        var m := CustomMinutes(choice.answer).value;
        selectedTime == Some(m) && timeLeft == Some(m * 60) && !isRunning && !isComplete
      ensures choice.Custom? && CustomMinutes(choice.answer).None? ==> unchanged(this)
    {
      match choice
      case Preset(minutes) =>
        selectedTime := Some(minutes);
        timeLeft := Some(minutes * 60);
      case Custom(answer) =>
        var custom := CustomMinutes(answer);
        if custom.Some? {
          selectedTime := Some(custom.value);
          timeLeft := Some(custom.value * 60);
        }
    }

    /** The Start/Resume button, shown while a session is chosen, not complete and not running. */
    method Start()
      requires Valid()
      requires selectedTime.Some? && !isComplete
      modifies this
      ensures Valid()
      ensures isRunning
      ensures selectedTime == old(selectedTime) && timeLeft == old(timeLeft) && isComplete == old(isComplete)
    {
      isRunning := true;
    }

    /** The Pause button: the remaining time is kept exactly. */
    method Pause()
      requires Valid()
      modifies this
      ensures Valid()
      ensures !isRunning
      ensures selectedTime == old(selectedTime) && timeLeft == old(timeLeft) && isComplete == old(isComplete)
    {
      isRunning := false;
    }

    /**
     * One second of the interval, together with the effect run it causes: a
     * running countdown loses exactly one second and, on reaching zero, stops
     * and completes. Without a running countdown nothing happens.
     */
    method Tick()
      requires Valid()
      modifies this
      ensures Valid()
      ensures selectedTime == old(selectedTime)
      ensures old(isRunning) ==>
        && timeLeft == Some(old(timeLeft.value) - 1)
        && isRunning == (old(timeLeft.value) > 1)
        && isComplete == (old(timeLeft.value) == 1)
      ensures !old(isRunning) ==> unchanged(this)
    {
      if isRunning && timeLeft.value > 0 {
        timeLeft := Some(timeLeft.value - 1);
        if timeLeft.value == 0 {
          isRunning := false;
          isComplete := true;
        }
      }
    }

    /** The Reset button: back to the selection screen from any state. */
    method Reset()
      modifies this
      ensures Valid()
      ensures selectedTime == None && timeLeft == None && !isRunning && !isComplete
    {
      selectedTime := None;
      timeLeft := None;
      isRunning := false;
      isComplete := false;
    }

    /** The "Start New Session" button of a completed session: the same as Reset. */
    method StartNewSession()
      requires Valid() && isComplete
      modifies this
      ensures Valid()
      ensures selectedTime == None && timeLeft == None && !isRunning && !isComplete
    {
      Reset();
    }

    /** The text of the primary button of a chosen, incomplete session. */
    function PrimaryLabel(): (caption: string)
      reads this
      requires Valid() && selectedTime.Some? && !isComplete
      ensures caption == "Pause" <==> isRunning
      ensures caption == "Start" <==> !isRunning && timeLeft.value == selectedTime.value * 60
      ensures caption == "Resume" <==> !isRunning && timeLeft.value != selectedTime.value * 60
    {
      if isRunning then "Pause"
      else if timeLeft == Some(selectedTime.value * 60) then "Start"
      else "Resume"
    }

    /**
     * Leaving the interval to run: a running countdown with N seconds left
     * completes after exactly N ticks, having kept its duration.
     */
    method RunToCompletion() returns (ticks: nat)
      requires Valid() && isRunning
      modifies this
      ensures Valid()
      ensures ticks == old(timeLeft.value)
      ensures isComplete && !isRunning && timeLeft == Some(0)
      ensures selectedTime == old(selectedTime)
    {
      ticks := 0;
      while isRunning
        invariant Valid()
        invariant selectedTime == old(selectedTime)
        invariant timeLeft.Some? && ticks + timeLeft.value == old(timeLeft.value)
        invariant !isRunning ==> isComplete
        decreases timeLeft.value
      {
        Tick();
        ticks := ticks + 1;
      }
    }
  }

  /** A 25-minute preset shows 00:25:00, labels its button Start, and completes after 1500 ticks. */
  method TwentyFiveMinuteSession() returns (shown: string, caption: string, ticks: nat)
    ensures shown == "00:25:00" && caption == "Start" && ticks == 1500
  {
    var t := new StudyTimer();
    t.HandleTimeSelect(Preset(25));
    FormatTimeExample();
    shown := FormatTime(t.timeLeft);
    caption := t.PrimaryLabel();
    t.Start();
    ticks := t.RunToCompletion();
  }
}
