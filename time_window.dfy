/** The schedule window test of the monitor: wall-clock "HH:MM" strings compared as
    strings, with a window whose start is after its stop wrapping past midnight. */
module TimeWindow {
  import opened Php

  /** `isTimeInRange($current, $start, $end)`: false when either bound is falsy; a window
      with start before end is [start, end); otherwise it is everything from start on
      together with everything before end. */
  predicate IsTimeInRange(current: string, start: string, end: string) {
    if Falsy(start) || Falsy(end) then false
    else if Less(start, end) then !Less(current, start) && Less(current, end)
    else !Less(current, start) || Less(current, end)
  }

  /** For a window that wraps past midnight, being inside it is the same as being
      outside the plain window from its stop to its start. */
  lemma WrappedWindowIsComplement(current: string, start: string, end: string)
    requires !Falsy(start) && !Falsy(end) && Less(end, start)
    ensures IsTimeInRange(current, start, end) <==> !IsTimeInRange(current, end, start)
  {
    LessAsymmetric(end, start);
  }

  /** The stop minute itself is never inside a window whose bounds differ: a scheduled
      stop and a keep-alive restart cannot both fire on the same minute. */
  lemma StopMinuteOutsideWindow(start: string, end: string)
    requires start != end
    ensures !IsTimeInRange(end, start, end)
  {
    LessIrreflexive(end);
    if !Falsy(start) && !Falsy(end) && !Less(start, end) {
      LessTotal(start, end);
    }
  }

  /** The worked example of a night window: 22:00-06:00 holds 23:30 but not 12:00. */
  lemma NightWindowExample()
    ensures IsTimeInRange("23:30", "22:00", "06:00")
    ensures !IsTimeInRange("12:00", "22:00", "06:00")
  {
    assert !Less("22:00", "06:00");
    assert !Less("23:30", "22:00") by {
      assert "23:30"[1..] == "3:30" && "22:00"[1..] == "2:00";
    }
    assert Less("12:00", "22:00");
    assert !Less("12:00", "06:00");
  }

  // ---------------------------------------------------------------------------
  // Reference definition on minutes since midnight

  predicate ClockDigits(t: string) {
    |t| == 5 && IsDigit(t[0]) && IsDigit(t[1]) && t[2] == ':' && IsDigit(t[3]) && IsDigit(t[4])
  }

  function Hour(t: string): nat
    requires ClockDigits(t)
  {
    DigitValue(t[0]) * 10 + DigitValue(t[1])
  }

  function Minute(t: string): nat
    requires ClockDigits(t)
  {
    DigitValue(t[3]) * 10 + DigitValue(t[4])
  }

  /** A well-formed wall-clock time as `date('H:i')` prints it. */
  predicate ClockTime(t: string) {
    ClockDigits(t) && Hour(t) < 24 && Minute(t) < 60
  }

  function MinutesOfDay(t: string): (m: nat)
    requires ClockTime(t)
    ensures m < 1440
  {
    Hour(t) * 60 + Minute(t)
  }

  /** How far `to` lies after `from` when walking forward on a 24-hour clock. */
  function ForwardDistance(from: nat, to: nat): (d: nat)
    requires from < 1440 && to < 1440
    ensures d < 1440
  {
    (to - from) % 1440
  }

  /** The window as a daily schedule means it: starting at `start`, the instance should
      be up until `stop` is next reached; a window whose two ends coincide is the whole day. */
  predicate InDailyWindow(current: nat, start: nat, stop: nat)
    requires current < 1440 && start < 1440 && stop < 1440
  {
    start == stop || ForwardDistance(start, current) < ForwardDistance(start, stop)
  }

  lemma LessStep(a: string, b: string)
    requires a != [] && b != [] && a[0] == b[0]
    ensures Less(a, b) == Less(a[1..], b[1..])
  {
  }

  /** String order on well-formed clock times is chronological order. */
  lemma LessIsEarlier(a: string, b: string)
    requires ClockTime(a) && ClockTime(b)
    ensures Less(a, b) <==> MinutesOfDay(a) < MinutesOfDay(b)
  {
    var a0, a1, a3, a4 := DigitValue(a[0]), DigitValue(a[1]), DigitValue(a[3]), DigitValue(a[4]);
    var b0, b1, b3, b4 := DigitValue(b[0]), DigitValue(b[1]), DigitValue(b[3]), DigitValue(b[4]);
    assert a0 <= 9 && a1 <= 9 && a3 <= 9 && a4 <= 9 && b0 <= 9 && b1 <= 9 && b3 <= 9 && b4 <= 9;
    if a[0] == b[0] {
      LessStep(a, b);
      if a[1] == b[1] {
        LessStep(a[1..], b[1..]);
        LessStep(a[2..], b[2..]);
        if a[3] == b[3] {
          LessStep(a[3..], b[3..]);
          assert a[4..][0] == a[4] && b[4..][0] == b[4];
        } else {
          assert a[3..][0] == a[3] && b[3..][0] == b[3];
        }
      } else {
        assert a[1..][0] == a[1] && b[1..][0] == b[1];
      }
    }
  }

  /** On well-formed clock times the string test agrees with the daily-window reading. */
  lemma IsTimeInRangeIsDailyWindow(current: string, start: string, stop: string)
    requires ClockTime(current) && ClockTime(start) && ClockTime(stop)
    ensures IsTimeInRange(current, start, stop)
        <==> InDailyWindow(MinutesOfDay(current), MinutesOfDay(start), MinutesOfDay(stop))
  {
    assert !Falsy(start) && !Falsy(stop);
    LessIsEarlier(start, stop);
    LessIsEarlier(current, start);
    LessIsEarlier(current, stop);
    LessIsEarlier(stop, start);
    var c: int, s: int, e: int := MinutesOfDay(current), MinutesOfDay(start), MinutesOfDay(stop);
    if c >= s {
      assert ForwardDistance(s, c) == c - s;
    } else {
      assert ForwardDistance(s, c) == c - s + 1440;
    }
    if e >= s {
      assert ForwardDistance(s, e) == e - s;
    } else {
      assert ForwardDistance(s, e) == e - s + 1440;
    }
  }
}
