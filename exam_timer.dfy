/**
 * The exam page's countdown (app/exam/page.tsx): a 90-minute exam, a
 * once-a-second tick that shows the time left as hours, minutes and seconds,
 * and "Time's up!" once it has run out, at which point the tick stops itself.
 * Also the row of question-number buttons, with the first one highlighted.
 *
 * The clock is an argument: the time at mount and at each tick.
 */
module ExamTimer {
  import opened Text

  /** 90 minutes, in milliseconds. */
  const ExamDuration: nat := 90 * 60 * 1000

  const TimesUpMessage := "Time's up!"

  /** What the page shows before the first tick. */
  const InitialTimeLeft := "1 hour 30 minutes 0 seconds"

  /** The time left as the page shows it. */
  datatype Countdown = Countdown(hours: nat, minutes: nat, seconds: nat)

  /** The milliseconds a countdown stands for. */
  function Milliseconds(c: Countdown): int {
    c.hours * (1000 * 60 * 60) + c.minutes * (1000 * 60) + c.seconds * 1000
  }

  /**
   * The split of a positive number of milliseconds left: whole hours, then
   * the minutes and seconds within the hour and minute. Put back together it
   * is the time left with the milliseconds under one second dropped.
   */
  function Breakdown(remaining: int): (c: Countdown)
    requires remaining > 0
    ensures c.minutes < 60 && c.seconds < 60
    ensures Milliseconds(c) <= remaining < Milliseconds(c) + 1000
  {
    DivisionSteps(remaining);
    Countdown(remaining / (1000 * 60 * 60), (remaining % (1000 * 60 * 60)) / (1000 * 60), (remaining % (1000 * 60)) / 1000)
  }

  /** The hour, minute and second remainders nest: the remainder by a minute is the hour's remainder's. */
  lemma DivisionSteps(r: int)
    requires r > 0
    ensures var h, m, s := r / 3600000, (r % 3600000) / 60000, (r % 60000) / 1000;
      && m < 60 && s < 60
      && h * 3600000 + m * 60000 + s * 1000 <= r < h * 3600000 + m * 60000 + s * 1000 + 1000
  {
    var h := r / 3600000;
    var withinHour := r % 3600000;
    var m := withinHour / 60000;
    var withinMinute := withinHour % 60000;
    assert r == h * 3600000 + withinHour;
    assert withinHour == m * 60000 + withinMinute;
    assert r == (h * 60 + m) * 60000 + withinMinute;
    assert r % 60000 == withinMinute;
    assert withinMinute == (withinMinute / 1000) * 1000 + withinMinute % 1000;
  }

  /** `${hours} hour ${minutes} minutes ${seconds} seconds`. */
  function Render(c: Countdown): (r: string)
    ensures |r| > 0 && IsDigit(r[0])
  {
    var shown := IntString(c.hours) + " hour " + IntString(c.minutes) + " minutes " + IntString(c.seconds) + " seconds";
    assert shown[0] == IntString(c.hours)[0];
    shown
  }

  /** What a tick shows for the milliseconds left. */
  function TimeLeft(remaining: int): (r: string)
    ensures r == TimesUpMessage <==> remaining <= 0
  {
    assert TimesUpMessage[0] == 'T';
    if remaining <= 0 then TimesUpMessage else Render(Breakdown(remaining))
  }

  /**
   * Splitting is exact: any hours, minutes under 60 and seconds under 60,
   * plus less than a second, split back into themselves.
   */
  lemma BreakdownRoundTrip(c: Countdown, ms: nat)
    requires c.minutes < 60 && c.seconds < 60 && ms < 1000
    requires Milliseconds(c) + ms > 0
    ensures Breakdown(Milliseconds(c) + ms) == c
  {
    var withinMinute := c.seconds * 1000 + ms;
    var withinHour := c.minutes * 60000 + withinMinute;
    var r := Milliseconds(c) + ms;
    assert r == c.hours * 3600000 + withinHour && 0 <= withinHour < 3600000;
    assert r / 3600000 == c.hours && r % 3600000 == withinHour;
    assert withinHour / 60000 == c.minutes;
    assert r == (c.hours * 60 + c.minutes) * 60000 + withinMinute && 0 <= withinMinute < 60000;
    assert r % 60000 == withinMinute;
    assert withinMinute / 1000 == c.seconds;
  }

  /** The text shown before the first tick is the split of the whole duration. */
  lemma InitialTimeLeftIsFullDuration()
    ensures Breakdown(ExamDuration) == Countdown(1, 30, 0)
    ensures TimeLeft(ExamDuration) == InitialTimeLeft
  {
    BreakdownRoundTrip(Countdown(1, 30, 0), 0);
    assert Milliseconds(Countdown(1, 30, 0)) == ExamDuration;
    RenderHourAndHalf();
  }

  /** One hour and thirty minutes renders as the text shown before the first tick. */
  lemma RenderHourAndHalf()
    ensures Render(Countdown(1, 30, 0)) == InitialTimeLeft
  {
    assert IntString(1) == "1" && IntString(0) == "0";
    assert NatString(30) == NatString(3) + [DigitChar(0)];
    assert IntString(30) == "30";
    assert Render(Countdown(1, 30, 0)) == "1" + " hour " + "30" + " minutes " + "0" + " seconds";
  }

  /** The page's countdown state. */
  class ExamPage {
    /** `startTime`, read when the page mounts. */
    const startTime: int
    /** The interval is running. */
    var timerArmed: bool
    var timeLeft: string

    /** Mounting: the start time is taken, the interval armed, and the full duration shown. */
    constructor(now: int)
      ensures startTime == now && timerArmed && timeLeft == InitialTimeLeft
    {
      startTime := now;
      timerArmed := true;
      timeLeft := InitialTimeLeft;
    }

    /**
     * One interval tick at time `now`, heard only while armed: the time left is
     * shown, or, once none is left, "Time's up!" and the interval is cleared.
     */
    method Tick(now: int)
      modifies this
      ensures !old(timerArmed) ==> unchanged(this)
      ensures old(timerArmed) ==> timeLeft == TimeLeft(ExamDuration - (now - startTime))
      ensures old(timerArmed) ==> (timerArmed <==> now - startTime < ExamDuration)
    {
      if !timerArmed {
        return;
      }
      var remaining := ExamDuration - (now - startTime);
      if remaining <= 0 {
        timerArmed := false;
        timeLeft := TimesUpMessage;
      } else {
        timeLeft := Render(Breakdown(remaining));
      }
    }

    /** Unmounting clears the interval; what is shown stays. */
    method Unmount()
      modifies this
      ensures !timerArmed && timeLeft == old(timeLeft)
    {
      timerArmed := false;
    }
  }

  /** `Array.from({ length: 20 }, (_, i) => i + 1)`. */
  function QuestionNumbers(): (r: seq<int>)
    ensures |r| == 20
  {
    seq(20, i requires 0 <= i < 20 => i + 1)
  }

  /** The button drawn as current. */
  predicate Highlighted(num: int) {
    num == 1
  }

  /** The buttons are 1 to 20 in increasing order, and only the first is highlighted. */
  lemma QuestionButtons()
    ensures forall i :: 0 <= i < 20 ==> QuestionNumbers()[i] == i + 1
    ensures forall i, j :: 0 <= i < j < 20 ==> QuestionNumbers()[i] < QuestionNumbers()[j]
    ensures forall i :: 0 <= i < 20 ==> (Highlighted(QuestionNumbers()[i]) <==> i == 0)
  {
  }
}
