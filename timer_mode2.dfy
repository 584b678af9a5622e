/** The game timer: counts down from `initialTime` seconds when that is positive, up from it
    otherwise, once per interval tick, reporting the formatted time at each tick and calling
    `onComplete` when a countdown runs out. The interval is one `Tick` call per second; the
    effect that resets `seconds` whenever the timer is inactive is applied in the same step
    that deactivates it. */
module TimerMode2 {
  import opened Wrappers
  import opened Text

  /** JavaScript's `%` on integers: the remainder has the sign of the dividend. */
  function JsRem(a: int, d: int): (r: int)
    requires d > 0
    ensures -d < r < d
    ensures a >= 0 ==> r == a % d
    ensures a < 0 ==> r <= 0 && r == -((-a) % d)
  {
    if a >= 0 then a % d else -((-a) % d)
  }

  /** `formatTime`: ⌊t / 60⌋ and t % 60, each padded to two characters with '0'. Dafny's
      division by the positive 60 already rounds down, as `Math.floor` does. */
  function FormatTime(t: int): string {
    PadStart(IntToString(t / 60), 2, '0') + ":" + PadStart(IntToString(JsRem(t, 60)), 2, '0')
  }

  /** A number below 100 prints as two digits that read back as the number. */
  lemma TwoDigits(n: nat)
    requires n < 100
    ensures var r := PadStart(IntToString(n), 2, '0'); |r| == 2 && AllDigits(r) && DigitsValue(r) == n
  {
    var r := PadStart(IntToString(n), 2, '0');
    NatToStringValue(n);
    if n < 10 {
      assert r == "0" + NatToString(n);
      assert r[..1] == "0";
    } else {
      assert NatToString(n) == NatToString(n / 10) + [('0' as int + n % 10) as char];
      assert |NatToString(n)| == 2;
    }
  }

  /** For 0 to 99:59 the display is "MM:SS" whose two fields read back as the time. */
  lemma FormatTimeRoundTrip(t: int)
    requires 0 <= t < 6000
    ensures var r := FormatTime(t);
      |r| == 5 && r[2] == ':' && AllDigits(r[..2]) && AllDigits(r[3..]) &&
      DigitsValue(r[..2]) * 60 + DigitsValue(r[3..]) == t
  {
    TwoDigits(t / 60);
    TwoDigits(t % 60);
    var r := FormatTime(t);
    assert r[..2] == PadStart(IntToString(t / 60), 2, '0');
    assert r[3..] == PadStart(IntToString(t % 60), 2, '0');
  }

  /** 120 seconds show as "02:00", 119 as "01:59". */
  lemma FormatTimeExamples()
    ensures FormatTime(120) == "02:00" && FormatTime(119) == "01:59"
  {
    assert IntToString(2) == "2" && IntToString(0) == "0";
    assert IntToString(1) == "1";
    assert NatToString(59) == "59" by {
      assert NatToString(5) == "5";
    }
  }

  /** The component's state. */
  datatype Timer = Timer(seconds: int, isActive: bool)

  /** What a tick did: the new state, the time reported to `onTimeUpdate` and whether
      `onComplete` was called. */
  datatype TickResult = TickResult(timer: Timer, reported: Option<string>, completed: bool)

  /** One interval callback. An inactive timer has no interval and nothing happens. */
  function Ticked(initialTime: int, t: Timer): (r: TickResult)
    ensures !t.isActive ==> r == TickResult(t, None, false)
    ensures t.isActive ==> (
      var newTime := if initialTime > 0 then t.seconds - 1 else t.seconds + 1;
      r.reported == Some(FormatTime(newTime)) &&
      (r.completed <==> initialTime > 0 && newTime <= 0) &&
      r.timer == if r.completed then Timer(initialTime, false) else Timer(newTime, true))
  {
    if !t.isActive then TickResult(t, None, false)
    else
      var newTime := if initialTime > 0 then t.seconds - 1 else t.seconds + 1;
      if initialTime > 0 && newTime <= 0 then TickResult(Timer(initialTime, false), Some(FormatTime(newTime)), true)
      else TickResult(Timer(newTime, true), Some(FormatTime(newTime)), false)
  }

  /** `reset`: back to `initialTime`, running. */
  function Restarted(initialTime: int): Timer {
    Timer(initialTime, true)
  }

  /** `stop`: no longer running, which resets the shown time to `initialTime`. */
  function Stopped(initialTime: int): Timer {
    Timer(initialTime, false)
  }

  /** What holds between ticks: a stopped timer shows `initialTime`; a running countdown is
      strictly between 0 and `initialTime` inclusive; a count-up never goes below its start. */
  predicate Consistent(initialTime: int, t: Timer) {
    (!t.isActive ==> t.seconds == initialTime) &&
    (t.isActive && initialTime > 0 ==> 0 < t.seconds <= initialTime) &&
    (initialTime <= 0 ==> t.seconds >= initialTime)
  }

  lemma TickKeepsConsistent(initialTime: int, t: Timer)
    requires Consistent(initialTime, t)
    ensures Consistent(initialTime, Ticked(initialTime, t).timer)
  {
  }

  lemma ResetStopConsistent(initialTime: int)
    ensures Consistent(initialTime, Restarted(initialTime)) && Consistent(initialTime, Stopped(initialTime))
  {
  }

  /** `n` ticks. */
  function Run(initialTime: int, t: Timer, n: nat): Timer
    decreases n
  {
    if n == 0 then t else Ticked(initialTime, Run(initialTime, t, n - 1)).timer
  }

  /** A reset countdown keeps running for `initialTime - 1` ticks, showing one second less
      each time. */
  lemma {:induction false} CountdownRuns(initialTime: int, k: nat)
    requires initialTime > 0 && k < initialTime
    ensures Run(initialTime, Restarted(initialTime), k) == Timer(initialTime - k, true)
    decreases k
  {
    if k > 0 {
      CountdownRuns(initialTime, k - 1);
    }
  }

  /** ... and the tick after those calls `onComplete`, reporting "00:00" for a countdown of
      at most 99:59 and leaving the timer stopped at `initialTime`. */
  lemma CountdownCompletes(initialTime: int)
    requires initialTime > 0
    ensures var r := Ticked(initialTime, Run(initialTime, Restarted(initialTime), initialTime - 1));
      r.completed && r.reported == Some(FormatTime(0)) && r.timer == Stopped(initialTime)
  {
    CountdownRuns(initialTime, initialTime - 1);
  }

  /** A count-up from `initialTime` shows `initialTime + n` after `n` ticks and never completes. */
  lemma {:induction false} CountUpRuns(initialTime: int, n: nat)
    requires initialTime <= 0
    ensures Run(initialTime, Restarted(initialTime), n) == Timer(initialTime + n, true)
    ensures !Ticked(initialTime, Run(initialTime, Restarted(initialTime), n)).completed
    decreases n
  {
    if n > 0 {
      CountUpRuns(initialTime, n - 1);
    }
  }

  /** The component, holding the state the interval callback and the handle update. */
  class TimerComponent {
    const initialTime: int
    var seconds: int
    var isActive: bool

    function State(): Timer
      reads this
    {
      Timer(seconds, isActive)
    }

    /** A fresh timer runs from `initialTime`. */
    constructor(initialTime: int)
      ensures this.initialTime == initialTime && State() == Restarted(initialTime)
    {
      this.initialTime := initialTime;
      seconds := initialTime;
      isActive := true;
    }

    /** The interval callback. */
    method Tick() returns (reported: Option<string>, completed: bool)
      modifies this
      ensures TickResult(State(), reported, completed) == Ticked(initialTime, old(State()))
    {
      reported, completed := None, false;
      if !isActive {
        return;
      }
      var newTime := if initialTime > 0 then seconds - 1 else seconds + 1;
      if initialTime > 0 && newTime <= 0 {
        isActive := false;
        completed := true;
      }
      reported := Some(FormatTime(newTime));
      seconds := if isActive then newTime else initialTime;
    }

    method Reset()
      modifies this
      ensures State() == Restarted(initialTime)
    {
      seconds := initialTime;
      isActive := true;
    }

    method Stop()
      modifies this
      ensures State() == Stopped(initialTime)
    {
      isActive := false;
      seconds := initialTime;
    }

    method GetTime() returns (t: int)
      ensures t == seconds
    {
      t := seconds;
    }
  }
}
