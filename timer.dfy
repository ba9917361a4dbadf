/**
 * The countdown shown on every auction card and in the auction room (Timer.jsx).
 * Once a second the component recomputes `end - now` in milliseconds, splits it into
 * days, hours, minutes and seconds, picks an urgency tier and one of four text formats.
 * The clock is a parameter: `endMs` is `new Date(endTime).getTime()` and `nowMs` is
 * `new Date().getTime()` at the tick.
 */
module Countdown {

  const SecondMs := 1000
  const MinuteMs := 60 * SecondMs
  const HourMs := 60 * MinuteMs
  const DayMs := 24 * HourMs

  /** Urgent up to and including five minutes, warning up to and including an hour. */
  const UrgentSeconds := 300
  const WarningSeconds := 3600

  /** The `timeLeft` text: '' before the first tick, 'Expired', or one of the four formats. */
  datatype TimeText =
    | Blank
    | ExpiredText
    | DaysHoursMinutes(days: int, hours: int, minutes: int)       // "Dd Hh Mm"
    | HoursMinutesSeconds(hours: int, minutes: int, seconds: int) // "Hh Mm Ss"
    | MinutesSeconds(minutes: int, seconds: int)                  // "Mm Ss"
    | SecondsOnly(seconds: int)                                   // "Ss"

  /** The five `useState` slots of the component. */
  datatype TimerState = TimerState(
    timeLeft: TimeText,
    isExpired: bool,
    isUrgent: bool,
    isWarning: bool,
    totalSeconds: int)

  datatype Breakdown = Breakdown(days: int, hours: int, minutes: int, seconds: int)

  /** The state at mount: the interval has not fired yet. */
  function Initial(): TimerState
  {
    TimerState(Blank, false, false, false, 0)
  }

  /** Days, hours, minutes and whole seconds of a positive remaining time; the milliseconds below a second are dropped. */
  function Split(difference: int): (b: Breakdown)
    requires difference > 0
    ensures b.days >= 0 && 0 <= b.hours < 24 && 0 <= b.minutes < 60 && 0 <= b.seconds < 60
    ensures b.days * DayMs + b.hours * HourMs + b.minutes * MinuteMs + b.seconds * SecondMs
            + difference % SecondMs == difference
  {
    var b := Breakdown(difference / DayMs, (difference % DayMs) / HourMs,
                       (difference % HourMs) / MinuteMs, (difference % MinuteMs) / SecondMs);
    SplitSums(difference);
    b
  }

  lemma SplitSums(d: int)
    requires d > 0
    ensures (d / DayMs) * DayMs + ((d % DayMs) / HourMs) * HourMs + ((d % HourMs) / MinuteMs) * MinuteMs
            + ((d % MinuteMs) / SecondMs) * SecondMs + d % SecondMs == d
  {
    RemainderOfRemainder(d, DayMs, HourMs, 24);
    RemainderOfRemainder(d, HourMs, MinuteMs, 60);
    RemainderOfRemainder(d, MinuteMs, SecondMs, 60);
    var r0 := d % DayMs;
    var r1 := d % HourMs;
    var r2 := d % MinuteMs;
    assert d == (d / DayMs) * DayMs + r0;
    assert r0 == (r0 / HourMs) * HourMs + r1;
    assert r1 == (r1 / MinuteMs) * MinuteMs + r2;
    assert r2 == (r2 / SecondMs) * SecondMs + d % SecondMs;
  }

  /** Taking a remainder by `big = k * small` and then by `small` is taking it by `small`. */
  lemma RemainderOfRemainder(d: int, big: int, small: int, k: int)
    requires d >= 0 && small > 0 && k > 0 && big == k * small
    ensures (d % big) % small == d % small
  {
    var r := d % big;
    var q := d / big;
    assert d == q * big + r;
    assert q * big == (q * k) * small;
    assert r == (r / small) * small + r % small;
    assert d == (q * k + r / small) * small + r % small;
    DivModUnique(d, small, q * k + r / small, r % small);
  }

  /** Euclidean division has one quotient and one remainder. */
  lemma DivModUnique(d: int, m: int, a: int, b: int)
    requires m > 0 && 0 <= b < m && d == a * m + b
    ensures d / m == a && d % m == b
  {
    var x := a - d / m;
    assert d == (d / m) * m + d % m;
    assert x * m == d % m - b;
  }

  /**
   * One firing of the interval callback. `prev` is the state before the tick: the expired branch
   * does not write `totalSeconds`, so that slot keeps its previous value.
   */
  function Tick(prev: TimerState, endMs: int, nowMs: int): (r: TimerState)
    ensures r.isExpired <==> endMs - nowMs <= 0
    ensures r.isExpired ==> r.timeLeft == ExpiredText && !r.isUrgent && !r.isWarning
                            && r.totalSeconds == prev.totalSeconds
    ensures !r.isExpired ==> r.totalSeconds == (endMs - nowMs) / SecondMs
    ensures !r.isExpired ==> (r.isUrgent <==> r.totalSeconds <= UrgentSeconds)
    ensures !r.isExpired ==> (r.isWarning <==> UrgentSeconds < r.totalSeconds <= WarningSeconds)
    ensures !(r.isUrgent && r.isWarning)
  {
    var difference := endMs - nowMs;
    if difference > 0 then
      var b := Split(difference);
      var totalSecondsLeft := difference / SecondMs;
      var text :=
        if b.days > 0 then DaysHoursMinutes(b.days, b.hours, b.minutes)
        else if b.hours > 0 then HoursMinutesSeconds(b.hours, b.minutes, b.seconds)
        else if b.minutes > 0 then MinutesSeconds(b.minutes, b.seconds)
        else SecondsOnly(b.seconds);
      TimerState(text, false, totalSecondsLeft <= UrgentSeconds,
                 totalSecondsLeft <= WarningSeconds && totalSecondsLeft > UrgentSeconds, totalSecondsLeft)
    else
      prev.(timeLeft := ExpiredText, isExpired := true, isUrgent := false, isWarning := false)
  }

  /** The state after the interval fired at each of the times in `ticks`, in order. */
  function Run(endMs: int, ticks: seq<int>): TimerState
  {
    if ticks == [] then Initial()
    else Tick(Run(endMs, ticks[..|ticks| - 1]), endMs, ticks[|ticks| - 1])
  }

  /** What the component renders from: everything except `totalSeconds`. */
  function Visible(st: TimerState): (TimeText, bool, bool, bool)
  {
    (st.timeLeft, st.isExpired, st.isUrgent, st.isWarning)
  }

  datatype Tier = Expired | Urgent | Warning | Normal

  /** The branch `getTimerStyle` and `getIcon` take: expired first, then urgent, then warning. */
  function TierOf(st: TimerState): Tier
  {
    if st.isExpired then Expired
    else if st.isUrgent then Urgent
    else if st.isWarning then Warning
    else Normal
  }

  /** The class lists `getTimerStyle` returns. */
  const UrgentStyle := "timer-urgent bg-red-50 border-red-200 text-red-700"
  const WarningStyle := "timer-warning bg-orange-50 border-orange-200 text-orange-700"
  const NormalStyle := "timer-normal bg-gray-50 border-gray-200 text-gray-700"

  /** Expired and urgent share the red list; every tier has its list, so the result is fixed by the tier. */
  function TimerStyle(st: TimerState): (r: string)
    ensures TierOf(st) in {Expired, Urgent} ==> r == UrgentStyle
    ensures TierOf(st) == Warning ==> r == WarningStyle
    ensures TierOf(st) == Normal ==> r == NormalStyle
  {
    if st.isExpired then UrgentStyle
    else if st.isUrgent then UrgentStyle
    else if st.isWarning then WarningStyle
    else NormalStyle
  }

  datatype Icon = AlertTriangle | Zap | Clock

  function IconOf(st: TimerState): (r: Icon)
    ensures r == AlertTriangle <==> TierOf(st) == Expired
    ensures r == Zap <==> TierOf(st) == Urgent
  {
    if st.isExpired then AlertTriangle
    else if st.isUrgent then Zap
    else Clock
  }

  /** The tier of a tick depends on the remaining time alone, with both upper bounds inclusive. */
  lemma TierOfTick(prev: TimerState, endMs: int, nowMs: int)
    ensures var s := (endMs - nowMs) / SecondMs;
            TierOf(Tick(prev, endMs, nowMs)) ==
              if endMs - nowMs <= 0 then Expired
              else if s <= UrgentSeconds then Urgent
              else if s <= WarningSeconds then Warning
              else Normal
  {
  }

  /** The boundaries of the tiers: 300 s is urgent, 301 s warning, 3600 s warning, 3601 s normal. */
  lemma TierBoundaries(prev: TimerState, nowMs: int)
    ensures TierOf(Tick(prev, nowMs + 300 * SecondMs, nowMs)) == Urgent
    ensures TierOf(Tick(prev, nowMs + 300 * SecondMs + 999, nowMs)) == Urgent
    ensures TierOf(Tick(prev, nowMs + 301 * SecondMs, nowMs)) == Warning
    ensures TierOf(Tick(prev, nowMs + 3600 * SecondMs + 999, nowMs)) == Warning
    ensures TierOf(Tick(prev, nowMs + 3601 * SecondMs, nowMs)) == Normal
  {
    TierOfTick(prev, nowMs + 300 * SecondMs, nowMs);
    TierOfTick(prev, nowMs + 300 * SecondMs + 999, nowMs);
    TierOfTick(prev, nowMs + 301 * SecondMs, nowMs);
    TierOfTick(prev, nowMs + 3600 * SecondMs + 999, nowMs);
    TierOfTick(prev, nowMs + 3601 * SecondMs, nowMs);
  }

  /** Less than a second left: the text is "0s", the tier urgent, and the auction not yet expired. */
  lemma SubSecondIsUrgentZero(prev: TimerState, endMs: int, nowMs: int)
    requires 0 < endMs - nowMs < SecondMs
    ensures Tick(prev, endMs, nowMs).timeLeft == SecondsOnly(0)
    ensures TierOf(Tick(prev, endMs, nowMs)) == Urgent
  {
  }

  /** The format is chosen by the largest non-zero unit among days, hours and minutes. */
  lemma FormatSelection(prev: TimerState, endMs: int, nowMs: int)
    requires endMs - nowMs > 0
    ensures var b := Split(endMs - nowMs);
            var t := Tick(prev, endMs, nowMs).timeLeft;
            (b.days > 0 ==> t == DaysHoursMinutes(b.days, b.hours, b.minutes))
            && (b.days == 0 && b.hours > 0 ==> t == HoursMinutesSeconds(b.hours, b.minutes, b.seconds))
            && (b.days == 0 && b.hours == 0 && b.minutes > 0 ==> t == MinutesSeconds(b.minutes, b.seconds))
            && (b.days == 0 && b.hours == 0 && b.minutes == 0 ==> t == SecondsOnly(b.seconds))
  {
  }

  /** Everything the component renders after a tick is a function of `endMs` and `nowMs` only. */
  lemma VisibleIgnoresHistory(p: TimerState, q: TimerState, endMs: int, nowMs: int)
    ensures Visible(Tick(p, endMs, nowMs)) == Visible(Tick(q, endMs, nowMs))
  {
  }

  /**
   * After any non-empty sequence of ticks the rendered state is that of the last tick alone:
   * nothing accumulates between ticks. Before the first tick the text is '' and the
   * auction is shown as not expired, even when it has already ended.
   */
  lemma {:induction false} RunDependsOnLastTick(endMs: int, ticks: seq<int>)
    ensures ticks == [] ==> Run(endMs, ticks).timeLeft == Blank && !Run(endMs, ticks).isExpired
    ensures ticks != [] ==>
              Visible(Run(endMs, ticks)) == Visible(Tick(Initial(), endMs, ticks[|ticks| - 1]))
  {
    if ticks != [] {
      VisibleIgnoresHistory(Run(endMs, ticks[..|ticks| - 1]), Initial(), endMs, ticks[|ticks| - 1]);
    }
  }

  /**
   * `totalSeconds` is the one slot that does carry history: after an expired tick it still
   * holds the count of the last tick that had time left (0 if there was none).
   */
  lemma {:induction false} TotalSecondsIsLastLiveTick(endMs: int, ticks: seq<int>, k: int)
    requires 0 <= k < |ticks|
    requires endMs - ticks[k] > 0
    requires forall j :: k < j < |ticks| ==> endMs - ticks[j] <= 0
    ensures Run(endMs, ticks).totalSeconds == (endMs - ticks[k]) / SecondMs
  {
    if k < |ticks| - 1 {
      var init := ticks[..|ticks| - 1];
      assert forall j :: k < j < |init| ==> init[j] == ticks[j];
      TotalSecondsIsLastLiveTick(endMs, init, k);
    }
  }
}
