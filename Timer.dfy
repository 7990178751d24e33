/**
 * The session countdown of Timer.js. The timer counts down to an end
 * instant, shows the remaining time through a format with the placeholders
 * `{dd}`, `{hh}`, `{mm}` and `{ss}`, calls `onTimeUp` once the end instant
 * has passed, and starts over whenever the shared restart flag is set.
 *
 * Clock readings are whole milliseconds (`now`), passed to each operation;
 * the one-second interval is a `running` flag, and each firing of it is an
 * explicit call. The `onTimeUp` callback is counted in `timeUps`.
 */
module Countdown {
  import opened Wrappers
  import opened Text
  import KeePass4Web

  // ---------------------------------------------------------------------------
  // Pure helpers
  // ---------------------------------------------------------------------------

  /** Remaining time split into days, hours, minutes and seconds. */
  datatype Remaining = Remaining(d: nat, h: nat, m: nat, s: nat)

  function TotalSeconds(t: Remaining): nat {
    t.d * 86400 + t.h * 3600 + t.m * 60 + t.s
  }

  /** Hours, minutes and seconds lie within their periods; days are unbounded. */
  predicate InRange(t: Remaining) {
    t.h < 24 && t.m < 60 && t.s < 60
  }

  /** `pad(str)`: a one-character text gets a leading zero, any other text is kept. */
  function Pad(str: string): (r: string)
    ensures |str| == 1 ==> r == ['0'] + str
    ensures |str| != 1 ==> r == str
  {
    if |str| == 1 then "0" + str else str
  }

  /** Padding a whole number: two digits at least, and the same number. */
  lemma PadDecimal(n: nat)
    ensures n < 10 ==> Pad(NatToString(n)) == ['0', Digit(n)]
    ensures n >= 10 ==> Pad(NatToString(n)) == NatToString(n)
    ensures |Pad(NatToString(n))| >= 2 && AllDigits(Pad(NatToString(n)))
    ensures DecimalValue(Pad(NatToString(n))) == n
  {
    DecimalRoundTrip(n);
    if n < 10 {
      var p := Pad(NatToString(n));
      assert p[..|p| - 1] == "0";
      assert DecimalValue("0") == 0 by {
        assert "0"[..0] == "";
      }
    }
  }

  lemma PadExamples()
    ensures Pad(NatToString(5)) == "05"
    ensures Pad(NatToString(45)) == "45"
    ensures Pad(NatToString(100)) == "100"
  {
    PadDecimal(5);
    PadDecimal(45);
    PadDecimal(100);
    assert NatToString(4) == "4";
    assert NatToString(45) == NatToString(4) + "5";
    assert NatToString(1) == "1";
    assert NatToString(10) == NatToString(1) + "0";
    assert NatToString(100) == NatToString(10) + "0";
  }

  /**
   * `calculate(end)` at the instant `now`: the remaining time while the
   * difference is not negative (exactly zero still counts), `false` (None)
   * once the end instant has passed.
   */
  function Calculate(end: int, now: int): (r: Option<Remaining>)
    ensures r.Some? <==> end - now >= 0
  {
    var t := end - now;
    if t >= 0
    then Some(Remaining(t / 86400000, t / 3600000 % 24, t / 60000 % 60, t / 1000 % 60))
    else None
  }

  /** Whole minutes, hours and days of `t` milliseconds, counted through its whole seconds. */
  lemma MillisecondUnits(t: nat)
    ensures t / 60000 == t / 1000 / 60
    ensures t / 3600000 == t / 1000 / 3600
    ensures t / 86400000 == t / 1000 / 86400
  {
  }

  /** Whole hours and days of `sec` seconds, counted through its whole minutes and hours. */
  lemma SecondUnits(sec: nat)
    ensures sec / 3600 == sec / 60 / 60
    ensures sec / 86400 == sec / 3600 / 24
  {
  }

  /** The fields of `calculate` are a mixed-radix split of the whole seconds remaining. */
  lemma CalculateDecomposes(end: int, now: int)
    requires end - now >= 0
    ensures InRange(Calculate(end, now).value)
    ensures TotalSeconds(Calculate(end, now).value) == (end - now) / 1000
  {
    var t := end - now;
    var sec := t / 1000;
    var mins, hours := sec / 60, sec / 3600;
    assert Calculate(end, now).value == Remaining(sec / 86400, hours % 24, mins % 60, sec % 60) by {
      MillisecondUnits(t);
    }
    SecondUnits(sec);
    assert sec == 60 * mins + sec % 60;
    assert mins == 60 * hours + mins % 60;
    assert hours == 24 * (sec / 86400) + hours % 24;
  }

  /** A split within range is determined by its total. */
  lemma SplitUnique(r: Remaining, sec: nat)
    requires InRange(r) && TotalSeconds(r) == sec
    ensures r == Remaining(sec / 86400, sec / 3600 % 24, sec / 60 % 60, sec % 60)
  {
    assert sec == 60 * (r.d * 1440 + r.h * 60 + r.m) + r.s;
    assert sec % 60 == r.s && sec / 60 == r.d * 1440 + r.h * 60 + r.m;
    var mins := sec / 60;
    assert mins == 60 * (r.d * 24 + r.h) + r.m;
    assert mins % 60 == r.m && mins / 60 == r.d * 24 + r.h;
    assert sec / 3600 == mins / 60;
    var hours := sec / 3600;
    assert hours % 24 == r.h && hours / 24 == r.d;
    assert sec / 86400 == hours / 24;
  }

  /** `calculate` returns exactly the in-range split of the whole seconds remaining. */
  lemma CalculateCharacterized(end: int, now: int, r: Remaining)
    ensures Calculate(end, now) == Some(r) <==>
            end - now >= 0 && InRange(r) && TotalSeconds(r) == (end - now) / 1000
  {
    if end - now >= 0 {
      CalculateDecomposes(end, now);
      var t := end - now;
      var sec := t / 1000;
      assert t / 60000 == sec / 60;
      assert t / 3600000 == sec / 3600;
      assert t / 86400000 == sec / 86400;
      SplitUnique(Calculate(end, now).value, sec);
      if InRange(r) && TotalSeconds(r) == sec {
        SplitUnique(r, sec);
      }
    }
  }

  /** `endTime(timeout)` at the instant `now`: `timeout` seconds later. */
  function EndTime(now: int, timeout: int): (r: int)
    ensures r == now + 1000 * timeout
    ensures Calculate(r, now).Some? <==> timeout >= 0
    ensures timeout >= 0 ==> TotalSeconds(Calculate(r, now).value) == timeout
  {
    var r := now + 1000 * timeout;
    if timeout >= 0 then CalculateDecomposes(r, now); r else r
  }

  /** Whether the format holds any of the four placeholders (the four `test` calls in `tick`). */
  predicate HasToken(format: string) {
    Contains(format, "{dd}") || Contains(format, "{hh}") || Contains(format, "{mm}") || Contains(format, "{ss}")
  }

  /** The text one field contributes; a field of `false` reads as `undefined`. */
  function FieldText(v: Option<nat>): (r: string)
    ensures v.Some? ==> r == Pad(NatToString(v.value))
    ensures v.None? ==> r == "undefined"
    ensures '{' !in r
  {
    match v
    case Some(n) => PadDecimal(n); Pad(NatToString(n))
    case None => "undefined"
  }

  function Days(time: Option<Remaining>): Option<nat> {
    if time.Some? then Some(time.value.d) else None
  }

  function Hours(time: Option<Remaining>): Option<nat> {
    if time.Some? then Some(time.value.h) else None
  }

  function Minutes(time: Option<Remaining>): Option<nat> {
    if time.Some? then Some(time.value.m) else None
  }

  function Seconds(time: Option<Remaining>): Option<nat> {
    if time.Some? then Some(time.value.s) else None
  }

  /** The four replacements of `format`, in their order, with the given field texts. */
  function FormatWith(format: string, d: string, h: string, m: string, s: string): (r: string)
    ensures !HasToken(format) ==> r == format
  {
    ReplaceFirst(ReplaceFirst(ReplaceFirst(ReplaceFirst(format, "{dd}", d), "{hh}", h), "{mm}", m), "{ss}", s)
  }

  /**
   * `format(time)`: the first `{dd}`, then the first `{hh}`, `{mm}` and `{ss}`
   * of the format replaced by the padded fields; a format without
   * placeholders comes back unchanged.
   */
  function Format(format: string, time: Option<Remaining>): (r: string)
    ensures !HasToken(format) ==> r == format
  {
    FormatWith(format, FieldText(Days(time)), FieldText(Hours(time)), FieldText(Minutes(time)), FieldText(Seconds(time)))
  }

  lemma ClockHours(h: string)
    ensures ReplaceFirst("{hh}:{mm}:{ss}", "{hh}", h) == h + ":{mm}:{ss}"
  {
    assert "{hh}:{mm}:{ss}" == "{hh}" + ":{mm}:{ss}";
    ReplaceFirstLeading("{hh}", ":{mm}:{ss}", h);
  }

  lemma ClockMinutes(h: string, m: string)
    requires '{' !in h
    ensures ReplaceFirst(h + ":{mm}:{ss}", "{mm}", m) == h + ":" + m + ":{ss}"
  {
    assert h + ":{mm}:{ss}" == (h + ":") + "{mm}" + ":{ss}";
    ReplaceFirstAfterPlain(h + ":", "{mm}", ":{ss}", m);
  }

  lemma TrailingSeconds(p: string, s: string)
    requires '{' !in p
    ensures ReplaceFirst(p + ":{ss}", "{ss}", s) == p + ":" + s
  {
    assert p + ":{ss}" == (p + ":") + "{ss}" + "";
    ReplaceFirstAfterPlain(p + ":", "{ss}", "", s);
  }

  lemma LeadingMinutes(m: string)
    ensures ReplaceFirst("{mm}:{ss}", "{mm}", m) == m + ":{ss}"
  {
    assert "{mm}:{ss}" == "{mm}" + ":{ss}";
    ReplaceFirstLeading("{mm}", ":{ss}", m);
  }

  /** The clock format places the three field texts between colons. */
  lemma FormatWithClock(d: string, h: string, m: string, s: string)
    requires '{' !in h && '{' !in m
    ensures FormatWith("{hh}:{mm}:{ss}", d, h, m, s) == h + ":" + m + ":" + s
  {
    ReplaceFirstAbsent("{hh}:{mm}:{ss}", "{dd}", d, 1);
    ClockHours(h);
    ClockMinutes(h, m);
    TrailingSeconds(h + ":" + m, s);
  }

  /** The minutes-and-seconds format places the two field texts around a colon. */
  lemma FormatWithMinutesSeconds(d: string, h: string, m: string, s: string)
    requires '{' !in m
    ensures FormatWith("{mm}:{ss}", d, h, m, s) == m + ":" + s
  {
    ReplaceFirstAbsent("{mm}:{ss}", "{dd}", d, 1);
    ReplaceFirstAbsent("{mm}:{ss}", "{hh}", h, 1);
    LeadingMinutes(m);
    TrailingSeconds(m, s);
  }

  /** The format the navigation bar uses shows hours, minutes and seconds, colon-separated. */
  lemma FormatClock(time: Option<Remaining>)
    ensures Format("{hh}:{mm}:{ss}", time) ==
            FieldText(Hours(time)) + ":" + FieldText(Minutes(time)) + ":" + FieldText(Seconds(time))
  {
    FormatWithClock(FieldText(Days(time)), FieldText(Hours(time)), FieldText(Minutes(time)), FieldText(Seconds(time)));
  }

  /** The same for a minutes-and-seconds format. */
  lemma FormatMinutesSeconds(time: Option<Remaining>)
    ensures Format("{mm}:{ss}", time) == FieldText(Minutes(time)) + ":" + FieldText(Seconds(time))
  {
    FormatWithMinutesSeconds(FieldText(Days(time)), FieldText(Hours(time)), FieldText(Minutes(time)), FieldText(Seconds(time)));
  }

  // ---------------------------------------------------------------------------
  // The state machine
  // ---------------------------------------------------------------------------

  /** The timer's properties: the timeout in seconds and the display format. */
  datatype Config = Config(timeout: int, format: string)

  /**
   * What a timer's behaviour depends on and shows: its `state` (end instant
   * and text), whether the interval is scheduled, the shared restart flag,
   * and how many times `onTimeUp` was called.
   */
  datatype State = State(endTime: int, text: string, running: bool, restart: bool, timeUps: nat)

  /** The constructor at the instant `now`: empty text, end instant `timeout` seconds ahead. */
  function Constructed(c: Config, restart: bool, now: int): (r: State)
    ensures !r.running && r.timeUps == 0 && r.text == "" && r.restart == restart
    ensures c.timeout >= 0 ==> Calculate(r.endTime, now).Some? && TotalSeconds(Calculate(r.endTime, now).value) == c.timeout
  {
    State(EndTime(now, c.timeout), "", false, restart, 0)
  }

  /**
   * `tick()` at the instant `now`. First a set restart flag moves the end
   * instant to `timeout` seconds after `now` and is cleared; then a format
   * without placeholders stops the timer; then an end instant in the past
   * calls `onTimeUp` and stops it; otherwise the text shows the time left.
   */
  function TickStep(c: Config, s: State, now: int): (r: State)
    ensures !r.restart
    ensures r.endTime == if s.restart then EndTime(now, c.timeout) else s.endTime
    ensures !HasToken(c.format) ==> !r.running && r.text == s.text && r.timeUps == s.timeUps
    ensures HasToken(c.format) && r.endTime < now ==>
              !r.running && r.text == s.text && r.timeUps == s.timeUps + 1
    ensures HasToken(c.format) && r.endTime >= now ==>
              r.running == s.running && r.timeUps == s.timeUps &&
              r.text == Format(c.format, Calculate(r.endTime, now))
  {
    var s1 := if s.restart then s.(endTime := EndTime(now, c.timeout), restart := false) else s;
    if !HasToken(c.format) then s1.(running := false)
    else
      var time := Calculate(s1.endTime, now);
      if time.None? then s1.(timeUps := s1.timeUps + 1, running := false)
      else s1.(text := Format(c.format, time))
  }

  /** `tickStart()`: the interval is scheduled; nothing else changes. */
  function StartStep(s: State): (r: State)
    ensures r.running && r.(running := s.running) == s
  {
    s.(running := true)
  }

  /** `tickEnd()`: the interval is cleared; nothing else changes, so a second call does nothing. */
  function EndStep(s: State): (r: State)
    ensures !r.running && r.(running := s.running) == s
    ensures !s.running ==> r == s
  {
    s.(running := false)
  }

  /**
   * `componentDidMount()` at the instant `now`: the text is formatted from
   * `calculate` once (the guard on the end instant always holds, since it is
   * a Date object), the interval is scheduled, and a first tick runs.
   */
  function MountStep(c: Config, s: State, now: int): (r: State)
    ensures !r.restart
    ensures r.endTime == if s.restart then EndTime(now, c.timeout) else s.endTime
    ensures r.running <==> HasToken(c.format) && Calculate(r.endTime, now).Some?
    ensures r.timeUps == if HasToken(c.format) && Calculate(r.endTime, now).None? then s.timeUps + 1 else s.timeUps
  {
    TickStep(c, StartStep(s.(text := Format(c.format, Calculate(s.endTime, now)))), now)
  }

  /** One firing of the interval: a tick runs only while the interval is scheduled. */
  function FireStep(c: Config, s: State, now: int): (r: State)
    ensures !s.running ==> r == s
  {
    if s.running then TickStep(c, s, now) else s
  }

  /** What can happen to a mounted timer. */
  datatype Event =
    | Interval(now: int)      // the one-second interval fires at the instant `now`
    | SetRestart(value: bool) // some part of the application calls `restartTimer(value)`
    | Unmount                 // `componentWillUnmount()`, which calls `tickEnd()`

  function Apply(c: Config, s: State, e: Event): State {
    match e
    case Interval(now) => FireStep(c, s, now)
    case SetRestart(v) => s.(restart := v)
    case Unmount => EndStep(s)
  }

  function Run(c: Config, s: State, events: seq<Event>): State
    decreases |events|
  {
    if events == [] then s else Run(c, Apply(c, s, events[0]), events[1..])
  }

  /** `onTimeUp` has been called at most once, and never while the interval is still scheduled. */
  predicate AtMostOnce(s: State) {
    s.timeUps <= 1 && (s.running ==> s.timeUps == 0)
  }

  /** A freshly mounted timer has called `onTimeUp` at most once. */
  lemma MountAtMostOnce(c: Config, restart: bool, now: int)
    ensures AtMostOnce(MountStep(c, Constructed(c, restart, now), now))
  {
  }

  /** Whatever happens afterwards, `onTimeUp` is never called a second time. */
  lemma {:induction false} RunAtMostOnce(c: Config, s: State, events: seq<Event>)
    requires AtMostOnce(s)
    ensures AtMostOnce(Run(c, s, events))
    ensures Run(c, s, events).timeUps >= s.timeUps
    decreases |events|
  {
    if events != [] {
      RunAtMostOnce(c, Apply(c, s, events[0]), events[1..]);
    }
  }

  /**
   * Once the interval is cleared the timer is finished: no later event
   * changes its end instant, text or callback count, or schedules it again.
   */
  lemma {:induction false} StoppedIsFinal(c: Config, s: State, events: seq<Event>)
    requires !s.running
    ensures var r := Run(c, s, events);
      !r.running && r.endTime == s.endTime && r.text == s.text && r.timeUps == s.timeUps
    decreases |events|
  {
    if events != [] {
      StoppedIsFinal(c, Apply(c, s, events[0]), events[1..]);
    }
  }

  /** A format without placeholders stops the timer at its first tick, whatever the time, without a callback. */
  lemma NoTokensNeverExpire(c: Config, s: State, now: int, events: seq<Event>)
    requires !HasToken(c.format)
    ensures var r := Run(c, TickStep(c, s, now), events);
      !r.running && r.timeUps == s.timeUps && r.text == s.text
  {
    StoppedIsFinal(c, TickStep(c, s, now), events);
  }

  /**
   * A restart seen by a tick gives a fresh countdown of `timeout` seconds:
   * it cannot expire in that tick, and the text shows the whole timeout.
   */
  lemma RestartGivesFreshCountdown(c: Config, s: State, now: int)
    requires s.restart && c.timeout >= 0 && HasToken(c.format)
    ensures var r := TickStep(c, s, now);
      r.timeUps == s.timeUps && r.running == s.running && !r.restart &&
      r.endTime == now + 1000 * c.timeout &&
      exists t :: Calculate(r.endTime, now) == Some(t) && TotalSeconds(t) == c.timeout && InRange(t) &&
        r.text == Format(c.format, Some(t))
  {
    var r := TickStep(c, s, now);
    CalculateDecomposes(r.endTime, now);
    var t := Calculate(r.endTime, now).value;
    assert TotalSeconds(t) == c.timeout && r.text == Format(c.format, Some(t));
  }

  /** Only interval firings, none of them after the end instant. */
  predicate FiringsUntil(events: seq<Event>, end: int) {
    forall i :: 0 <= i < |events| ==> events[i].Interval? && events[i].now <= end
  }

  /**
   * Without restarts, firings up to the end instant keep the timer running
   * with no callback, and the text shows the time left at the last firing.
   */
  lemma {:induction false} CountsDownUntilEnd(c: Config, s: State, events: seq<Event>)
    requires s.running && !s.restart && s.timeUps == 0 && HasToken(c.format)
    requires FiringsUntil(events, s.endTime)
    ensures var r := Run(c, s, events);
      r.running && !r.restart && r.timeUps == 0 && r.endTime == s.endTime &&
      (events != [] ==> r.text == Format(c.format, Calculate(s.endTime, events[|events| - 1].now)))
    decreases |events|
  {
    if events != [] {
      var s1 := Apply(c, s, events[0]);
      assert FiringsUntil(events[1..], s.endTime) by {
        forall i | 0 <= i < |events[1..]| ensures events[1..][i].Interval? && events[1..][i].now <= s.endTime {
          assert events[1..][i] == events[i + 1];
        }
      }
      CountsDownUntilEnd(c, s1, events[1..]);
      if |events| > 1 {
        assert events[1..][|events[1..]| - 1] == events[|events| - 1];
      }
    }
  }

  /** A firing after the end instant, without a restart, calls `onTimeUp` and stops the timer. */
  lemma ExpiresAfterEnd(c: Config, s: State, now: int)
    requires s.running && !s.restart && HasToken(c.format) && now > s.endTime
    ensures var r := FireStep(c, s, now);
      !r.running && r.timeUps == s.timeUps + 1 && r.text == s.text
  {
  }

  /** The firing that expires the timer is the last callback, whatever happens afterwards. */
  lemma ExpiresForGood(c: Config, s: State, now: int, later: seq<Event>)
    requires s.running && !s.restart && HasToken(c.format) && now > s.endTime
    ensures var r := FireStep(c, s, now);
      !r.running && r.timeUps == s.timeUps + 1 && Run(c, r, later).timeUps == s.timeUps + 1
  {
    ExpiresAfterEnd(c, s, now);
    StoppedIsFinal(c, FireStep(c, s, now), later);
  }

  /** A negative timeout expires at the tick made when the timer is mounted. */
  lemma NegativeTimeoutExpiresAtMount(c: Config, restart: bool, start: int)
    requires c.timeout < 0 && HasToken(c.format)
    ensures var mounted := MountStep(c, Constructed(c, restart, start), start);
      !mounted.running && mounted.timeUps == 1
  {
    var s0 := Constructed(c, restart, start);
    assert s0.endTime < start;
  }

  /** The interval firing once a second, `n` times, starting one second after `start`. */
  function EverySecond(start: int, n: nat): (events: seq<Event>)
    ensures |events| == n
    ensures forall i :: 0 <= i < n ==> events[i] == Interval(start + 1000 * (i + 1))
  {
    seq(n, i => Interval(start + 1000 * (i + 1)))
  }

  /** Mounting with a non-negative timeout and a placeholder schedules the countdown to `timeout` seconds ahead. */
  lemma MountStartsCountdown(c: Config, restart: bool, start: int)
    requires c.timeout >= 0 && HasToken(c.format)
    ensures var mounted := MountStep(c, Constructed(c, restart, start), start);
      mounted.running && mounted.timeUps == 0 && !mounted.restart &&
      mounted.endTime == start + 1000 * c.timeout &&
      mounted.text == Format(c.format, Calculate(mounted.endTime, start))
  {
    var s0 := Constructed(c, restart, start);
    var s1 := StartStep(s0.(text := Format(c.format, Calculate(s0.endTime, start))));
    assert s1.running && s1.timeUps == 0 && s1.endTime == start + 1000 * c.timeout;
    var r := TickStep(c, s1, start);
    assert r.endTime == start + 1000 * c.timeout;
  }

  /** The first `n` firings every second after `start` all come at or before `n` seconds after it. */
  lemma EverySecondUntil(start: int, n: nat)
    ensures FiringsUntil(EverySecond(start, n), start + 1000 * n)
  {
    var events := EverySecond(start, n);
    forall i | 0 <= i < |events| ensures events[i].Interval? && events[i].now <= start + 1000 * n {
      assert events[i] == Interval(start + 1000 * (i + 1));
    }
  }

  /**
   * The whole life of a timer mounted at `start` with a timeout of `T >= 0`
   * seconds and no activity: the seconds 1..T pass without a callback (at
   * second T the countdown reads zero, which is not yet expiry); the firing
   * at second T + 1 calls `onTimeUp` and stops the timer, leaving the text as
   * it was (ExpiresForGood: nothing after that calls it again).
   */
  lemma ExpiresExactlyOnce(c: Config, restart: bool, start: int)
    requires c.timeout >= 0 && HasToken(c.format)
    ensures var mounted := MountStep(c, Constructed(c, restart, start), start);
      var counting := Run(c, mounted, EverySecond(start, c.timeout));
      var expired := FireStep(c, counting, start + 1000 * (c.timeout + 1));
      mounted.running && mounted.timeUps == 0 &&
      counting.running && counting.timeUps == 0 &&
      !expired.running && expired.timeUps == 1 && expired.text == counting.text
  {
    var mounted := MountStep(c, Constructed(c, restart, start), start);
    assert mounted.running && mounted.timeUps == 0 && !mounted.restart &&
           mounted.endTime == start + 1000 * c.timeout by {
      MountStartsCountdown(c, restart, start);
    }
    var ticks := EverySecond(start, c.timeout);
    var counting := Run(c, mounted, ticks);
    assert counting.running && !counting.restart && counting.timeUps == 0 &&
           counting.endTime == start + 1000 * c.timeout by {
      EverySecondUntil(start, c.timeout);
      CountsDownUntilEnd(c, mounted, ticks);
    }
    ExpiresAfterEnd(c, counting, start + 1000 * (c.timeout + 1));
  }

  /** In the minutes-and-seconds format, the time left shows as padded minutes and seconds. */
  lemma ShowsMinutesSeconds(t: Remaining)
    ensures Format("{mm}:{ss}", Some(t)) == Pad(NatToString(t.m)) + ":" + Pad(NatToString(t.s))
  {
    FormatMinutesSeconds(Some(t));
  }

  /** `calculate` with `left` milliseconds to go. */
  lemma CalculateLeft(end: int, now: int, left: nat)
    requires end - now == left
    ensures Calculate(end, now) == Some(Remaining(left / 86400000, left / 3600000 % 24, left / 60000 % 60, left / 1000 % 60))
  {
  }

  lemma MinutesSecondsHasToken()
    ensures HasToken("{mm}:{ss}")
  {
    IndexOfIsFirst("{mm}:{ss}", "{mm}", 0);
  }

  /** "{mm}:{ss}" with `left` milliseconds to go, when the minutes and seconds left are single digits. */
  lemma MinutesSecondsAt(end: int, now: int, left: nat, mm: nat, ss: nat)
    requires end - now == left && left < 3600000
    requires left / 60000 % 60 == mm && left / 1000 % 60 == ss && mm < 10 && ss < 10
    ensures Format("{mm}:{ss}", Calculate(end, now)) == ['0', Digit(mm), ':', '0', Digit(ss)]
  {
    CalculateLeft(end, now, left);
    var t := Calculate(end, now).value;
    ShowsMinutesSeconds(t);
    PadDecimal(mm);
    PadDecimal(ss);
  }

  /** A firing before the end instant, without a restart, keeps the timer running and shows the time left. */
  lemma FiringBeforeEnd(c: Config, s: State, now: int)
    requires s.running && !s.restart && HasToken(c.format) && now <= s.endTime
    ensures var r := FireStep(c, s, now);
      r.running && !r.restart && r.timeUps == s.timeUps && r.endTime == s.endTime &&
      r.text == Format(c.format, Calculate(s.endTime, now))
  {
  }

  // ---------------------------------------------------------------------------
  // The component
  // ---------------------------------------------------------------------------

  /** The Timer component, with its `state` as fields and the shared restart flag. */
  class Timer {
    const config: Config
    const restart: KeePass4Web.RestartCell
    var endTime: int
    var text: string
    var running: bool
    var timeUps: nat

    function Snapshot(): State
      reads this, restart
    {
      State(endTime, text, running, restart.timer, timeUps)
    }

    /** `new Timer(props)` at the instant `now`. */
    constructor (timeout: int, format: string, restart: KeePass4Web.RestartCell, now: int)
      ensures config == Config(timeout, format) && this.restart == restart
      ensures Snapshot() == Constructed(config, restart.timer, now)
    {
      config := Config(timeout, format);
      this.restart := restart;
      endTime := EndTime(now, timeout);
      text := "";
      running := false;
      timeUps := 0;
    }

    method TickStart()
      modifies this
      ensures Snapshot() == StartStep(old(Snapshot()))
    {
      running := true;
    }

    method TickEnd()
      modifies this
      ensures Snapshot() == EndStep(old(Snapshot()))
    {
      running := false;
    }

    /** `onTimeUp()`: the callback, counted. */
    method OnTimeUp()
      modifies this
      ensures Snapshot() == old(Snapshot()).(timeUps := old(timeUps) + 1)
    {
      timeUps := timeUps + 1;
    }

    method Tick(now: int)
      modifies this, restart
      ensures Snapshot() == TickStep(config, old(Snapshot()), now)
    {
      var restarting := restart.RestartTimer(None);
      if restarting {
        endTime := EndTime(now, config.timeout);
        var _ := restart.RestartTimer(Some(false));
      }
      if !HasToken(config.format) {
        TickEnd();
        return;
      }
      var time := Calculate(endTime, now);
      if time.None? {
        OnTimeUp();
        TickEnd();
        return;
      }
      text := Format(config.format, time);
    }

    method ComponentDidMount(now: int)
      modifies this, restart
      ensures Snapshot() == MountStep(config, old(Snapshot()), now)
    {
      text := Format(config.format, Calculate(endTime, now));
      TickStart();
      Tick(now);
    }

    /** The interval firing at the instant `now`. */
    method Interval(now: int)
      modifies this, restart
      ensures Snapshot() == FireStep(config, old(Snapshot()), now)
    {
      if running {
        Tick(now);
      }
    }

    method ComponentWillUnmount()
      modifies this
      ensures Snapshot() == EndStep(old(Snapshot()))
    {
      TickEnd();
    }
  }
}
