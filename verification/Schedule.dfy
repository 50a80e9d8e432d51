/**
 When timed jobs fire (schedule/schedule.go). A zone is a fixed offset east of UTC; daily times are
 for local days from 1 January 1970 on.
*/
module Schedule {
  import opened Wrappers
  import opened Time
  import Calendar

  datatype Spec = Interval(every: int, jitter: int) | Daily(hour: int, offset: int)

  function Every(d: int): Spec {
    Interval(d, 0)
  }

  function EveryJittered(d: int, jitter: int): Spec {
    Interval(d, jitter)
  }

  /** An unknown zone falls back to UTC, an hour outside the clock to the nearest on it. */
  function DailyAt(hour: int, zone: Option<int>): (s: Spec)
    ensures s.Daily? && 0 <= s.hour <= 23 && (0 <= hour <= 23 ==> s.hour == hour)
    ensures hour < 0 ==> s.hour == 0
    ensures hour > 23 ==> s.hour == 23
    ensures s.offset == if zone.Some? then zone.value else 0
  {
    var offset := if zone.Some? then zone.value else 0;
    Daily(if hour < 0 then 0 else if hour > 23 then 23 else hour, offset)
  }

  predicate Sane(s: Spec) {
    s.Daily? && 0 <= s.hour <= 23
  }

  function LocalDay(s: Spec, t: int): int
    requires s.Daily?
  {
    (t + s.offset) / DAY
  }

  /** The instant of hour:00 on a local day. */
  function FireTime(s: Spec, day: int): int
    requires s.Daily?
  {
    day * DAY + s.hour * HOUR - s.offset
  }

  /** The clock on the wall shows hour:00 sharp. */
  predicate OnTheHour(s: Spec, t: int)
    requires s.Daily?
  {
    (t + s.offset) % DAY == s.hour * HOUR
  }

  /** `draw` is the random number below 2 * jitter + 1 that a jittered interval takes. */
  function UntilNext(s: Spec, now: int, draw: int): int {
    match s
    case Daily(_, _) =>
      var today := FireTime(s, LocalDay(s, now));
      if today > now then today - now else FireTime(s, LocalDay(s, now) + 1) - now
    case Interval(every, jitter) =>
      var d := if jitter > 0 then every + draw - jitter else every;
      if d < 0 then 0 else d
  }

  function Next(s: Spec, now: int): int
    requires s.Daily?
  {
    now + UntilNext(s, now, 0)
  }

  /** The next daily run is the first instant after now at which the local clock shows hour:00, and
      at most a day away. */
  lemma NextIsTheFirstFireTime(s: Spec, now: int)
    requires Sane(s)
    ensures OnTheHour(s, Next(s, now)) && 0 < UntilNext(s, now, 0) <= DAY
    ensures forall t :: now < t && OnTheHour(s, t) ==> Next(s, now) <= t
    ensures (Next(s, now) + s.offset) % 86_400_000_000_000 == s.hour * 3_600_000_000_000
  {
    OnTheHourIsAFireTime(s, Next(s, now));
    forall t | now < t && OnTheHour(s, t) ensures Next(s, now) <= t {
      OnTheHourIsAFireTime(s, t);
    }
  }

  lemma OnTheHourIsAFireTime(s: Spec, t: int)
    requires Sane(s)
    ensures OnTheHour(s, t) <==> t == FireTime(s, LocalDay(s, t))
    ensures forall day :: LocalDay(s, FireTime(s, day)) == day
  {
  }

  /** A jittered delay stays within the jitter, and is never negative. */
  lemma JitterIsBounded(every: int, jitter: int, now: int, draw: int)
    requires 0 <= draw < 2 * jitter + 1
    ensures var d := UntilNext(EveryJittered(every, jitter), now, draw);
      d >= 0 && every - jitter <= d && (d <= every + jitter || d == 0)
  {
  }

  /** A plain interval waits exactly that long, from any instant; a negative one not at all. */
  lemma PlainIntervalIsExact(every: int, now: int, draw: int)
    ensures UntilNext(Every(every), now, draw) == if every < 0 then 0 else every
  {
  }

  /** Each delay within the jitter, and no other, comes of exactly one draw. */
  lemma EveryDelayIsDrawn(every: int, jitter: int, now: int, d: int)
    requires jitter > 0 && d > 0
    ensures every - jitter <= d <= every + jitter
      <==> exists draw :: 0 <= draw < 2 * jitter + 1 && UntilNext(EveryJittered(every, jitter), now, draw) == d
    ensures forall a, b |
      UntilNext(EveryJittered(every, jitter), now, a) == UntilNext(EveryJittered(every, jitter), now, b) == d :: a == b
  {
    if every - jitter <= d <= every + jitter {
      assert UntilNext(EveryJittered(every, jitter), now, d - every + jitter) == d;
    }
  }

  function DateKey(s: Spec, t: int): string
    requires s.Daily? && LocalDay(s, t) >= 0
  {
    Calendar.Format(Calendar.DateOf(LocalDay(s, t)))
  }

  /** Two instants share a date key exactly when they fall on the same local day. */
  lemma DateKeyIsTheDay(s: Spec, t: int, u: int)
    requires s.Daily? && LocalDay(s, t) >= 0 && LocalDay(s, u) >= 0
    ensures DateKey(s, t) == DateKey(s, u) <==> LocalDay(s, t) == LocalDay(s, u)
  {
    if DateKey(s, t) == DateKey(s, u) && LocalDay(s, t) != LocalDay(s, u) {
      Calendar.FormatIsInjective(Calendar.DateOf(LocalDay(s, t)), Calendar.DateOf(LocalDay(s, u)));
      if LocalDay(s, t) < LocalDay(s, u) {
        Calendar.DatesIncrease(LocalDay(s, t), LocalDay(s, u));
      } else {
        Calendar.DatesIncrease(LocalDay(s, u), LocalDay(s, t));
      }
    }
  }

  /** The date key names the Gregorian date that the clock shows there and then. */
  lemma DateKeyNamesTheDate(s: Spec, t: int, d: Calendar.Date)
    requires s.Daily? && LocalDay(s, t) >= 0
    ensures DateKey(s, t) == Calendar.Format(d) <==>
      && Calendar.OnTheCalendar(d)
      && Calendar.DayNumber(d) * 86_400_000_000_000 <= t + s.offset < (Calendar.DayNumber(d) + 1) * 86_400_000_000_000
  {
    Calendar.TextNamesTheDay(LocalDay(s, t), d);
    DayByBounds(t + s.offset, Calendar.DayNumber(d));
  }

  lemma DayByBounds(local: int, day: int)
    ensures local / DAY == day <==> day * 86_400_000_000_000 <= local < (day + 1) * 86_400_000_000_000
  {
  }
}
