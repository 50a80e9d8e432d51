/** What the loop of a daily job adds up to over a process life. */
module Daily {
  import opened Time
  import opened Kv
  import opened Schedule
  import opened SharedKv
  import opened Bot
  import Calendar

  /** The loop is back before the next daily instant. */
  predicate BackInTime(j: Job, ticks: seq<Tick>) {
    forall k :: 0 <= k < |ticks| - 1 ==> ticks[k + 1].readAt < Target(j, ticks[k]) + DAY
  }

  lemma TwoOnTheHour(s: Spec, a: int, b: int)
    requires Sane(s) && OnTheHour(s, a) && OnTheHour(s, b) && a < b
    ensures a + DAY <= b
  {
  }

  lemma NextAfterTarget(s: Spec, target: int, now: int)
    requires Sane(s) && OnTheHour(s, target) && target <= now
    ensures Next(s, now) == target + DAY <==> now < target + DAY
    ensures Next(s, now) >= target + DAY
  {
    NextIsTheFirstFireTime(s, now);
    TwoOnTheHour(s, target, Next(s, now));
    OnTheHourIsAFireTime(s, target);
    assert OnTheHour(s, target + DAY);
  }

  /** However long the runs take, no daily instant is waited for twice. */
  lemma {:induction false} NoneDoubled(j: Job, ticks: seq<Tick>, i: nat, k: nat)
    requires Sane(j.spec) && Paced(j, ticks) && i <= k < |ticks|
    ensures Target(j, ticks[i]) + (k - i) * DAY <= Target(j, ticks[k])
  {
    if i < k {
      NoneDoubled(j, ticks, i, k - 1);
      NextIsTheFirstFireTime(j.spec, ticks[k - 1].readAt);
      NextAfterTarget(j.spec, Target(j, ticks[k - 1]), ticks[k].readAt);
    }
  }

  lemma {:induction false} InTimeMeansDaily(j: Job, ticks: seq<Tick>, k: nat)
    requires Sane(j.spec) && Paced(j, ticks) && BackInTime(j, ticks) && k < |ticks|
    ensures Target(j, ticks[k]) == Target(j, ticks[0]) + k * DAY
  {
    if k > 0 {
      InTimeMeansDaily(j, ticks, k - 1);
      NextIsTheFirstFireTime(j.spec, ticks[k - 1].readAt);
      NextAfterTarget(j.spec, Target(j, ticks[k - 1]), ticks[k].readAt);
    }
  }

  /** The waits are for consecutive days, none skipped, exactly when each run ends before the next
      daily instant. */
  lemma NoneSkipped(j: Job, ticks: seq<Tick>)
    requires Sane(j.spec) && Paced(j, ticks)
    ensures (forall k :: 0 <= k < |ticks| ==> Target(j, ticks[k]) == Target(j, ticks[0]) + k * DAY)
        <==> BackInTime(j, ticks)
  {
    if BackInTime(j, ticks) {
      forall k | 0 <= k < |ticks| ensures Target(j, ticks[k]) == Target(j, ticks[0]) + k * DAY {
        InTimeMeansDaily(j, ticks, k);
      }
    }
    if forall k :: 0 <= k < |ticks| ==> Target(j, ticks[k]) == Target(j, ticks[0]) + k * DAY {
      forall k | 0 <= k < |ticks| - 1 ensures ticks[k + 1].readAt < Target(j, ticks[k]) + DAY {
        NextIsTheFirstFireTime(j.spec, ticks[k].readAt);
        NextAfterTarget(j.spec, Target(j, ticks[k]), ticks[k + 1].readAt);
        assert Target(j, ticks[k + 1]) == Target(j, ticks[0]) + (k + 1) * DAY;
      }
    }
  }

  // ---------------------------------------------------------------------------------------------
  // Which firings run the body
  // ---------------------------------------------------------------------------------------------

  function DayOf(j: Job, tick: Tick): int
    requires j.spec.Daily?
  {
    LocalDay(j.spec, tick.firing.at)
  }

  /** Nothing goes wrong, and no day of the ticks was marked before. */
  predicate Smooth(t: Table<string>, j: Job, ticks: seq<Tick>) {
    && j.spec.Daily?
    && (forall k :: 0 <= k < |ticks| ==> DayOf(j, ticks[k]) >= 0)
    && (forall k :: 0 <= k < |ticks| ==> DayKey(j, ticks[k].firing.at) !in t)
    && (forall k :: 0 <= k < |ticks| ==> ticks[k].firing.succeeds)
    && (forall k :: 0 <= k < |ticks| ==> ticks[k].firing.readFault == NoFault && ticks[k].firing.writeFault == NoFault)
  }

  lemma SmoothPrefix(t: Table<string>, j: Job, ticks: seq<Tick>, n: nat)
    requires Smooth(t, j, ticks) && n <= |ticks|
    ensures Smooth(t, j, ticks[..n])
  {
  }

  lemma KeysFollowDays(j: Job, a: int, b: int)
    requires j.spec.Daily? && Datable(j, a) && Datable(j, b)
    ensures DayKey(j, a) == DayKey(j, b) <==> LocalDay(j.spec, a) == LocalDay(j.spec, b)
  {
    DateKeyHasNoColon(j.spec, a);
    DateKeyHasNoColon(j.spec, b);
    MarkerKeyIsInjective(j.name, DateKey(j.spec, a), j.name, DateKey(j.spec, b));
    DateKeyIsTheDay(j.spec, a, b);
  }

  lemma DateKeyHasNoColon(s: Spec, t: int)
    requires s.Daily? && LocalDay(s, t) >= 0
    ensures Calendar.NoColon(DateKey(s, t))
  {
    Calendar.FormatHasNoColon(Calendar.DateOf(LocalDay(s, t)));
  }

  /** Some tick's firing fell on that local day. */
  predicate Taken(j: Job, ticks: seq<Tick>, day: int)
    requires j.spec.Daily?
  {
    exists i :: 0 <= i < |ticks| && DayOf(j, ticks[i]) == day
  }

  lemma MarkerAfterOne(t: Table<string>, j: Job, f: Firing, at: int)
    requires j.spec.Daily? && Datable(j, f.at) && Datable(j, at)
    requires f.succeeds && f.readFault == NoFault && f.writeFault == NoFault
    ensures DayKey(j, at) in TableAfter(true, t, j, f)
        <==> DayKey(j, at) in t || LocalDay(j.spec, f.at) == LocalDay(j.spec, at)
  {
    KeysFollowDays(j, f.at, at);
  }

  lemma {:induction false} MarkersAfter(t: Table<string>, j: Job, ticks: seq<Tick>, at: int)
    requires Smooth(t, j, ticks) && Datable(j, at) && DayKey(j, at) !in t
    ensures DayKey(j, at) in TableAfterTicks(true, t, j, ticks) <==> Taken(j, ticks, LocalDay(j.spec, at))
  {
    if ticks != [] {
      var n, day := |ticks| - 1, LocalDay(j.spec, at);
      SmoothPrefix(t, j, ticks, n);
      MarkersAfter(t, j, ticks[..n], at);
      TakenByTheLast(j, ticks, day);
      MarkerAfterOne(TableAfterTicks(true, t, j, ticks[..n]), j, ticks[n].firing, at);
    }
  }

  lemma TakenByTheLast(j: Job, ticks: seq<Tick>, day: int)
    requires j.spec.Daily? && ticks != []
    ensures var n := |ticks| - 1;
      Taken(j, ticks, day) <==> Taken(j, ticks[..n], day) || DayOf(j, ticks[n]) == day
  {
  }

  /** With nothing going wrong, a firing runs the body exactly when no earlier one fell on the same
      local day; otherwise it finds the marker. */
  lemma RunsUnlessTheDayIsTaken(t: Table<string>, j: Job, ticks: seq<Tick>, k: nat)
    requires Smooth(t, j, ticks) && k < |ticks|
    ensures OutcomeAt(true, t, j, ticks, k) == Ran
        <==> forall i :: 0 <= i < k ==> DayOf(j, ticks[i]) != DayOf(j, ticks[k])
    ensures OutcomeAt(true, t, j, ticks, k) != Failed
  {
    SmoothPrefix(t, j, ticks, k);
    MarkersAfter(t, j, ticks[..k], ticks[k].firing.at);
    assert forall i :: 0 <= i < k ==> ticks[..k][i] == ticks[i];
  }

  lemma TargetDay(j: Job, ticks: seq<Tick>, k: nat)
    requires Sane(j.spec) && Paced(j, ticks) && BackInTime(j, ticks) && k < |ticks|
    ensures LocalDay(j.spec, Target(j, ticks[k])) == LocalDay(j.spec, Target(j, ticks[0])) + k
  {
    InTimeMeansDaily(j, ticks, k);
    DaysLater(j.spec, Target(j, ticks[0]), k);
  }

  /** Once a day, every day: when each run starts on its target's local day and the loop is back in
      time, the body runs at every tick, on consecutive local days. */
  lemma OnceADayEveryDay(t: Table<string>, j: Job, ticks: seq<Tick>, k: nat)
    requires Sane(j.spec) && Smooth(t, j, ticks) && Paced(j, ticks) && BackInTime(j, ticks) && k < |ticks|
    requires forall i :: 0 <= i < |ticks| ==> DayOf(j, ticks[i]) == LocalDay(j.spec, Target(j, ticks[i]))
    ensures OutcomeAt(true, t, j, ticks, k) == Ran
    ensures DayOf(j, ticks[k]) == DayOf(j, ticks[0]) + k
  {
    RunsUnlessTheDayIsTaken(t, j, ticks, k);
    forall i | 0 <= i <= k ensures DayOf(j, ticks[i]) == DayOf(j, ticks[0]) + i {
      TargetDay(j, ticks, i);
    }
  }

  lemma DaysLater(s: Spec, t: int, days: int)
    requires s.Daily?
    ensures LocalDay(s, t + days * DAY) == LocalDay(s, t) + days
  {
  }

  /** In time, a firing falls on its target's local day or the one after. */
  lemma FiringDay(j: Job, ticks: seq<Tick>, i: nat)
    requires Sane(j.spec) && Paced(j, ticks) && BackInTime(j, ticks) && i + 1 < |ticks|
    ensures LocalDay(j.spec, Target(j, ticks[i])) <= DayOf(j, ticks[i]) <= LocalDay(j.spec, Target(j, ticks[i])) + 1
  {
    DaysLater(j.spec, Target(j, ticks[i]), 1);
    assert ticks[i].endedAt <= ticks[i + 1].readAt < Target(j, ticks[i]) + DAY;
  }

  /** A firing that slips past midnight takes the next day's marker: the next day's own firing finds it
      and does not run. Nothing else makes it skip. */
  lemma LateFiringTakesTheNextDay(t: Table<string>, j: Job, ticks: seq<Tick>, k: nat)
    requires Sane(j.spec) && Smooth(t, j, ticks) && Paced(j, ticks) && BackInTime(j, ticks) && k + 1 < |ticks|
    requires DayOf(j, ticks[k + 1]) == LocalDay(j.spec, Target(j, ticks[k + 1]))
    ensures OutcomeAt(true, t, j, ticks, k + 1) == AlreadyFired
        <==> DayOf(j, ticks[k]) != LocalDay(j.spec, Target(j, ticks[k]))
  {
    RunsUnlessTheDayIsTaken(t, j, ticks, k + 1);
    assert (forall i :: 0 <= i < k + 1 ==> DayOf(j, ticks[i]) != DayOf(j, ticks[k + 1]))
      <==> DayOf(j, ticks[k]) == LocalDay(j.spec, Target(j, ticks[k])) by {
      OnlyALateOneCollides(j, ticks, k);
    }
  }

  lemma OnlyALateOneCollides(j: Job, ticks: seq<Tick>, k: nat)
    requires Sane(j.spec) && Paced(j, ticks) && BackInTime(j, ticks) && k + 1 < |ticks|
    requires DayOf(j, ticks[k + 1]) == LocalDay(j.spec, Target(j, ticks[k + 1]))
    ensures (forall i :: 0 <= i < k + 1 ==> DayOf(j, ticks[i]) != DayOf(j, ticks[k + 1]))
      <==> DayOf(j, ticks[k]) == LocalDay(j.spec, Target(j, ticks[k]))
  {
    OnlyTheLastCanCollide(j, ticks, k, k);
    if DayOf(j, ticks[k]) == LocalDay(j.spec, Target(j, ticks[k])) {
      forall i | 0 <= i < k + 1 ensures DayOf(j, ticks[i]) != DayOf(j, ticks[k + 1]) {
        OnlyTheLastCanCollide(j, ticks, i, k);
      }
    }
  }

  lemma OnlyTheLastCanCollide(j: Job, ticks: seq<Tick>, i: nat, k: nat)
    requires Sane(j.spec) && Paced(j, ticks) && BackInTime(j, ticks) && i <= k && k + 1 < |ticks|
    requires DayOf(j, ticks[k + 1]) == LocalDay(j.spec, Target(j, ticks[k + 1]))
    ensures DayOf(j, ticks[i]) == DayOf(j, ticks[k + 1])
      <==> i == k && DayOf(j, ticks[i]) != LocalDay(j.spec, Target(j, ticks[i]))
  {
    FiringDay(j, ticks, i);
    TargetDay(j, ticks, i);
    TargetDay(j, ticks, k + 1);
  }
}
