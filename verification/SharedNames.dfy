/**
 Why names must differ: two daily jobs under one name share a marker, and both run on the same day when
 the one is still at it as the other's hour comes.
*/
module SharedNames {
  import opened Wrappers
  import opened Time
  import opened Kv
  import opened Schedule
  import opened SharedKv
  import opened Bot
  import opened Jobs
  import opened OncePerDay
  import Calendar
  import Daily

  // ---------------------------------------------------------------------------------------------
  // Runs in which every timer is on time
  // ---------------------------------------------------------------------------------------------

  predicate DrawFor(s: Spec, draw: nat) {
    s.Interval? && s.jitter > 0 ==> draw <= 2 * s.jitter
  }

  /** The wait that the loop computed when it began to wait is just over. */
  ghost predicate Due(l: Loop, now: int) {
    exists draw: nat :: DrawFor(l.job.spec, draw) && now == l.since + UntilNext(l.job.spec, l.since, draw)
  }

  ghost predicate OnTime(s: State, step: Step) {
    && (step.Fire? && At(s, step.loop) && s.loops[step.loop].phase.Waiting? ==> Due(s.loops[step.loop], s.now))
    && (step.Connected? ==> |step.draws| == |s.jobs| && forall i :: 0 <= i < |step.draws| ==> step.draws[i] < 5000)
  }

  /** Loops fire the moment their waits are over: no timer is early or late, and no loop dawdles before it
      computes its wait. */
  ghost predicate Prompt(s: State, steps: seq<Step>)
    decreases |steps|
  {
    steps == [] ||
      (Prompt(s, steps[..|steps| - 1]) && OnTime(Run(s, steps[..|steps| - 1]), steps[|steps| - 1]))
  }

  predicate BootsOnly(steps: seq<Step>, jobs: seq<Job>) {
    forall i :: 0 <= i < |steps| && steps[i].Boot? ==> steps[i].jobs == jobs
  }

  /** However often a program that registers `jobs` is run, with all timers on time, and whatever else
      happens, successes stay within one plus the losses. */
  ghost predicate OnceADay(jobs: seq<Job>) {
    forall s: State, steps: seq<Step>, name: string, date: string ::
      Initial(s) && BootsOnly(steps, jobs) && Prompt(s, steps) ==>
        Run(s, steps).tally.succeeded[MarkerKey(name, date)] <= 1 + Losses(Run(s, steps), MarkerKey(name, date))
  }

  /** Some such run of the program leads from `s` to `e`. */
  ghost predicate Reaches(jobs: seq<Job>, s: State, e: State) {
    exists steps :: BootsOnly(steps, jobs) && Prompt(s, steps) && Run(s, steps) == e
  }

  lemma ReachesItself(jobs: seq<Job>, s: State)
    ensures Reaches(jobs, s, s)
  {
    assert BootsOnly([], jobs) && Prompt(s, []) && Run(s, []) == s;
  }

  lemma ReachesOn(jobs: seq<Job>, s: State, e: State, e': State, step: Step)
    requires Reaches(jobs, s, e) && OnTime(e, step) && (step.Boot? ==> step.jobs == jobs)
    requires e' == Jobs.Apply(e, step)
    ensures Reaches(jobs, s, e')
  {
    var steps :| BootsOnly(steps, jobs) && Prompt(s, steps) && Run(s, steps) == e;
    var more := steps + [step];
    assert more[..|more| - 1] == steps;
    assert BootsOnly(more, jobs) && Prompt(s, more) && Run(s, more) == e';
  }

  lemma ReachesByTime(jobs: seq<Job>, s: State, e: State, at: int)
    requires Reaches(jobs, s, e) && e.now <= at
    ensures Reaches(jobs, s, e.(now := at))
  {
    ReachesOn(jobs, s, e, e.(now := at), Step.Tick(at - e.now));
  }

  lemma ReachesByFiring(jobs: seq<Job>, s: State, e: State, l: nat)
    requires Reaches(jobs, s, e) && At(e, l) && Due(e.loops[l], e.now)
    ensures Reaches(jobs, s, DoFire(e, l))
  {
    ReachesOn(jobs, s, e, DoFire(e, l), Fire(l));
  }

  lemma ReachesByLooking(jobs: seq<Job>, s: State, e: State, l: nat)
    requires Reaches(jobs, s, e)
    ensures Reaches(jobs, s, DoLook(e, l, NoFault))
  {
    ReachesOn(jobs, s, e, DoLook(e, l, NoFault), Look(l, NoFault));
  }

  lemma ReachesByBody(jobs: seq<Job>, s: State, e: State, l: nat)
    requires Reaches(jobs, s, e)
    ensures Reaches(jobs, s, DoBodyFails(e, l)) && Reaches(jobs, s, DoBodySucceeds(e, l))
  {
    ReachesOn(jobs, s, e, DoBodyFails(e, l), BodyFails(l));
    ReachesOn(jobs, s, e, DoBodySucceeds(e, l), BodySucceeds(l));
  }

  // ---------------------------------------------------------------------------------------------
  // Firings
  // ---------------------------------------------------------------------------------------------

  /** A daily loop that waits, and will not have missed its next instant. */
  predicate Ready(s: State, l: nat) {
    && At(s, l) && s.loops[l].phase.Waiting?
    && Sane(s.loops[l].job.spec) && Datable(s.loops[l].job, s.loops[l].since)
    && s.now <= Next(s.loops[l].job.spec, s.loops[l].since)
  }

  function NextOf(s: State, l: nat): int
    requires Ready(s, l)
  {
    Next(s.loops[l].job.spec, s.loops[l].since)
  }

  /** The state when loop `l` has waited, found no marker, and entered its body. */
  function Entered(s: State, l: nat): State
    requires Ready(s, l) && Datable(s.loops[l].job, NextOf(s, l))
  {
    var at := NextOf(s, l);
    SetPhase(s.(now := at), l, Running(Some(Day(DateKey(s.loops[l].job.spec, at), false))))
  }

  lemma NextIsDatable(s: State, l: nat)
    requires Ready(s, l)
    ensures s.loops[l].since < NextOf(s, l) && Datable(s.loops[l].job, NextOf(s, l))
  {
    NextIsTheFirstFireTime(s.loops[l].job.spec, s.loops[l].since);
  }

  lemma FireAndLook(s: State, l: nat)
    requires Ready(s, l) && s.kv == map[] && Datable(s.loops[l].job, NextOf(s, l))
    ensures var s1 := s.(now := NextOf(s, l));
      DoLook(DoFire(s1, l), l, NoFault) == Entered(s, l)
  {
    var j, at := s.loops[l].job, NextOf(s, l);
    var s1 := s.(now := at);
    var s2 := SetPhase(s1, l, Looking(DateKey(j.spec, at)));
    assert DoFire(s1, l) == s2;
    assert DoLook(s2, l, NoFault) == SetPhase(s2, l, Running(Some(Day(DateKey(j.spec, at), false))));
    assert DoLook(s2, l, NoFault).loops == Entered(s, l).loops;
  }

  lemma DueAtItsNext(s: State, l: nat)
    requires Ready(s, l)
    ensures Due(s.loops[l], NextOf(s, l))
  {
    assert DrawFor(s.loops[l].job.spec, 0);
  }

  lemma FiresIntoItsBody(jobs: seq<Job>, s0: State, s: State, l: nat)
    requires Reaches(jobs, s0, s) && Ready(s, l) && s.kv == map[] && Datable(s.loops[l].job, NextOf(s, l))
    ensures Reaches(jobs, s0, Entered(s, l))
  {
    var s1 := s.(now := NextOf(s, l));
    FireAndLook(s, l);
    DueAtItsNext(s, l);
    ReachesByTime(jobs, s0, s, NextOf(s, l));
    ReachesByFiring(jobs, s0, s1, l);
    ReachesByLooking(jobs, s0, DoFire(s1, l), l);
  }

  /** The same, and the body fails: the loop waits again, from its instant on. */
  function Failed(s: State, l: nat): State
    requires Ready(s, l)
  {
    SetPhase(s.(now := NextOf(s, l)), l, Waiting)
  }

  lemma FailsInItsBody(s: State, l: nat)
    requires Ready(s, l) && Datable(s.loops[l].job, NextOf(s, l))
    ensures DoBodyFails(Entered(s, l), l) == Failed(s, l)
  {
    assert DoBodyFails(Entered(s, l), l).loops == Failed(s, l).loops;
  }

  lemma FiresInVain(jobs: seq<Job>, s0: State, s: State, l: nat)
    requires Reaches(jobs, s0, s) && Ready(s, l) && s.kv == map[]
    ensures Reaches(jobs, s0, Failed(s, l))
  {
    NextIsDatable(s, l);
    FiresIntoItsBody(jobs, s0, s, l);
    FailsInItsBody(s, l);
    ReachesByBody(jobs, s0, Entered(s, l), l);
  }

  /** Then it is ready for its next day. */
  lemma ReadyAgain(s: State, l: nat)
    requires Ready(s, l)
    ensures Ready(Failed(s, l), l) && NextOf(Failed(s, l), l) == NextOf(s, l) + DAY
  {
    NextIsDatable(s, l);
    NextIsTheFirstFireTime(s.loops[l].job.spec, s.loops[l].since);
    Daily.NextAfterTarget(s.loops[l].job.spec, NextOf(s, l), NextOf(s, l));
  }

  // ---------------------------------------------------------------------------------------------
  // Two loops to one date
  // ---------------------------------------------------------------------------------------------

  /** In its body for a date, past a marker it found missing. */
  predicate InBody(s: State, l: nat, date: string) {
    At(s, l) && s.loops[l].phase == Running(Some(Day(date, false)))
  }

  /** `e` is later than `s`, with nothing marked or counted in between, and the loops outside `moved` where
      they were. */
  predicate Later(s: State, e: State, moved: set<nat>) {
    && s.now <= e.now && e.kv == s.kv && e.tally == s.tally && e.loops.Keys == s.loops.Keys
    && (forall l :: l in s.loops ==> e.loops[l].job == s.loops[l].job)
    && (forall l :: l in s.loops && l !in moved ==> e.loops[l] == s.loops[l])
  }

  function DateText(day: nat): string {
    Calendar.Format(Calendar.DateOf(day))
  }

  /** The instant of a local day is one that the loop will come to. */
  predicate Ahead(s: State, l: nat, day: nat) {
    Ready(s, l) && NextOf(s, l) <= FireTime(s.loops[l].job.spec, day)
  }

  lemma EntersOnTheDay(s: State, l: nat, day: nat)
    requires Ready(s, l) && NextOf(s, l) == FireTime(s.loops[l].job.spec, day)
    ensures Datable(s.loops[l].job, NextOf(s, l)) && InBody(Entered(s, l), l, DateText(day)) && Later(s, Entered(s, l), {l})
    ensures Entered(s, l).now == NextOf(s, l)
  {
    NextIsDatable(s, l);
    OnTheHourIsAFireTime(s.loops[l].job.spec, NextOf(s, l));
  }

  /** Short of that day there is another one first. */
  lemma AheadAgain(s: State, l: nat, day: nat)
    requires Ahead(s, l, day) && NextOf(s, l) < FireTime(s.loops[l].job.spec, day)
    ensures Ahead(Failed(s, l), l, day) && NextOf(Failed(s, l), l) == NextOf(s, l) + DAY
    ensures Later(s, Failed(s, l), {l}) && Failed(s, l).now == NextOf(s, l)
  {
    var spec := s.loops[l].job.spec;
    ReadyAgain(s, l);
    NextIsTheFirstFireTime(spec, s.loops[l].since);
    OnTheHourIsAFireTime(spec, FireTime(spec, day));
    Daily.TwoOnTheHour(spec, NextOf(s, l), FireTime(spec, day));
  }

  /** A loop gets into its body for any date ahead: it fires every day until then, in vain. */
  lemma {:induction false} OneComesToTheDay(jobs: seq<Job>, s0: State, s: State, l: nat, day: nat) returns (e: State)
    requires Reaches(jobs, s0, s) && s.kv == map[] && Ahead(s, l, day)
    ensures Reaches(jobs, s0, e) && Later(s, e, {l}) && InBody(e, l, DateText(day))
    decreases FireTime(s.loops[l].job.spec, day) - NextOf(s, l)
  {
    if NextOf(s, l) == FireTime(s.loops[l].job.spec, day) {
      EntersOnTheDay(s, l, day);
      FiresIntoItsBody(jobs, s0, s, l);
      e := Entered(s, l);
    } else {
      AheadAgain(s, l, day);
      FiresInVain(jobs, s0, s, l);
      e := OneComesToTheDay(jobs, s0, Failed(s, l), l, day);
    }
  }

  lemma StillAhead(s: State, e: State, moved: set<nat>, l: nat, day: nat)
    requires Later(s, e, moved) && Ahead(s, l, day) && l !in moved && e.now <= NextOf(s, l)
    ensures Ahead(e, l, day) && NextOf(e, l) == NextOf(s, l)
  {
  }

  /** Two loops both get into their bodies for one date, the one whose instant comes later while the other is
      still at it; until then each fires every day, in the order of their instants. */
  lemma {:induction false} BothComeToTheDay(jobs: seq<Job>, s0: State, s: State, a: nat, b: nat, day: nat)
    returns (e: State)
    requires Reaches(jobs, s0, s) && s.kv == map[] && a != b && Ahead(s, a, day) && Ahead(s, b, day)
    requires FireTime(s.loops[a].job.spec, day) <= FireTime(s.loops[b].job.spec, day)
    ensures Reaches(jobs, s0, e) && Later(s, e, {a, b}) && InBody(e, a, DateText(day)) && InBody(e, b, DateText(day))
    decreases FireTime(s.loops[a].job.spec, day) - NextOf(s, a) + FireTime(s.loops[b].job.spec, day) - NextOf(s, b)
  {
    if NextOf(s, b) < NextOf(s, a) {
      AheadAgain(s, b, day);
      FiresInVain(jobs, s0, s, b);
      StillAhead(s, Failed(s, b), {b}, a, day);
      e := BothComeToTheDay(jobs, s0, Failed(s, b), a, b, day);
    } else if NextOf(s, a) < FireTime(s.loops[a].job.spec, day) {
      AheadAgain(s, a, day);
      FiresInVain(jobs, s0, s, a);
      StillAhead(s, Failed(s, a), {a}, b, day);
      e := BothComeToTheDay(jobs, s0, Failed(s, a), a, b, day);
    } else {
      EntersOnTheDay(s, a, day);
      FiresIntoItsBody(jobs, s0, s, a);
      StillAhead(s, Entered(s, a), {a}, b, day);
      e := OneComesToTheDay(jobs, s0, Entered(s, a), b, day);
    }
  }

  // ---------------------------------------------------------------------------------------------
  // The guarantee and the names
  // ---------------------------------------------------------------------------------------------

  function Beginning(now: int): State {
    State(now, map[], [], 0, false, map[], 0, Tally(multiset{}, multiset{}, multiset{}, multiset{}))
  }

  function Zeros(n: nat): seq<nat> {
    seq(n, _ => 0)
  }

  /** All loops have been started at `now`, with the random part of every stagger zero. */
  predicate JustStarted(jobs: seq<Job>, s: State, now: int) {
    && s.now == now && s.kv == map[] && s.tally == Beginning(now).tally
    && forall l: nat :: l < |jobs| ==> At(s, l) && s.loops[l] == Loop(l, jobs[l], Waiting, now + Stagger(l, 0))
  }

  lemma FirstConnectStartsAll(jobs: seq<Job>, now: int)
    requires jobs != []
    ensures JustStarted(jobs, DoConnected(DoBoot(Beginning(now), jobs), Zeros(|jobs|)), now)
  {
    var s1 := DoBoot(Beginning(now), jobs);
    var s := DoConnected(s1, Zeros(|jobs|));
    forall l: nat | l < |jobs| ensures At(s, l) && s.loops[l] == Loop(l, jobs[l], Waiting, now + Stagger(l, 0)) {
      assert NewLoop(s1, Zeros(|jobs|), l) == Loop(l, jobs[l], Waiting, now + Stagger(l, 0));
    }
  }

  lemma ReachesByBooting(jobs: seq<Job>, s: State, e: State)
    requires Reaches(jobs, s, e)
    ensures Reaches(jobs, s, DoBoot(e, jobs))
  {
    ReachesOn(jobs, s, e, DoBoot(e, jobs), Boot(jobs));
  }

  lemma ReachesByConnecting(jobs: seq<Job>, s: State, e: State)
    requires Reaches(jobs, s, e)
    ensures Reaches(jobs, s, DoConnected(e, Zeros(|e.jobs|)))
  {
    ReachesOn(jobs, s, e, DoConnected(e, Zeros(|e.jobs|)), Connected(Zeros(|e.jobs|)));
  }

  /** A first process gets there at its first connect. */
  lemma ReachesTheStart(jobs: seq<Job>, now: int) returns (s: State)
    requires jobs != []
    ensures Reaches(jobs, Beginning(now), s) && JustStarted(jobs, s, now)
  {
    ReachesItself(jobs, Beginning(now));
    ReachesByBooting(jobs, Beginning(now), Beginning(now));
    ReachesByConnecting(jobs, Beginning(now), DoBoot(Beginning(now), jobs));
    FirstConnectStartsAll(jobs, now);
    s := DoConnected(DoBoot(Beginning(now), jobs), Zeros(|jobs|));
  }

  /** A day far enough on for both jobs to have dates from the start. */
  function FarDay(jobs: seq<Job>, a: nat, b: nat): nat
    requires a < |jobs| && b < |jobs| && jobs[a].spec.Daily? && jobs[b].spec.Daily?
  {
    var apart := jobs[a].spec.offset - jobs[b].spec.offset;
    (if apart < 0 then -apart else apart) + Stagger(a, 0) + Stagger(b, 0) + 1
  }

  /** A start early enough for neither loop's stagger to run past the earlier instant of that day. */
  function StartFor(jobs: seq<Job>, a: nat, b: nat): int
    requires a < |jobs| && b < |jobs| && jobs[a].spec.Daily? && jobs[b].spec.Daily?
  {
    FireTime(jobs[a].spec, FarDay(jobs, a, b)) - Stagger(a, 0) - Stagger(b, 0) - 1
  }

  lemma AheadFrom(s: State, l: nat, day: nat)
    requires At(s, l) && s.loops[l].phase.Waiting? && Sane(s.loops[l].job.spec) && s.now <= s.loops[l].since
    requires LocalDay(s.loops[l].job.spec, s.loops[l].since) >= 0
    requires s.loops[l].since < FireTime(s.loops[l].job.spec, day)
    ensures Ahead(s, l, day)
  {
    var spec := s.loops[l].job.spec;
    NextIsTheFirstFireTime(spec, s.loops[l].since);
    OnTheHourIsAFireTime(spec, FireTime(spec, day));
  }

  lemma StartsInTime(jobs: seq<Job>, a: nat, b: nat)
    requires a < |jobs| && b < |jobs| && Sane(jobs[a].spec) && Sane(jobs[b].spec)
    requires FireTime(jobs[a].spec, 0) <= FireTime(jobs[b].spec, 0)
    ensures var start, day := StartFor(jobs, a, b), FarDay(jobs, a, b);
      && FireTime(jobs[a].spec, day) <= FireTime(jobs[b].spec, day)
      && start + Stagger(a, 0) < FireTime(jobs[a].spec, day) && start + Stagger(b, 0) < FireTime(jobs[b].spec, day)
      && LocalDay(jobs[a].spec, start + Stagger(a, 0)) >= 0 && LocalDay(jobs[b].spec, start + Stagger(b, 0)) >= 0
  {
    assert FarDay(jobs, a, b) * DAY >= FarDay(jobs, a, b);
  }

  lemma BothAheadAtTheStart(jobs: seq<Job>, a: nat, b: nat, s: State)
    requires a < |jobs| && b < |jobs| && Sane(jobs[a].spec) && Sane(jobs[b].spec)
    requires FireTime(jobs[a].spec, 0) <= FireTime(jobs[b].spec, 0) && JustStarted(jobs, s, StartFor(jobs, a, b))
    ensures Ahead(s, a, FarDay(jobs, a, b)) && Ahead(s, b, FarDay(jobs, a, b))
  {
    StartsInTime(jobs, a, b);
    AheadFrom(s, a, FarDay(jobs, a, b));
    AheadFrom(s, b, FarDay(jobs, a, b));
  }

  lemma BothSucceed(s: State, a: nat, b: nat, key: string)
    requires At(s, a) && At(s, b) && a != b
    requires s.loops[a].phase.Running? && s.loops[a].phase.guard.Some? && CurrentKey(s.loops[a]) == key
    requires s.loops[b].phase.Running? && s.loops[b].phase.guard.Some? && CurrentKey(s.loops[b]) == key
    ensures var e := DoBodySucceeds(DoBodySucceeds(s, a), b);
      e.tally.succeeded[key] == s.tally.succeeded[key] + 2 && Losses(e, key) == Losses(s, key)
  {
  }

  /** With one name they share the marker, which neither has set when the other looks. */
  lemma SharedNameFails(jobs: seq<Job>, a: nat, b: nat)
    requires a < |jobs| && b < |jobs| && a != b && Sane(jobs[a].spec) && Sane(jobs[b].spec)
    requires FireTime(jobs[a].spec, 0) <= FireTime(jobs[b].spec, 0) && jobs[a].name == jobs[b].name
    ensures !OnceADay(jobs)
  {
    var start, day := StartFor(jobs, a, b), FarDay(jobs, a, b);
    var s := ReachesTheStart(jobs, start);
    BothAheadAtTheStart(jobs, a, b, s);
    StartsInTime(jobs, a, b);
    var m := BothComeToTheDay(jobs, Beginning(start), s, a, b, day);
    RunsTwice(jobs, Beginning(start), m, a, b, MarkerKey(jobs[a].name, DateText(day)));
    var steps :| BootsOnly(steps, jobs) && Prompt(Beginning(start), steps)
      && Run(Beginning(start), steps) == DoBodySucceeds(DoBodySucceeds(m, a), b);
    assert Initial(Beginning(start));
  }

  lemma RunsTwice(jobs: seq<Job>, s0: State, s: State, a: nat, b: nat, key: string)
    requires Reaches(jobs, s0, s) && a != b
    requires At(s, a) && s.loops[a].phase.Running? && s.loops[a].phase.guard.Some? && CurrentKey(s.loops[a]) == key
    requires At(s, b) && s.loops[b].phase.Running? && s.loops[b].phase.guard.Some? && CurrentKey(s.loops[b]) == key
    ensures var e := DoBodySucceeds(DoBodySucceeds(s, a), b);
      && Reaches(jobs, s0, e)
      && e.tally.succeeded[key] == s.tally.succeeded[key] + 2 && Losses(e, key) == Losses(s, key)
  {
    BothSucceed(s, a, b, key);
    ReachesByBody(jobs, s0, s, a);
    ReachesByBody(jobs, s0, DoBodySucceeds(s, a), b);
  }

  /** With every timer on time, the guarantee holds for a program exactly when no two of its daily jobs share
      a name; whatever the hours and zones. */
  lemma OnceADayIffNamesDiffer(jobs: seq<Job>)
    requires forall i :: 0 <= i < |jobs| && jobs[i].spec.Daily? ==> Sane(jobs[i].spec)
    ensures OnceADay(jobs) <==> DistinctNames(jobs)
  {
    if DistinctNames(jobs) {
      forall s: State, steps: seq<Step>, name: string, date: string |
        Initial(s) && BootsOnly(steps, jobs) && Prompt(s, steps)
        ensures Run(s, steps).tally.succeeded[MarkerKey(name, date)] <= 1 + Losses(Run(s, steps), MarkerKey(name, date))
      {
        SuccessesAreBounded(s, steps, name, date);
      }
    } else {
      var i, k :| 0 <= i < k < |jobs| && jobs[i].spec.Daily? && jobs[k].spec.Daily? && jobs[i].name == jobs[k].name;
      if FireTime(jobs[i].spec, 0) <= FireTime(jobs[k].spec, 0) {
        SharedNameFails(jobs, i, k);
      } else {
        SharedNameFails(jobs, k, i);
      }
    }
  }
}
