/**
 Daily jobs run once a day across restarts, as a count: for each marker key, successful bodies
 against the ways in which a marker can be missed.
 */
module OncePerDay {
  import opened Wrappers
  import opened Kv
  import opened Schedule
  import opened SharedKv
  import opened Bot
  import opened Jobs
  import Calendar
  import Daily

  /** No two daily jobs of a process share a name. */
  predicate DistinctNames(jobs: seq<Job>) {
    forall i, k :: 0 <= i < k < |jobs| && jobs[i].spec.Daily? && jobs[k].spec.Daily? ==> jobs[i].name != jobs[k].name
  }

  predicate BootsDistinct(steps: seq<Step>) {
    forall i :: 0 <= i < |steps| && steps[i].Boot? ==> DistinctNames(steps[i].jobs)
  }

  /** Reads of the marker that failed, writes of it that were lost, and crashes between a success and
      the write. */
  function Losses(s: State, key: string): nat {
    s.tally.blindReads[key] + s.tally.lostWrites[key] + s.tally.crashes[key]
  }

  /** The marker was set in the course of the run. */
  function Marked(t0: Table<string>, s: State, key: string): nat {
    if key in s.kv && key !in t0 then 1 else 0
  }

  function DayOf(phase: Phase): Option<Day> {
    match phase
    case Looking(date) => Some(Day(date, false))
    case Running(guard) => guard
    case Marking(today) => Some(today)
    case Waiting => None
  }

  /** A loop that knows the marker to be missing and has yet to set it. */
  predicate Unsettled(s: State, key: string) {
    exists l: nat :: l in s.loops && Unconfirmed(s.loops[l], key)
  }

  predicate Unconfirmed(l: Loop, key: string) {
    l.phase.Marking? && !l.phase.today.blind && Key(l, l.phase.today) == key
  }

  /** What the count for a loop's key may be, by the loop's phase. */
  predicate Within(phase: Phase, succeeded: nat, marked: nat, losses: nat, present: bool) {
    match phase
    case Running(Some(day)) => if day.blind then succeeded + 1 <= marked + losses else !present && succeeded <= losses
    case Marking(day) => if day.blind then succeeded <= marked + losses else !present && succeeded <= 1 + losses
    case _ => true
  }

  predicate LoopOk(t0: Table<string>, s: State, l: Loop) {
    var day := DayOf(l.phase);
    day.Some? ==>
      && l.job.spec.Daily?
      && Calendar.NoColon(day.value.date)
      && var key := Key(l, day.value);
        Within(l.phase, s.tally.succeeded[key], Marked(t0, s, key), Losses(s, key), key in s.kv)
  }

  predicate KeyOk(t0: Table<string>, s: State, key: string) {
    && (key in t0 ==> key in s.kv)
    && (Unsettled(s, key) || s.tally.succeeded[key] <= Marked(t0, s, key) + Losses(s, key))
  }

  ghost predicate Inv(t0: Table<string>, s: State) {
    && OneLoopEach(s) && DistinctNames(s.jobs)
    && (forall l :: At(s, l) ==> LoopOk(t0, s, s.loops[l]))
    && (forall key :: Owns(Markers, key) ==> KeyOk(t0, s, key))
  }

  // ---------------------------------------------------------------------------------------------
  // One loop per key
  // ---------------------------------------------------------------------------------------------

  /** `key` is a marker that the daily loop `l` could use. */
  ghost predicate KeyOf(s: State, l: nat, key: string) {
    At(s, l) && s.loops[l].job.spec.Daily? && exists date :: Calendar.NoColon(date) && key == MarkerKey(s.loops[l].job.name, date)
  }

  lemma OthersUseOtherKeys(t0: Table<string>, s: State, l: nat, m: nat, key: string)
    requires Inv(t0, s) && KeyOf(s, l, key) && At(s, m) && m != l
    ensures DayOf(s.loops[m].phase).Some? ==> Key(s.loops[m], DayOf(s.loops[m].phase).value) != key
    ensures !Unconfirmed(s.loops[m], key)
  {
    var a, b := s.loops[l], s.loops[m];
    var date :| Calendar.NoColon(date) && key == MarkerKey(a.job.name, date);
    assert LoopOk(t0, s, b);
    if DayOf(b.phase).Some? {
      assert a.index != b.index && a.job.name != b.job.name;
      MarkerKeyIsInjective(a.job.name, date, b.job.name, DayOf(b.phase).value.date);
    }
  }

  lemma OnlyItsLoopUnsettles(t0: Table<string>, s: State, l: nat, key: string)
    requires Inv(t0, s) && KeyOf(s, l, key)
    ensures Unsettled(s, key) <==> Unconfirmed(s.loops[l], key)
  {
    if m: nat :| m in s.loops && Unconfirmed(s.loops[m], key) && m != l {
      OthersUseOtherKeys(t0, s, l, m, key);
    }
  }

  predicate SameCount(s: State, s': State, key: string) {
    && s'.tally.succeeded[key] == s.tally.succeeded[key]
    && Losses(s', key) == Losses(s, key)
    && (key in s'.kv <==> key in s.kv)
  }

  /** The step moved loop `l` to a new phase and touched the counts of `key`, its key, alone. */
  ghost predicate MovesOne(s: State, s': State, l: nat, key: string) {
    && KeyOf(s, l, key) && At(s', l)
    && s'.loops == s.loops[l := s.loops[l].(phase := s'.loops[l].phase, since := s'.loops[l].since)]
    && s'.jobs == s.jobs
    && (forall k :: k != key ==> SameCount(s, s', k))
    && (DayOf(s.loops[l].phase).Some? ==> Key(s.loops[l], DayOf(s.loops[l].phase).value) == key)
    && (DayOf(s'.loops[l].phase).Some? ==> Key(s.loops[l], DayOf(s'.loops[l].phase).value) == key)
  }

  lemma LoopFrame(t0: Table<string>, s: State, s': State, l: Loop)
    requires LoopOk(t0, s, l)
    requires DayOf(l.phase).Some? ==> SameCount(s, s', Key(l, DayOf(l.phase).value))
    ensures LoopOk(t0, s', l)
  {
  }

  lemma KeyFrame(t0: Table<string>, s: State, s': State, key: string)
    requires KeyOk(t0, s, key) && SameCount(s, s', key) && (Unsettled(s, key) ==> Unsettled(s', key))
    ensures KeyOk(t0, s', key)
  {
  }

  lemma OtherKeysStayUnsettled(s: State, s': State, l: nat, key: string, k: string)
    requires MovesOne(s, s', l, key) && k != key && Unsettled(s, k)
    ensures Unsettled(s', k)
  {
    var m: nat :| m in s.loops && Unconfirmed(s.loops[m], k);
    assert m != l && s'.loops[m] == s.loops[m];
  }

  /** A step of one loop that meets the bounds for its own key keeps them all. */
  lemma MovingOneKeepsInv(t0: Table<string>, s: State, s': State, l: nat, key: string)
    requires Inv(t0, s) && MovesOne(s, s', l, key) && OneLoopEach(s')
    requires LoopOk(t0, s', s'.loops[l]) && KeyOk(t0, s', key)
    ensures Inv(t0, s')
  {
    forall m | At(s', m) && m != l ensures LoopOk(t0, s', s'.loops[m]) {
      assert At(s, m) && s'.loops[m] == s.loops[m];
      OthersUseOtherKeys(t0, s, l, m, key);
      LoopFrame(t0, s, s', s.loops[m]);
    }
    forall k | Owns(Markers, k) && k != key ensures KeyOk(t0, s', k) {
      if Unsettled(s, k) {
        OtherKeysStayUnsettled(s, s', l, key, k);
      }
      KeyFrame(t0, s, s', k);
    }
  }

  /** Without a key, before and after, there is nothing to count. */
  lemma KeylessKeepsInv(t0: Table<string>, s: State, l: nat, phase: Phase)
    requires Inv(t0, s) && At(s, l) && OneLoopEach(SetPhase(s, l, phase))
    requires DayOf(s.loops[l].phase).None? && DayOf(phase).None?
    ensures Inv(t0, SetPhase(s, l, phase))
  {
    var s' := SetPhase(s, l, phase);
    forall m | At(s', m) ensures LoopOk(t0, s', s'.loops[m]) {
      if m != l {
        LoopFrame(t0, s, s', s.loops[m]);
      }
    }
    forall k | Owns(Markers, k) ensures KeyOk(t0, s', k) {
      if m: nat :| m in s.loops && Unconfirmed(s.loops[m], k) {
        assert m != l && At(s', m) && s'.loops[m] == s.loops[m];
      }
      KeyFrame(t0, s, s', k);
    }
  }

  /** The key of a loop in the middle of a firing. */
  function CurrentKey(l: Loop): string
    requires DayOf(l.phase).Some?
  {
    Key(l, DayOf(l.phase).value)
  }

  lemma CurrentKeyIsIts(t0: Table<string>, s: State, l: nat)
    requires Inv(t0, s) && At(s, l) && DayOf(s.loops[l].phase).Some?
    ensures var key := CurrentKey(s.loops[l]);
      KeyOf(s, l, key) && Owns(Markers, key) && KeyOk(t0, s, key) && LoopOk(t0, s, s.loops[l])
      && (Unsettled(s, key) <==> Unconfirmed(s.loops[l], key))
  {
    var key := CurrentKey(s.loops[l]);
    assert LoopOk(t0, s, s.loops[l]);
    KeysAreOwned("", s.loops[l].job.name, DayOf(s.loops[l].phase).value.date);
    assert KeyOk(t0, s, key);
    assert KeyOf(s, l, key);
    OnlyItsLoopUnsettles(t0, s, l, key);
  }

  // ---------------------------------------------------------------------------------------------
  // The steps of a firing
  // ---------------------------------------------------------------------------------------------

  lemma FireKeepsInv(t0: Table<string>, s: State, l: nat)
    requires Inv(t0, s) && OneLoopEach(DoFire(s, l))
    ensures Inv(t0, DoFire(s, l))
  {
    if At(s, l) && s.loops[l].phase.Waiting? {
      var j := s.loops[l].job;
      if !j.spec.Daily? {
        KeylessKeepsInv(t0, s, l, Running(None));
      } else if Datable(j, s.now) {
        FireDailyKeepsInv(t0, s, l);
      }
    }
  }

  lemma FireDailyKeepsInv(t0: Table<string>, s: State, l: nat)
    requires Inv(t0, s) && At(s, l) && s.loops[l].phase.Waiting?
    requires s.loops[l].job.spec.Daily? && Datable(s.loops[l].job, s.now)
    requires OneLoopEach(DoFire(s, l))
    ensures Inv(t0, DoFire(s, l))
  {
    var j, s' := s.loops[l].job, DoFire(s, l);
    var date := DateKey(j.spec, s.now);
    var key := MarkerKey(j.name, date);
    Daily.DateKeyHasNoColon(j.spec, s.now);
    KeysAreOwned("", j.name, date);
    assert KeyOf(s, l, key);
    OnlyItsLoopUnsettles(t0, s, l, key);
    assert KeyOk(t0, s, key) && !Unsettled(s, key);
    assert MovesOne(s, s', l, key);
    MovingOneKeepsInv(t0, s, s', l, key);
  }

  lemma LookMoves(t0: Table<string>, s: State, l: nat, fault: Fault, key: string)
    requires At(s, l) && s.loops[l].phase.Looking? && key == CurrentKey(s.loops[l]) && KeyOf(s, l, key)
    requires LoopOk(t0, s, s.loops[l]) && KeyOk(t0, s, key) && !Unsettled(s, key)
    ensures var s' := DoLook(s, l, fault);
      MovesOne(s, s', l, key) && LoopOk(t0, s', s'.loops[l]) && KeyOk(t0, s', key)
  {
  }

  lemma LookKeepsInv(t0: Table<string>, s: State, l: nat, fault: Fault)
    requires Inv(t0, s) && OneLoopEach(DoLook(s, l, fault))
    ensures Inv(t0, DoLook(s, l, fault))
  {
    if At(s, l) && s.loops[l].phase.Looking? {
      CurrentKeyIsIts(t0, s, l);
      LookMoves(t0, s, l, fault, CurrentKey(s.loops[l]));
      MovingOneKeepsInv(t0, s, DoLook(s, l, fault), l, CurrentKey(s.loops[l]));
    }
  }

  lemma BodyFailsMoves(t0: Table<string>, s: State, l: nat, key: string)
    requires At(s, l) && s.loops[l].phase.Running? && s.loops[l].phase.guard.Some?
    requires key == CurrentKey(s.loops[l]) && KeyOf(s, l, key)
    requires LoopOk(t0, s, s.loops[l]) && KeyOk(t0, s, key) && !Unsettled(s, key)
    ensures var s' := DoBodyFails(s, l);
      MovesOne(s, s', l, key) && LoopOk(t0, s', s'.loops[l]) && KeyOk(t0, s', key)
  {
  }

  lemma BodyFailsKeepsInv(t0: Table<string>, s: State, l: nat)
    requires Inv(t0, s) && OneLoopEach(DoBodyFails(s, l))
    ensures Inv(t0, DoBodyFails(s, l))
  {
    if At(s, l) && s.loops[l].phase.Running? {
      if s.loops[l].phase.guard.Some? {
        CurrentKeyIsIts(t0, s, l);
        BodyFailsMoves(t0, s, l, CurrentKey(s.loops[l]));
        MovingOneKeepsInv(t0, s, DoBodyFails(s, l), l, CurrentKey(s.loops[l]));
      } else {
        KeylessKeepsInv(t0, s, l, Waiting);
      }
    }
  }

  lemma BodySucceedsMoves(t0: Table<string>, s: State, l: nat, key: string)
    requires At(s, l) && s.loops[l].phase.Running? && s.loops[l].phase.guard.Some?
    requires key == CurrentKey(s.loops[l]) && KeyOf(s, l, key)
    requires LoopOk(t0, s, s.loops[l]) && KeyOk(t0, s, key)
    ensures var s' := DoBodySucceeds(s, l);
      MovesOne(s, s', l, key) && LoopOk(t0, s', s'.loops[l]) && KeyOk(t0, s', key)
  {
  }

  lemma BodySucceedsKeepsInv(t0: Table<string>, s: State, l: nat)
    requires Inv(t0, s) && OneLoopEach(DoBodySucceeds(s, l))
    ensures Inv(t0, DoBodySucceeds(s, l))
  {
    if At(s, l) && s.loops[l].phase.Running? {
      if s.loops[l].phase.guard.Some? {
        CurrentKeyIsIts(t0, s, l);
        BodySucceedsMoves(t0, s, l, CurrentKey(s.loops[l]));
        MovingOneKeepsInv(t0, s, DoBodySucceeds(s, l), l, CurrentKey(s.loops[l]));
      } else {
        KeylessKeepsInv(t0, s, l, Waiting);
      }
    }
  }

  lemma MarkMoves(t0: Table<string>, s: State, l: nat, fault: Fault, key: string)
    requires At(s, l) && s.loops[l].phase.Marking? && key == CurrentKey(s.loops[l]) && KeyOf(s, l, key)
    requires LoopOk(t0, s, s.loops[l]) && KeyOk(t0, s, key)
    requires Unsettled(s, key) <==> Unconfirmed(s.loops[l], key)
    ensures var s' := DoMark(s, l, fault);
      MovesOne(s, s', l, key) && LoopOk(t0, s', s'.loops[l]) && KeyOk(t0, s', key)
  {
  }

  lemma MarkKeepsInv(t0: Table<string>, s: State, l: nat, fault: Fault)
    requires Inv(t0, s) && OneLoopEach(DoMark(s, l, fault))
    ensures Inv(t0, DoMark(s, l, fault))
  {
    if At(s, l) && s.loops[l].phase.Marking? {
      CurrentKeyIsIts(t0, s, l);
      MarkMoves(t0, s, l, fault, CurrentKey(s.loops[l]));
      MovingOneKeepsInv(t0, s, DoMark(s, l, fault), l, CurrentKey(s.loops[l]));
    }
  }

  // ---------------------------------------------------------------------------------------------
  // The other steps
  // ---------------------------------------------------------------------------------------------

  /** A crash is charged to the keys of the loops it caught before their marker. */
  lemma CrashKeepsInv(t0: Table<string>, s: State)
    requires Inv(t0, s)
    ensures Inv(t0, DoCrash(s))
  {
    forall key | Owns(Markers, key) ensures KeyOk(t0, DoCrash(s), key) {
      assert KeyOk(t0, s, key);
      if l: nat :| l in s.loops && Unconfirmed(s.loops[l], key) {
        assert key in Unmarked(s);
        assert LoopOk(t0, s, s.loops[l]);
      }
    }
  }

  lemma BootKeepsInv(t0: Table<string>, s: State, jobs: seq<Job>)
    requires Inv(t0, s) && DistinctNames(jobs)
    ensures Inv(t0, DoBoot(s, jobs))
  {
    var s', s'' := DoCrash(s), DoBoot(s, jobs);
    CrashKeepsInv(t0, s);
    NobodyUnsettles(s');
    forall key | Owns(Markers, key) ensures KeyOk(t0, s'', key) {
      KeyFrame(t0, s', s'', key);
    }
  }

  lemma NobodyUnsettles(s: State)
    requires forall l :: l in s.loops ==> s.loops[l].phase.Waiting?
    ensures forall key :: !Unsettled(s, key)
  {
  }

  lemma ConnectedKeepsInv(t0: Table<string>, s: State, draws: seq<nat>)
    requires Inv(t0, s) && OneLoopEach(DoConnected(s, draws))
    ensures Inv(t0, DoConnected(s, draws))
  {
    var s' := DoConnected(s, draws);
    if |s.jobs| > 0 && !s.started {
      assert s'.loops == Launched(s, draws);
      forall l | At(s', l) ensures s'.loops[l].phase.Waiting? {
        assert s'.loops[l] == NewLoop(s, draws, l);
      }
      NobodyUnsettles(s);
      NobodyUnsettles(s');
      forall key | Owns(Markers, key) ensures KeyOk(t0, s', key) {
        KeyFrame(t0, s, s', key);
      }
    } else {
      SameLoopsKeepsInv(t0, s, s');
    }
  }

  /** Time, connections and the login subsystem leave markers and counts as they are. */
  lemma SameLoopsKeepsInv(t0: Table<string>, s: State, s': State)
    requires Inv(t0, s) && OneLoopEach(s')
    requires s'.loops == s.loops && s'.jobs == s.jobs && s'.tally == s.tally
    requires forall key :: Owns(Markers, key) ==> (key in s'.kv <==> key in s.kv)
    ensures Inv(t0, s')
  {
    forall l | At(s', l) ensures LoopOk(t0, s', s'.loops[l]) {
      assert LoopOk(t0, s, s.loops[l]);
      if DayOf(s.loops[l].phase).Some? {
        KeysAreOwned("", s.loops[l].job.name, DayOf(s.loops[l].phase).value.date);
      }
      LoopFrame(t0, s, s', s.loops[l]);
    }
    forall key | Owns(Markers, key) ensures KeyOk(t0, s', key) {
      KeyFrame(t0, s, s', key);
    }
  }

  lemma LoginKeepsInv(t0: Table<string>, s: State, op: Op)
    requires Inv(t0, s) && OneLoopEach(DoLogin(s, op))
    ensures Inv(t0, DoLogin(s, op))
  {
    var s' := DoLogin(s, op);
    if UserOf(op) == Links {
      OthersShareIsKept(s.kv, op, Markers);
      forall key | Owns(Markers, key) ensures key in s'.kv <==> key in s.kv {
        assert key in s'.kv <==> key in Share(Markers, s'.kv);
        assert key in s.kv <==> key in Share(Markers, s.kv);
      }
      SameLoopsKeepsInv(t0, s, s');
    }
  }

  lemma EndLoopKeepsInv(t0: Table<string>, s: State, l: nat)
    requires Inv(t0, s) && OneLoopEach(DoEndLoop(s, l))
    ensures Inv(t0, DoEndLoop(s, l))
  {
    var s' := DoEndLoop(s, l);
    if At(s, l) && s.loops[l].phase.Waiting? {
      forall m | At(s', m) ensures LoopOk(t0, s', s'.loops[m]) {
        LoopFrame(t0, s, s', s.loops[m]);
      }
      forall key | Owns(Markers, key) ensures KeyOk(t0, s', key) {
        if m: nat :| m in s.loops && Unconfirmed(s.loops[m], key) {
          assert m in s'.loops && s'.loops[m] == s.loops[m];
        }
        KeyFrame(t0, s, s', key);
      }
    }
  }

  lemma StepKeepsInv(t0: Table<string>, s: State, step: Step)
    requires Inv(t0, s) && (step.Boot? ==> DistinctNames(step.jobs))
    ensures Inv(t0, Jobs.Apply(s, step))
  {
    StepKeepsOneLoopEach(s, step);
    match step
    case Boot(jobs) => BootKeepsInv(t0, s, jobs);
    case Crash => CrashKeepsInv(t0, s);
    case Connected(draws) => ConnectedKeepsInv(t0, s, draws);
    case Disconnected =>
    case Tick(_) => SameLoopsKeepsInv(t0, s, Jobs.Apply(s, step));
    case EndLoop(l) => EndLoopKeepsInv(t0, s, l);
    case Fire(l) => FireKeepsInv(t0, s, l);
    case Look(l, fault) => LookKeepsInv(t0, s, l, fault);
    case BodyFails(l) => BodyFailsKeepsInv(t0, s, l);
    case BodySucceeds(l) => BodySucceedsKeepsInv(t0, s, l);
    case Mark(l, fault) => MarkKeepsInv(t0, s, l, fault);
    case Login(op) => LoginKeepsInv(t0, s, op);
  }

  lemma {:induction false} RunKeepsInv(s: State, steps: seq<Step>)
    requires Initial(s) && BootsDistinct(steps)
    ensures Inv(s.kv, Run(s, steps))
  {
    if steps != [] {
      var n := |steps| - 1;
      assert forall i :: 0 <= i < n ==> steps[..n][i] == steps[i];
      RunKeepsInv(s, steps[..n]);
      StepKeepsInv(s.kv, Run(s, steps[..n]), steps[n]);
    }
  }

  /** Once a day across restarts: for every job name and date, over any number of process lives, the
      body succeeds at most once, plus once for every failed marker read, lost marker write and crash
      between success and marker; and not even once if the table already held the marker. */
  lemma SuccessesAreBounded(s: State, steps: seq<Step>, name: string, date: string)
    requires Initial(s) && BootsDistinct(steps)
    ensures var key := MarkerKey(name, date);
      Run(s, steps).tally.succeeded[key] <= (if key in s.kv then 0 else 1) + Losses(Run(s, steps), key)
  {
    var key, e := MarkerKey(name, date), Run(s, steps);
    RunKeepsInv(s, steps);
    KeysAreOwned("", name, date);
    assert KeyOk(s.kv, e, key);
    if l: nat :| l in e.loops && Unconfirmed(e.loops[l], key) {
      assert LoopOk(s.kv, e, e.loops[l]);
    }
  }
}
