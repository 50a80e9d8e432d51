/**
 Timed jobs over many process lives (bot/bot.go, bot/schedule.go). Processes come and go over one
 table; in each, job loops start on the first connect and take their steps in any interleaving with
 each other, with crashes, and with the login subsystem's statements on the same table. A loop may
 fire at any moment, so bounds proved over all runs hold for every timing; where a run is exhibited,
 the loops in it fire when their waits are over (`SharedNames.Prompt`).
 */
module Jobs {
  import opened Wrappers
  import opened Time
  import opened Kv
  import opened Schedule
  import opened SharedKv
  import opened Bot

  /** Where a loop stands. `day` is the date its firing read, and `blind` that it could not read the
      marker. Only a firing with a marker passes through Looking and Marking. */
  datatype Phase =
    | Waiting
    | Looking(day: string)
    | Running(guard: Option<Day>)
    | Marking(today: Day)

  datatype Day = Day(date: string, blind: bool)

  /** `index` is the registration the loop was started for, and `since` when it last began to wait, which is
      at the end of its stagger or of a firing. */
  datatype Loop = Loop(index: nat, job: Job, phase: Phase, since: int)

  /** What happened so far to the firings of each marker key: bodies that succeeded, and the three ways
      in which the marker can fail its purpose. */
  datatype Tally = Tally(
    succeeded: multiset<string>, blindReads: multiset<string>, lostWrites: multiset<string>, crashes: multiset<string>)

  datatype State = State(
    now: int, kv: Table<string>,
    jobs: seq<Job>, connects: nat, started: bool, loops: map<nat, Loop>, next: nat,
    tally: Tally)

  datatype Step =
    | Boot(jobs: seq<Job>)
    | Crash
    | Connected(draws: seq<nat>)
    | Disconnected
    | Tick(elapsed: nat)
    | EndLoop(loop: nat)
    | Fire(loop: nat)
    | Look(loop: nat, fault: Fault)
    | BodyFails(loop: nat)
    | BodySucceeds(loop: nat)
    | Mark(loop: nat, fault: Fault)
    | Login(op: Op)

  /** The first process has not booted yet; the table is as earlier processes left it. */
  predicate Initial(s: State) {
    && s.jobs == [] && s.connects == 0 && !s.started && s.loops == map[]
    && s.tally == Tally(multiset{}, multiset{}, multiset{}, multiset{})
  }

  predicate At(s: State, l: nat) {
    l in s.loops
  }

  function SetPhase(s: State, l: nat, phase: Phase): State
    requires At(s, l)
  {
    s.(loops := s.loops[l := s.loops[l].(phase := phase, since := if phase.Waiting? then s.now else s.loops[l].since)])
  }

  function Key(l: Loop, day: Day): string {
    MarkerKey(l.job.name, day.date)
  }

  /** The marker keys of loops whose body succeeded and whose marker is not written yet. */
  function Unmarked(s: State): set<string> {
    set l | l in s.loops && s.loops[l].phase.Marking? :: Key(s.loops[l], s.loops[l].phase.today)
  }

  /** The process is gone: loops die wherever they stand. */
  function DoCrash(s: State): State {
    s.(jobs := [], connects := 0, started := false, loops := map[],
       tally := s.tally.(crashes := s.tally.crashes + multiset(Unmarked(s))))
  }

  /** Registration, then Run: the table is open whenever a job is registered. */
  function DoBoot(s: State, jobs: seq<Job>): State {
    DoCrash(s).(jobs := jobs)
  }

  function Draw(draws: seq<nat>, i: nat): nat {
    if i < |draws| then draws[i] else 0
  }

  /** Loop `l` of those started in state `s`, one per registration and numbered on from `s.next`. */
  function NewLoop(s: State, draws: seq<nat>, l: nat): Loop
    requires s.next <= l < s.next + |s.jobs|
  {
    var i := l - s.next;
    Loop(i, s.jobs[i], Waiting, s.now + Stagger(i, Draw(draws, i)))
  }

  function Launched(s: State, draws: seq<nat>): map<nat, Loop> {
    map l: nat | s.next <= l < s.next + |s.jobs| :: NewLoop(s, draws, l)
  }

  function DoConnected(s: State, draws: seq<nat>): State {
    var s' := s.(connects := s.connects + 1);
    if |s.jobs| > 0 && !s.started
    then s'.(started := true, loops := s.loops + Launched(s, draws), next := s.next + |s.jobs|)
    else s'
  }

  function DoFire(s: State, l: nat): State {
    if !At(s, l) || !s.loops[l].phase.Waiting? then s
    else
      var j := s.loops[l].job;
      if !j.spec.Daily? then SetPhase(s, l, Running(None))
      else if !Datable(j, s.now) then s
      else SetPhase(s, l, Looking(DateKey(j.spec, s.now)))
  }

  /** A failed read counts as no marker. */
  function DoLook(s: State, l: nat, fault: Fault): State {
    if !At(s, l) || !s.loops[l].phase.Looking? then s
    else
      var day := Day(s.loops[l].phase.day, fault != NoFault);
      var key := Key(s.loops[l], day);
      if fault != NoFault then
        SetPhase(s, l, Running(Some(day))).(tally := s.tally.(blindReads := s.tally.blindReads + multiset{key}))
      else if key in s.kv then SetPhase(s, l, Waiting)
      else SetPhase(s, l, Running(Some(day)))
  }

  function DoBodyFails(s: State, l: nat): State {
    if !At(s, l) || !s.loops[l].phase.Running? then s else SetPhase(s, l, Waiting)
  }

  function DoBodySucceeds(s: State, l: nat): State {
    if !At(s, l) || !s.loops[l].phase.Running? then s
    else if s.loops[l].phase.guard.None? then SetPhase(s, l, Waiting)
    else
      var day := s.loops[l].phase.guard.value;
      SetPhase(s, l, Marking(day))
        .(tally := s.tally.(succeeded := s.tally.succeeded + multiset{Key(s.loops[l], day)}))
  }

  function DoMark(s: State, l: nat, fault: Fault): State {
    if !At(s, l) || !s.loops[l].phase.Marking? then s
    else
      var key := Key(s.loops[l], s.loops[l].phase.today);
      if fault == FailedBefore then
        SetPhase(s, l, Waiting).(tally := s.tally.(lostWrites := s.tally.lostWrites + multiset{key}))
      else
        SetPhase(s, l, Waiting).(kv := Put(s.kv, key, "1", Unix(s.now)))
  }

  function DoEndLoop(s: State, l: nat): State {
    if !At(s, l) || !s.loops[l].phase.Waiting? then s else s.(loops := s.loops - {l})
  }

  function DoLogin(s: State, op: Op): State {
    if UserOf(op) == Links then s.(kv := SharedKv.Apply(s.kv, op)) else s
  }

  function Apply(s: State, step: Step): State {
    match step
    case Boot(jobs) => DoBoot(s, jobs)
    case Crash => DoCrash(s)
    case Connected(draws) => DoConnected(s, draws)
    case Disconnected => s
    case Tick(elapsed) => s.(now := s.now + elapsed)
    case EndLoop(l) => DoEndLoop(s, l)
    case Fire(l) => DoFire(s, l)
    case Look(l, fault) => DoLook(s, l, fault)
    case BodyFails(l) => DoBodyFails(s, l)
    case BodySucceeds(l) => DoBodySucceeds(s, l)
    case Mark(l, fault) => DoMark(s, l, fault)
    case Login(op) => DoLogin(s, op)
  }

  function Run(s: State, steps: seq<Step>): State {
    if steps == [] then s else Apply(Run(s, steps[..|steps| - 1]), steps[|steps| - 1])
  }

  // ---------------------------------------------------------------------------------------------
  // One loop per registration, none before the first connect
  // ---------------------------------------------------------------------------------------------

  predicate OneLoopEach(s: State) {
    && (forall l :: l in s.loops ==>
          l < s.next && s.loops[l].index < |s.jobs| && s.loops[l].job == s.jobs[s.loops[l].index])
    && (forall l, m :: l in s.loops && m in s.loops && s.loops[l].index == s.loops[m].index ==> l == m)
    && (s.loops != map[] ==> s.started)
    && (s.started ==> s.connects > 0)
  }

  /** The step changed at most the phases of loops and how long they have waited. */
  predicate OnlyPhases(s: State, s': State) {
    && s'.jobs == s.jobs && s'.connects == s.connects && s'.started == s.started && s'.next == s.next
    && s'.loops.Keys == s.loops.Keys
    && (forall l :: l in s.loops ==> s'.loops[l].index == s.loops[l].index && s'.loops[l].job == s.loops[l].job)
  }

  lemma OnlyPhasesKeepsOneLoopEach(s: State, s': State)
    requires OneLoopEach(s) && OnlyPhases(s, s')
    ensures OneLoopEach(s')
  {
  }

  lemma NewPhaseOnly(s: State, s': State, l: nat, phase: Phase, since: int)
    requires At(s, l) && s'.loops == s.loops[l := s.loops[l].(phase := phase, since := since)]
    requires s'.jobs == s.jobs && s'.connects == s.connects && s'.started == s.started && s'.next == s.next
    ensures OnlyPhases(s, s')
  {
  }

  lemma FiringChangesOnlyPhases(s: State, step: Step)
    requires step.Fire? || step.Look? || step.BodyFails? || step.BodySucceeds? || step.Mark?
    ensures OnlyPhases(s, Apply(s, step))
  {
    var l := step.loop;
    if At(s, l) {
      var s' := Apply(s, step);
      if s'.loops != s.loops {
        NewPhaseOnly(s, s', l, s'.loops[l].phase, s'.loops[l].since);
      }
    }
  }

  lemma ConnectedKeepsOneLoopEach(s: State, draws: seq<nat>)
    requires OneLoopEach(s)
    ensures OneLoopEach(DoConnected(s, draws))
  {
    if |s.jobs| > 0 && !s.started {
      var s' := DoConnected(s, draws);
      assert s'.loops == Launched(s, draws);
      assert forall l :: l in s'.loops ==> s'.loops[l] == NewLoop(s, draws, l);
    } else {
      assert DoConnected(s, draws) == s.(connects := s.connects + 1);
    }
  }

  lemma StepKeepsOneLoopEach(s: State, step: Step)
    requires OneLoopEach(s)
    ensures OneLoopEach(Apply(s, step))
  {
    if step.Fire? || step.Look? || step.BodyFails? || step.BodySucceeds? || step.Mark? {
      FiringChangesOnlyPhases(s, step);
      OnlyPhasesKeepsOneLoopEach(s, Apply(s, step));
    } else if step.Connected? {
      ConnectedKeepsOneLoopEach(s, step.draws);
    } else if step.EndLoop? {
      assert DoEndLoop(s, step.loop).loops.Keys <= s.loops.Keys;
    }
  }

  lemma {:induction false} RunKeepsOneLoopEach(s: State, steps: seq<Step>)
    requires Initial(s)
    ensures OneLoopEach(Run(s, steps))
  {
    if steps != [] {
      RunKeepsOneLoopEach(s, steps[..|steps| - 1]);
      StepKeepsOneLoopEach(Run(s, steps[..|steps| - 1]), steps[|steps| - 1]);
    }
  }

  predicate Busy(s: State, l: nat) {
    At(s, l) && !s.loops[l].phase.Waiting?
  }

  /** Under any connects, disconnects and reconnects: nothing runs before the first connect, a
      registration has at most one loop, and no two of its firings overlap. */
  lemma JobsAreSafe(s: State, steps: seq<Step>, l: nat, m: nat)
    requires Initial(s)
    ensures var e := Run(s, steps);
      && (e.connects == 0 ==> e.loops == map[])
      && |e.loops| <= |e.jobs|
      && (Busy(e, l) && Busy(e, m) && e.loops[l].index == e.loops[m].index ==> l == m)
  {
    RunKeepsOneLoopEach(s, steps);
    var e := Run(s, steps);
    LoopsAreFew(e.loops, |e.jobs|);
  }

  lemma {:induction false} LoopsAreFew(loops: map<nat, Loop>, n: nat)
    requires forall l :: l in loops ==> loops[l].index < n
    requires forall l, m :: l in loops && m in loops && loops[l].index == loops[m].index ==> l == m
    ensures |loops| <= n
    decreases n
  {
    if n > 0 {
      if l :| l in loops && loops[l].index == n - 1 {
        LoopsAreFew(loops - {l}, n - 1);
        assert loops.Keys == (loops - {l}).Keys + {l};
      } else {
        LoopsAreFew(loops, n - 1);
      }
    } else {
      assert loops.Keys == {};
    }
  }

  // ---------------------------------------------------------------------------------------------
  // One firing alone
  // ---------------------------------------------------------------------------------------------

  /** The steps of a guarded firing, up to the body. */
  function Looked(s: State, l: nat, f: Firing): State {
    DoLook(DoFire(s, l), l, f.readFault)
  }

  function Finished(s: State, l: nat, f: Firing): State {
    if f.succeeds then DoMark(DoBodySucceeds(Looked(s, l, f), l), l, f.writeFault) else DoBodyFails(Looked(s, l, f), l)
  }

  lemma LookedMeetsItsSpec(s: State, l: nat, f: Firing)
    requires At(s, l) && s.loops[l].phase.Waiting? && s.loops[l].job.spec.Daily? && Datable(s.loops[l].job, s.now)
    requires f.at == s.now
    ensures var e, j := Looked(s, l, f), s.loops[l].job;
      && e.kv == s.kv && e.now == s.now && At(e, l) && e.loops[l].job == j
      && e.tally == s.tally.(
           blindReads := s.tally.blindReads + if f.readFault != NoFault then multiset{DayKey(j, f.at)} else multiset{})
      && if f.readFault == NoFault && DayKey(j, f.at) in s.kv then e.loops[l].phase == Waiting && e.loops[l].since == s.now
         else e.loops[l].phase == Running(Some(Day(DateKey(j.spec, f.at), f.readFault != NoFault)))
  {
    var s' := DoFire(s, l);
    assert s'.loops[l] == s.loops[l].(phase := Looking(DateKey(s.loops[l].job.spec, f.at)));
    if f.readFault != NoFault {
    } else if DayKey(s.loops[l].job, f.at) in s.kv {
    } else {
    }
  }

  /** What a firing adds to the tally. */
  function Tallied(t: Tally, key: string, outcome: Fired, f: Firing): Tally {
    Tally(
      t.succeeded + (if outcome == Ran then multiset{key} else multiset{}),
      t.blindReads + (if f.readFault != NoFault then multiset{key} else multiset{}),
      t.lostWrites + (if outcome == Ran && f.writeFault == FailedBefore then multiset{key} else multiset{}),
      t.crashes)
  }

  /** Undisturbed, the steps of a firing come to what the sequential FireJob does, and are counted once. */
  lemma FiringAloneMeetsItsSpec(s: State, l: nat, f: Firing)
    requires At(s, l) && s.loops[l].phase.Waiting? && s.loops[l].job.spec.Daily? && Datable(s.loops[l].job, s.now)
    requires f.at == s.now && f.second == Unix(s.now)
    ensures var e, j := Finished(s, l, f), s.loops[l].job;
      && e.kv == TableAfter(true, s.kv, j, f)
      && At(e, l) && e.loops[l].phase == Waiting && e.loops[l].since == s.now
      && e.tally == Tallied(s.tally, DayKey(j, f.at), Outcome(true, s.kv, j, f), f)
  {
    LookedMeetsItsSpec(s, l, f);
    var m, j := Looked(s, l, f), s.loops[l].job;
    if m.loops[l].phase.Waiting? {
      assert Outcome(true, s.kv, j, f) == AlreadyFired && Finished(s, l, f) == m;
    } else if f.succeeds {
      SucceedsAndMarks(m, l, f.writeFault);
    } else {
      assert Finished(s, l, f) == SetPhase(m, l, Waiting);
    }
  }

  lemma SucceedsAndMarks(m: State, l: nat, fault: Fault)
    requires At(m, l) && m.loops[l].phase.Running? && m.loops[l].phase.guard.Some?
    ensures var e, key := DoMark(DoBodySucceeds(m, l), l, fault), Key(m.loops[l], m.loops[l].phase.guard.value);
      && At(e, l) && e.loops[l] == m.loops[l].(phase := Waiting, since := m.now)
      && e.kv == (if fault == FailedBefore then m.kv else Put(m.kv, key, "1", Unix(m.now)))
      && e.tally == m.tally.(
           succeeded := m.tally.succeeded + multiset{key},
           lostWrites := m.tally.lostWrites + if fault == FailedBefore then multiset{key} else multiset{})
  {
    var m' := DoBodySucceeds(m, l);
    assert m'.loops[l] == m.loops[l].(phase := Marking(m.loops[l].phase.guard.value)) && m'.kv == m.kv && m'.now == m.now;
  }

  /** A firing of an interval job goes straight to its body, whatever the table holds, and back to waiting;
      nothing is marked or counted. */
  lemma IntervalFiringMeetsItsSpec(s: State, l: nat, f: Firing)
    requires At(s, l) && s.loops[l].phase.Waiting? && !s.loops[l].job.spec.Daily? && f.at == s.now
    ensures var m := DoFire(s, l);
      var e := if f.succeeds then DoBodySucceeds(m, l) else DoBodyFails(m, l);
      && At(m, l) && m.loops[l].phase == Running(None)
      && At(e, l) && e.loops[l].phase == Waiting && e.loops[l].since == s.now && e.loops[l].job == s.loops[l].job
      && e.kv == TableAfter(false, s.kv, s.loops[l].job, f) == s.kv && e.tally == s.tally
      && Outcome(false, s.kv, s.loops[l].job, f) == if f.succeeds then Ran else Failed
  {
    var m := DoFire(s, l);
    assert m.loops[l] == s.loops[l].(phase := Running(None)) && m.kv == s.kv;
  }

  /** The first connect starts exactly one loop for every registration, to wait from the end of its stagger,
      and no later connect of that process changes the loops. */
  lemma FirstConnectStartsEveryJob(s: State, draws: seq<nat>)
    requires OneLoopEach(s) && s.jobs != []
    ensures s.started ==> DoConnected(s, draws).loops == s.loops
    ensures !s.started ==>
      forall l :: l in DoConnected(s, draws).loops <==> s.next <= l < s.next + |s.jobs|
    ensures !s.started ==>
      forall l: nat :: l in DoConnected(s, draws).loops ==>
        var i := l - s.next;
        DoConnected(s, draws).loops[l] == Loop(i, s.jobs[i], Waiting, s.now + Stagger(i, Draw(draws, i)))
    ensures DoConnected(s, draws).started
  {
    if !s.started {
      assert DoConnected(s, draws).loops == Launched(s, draws);
    }
  }

  /** A crash is charged once to each marker that a loop was about to set, and to nothing else. */
  lemma CrashIsCharged(s: State, key: string)
    ensures DoCrash(s).tally.crashes[key] == s.tally.crashes[key]
      + if exists l: nat :: l in s.loops && s.loops[l].phase.Marking? && Key(s.loops[l], s.loops[l].phase.today) == key
        then 1 else 0
    ensures DoCrash(s).kv == s.kv && DoCrash(s).loops == map[]
  {
    assert multiset(Unmarked(s))[key] == if key in Unmarked(s) then 1 else 0;
  }
}
