/**
 Timed jobs within one process (bot/schedule.go): registering them, starting their loops, one firing,
 and the loop of one job.
 */
module Bot {
  import opened Wrappers
  import opened Time
  import opened Kv
  import opened Schedule
  import opened SharedKv

  datatype Job = Job(name: string, spec: Spec)

  /** The delay of the `i`th loop; `draw` is a random number of milliseconds below 5000. */
  function Stagger(i: nat, draw: nat): nat {
    i * (5 * SECOND) + draw * (SECOND / 1000)
  }

  /** A loop to be started, with its delay. */
  datatype Launch = Launch(job: Job, stagger: int)

  /** What one firing meets: when it reads the clock, how its reading of the marker goes, whether the
      body succeeds, and how and in which second the marker is written. */
  datatype Firing = Firing(at: int, readFault: Fault, succeeds: bool, second: int, writeFault: Fault)

  datatype Fired = AlreadyFired | Failed | Ran

  /** The marker's key exists for local days from 1 January 1970 on. */
  predicate Datable(j: Job, at: int) {
    j.spec.Daily? ==> LocalDay(j.spec, at) >= 0
  }

  function DayKey(j: Job, at: int): string
    requires j.spec.Daily? && Datable(j, at)
  {
    MarkerKey(j.name, DateKey(j.spec, at))
  }

  /** What a firing comes to over a table; a job that is not daily, or has no table, has no guard. */
  function Outcome(guarded: bool, t: Table<string>, j: Job, f: Firing): Fired
    requires guarded ==> j.spec.Daily? && Datable(j, f.at)
  {
    if guarded && f.readFault == NoFault && DayKey(j, f.at) in t then AlreadyFired
    else if f.succeeds then Ran
    else Failed
  }

  function TableAfter(guarded: bool, t: Table<string>, j: Job, f: Firing): Table<string>
    requires guarded ==> j.spec.Daily? && Datable(j, f.at)
  {
    if guarded && Outcome(guarded, t, j, f) == Ran && f.writeFault != FailedBefore
    then Put(t, DayKey(j, f.at), "1", f.second)
    else t
  }

  /** One turn of a job's loop: the clock read that the wait is computed from, the random draw of a
      jittered interval, the firing, and when the firing was over. */
  datatype Tick = Tick(readAt: int, draw: int, firing: Firing, endedAt: int)

  /** The instant a tick waits for. */
  function Target(j: Job, tick: Tick): int {
    tick.readAt + UntilNext(j.spec, tick.readAt, tick.draw)
  }

  /** Timers never fire early, a firing ends after it begins, and the next wait is computed after that:
      the loop is sequential. */
  predicate Paced(j: Job, ticks: seq<Tick>) {
    && (forall k :: 0 <= k < |ticks| ==> Target(j, ticks[k]) <= ticks[k].firing.at <= ticks[k].endedAt)
    && (forall k :: 0 <= k < |ticks| - 1 ==> ticks[k].endedAt <= ticks[k + 1].readAt)
  }

  /** What a turn meets: how long after the last one it reads the clock, its random draw, how late its timer
      fires, how long the body takes, and how the firing goes. */
  datatype Turn = Turn(
    gap: nat, draw: int, late: nat, readFault: Fault, succeeds: bool, lasts: nat, writeFault: Fault)

  /** The tick that comes of a turn begun at `now`. */
  function TickOf(j: Job, now: int, turn: Turn): Tick {
    var readAt := now + turn.gap;
    var at := readAt + UntilNext(j.spec, readAt, turn.draw) + turn.late;
    Tick(readAt, turn.draw, Firing(at, turn.readFault, turn.succeeds, Unix(at + turn.lasts), turn.writeFault), at + turn.lasts)
  }

  /** Waits are never negative, for any interval and for any daily job on an hour of the clock. */
  lemma WaitsAreForward(s: Spec, now: int, draw: int)
    requires s.Daily? ==> Sane(s)
    ensures UntilNext(s, now, draw) >= 0
  {
    if s.Daily? {
      NextIsTheFirstFireTime(s, now);
    }
  }

  function TableAfterTicks(guarded: bool, t: Table<string>, j: Job, ticks: seq<Tick>): Table<string>
    requires guarded ==> j.spec.Daily? && forall k :: 0 <= k < |ticks| ==> Datable(j, ticks[k].firing.at)
  {
    if ticks == [] then t
    else
      var n := |ticks| - 1;
      TableAfter(guarded, TableAfterTicks(guarded, t, j, ticks[..n]), j, ticks[n].firing)
  }

  function OutcomeAt(guarded: bool, t: Table<string>, j: Job, ticks: seq<Tick>, k: nat): Fired
    requires guarded ==> j.spec.Daily? && forall i :: 0 <= i < |ticks| ==> Datable(j, ticks[i].firing.at)
    requires k < |ticks|
  {
    Outcome(guarded, TableAfterTicks(guarded, t, j, ticks[..k]), j, ticks[k].firing)
  }

  function Begun(from: int, ticks: seq<Tick>, k: nat): int
    requires k <= |ticks|
  {
    if k == 0 then from else ticks[k - 1].endedAt
  }

  predicate FollowsAt(j: Job, from: int, ticks: seq<Tick>, turns: seq<Turn>, k: nat)
    requires k < |ticks| <= |turns|
  {
    ticks[k] == TickOf(j, Begun(from, ticks, k), turns[k])
  }

  /** The ticks that come of a job's turns, the first begun at `from` and each other at the end of the one
      before. */
  ghost predicate Follow(j: Job, from: int, ticks: seq<Tick>, turns: seq<Turn>)
    requires |ticks| <= |turns|
  {
    forall k: nat :: k < |ticks| ==> FollowsAt(j, from, ticks, turns, k)
  }

  lemma FollowsOneMore(j: Job, from: int, ticks: seq<Tick>, turns: seq<Turn>, tick: Tick)
    requires |ticks| < |turns| && Follow(j, from, ticks, turns)
    requires tick == TickOf(j, Begun(from, ticks, |ticks|), turns[|ticks|])
    ensures Follow(j, from, ticks + [tick], turns)
  {
    forall k: nat | k <= |ticks| ensures FollowsAt(j, from, ticks + [tick], turns, k) {
      assert k < |ticks| ==> FollowsAt(j, from, ticks, turns, k);
    }
  }

  /** What `Follow` comes to: each clock read is the end of the turn before plus the gap, each firing the
      instant waited for plus the timer's lateness, and each end the body's length later. */
  lemma TicksInFull(j: Job, from: int, ticks: seq<Tick>, turns: seq<Turn>, k: nat)
    requires k < |ticks| <= |turns| && Follow(j, from, ticks, turns)
    ensures var t, turn := ticks[k], turns[k];
      && t.readAt == (if k == 0 then from else ticks[k - 1].endedAt) + turn.gap
      && t.firing.at == t.readAt + UntilNext(j.spec, t.readAt, turn.draw) + turn.late == Target(j, t) + turn.late
      && t.endedAt == t.firing.at + turn.lasts && t.firing.second * SECOND <= t.endedAt < (t.firing.second + 1) * SECOND
      && t.firing.readFault == turn.readFault && t.firing.succeeds == turn.succeeds && t.firing.writeFault == turn.writeFault
  {
    assert FollowsAt(j, from, ticks, turns, k);
    UnixIsTheFloor(ticks[k].endedAt);
  }

  predicate Runnable(j: Job, from: int) {
    (j.spec.Daily? ==> Sane(j.spec)) && Datable(j, from)
  }

  lemma TickGoesForward(j: Job, now: int, turn: Turn)
    requires j.spec.Daily? ==> Sane(j.spec)
    ensures var tick := TickOf(j, now, turn);
      now <= tick.readAt <= Target(j, tick) <= tick.firing.at <= tick.endedAt
  {
    WaitsAreForward(j.spec, now + turn.gap, turn.draw);
  }

  /** A job's loop is paced: timers do not fire early and turns do not overlap. */
  lemma FollowingTicksArePaced(j: Job, from: int, ticks: seq<Tick>, turns: seq<Turn>)
    requires (j.spec.Daily? ==> Sane(j.spec)) && |ticks| <= |turns| && Follow(j, from, ticks, turns)
    ensures Paced(j, ticks)
  {
    forall k | 0 <= k < |ticks|
      ensures Target(j, ticks[k]) <= ticks[k].firing.at <= ticks[k].endedAt
      ensures k > 0 ==> ticks[k - 1].endedAt <= ticks[k].readAt
    {
      assert FollowsAt(j, from, ticks, turns, k);
      TickGoesForward(j, Begun(from, ticks, k), turns[k]);
    }
  }

  /** What the firings of a loop came to, each on the table that the earlier ones left. */
  ghost predicate FiredAs(guarded: bool, t: Table<string>, j: Job, ticks: seq<Tick>, fired: seq<Fired>) {
    && (guarded ==> j.spec.Daily?) && (forall k :: 0 <= k < |ticks| ==> Datable(j, ticks[k].firing.at))
    && |fired| == |ticks|
    && forall k :: 0 <= k < |ticks| ==> fired[k] == OutcomeAt(guarded, t, j, ticks, k)
  }

  /** Every firing of an unguarded loop, that of an interval job above all, runs its body, and none touches
      the table. */
  lemma UnguardedFiringsRun(t: Table<string>, j: Job, ticks: seq<Tick>, fired: seq<Fired>)
    requires FiredAs(false, t, j, ticks, fired)
    ensures forall k :: 0 <= k < |ticks| ==> fired[k] == if ticks[k].firing.succeeds then Ran else Failed
    ensures TableAfterTicks(false, t, j, ticks) == t
  {
    UnguardedTicksLeaveTheTable(t, j, ticks);
  }

  lemma UnguardedLoopRuns(j: Job, from: int, ticks: seq<Tick>, turns: seq<Turn>, t: Table<string>, fired: seq<Fired>)
    requires |ticks| <= |turns| && Follow(j, from, ticks, turns) && FiredAs(false, t, j, ticks, fired)
    ensures forall k :: 0 <= k < |ticks| ==> fired[k] == if turns[k].succeeds then Ran else Failed
    ensures TableAfterTicks(false, t, j, ticks) == t
  {
    UnguardedFiringsRun(t, j, ticks, fired);
    forall k | 0 <= k < |ticks| ensures ticks[k].firing.succeeds == turns[k].succeeds {
      TicksInFull(j, from, ticks, turns, k);
    }
  }

  lemma {:induction false} UnguardedTicksLeaveTheTable(t: Table<string>, j: Job, ticks: seq<Tick>)
    ensures TableAfterTicks(false, t, j, ticks) == t
  {
    if ticks != [] {
      UnguardedTicksLeaveTheTable(t, j, ticks[..|ticks| - 1]);
    }
  }

  lemma FiredOneMore(guarded: bool, t: Table<string>, j: Job, ticks: seq<Tick>, fired: seq<Fired>, tick: Tick)
    requires FiredAs(guarded, t, j, ticks, fired) && Datable(j, tick.firing.at)
    ensures var before := TableAfterTicks(guarded, t, j, ticks);
      && FiredAs(guarded, t, j, ticks + [tick], fired + [Outcome(guarded, before, j, tick.firing)])
      && TableAfterTicks(guarded, t, j, ticks + [tick]) == TableAfter(guarded, before, j, tick.firing)
  {
    var more := ticks + [tick];
    assert more[..|ticks|] == ticks;
    assert forall k :: 0 <= k < |ticks| ==> more[..k] == ticks[..k];
  }

  class Bot {
    var jobs: seq<Job>
    const kv: KV?

    constructor (kv: KV?)
      ensures jobs == [] && this.kv == kv
    {
      jobs := [];
      this.kv := kv;
    }

    predicate Guarded(j: Job) {
      j.spec.Daily? && kv != null
    }

    method OnSchedule(name: string, spec: Spec)
      modifies this
      ensures jobs == old(jobs) + [Job(name, spec)]
    {
      jobs := jobs + [Job(name, spec)];
    }

    /** One loop per registration, in order, no two started in the same five seconds; `draws` are
        the random milliseconds. */
    method StartJobs(draws: seq<nat>) returns (launches: seq<Launch>)
      requires |draws| == |jobs| && forall i :: 0 <= i < |draws| ==> draws[i] < 5000
      ensures |launches| == |jobs| && forall i :: 0 <= i < |jobs| ==> launches[i].job == jobs[i]
      ensures forall i :: 0 <= i < |jobs| ==> launches[i].stagger == i * 5_000_000_000 + draws[i] * 1_000_000
      ensures forall i, k :: 0 <= i < k < |jobs| ==> launches[i].stagger < launches[k].stagger
      ensures forall i :: 0 <= i < |jobs| ==> 0 <= launches[i].stagger - i * (5 * SECOND) < 5 * SECOND
    {
      launches := [];
      for i := 0 to |jobs|
        invariant |launches| == i
        invariant forall k :: 0 <= k < i ==> launches[k].job == jobs[k]
        invariant forall k :: 0 <= k < i ==> launches[k].stagger == k * 5_000_000_000 + draws[k] * 1_000_000
        invariant forall k :: 0 <= k < i ==> 0 <= launches[k].stagger - k * (5 * SECOND) < 5 * SECOND
        invariant forall k, m :: 0 <= k < m < i ==> launches[k].stagger < launches[m].stagger
      {
        launches := launches + [Launch(jobs[i], Stagger(i, draws[i]))];
      }
    }

    method FireJob(j: Job, f: Firing) returns (r: Fired)
      requires Datable(j, f.at)
      modifies kv
      ensures r == Outcome(Guarded(j), if kv == null then map[] else old(kv.table), j, f)
      ensures kv != null ==> kv.table == TableAfter(Guarded(j), old(kv.table), j, f)
      ensures !j.spec.Daily? || kv == null ==> r == if f.succeeds then Ran else Failed
      ensures !j.spec.Daily? && kv != null ==> kv.table == old(kv.table)
      ensures j.spec.Daily? && kv != null ==>
        var key := MarkerKey(j.name, DateKey(j.spec, f.at));
        && (r == AlreadyFired <==> f.readFault == NoFault && key in old(kv.table))
        && (r == Ran <==> f.succeeds && !(f.readFault == NoFault && key in old(kv.table)))
        && (forall k :: k != key ==> SameRow(old(kv.table), kv.table, k))
        && (r == Ran && f.writeFault != FailedBefore ==> key in kv.table && kv.table[key] == Row("1", f.second))
        && (r != Ran || f.writeFault == FailedBefore ==> kv.table == old(kv.table))
    {
      var dayKey := None;
      if j.spec.Daily? && kv != null {
        var key := DayKey(j, f.at);
        dayKey := Some(key);
        var marker := kv.Get(key, f.readFault);
        if marker.Ok? && marker.value.Some? {
          return AlreadyFired;
        }
      }
      if !f.succeeds {
        return Failed;
      }
      if dayKey.Some? {
        var _ := kv.Set(dayKey.value, "1", f.second, f.writeFault);
      }
      return Ran;
    }

    /** The loop of one job, started at `start`, over the turns it lives to see; a cancelled wait, of the
        stagger or of a turn, ends it. */
    method RunJob(j: Job, start: int, stagger: nat, staggered: bool, turns: seq<Turn>)
      returns (ticks: seq<Tick>, fired: seq<Fired>)
      requires Runnable(j, start)
      modifies kv
      ensures |ticks| == if staggered then |turns| else 0
      ensures Follow(j, start + stagger, ticks, turns) && Paced(j, ticks)
      ensures FiredAs(Guarded(j), if kv == null then map[] else old(kv.table), j, ticks, fired)
      ensures kv != null ==> kv.table == TableAfterTicks(Guarded(j), old(kv.table), j, ticks)
      ensures !j.spec.Daily? || kv == null ==>
        forall k :: 0 <= k < |ticks| ==> fired[k] == if turns[k].succeeds then Ran else Failed
      ensures !j.spec.Daily? && kv != null ==> kv.table == old(kv.table)
    {
      ticks, fired := [], [];
      if !staggered {
        return;
      }
      var now := start + stagger;
      ghost var table := if kv == null then map[] else kv.table;
      for k := 0 to |turns|
        invariant |ticks| == k && Follow(j, start + stagger, ticks, turns)
        invariant start <= now == Begun(start + stagger, ticks, k)
        invariant FiredAs(Guarded(j), table, j, ticks, fired)
        invariant kv != null ==> kv.table == TableAfterTicks(Guarded(j), table, j, ticks)
        invariant kv == null ==> TableAfterTicks(Guarded(j), table, j, ticks) == table
      {
        var turn := turns[k];
        TickGoesForward(j, now, turn);
        now := now + turn.gap;
        var readAt, wait := now, UntilNext(j.spec, now, turn.draw);
        now := now + wait + turn.late;
        var firing := Firing(now, turn.readFault, turn.succeeds, Unix(now + turn.lasts), turn.writeFault);
        var r := FireJob(j, firing);
        now := now + turn.lasts;
        var tick := Tick(readAt, turn.draw, firing, now);
        FollowsOneMore(j, start + stagger, ticks, turns, tick);
        FiredOneMore(Guarded(j), table, j, ticks, fired, tick);
        ticks, fired := ticks + [tick], fired + [r];
      }
      FollowingTicksArePaced(j, start + stagger, ticks, turns);
      if !j.spec.Daily? || kv == null {
        UnguardedLoopRuns(j, start + stagger, ticks, turns, table, fired);
      }
    }
  }
}
