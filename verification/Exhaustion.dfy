/**
  A task that no one ever decides, although nothing fails: under the timing assumptions it is tried
  MAX_ATTEMPTS times, each time abandoned by a worker that goes on running, and then dead.
*/
module Exhaustion {
  import opened Lists
  import opened Keyspace
  import opened Queue
  import opened Timed

  /** The store around task id on its n-th attempt, wherever the task itself is. */
  function Base(id: TaskId, env: Envelope, n: int): Store {
    EMPTY.(tasks := map[id := Task(Some(env), Ready, n)], alive := {0}, finalized := map[env.order := false])
  }

  function Buried(id: TaskId, env: Envelope, n: int): Store {
    Base(id, env, n).(tasks := map[id := Task(Some(env), Dead, n)], dead := [id])
  }

  /** Worker 0 alone; nothing is due before some time has passed. No worker has died on the way. */
  ghost predicate Alone0(c: Config, trace: seq<Tact>, t: Timed, k: Worker, s: Store) {
    && TRun(c, trace) == Some(t) && t.q == State(s, map[0 := k], map[])
    && 0 in t.beatAt && t.beatAt[0] == t.now && t.tickAt == t.now && t.reaper == Asleep && s.alive == {0}
    && forall w :: Die(w) !in trace
  }

  /** The clocks and the fault count stand still. */
  ghost predicate SameClocks(t: Timed, u: Timed) {
    u.now == t.now && u.beatAt == t.beatAt && u.tickAt == t.tickAt && u.stamp == t.stamp && u.faults == t.faults
  }

  lemma OneStep(c: Config, trace: seq<Tact>, t: Timed, a: Tact) returns (longer: seq<Tact>, u: Timed)
    requires TRun(c, trace) == Some(t) && TCan(c, t, a) && !a.Die? && forall w :: Die(w) !in trace
    ensures u == TDo(c, t, a) && TRun(c, longer) == Some(u) && forall w :: Die(w) !in longer
  {
    hide TCan, TDo;
    longer, u := trace + [a], TDo(c, t, a);
    assert longer[..|trace|] == trace;
  }

  lemma LoopOn(c: Config, trace: seq<Tact>, t: Timed, k: Worker, s: Store, act: WorkerAct)
      returns (longer: seq<Tact>, u: Timed)
    requires Alone0(c, trace, t, k, s) && Succeeds(act) && WorkerCan(s, 0, k, act)
    requires act.AddInflight? ==> 0 in t.stamp && act.deadline == Unix(t.stamp[0]) + c.visibility
    requires Exec(c.max, s, WorkerCommand(0, k, act)).alive == {0}
    ensures Alone0(c, longer, u, WorkerNext(s, 0, k, act), Exec(c.max, s, WorkerCommand(0, k, act)))
    ensures u.now == t.now && (!act.GateOpen? ==> u.stamp == t.stamp)
    ensures !act.Abandon? ==> u.faults == t.faults
    ensures act.Abandon? && k.pc.Abandoning? ==> u.faults == t.faults[k.pc.id := FaultsOf(t, k.pc.id) + 1]
  {
    hide TRun, Exec, WorkerCan, WorkerNext, WorkerCommand, MayWait;
    longer, u := OneStep(c, trace, t, Loop(0, act));
    assert u.q.workers == map[0 := WorkerNext(s, 0, k, act)];
  }

  /** A step that writes nothing. */
  lemma LoopQuietly(c: Config, trace: seq<Tact>, t: Timed, k: Worker, s: Store, act: WorkerAct)
      returns (longer: seq<Tact>, u: Timed)
    requires Alone0(c, trace, t, k, s) && Succeeds(act) && WorkerCan(s, 0, k, act)
    requires act.GateOpen? || act.SetCurrent? || act.Fetch? || act.Launch? || act.StageError? || act.ClearCurrent?
    ensures Alone0(c, longer, u, WorkerNext(s, 0, k, act), s)
    ensures u.now == t.now && u.faults == t.faults && (!act.GateOpen? ==> u.stamp == t.stamp)
  {
    assert WorkerCommand(0, k, act) == Nop && Exec(c.max, s, Nop) == s;
    hide Alone0, WorkerCan, WorkerNext, WorkerCommand, Exec;
    longer, u := LoopOn(c, trace, t, k, s, act);
  }

  // ---- the stores of one attempt ----

  lemma BaseFields(id: TaskId, env: Envelope, n: int)
    ensures Base(id, env, n).alive == {0} && Base(id, env, n).done == {} && TaskOf(Base(id, env, n), id).payload == Some(env)
  {
  }

  lemma ClaimStore(max: int, id: TaskId, env: Envelope, n: int)
    ensures Exec(max, Base(id, env, n).(ready := [id]), Move(0)) == Base(id, env, n).(processing := map[0 := [id]])
  {
    hide Removed, Acked, Drained, Expired, Enqueued;
    assert [] + [id] == [id];
  }

  lemma AddStore(max: int, id: TaskId, env: Envelope, n: int, deadline: int)
    ensures Exec(max, Base(id, env, n).(processing := map[0 := [id]]), Score(id, deadline))
            == Base(id, env, n).(processing := map[0 := [id]], inflight := map[id := deadline])
  {
    hide Moved, Removed, Acked, Drained, Expired, Enqueued;
  }

  lemma AbandonStore(max: int, id: TaskId, env: Envelope, n: int, deadline: int)
    ensures var held := Base(id, env, n).(processing := map[0 := [id]], inflight := map[id := deadline]);
            Exec(max, held, Remove(0, id)) == Base(id, env, n).(inflight := map[id := deadline])
  {
    hide Moved, Acked, Drained, Expired, Enqueued;
    assert RemoveFirst([id], id) == [];
  }

  lemma ExpireStore(max: int, id: TaskId, env: Envelope, n: int, deadline: int)
    ensures Exec(max, Base(id, env, n).(inflight := map[id := deadline]), ExpireScript(id)) ==
            if n + 1 > max then Buried(id, env, n + 1) else Base(id, env, n + 1).(ready := [id])
  {
    hide Moved, Removed, Acked, Drained, Enqueued;
    assert [] + [id] == [id];
  }

  // ---- the steps of one attempt ----

  lemma UpToAdded(s: Store, id: TaskId, deadline: int)
    requires id !in s.done
    ensures s.ready == [id] ==> WorkerCan(s, 0, Worker(Idle, None, None), Claim(id))
    ensures WorkerCommand(0, Worker(Idle, None, None), Claim(id)) == Move(0)
    ensures s.ready == [id] ==> WorkerNext(s, 0, Worker(Idle, None, None), Claim(id)) == Worker(Claimed(id), None, None)
    ensures WorkerCan(s, 0, Worker(Claimed(id), None, None), GateOpen)
    ensures WorkerNext(s, 0, Worker(Claimed(id), None, None), GateOpen) == Worker(Gated(id), None, None)
    ensures WorkerCan(s, 0, Worker(Gated(id), None, None), AddInflight(deadline))
    ensures WorkerCommand(0, Worker(Gated(id), None, None), AddInflight(deadline)) == Score(id, deadline)
    ensures WorkerNext(s, 0, Worker(Gated(id), None, None), AddInflight(deadline)) == Worker(Added(id), None, None)
  {
  }

  lemma UpToStage(s: Store, id: TaskId, env: Envelope)
    requires TaskOf(s, id).payload == Some(env)
    ensures WorkerCan(s, 0, Worker(Added(id), None, None), SetCurrent)
    ensures WorkerNext(s, 0, Worker(Added(id), None, None), SetCurrent) == Worker(Watched(id), Some(id), None)
    ensures WorkerCan(s, 0, Worker(Watched(id), Some(id), None), Fetch)
    ensures WorkerNext(s, 0, Worker(Watched(id), Some(id), None), Fetch) == Worker(Fetched(id, env), Some(id), None)
    ensures WorkerCan(s, 0, Worker(Fetched(id, env), Some(id), None), Launch(id))
    ensures WorkerNext(s, 0, Worker(Fetched(id, env), Some(id), None), Launch(id)) == Worker(Staging(id, env), Some(id), None)
  {
  }

  lemma DownToIdle(s: Store, id: TaskId, env: Envelope)
    ensures WorkerCan(s, 0, Worker(Staging(id, env), Some(id), None), StageError)
    ensures WorkerNext(s, 0, Worker(Staging(id, env), Some(id), None), StageError) == Worker(Abandoning(id), Some(id), None)
    ensures WorkerCan(s, 0, Worker(Abandoning(id), Some(id), None), Abandon(true))
    ensures WorkerCommand(0, Worker(Abandoning(id), Some(id), None), Abandon(true)) == Remove(0, id)
    ensures WorkerNext(s, 0, Worker(Abandoning(id), Some(id), None), Abandon(true)) == Worker(Returning(id), Some(id), None)
    ensures WorkerCan(s, 0, Worker(Returning(id), Some(id), None), ClearCurrent)
    ensures WorkerNext(s, 0, Worker(Returning(id), Some(id), None), ClearCurrent) == Worker(Idle, None, None)
  {
  }

  // ---- one attempt ----

  /** The worker claims the task and gets as far as the stage. */
  lemma Tries(c: Config, trace: seq<Tact>, t: Timed, id: TaskId, env: Envelope, n: int)
      returns (longer: seq<Tact>, u: Timed)
    requires Alone0(c, trace, t, Worker(Idle, None, None), Base(id, env, n).(ready := [id]))
    ensures var held := Base(id, env, n).(processing := map[0 := [id]], inflight := map[id := Unix(t.now) + c.visibility]);
            Alone0(c, longer, u, Worker(Staging(id, env), Some(id), None), held)
    ensures u.now == t.now && u.faults == t.faults
  {
    hide Alone0, Exec, WorkerCan, WorkerNext, WorkerCommand, Base;
    longer, u := Begins(c, trace, t, id, env, n);
    var held := Base(id, env, n).(processing := map[0 := [id]], inflight := map[id := Unix(t.now) + c.visibility]);
    BaseFields(id, env, n);
    UpToStage(held, id, env);
    longer, u := LoopQuietly(c, longer, u, Worker(Added(id), None, None), held, SetCurrent);
    longer, u := LoopQuietly(c, longer, u, Worker(Watched(id), Some(id), None), held, Fetch);
    longer, u := LoopQuietly(c, longer, u, Worker(Fetched(id, env), Some(id), None), held, Launch(id));
  }

  lemma Begins(c: Config, trace: seq<Tact>, t: Timed, id: TaskId, env: Envelope, n: int)
      returns (longer: seq<Tact>, u: Timed)
    requires Alone0(c, trace, t, Worker(Idle, None, None), Base(id, env, n).(ready := [id]))
    ensures var held := Base(id, env, n).(processing := map[0 := [id]], inflight := map[id := Unix(t.now) + c.visibility]);
            Alone0(c, longer, u, Worker(Added(id), None, None), held)
    ensures u.now == t.now && u.faults == t.faults
  {
    hide Alone0, Exec, WorkerCan, WorkerNext, WorkerCommand, Base;
    var idle, claimed := Base(id, env, n).(ready := [id]), Base(id, env, n).(processing := map[0 := [id]]);
    BaseFields(id, env, n);
    ClaimStore(c.max, id, env, n);
    AddStore(c.max, id, env, n, Unix(t.now) + c.visibility);
    UpToAdded(idle, id, Unix(t.now) + c.visibility);
    UpToAdded(claimed, id, Unix(t.now) + c.visibility);
    longer, u := LoopOn(c, trace, t, Worker(Idle, None, None), idle, Claim(id));
    longer, u := LoopQuietly(c, longer, u, Worker(Claimed(id), None, None), claimed, GateOpen);
    longer, u := Computes(c, longer, u, Worker(Gated(id), None, None), claimed);
    longer, u := LoopOn(c, longer, u, Worker(Gated(id), None, None), claimed, AddInflight(Unix(t.now) + c.visibility));
  }

  lemma Computes(c: Config, trace: seq<Tact>, t: Timed, k: Worker, s: Store) returns (longer: seq<Tact>, u: Timed)
    requires Alone0(c, trace, t, k, s) && k.pc.Gated?
    ensures Alone0(c, longer, u, k, s) && u.now == t.now && u.faults == t.faults
    ensures 0 in u.stamp && u.stamp[0] == t.now
  {
    hide TRun;
    longer, u := OneStep(c, trace, t, Compute(0));
  }

  /** The stage fails to decide, and the worker gives the task up. */
  lemma GivesUp(c: Config, trace: seq<Tact>, t: Timed, id: TaskId, env: Envelope, n: int, deadline: int)
      returns (longer: seq<Tact>, u: Timed)
    requires Alone0(c, trace, t, Worker(Staging(id, env), Some(id), None),
                    Base(id, env, n).(processing := map[0 := [id]], inflight := map[id := deadline]))
    ensures Alone0(c, longer, u, Worker(Idle, None, None), Base(id, env, n).(inflight := map[id := deadline]))
    ensures u.now == t.now && u.faults == t.faults[id := FaultsOf(t, id) + 1]
  {
    hide Alone0, Exec, WorkerCan, WorkerNext, WorkerCommand, Base;
    var held, given := Base(id, env, n).(processing := map[0 := [id]], inflight := map[id := deadline]),
                       Base(id, env, n).(inflight := map[id := deadline]);
    BaseFields(id, env, n);
    AbandonStore(c.max, id, env, n, deadline);
    DownToIdle(held, id, env);
    DownToIdle(given, id, env);
    longer, u := LoopQuietly(c, trace, t, Worker(Staging(id, env), Some(id), None), held, StageError);
    longer, u := LoopOn(c, longer, u, Worker(Abandoning(id), Some(id), None), held, Abandon(true));
    longer, u := LoopQuietly(c, longer, u, Worker(Returning(id), Some(id), None), given, ClearCurrent);
  }

  // ---- the time in between ----

  /** A beat of the idle worker. */
  lemma IdleBeats(c: Config, trace: seq<Tact>, t: Timed, s: Store) returns (longer: seq<Tact>, u: Timed)
    requires TRun(c, trace) == Some(t) && t.q == State(s, map[0 := Worker(Idle, None, None)], map[]) && s.alive == {0}
    requires t.tickAt == t.now && t.reaper == Asleep && forall w :: Die(w) !in trace
    ensures Alone0(c, longer, u, Worker(Idle, None, None), s)
    ensures u.now == t.now && u.faults == t.faults
  {
    hide TRun;
    longer, u := OneStep(c, trace, t, Beat(0));
    assert BeatStore(c, s, 0, None, t.now) == s;
  }

  /** A tick that finds no list to drain, when the ids it has read are dealt with. */
  lemma TickEnds(c: Config, trace: seq<Tact>, t: Timed, s: Store) returns (longer: seq<Tact>, u: Timed)
    requires TRun(c, trace) == Some(t) && t.q == State(s, map[0 := Worker(Idle, None, None)], map[]) && s.alive == {0}
    requires t.reaper == Expiring(t.now, {}) && s.processing == map[] && forall w :: Die(w) !in trace
    ensures Alone0(c, longer, u, Worker(Idle, None, None), s)
    ensures u.now == t.now && u.faults == t.faults
  {
    hide TRun;
    longer, u := OneStep(c, trace, t, TickScan);
    assert u.reaper.todo == {};
    longer, u := OneStep(c, longer, u, TickEnd);
    longer, u := IdleBeats(c, longer, u, s);
  }

  /** A millisecond passes; the reaper ticks, finding nothing overdue, and the worker beats. */
  lemma Passes(c: Config, trace: seq<Tact>, t: Timed, s: Store) returns (longer: seq<Tact>, u: Timed)
    requires IsSafe(c) && c.interval > 0 && Alone0(c, trace, t, Worker(Idle, None, None), s)
    requires s.processing == map[] && Overdue(s, Unix(t.now + 1)) == {}
    ensures Alone0(c, longer, u, Worker(Idle, None, None), s) && u.now == t.now + 1 && u.faults == t.faults
  {
    hide TRun, Overdue, Unix;
    longer, u := OneStep(c, trace, t, Wait(1));
    longer, u := OneStep(c, longer, u, TickStart);
    longer, u := TickEnds(c, longer, u, s);
  }

  lemma {:induction false} PassesUntil(c: Config, trace: seq<Tact>, t: Timed, s: Store, until: int)
      returns (longer: seq<Tact>, u: Timed)
    requires IsSafe(c) && c.interval > 0 && Alone0(c, trace, t, Worker(Idle, None, None), s)
    requires s.processing == map[] && t.now <= until && Overdue(s, Unix(until)) == {}
    ensures Alone0(c, longer, u, Worker(Idle, None, None), s) && u.now == until && u.faults == t.faults
    decreases until - t.now
  {
    hide Alone0;
    longer, u := trace, t;
    if t.now < until {
      NotYet(s, t.now + 1, until);
      longer, u := Passes(c, longer, u, s);
      longer, u := PassesUntil(c, longer, u, s, until);
    }
  }

  lemma NotYet(s: Store, now: int, until: int)
    requires now <= until && Overdue(s, Unix(until)) == {}
    ensures Overdue(s, Unix(now)) == {}
  {
    UnixMono(now, until);
    assert forall id :: id in Overdue(s, Unix(now)) ==> id in Overdue(s, Unix(until));
  }

  /** The deadline passes, and the reaper takes the task off inflight. */
  lemma Expires(c: Config, trace: seq<Tact>, t: Timed, id: TaskId, env: Envelope, n: int, deadline: int)
      returns (longer: seq<Tact>, u: Timed)
    requires IsSafe(c) && c.interval > 0 && Unix(t.now) < deadline
    requires Alone0(c, trace, t, Worker(Idle, None, None), Base(id, env, n).(inflight := map[id := deadline]))
    ensures Alone0(c, longer, u, Worker(Idle, None, None),
                   if n + 1 > c.max then Buried(id, env, n + 1) else Base(id, env, n + 1).(ready := [id]))
    ensures u.faults == t.faults
  {
    var s := Base(id, env, n).(inflight := map[id := deadline]);
    longer, u := PassesUntil(c, trace, t, s, 1000 * deadline - 1);
    longer, u := Fires(c, longer, u, id, env, n, deadline);
  }

  lemma Fires(c: Config, trace: seq<Tact>, t: Timed, id: TaskId, env: Envelope, n: int, deadline: int)
      returns (longer: seq<Tact>, u: Timed)
    requires IsSafe(c) && c.interval > 0 && t.now == 1000 * deadline - 1
    requires Alone0(c, trace, t, Worker(Idle, None, None), Base(id, env, n).(inflight := map[id := deadline]))
    ensures Alone0(c, longer, u, Worker(Idle, None, None),
                   if n + 1 > c.max then Buried(id, env, n + 1) else Base(id, env, n + 1).(ready := [id]))
    ensures u.faults == t.faults
  {
    ExpireStore(c.max, id, env, n, deadline);
    hide TRun, Exec;
    longer, u := OneStep(c, trace, t, Wait(1));
    longer, u := OneStep(c, longer, u, TickStart);
    assert u.reaper.ids == {id};
    longer, u := OneStep(c, longer, u, TickExpire(id));
    assert u.reaper.ids == {};
    longer, u := TickEnds(c, longer, u, u.q.store);
  }

  // ---- all attempts ----

  lemma FromDawn(c: Config)
    ensures TRun(c, []) == Some(DAWN)
  {
  }

  lemma Hired(c: Config) returns (trace: seq<Tact>, t: Timed)
    ensures Alone0(c, trace, t, Worker(Idle, None, None), EMPTY.(alive := {0})) && t.faults == map[]
  {
    hide TRun, Exec, WorkerCan, WorkerNext, WorkerCommand, Succeeds, MayWait;
    FromDawn(c);
    trace, t := OneStep(c, [], DAWN, Hire(0));
    StartIs(c);
    trace, t := OneStep(c, trace, t, Beat(0));
    assert BeatStore(c, EMPTY, 0, None, 0) == EMPTY.(alive := {0});
  }

  lemma StartIs(c: Config)
    ensures Can(INIT, Start(0)) && Queue.Do(c.max, INIT, Start(0)) == State(EMPTY, map[0 := Worker(Idle, None, None)], map[])
  {
    hide WorkerCan, WorkerNext, WorkerCommand;
    assert INIT.workers[0 := Worker(Idle, None, None)] == map[0 := Worker(Idle, None, None)];
  }

  lemma OrderIs(c: Config, id: TaskId, env: Envelope)
    requires env.order != ""
    ensures var q := State(EMPTY.(alive := {0}), map[0 := Worker(Idle, None, None)], map[]);
            Can(q, Enqueue(id, env)) && Queue.Do(c.max, q, Enqueue(id, env)) == q.(store := Base(id, env, 1).(ready := [id]))
  {
    hide WorkerCan, WorkerNext, WorkerCommand, Moved, Removed, Scored, Acked, Expired, Drained;
    assert [] + [id] == [id];
  }

  lemma Ordered(c: Config, id: TaskId, env: Envelope) returns (trace: seq<Tact>, t: Timed)
    requires env.order != ""
    ensures Alone0(c, trace, t, Worker(Idle, None, None), Base(id, env, 1).(ready := [id])) && FaultsOf(t, id) == 0
  {
    hide TRun, Can, Queue.Do, Succeeds, MayWait, Base;
    trace, t := Hired(c);
    OrderIs(c, id, env);
    BaseFields(id, env, 1);
    trace, t := OneStep(c, trace, t, Order(id, env));
  }

  /** Attempt after attempt is abandoned. */
  lemma {:induction false} Attempts(c: Config, id: TaskId, env: Envelope, n: nat) returns (trace: seq<Tact>, t: Timed)
    requires IsSafe(c) && c.interval > 0 && env.order != "" && 1 <= n <= c.max
    ensures Alone0(c, trace, t, Worker(Idle, None, None), Base(id, env, n).(ready := [id])) && FaultsOf(t, id) == n - 1
    decreases n
  {
    if n == 1 {
      trace, t := Ordered(c, id, env);
    } else {
      trace, t := Attempts(c, id, env, n - 1);
      trace, t := Fails(c, trace, t, id, env, n - 1);
    }
  }

  lemma Fails(c: Config, trace: seq<Tact>, t: Timed, id: TaskId, env: Envelope, n: int)
      returns (longer: seq<Tact>, u: Timed)
    requires IsSafe(c) && c.interval > 0
    requires Alone0(c, trace, t, Worker(Idle, None, None), Base(id, env, n).(ready := [id]))
    ensures Alone0(c, longer, u, Worker(Idle, None, None),
                   if n + 1 > c.max then Buried(id, env, n + 1) else Base(id, env, n + 1).(ready := [id]))
    ensures FaultsOf(u, id) == FaultsOf(t, id) + 1
  {
    hide Alone0;
    longer, u := Tries(c, trace, t, id, env, n);
    longer, u := GivesUp(c, longer, u, id, env, n, Unix(t.now) + c.visibility);
    longer, u := Expires(c, longer, u, id, env, n, Unix(t.now) + c.visibility);
  }

  /**
    Main result: whatever the configuration, some run within the timing assumptions, in which no worker
    dies, abandons a task MAX_ATTEMPTS times and leaves it dead.
  */
  lemma DeadByAbandonment(c: Config, id: TaskId, env: Envelope) returns (trace: seq<Tact>, t: Timed)
    requires IsSafe(c) && c.interval > 0 && c.max >= 1 && env.order != ""
    ensures TRun(c, trace) == Some(t) && forall w :: Die(w) !in trace
    ensures t.q.store == Buried(id, env, c.max + 1) && FaultsOf(t, id) == c.max
  {
    trace, t := Attempts(c, id, env, c.max);
    trace, t := Fails(c, trace, t, id, env, c.max);
  }
}
