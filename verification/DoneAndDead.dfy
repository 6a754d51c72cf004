/**
  The window between an ack and setCurrent(""): a run within the timing assumptions in which the
  heartbeat re-adds a done task to inflight, and the reaper then declares it dead.
*/
module DoneAndDead {
  import opened Lists
  import opened Keyspace
  import opened Queue
  import opened Timed

  /** MAX_ATTEMPTS 1, HEARTBEAT_S 1, VISIBILITY_S 200, a tick every 100 seconds. */
  const SETTINGS := Config(1, 1, 200, 100, 0)

  /** Worker 0 alone, its loop, task 7's place in the store, and the clocks. */
  ghost predicate Scene(trace: seq<Tact>, t: Timed, k: Worker, inflight: map<TaskId, int>, done: set<TaskId>) {
    && TRun(SETTINGS, trace) == Some(t)
    && t.q.workers == map[0 := k] && t.q.store.inflight == inflight && t.q.store.done == done
    && t.q.store.alive == {0} && Attempt(t.q.store, 7) == 1
    && t.beatAt == map[0 := 0] && t.now == 0 && t.tickAt == 0 && t.reaper == Asleep
  }

  lemma TStep(trace: seq<Tact>, t: Timed, a: Tact) returns (longer: seq<Tact>, u: Timed)
    requires TRun(SETTINGS, trace) == Some(t) && TCan(SETTINGS, t, a)
    ensures u == TDo(SETTINGS, t, a) && TRun(SETTINGS, longer) == Some(u)
  {
    longer, u := trace + [a], TDo(SETTINGS, t, a);
    assert longer[..|trace|] == trace;
  }

  /** Any step of worker 0's loop. */
  lemma LoopDo(trace: seq<Tact>, t: Timed, k: Worker, act: WorkerAct, inflight: map<TaskId, int>, done: set<TaskId>)
    returns (longer: seq<Tact>, u: Timed)
    requires Scene(trace, t, k, inflight, done) && Succeeds(act) && WorkerCan(t.q.store, 0, k, act)
    requires act.AddInflight? ==> 0 in t.stamp && act.deadline == Unix(t.stamp[0]) + 200
    ensures TRun(SETTINGS, longer) == Some(u)
    ensures u.q == State(Exec(1, t.q.store, WorkerCommand(0, k, act)),
                         map[0 := WorkerNext(t.q.store, 0, k, act)], t.q.sweepers)
    ensures u.beatAt == t.beatAt && u.now == 0 && u.tickAt == 0 && u.reaper == Asleep
    ensures !act.GateOpen? ==> u.stamp == t.stamp
  {
    hide TRun, Exec, WorkerCan, WorkerNext, WorkerCommand, MayWait;
    longer, u := TStep(trace, t, Loop(0, act));
    assert u.q.workers == map[0 := WorkerNext(t.q.store, 0, k, act)];
    hide Exec, WorkerNext, WorkerCommand;
  }

  /** A step of worker 0's loop without a Redis write. */
  lemma LoopStep(trace: seq<Tact>, t: Timed, k: Worker, act: WorkerAct, inflight: map<TaskId, int>, done: set<TaskId>)
    returns (longer: seq<Tact>, u: Timed)
    requires Scene(trace, t, k, inflight, done) && Succeeds(act) && WorkerCan(t.q.store, 0, k, act)
    requires !act.Claim? && !act.AddInflight? && !act.Ack? && !act.SkipRemove? && !act.Abandon?
    ensures Scene(longer, u, WorkerNext(t.q.store, 0, k, act), inflight, done) && u.q.store == t.q.store
  {
    hide TRun;
    longer, u := LoopDo(trace, t, k, act, inflight, done);
    assert WorkerCommand(0, k, act) == Nop;
    hide WorkerNext, WorkerCommand;
  }

  /** The state before the order comes in: worker 0 idle, its liveness key set. */
  ghost predicate Ready0(t: Timed) {
    && t.q == State(EMPTY.(alive := {0}), map[0 := Worker(Idle, None, None)], map[])
    && t.beatAt == map[0 := 0] && t.now == 0 && t.tickAt == 0 && t.reaper == Asleep
  }

  lemma HiredRun() returns (trace: seq<Tact>, t: Timed)
    ensures TRun(SETTINGS, trace) == Some(t) && Ready0(t)
  {
    trace, t := [], DAWN;
    assert TRun(SETTINGS, trace) == Some(t);
    hide TRun;
    trace, t := TStep(trace, t, Hire(0));
    assert t.q == State(EMPTY, map[0 := Worker(Idle, None, None)], map[]);
    trace, t := TStep(trace, t, Beat(0));
    assert t.q.store == EMPTY.(alive := {0});
  }

  lemma OrderedRun(env: Envelope) returns (trace: seq<Tact>, t: Timed)
    requires env.order != ""
    ensures Scene(trace, t, Worker(Idle, None, None), map[], {})
    ensures t.q.store == EMPTY.(alive := {0}, ready := [7], tasks := map[7 := Task(Some(env), Ready, 1)],
                                finalized := map[env.order := false])
  {
    hide TRun, WorkerCan, WorkerNext, WorkerCommand, Moved, Removed, Scored, Extended, Acked, Expired, Drained;
    trace, t := HiredRun();
    trace, t := TStep(trace, t, Order(7, env));
    assert t.q.store.ready == [7];
  }

  /** The store of task 7 in worker 0's hands. */
  ghost predicate InHand(s: Store, env: Envelope) {
    s.processing == map[0 := [7]] && s.tasks == map[7 := Task(Some(env), Ready, 1)]
  }

  lemma ClaimedRun(env: Envelope) returns (trace: seq<Tact>, t: Timed)
    requires env.order != ""
    ensures Scene(trace, t, Worker(Claimed(7), None, None), map[], {}) && InHand(t.q.store, env)
  {
    hide TRun, Enqueued, Removed, Scored, Extended, Acked, Expired, Drained;
    trace, t := OrderedRun(env);
    assert [] + [7] == [7];
    trace, t := LoopDo(trace, t, Worker(Idle, None, None), Claim(7), map[], {});
  }

  lemma StampedRun(env: Envelope) returns (trace: seq<Tact>, t: Timed)
    requires env.order != ""
    ensures Scene(trace, t, Worker(Gated(7), None, None), map[], {}) && InHand(t.q.store, env)
    ensures 0 in t.stamp && t.stamp[0] == 0
  {
    hide TRun, Enqueued, Moved, Removed, Scored, Extended, Acked, Expired, Drained;
    trace, t := ClaimedRun(env);
    trace, t := LoopStep(trace, t, Worker(Claimed(7), None, None), GateOpen, map[], {});
    trace, t := TStep(trace, t, Compute(0));
  }

  lemma AddedRun(env: Envelope) returns (trace: seq<Tact>, t: Timed)
    requires env.order != ""
    ensures Scene(trace, t, Worker(Added(7), None, None), map[7 := 200], {}) && InHand(t.q.store, env)
  {
    hide TRun, Enqueued, Moved, Removed, Extended, Acked, Expired, Drained;
    trace, t := StampedRun(env);
    trace, t := LoopDo(trace, t, Worker(Gated(7), None, None), AddInflight(200), map[], {});
    assert t.q.store.inflight == map[7 := 200];
  }

  lemma FetchedRun(env: Envelope) returns (trace: seq<Tact>, t: Timed)
    requires env.order != ""
    ensures Scene(trace, t, Worker(Fetched(7, env), Some(7), None), map[7 := 200], {}) && InHand(t.q.store, env)
  {
    hide Scene, TRun, Exec;
    trace, t := AddedRun(env);
    trace, t := LoopStep(trace, t, Worker(Added(7), None, None), SetCurrent, map[7 := 200], {});
    trace, t := LoopStep(trace, t, Worker(Watched(7), Some(7), None), Fetch, map[7 := 200], {});
  }

  lemma AckingRun(env: Envelope) returns (trace: seq<Tact>, t: Timed)
    requires env.order != ""
    ensures Scene(trace, t, Worker(Acking(7, env, true), Some(7), None), map[7 := 200], {}) && InHand(t.q.store, env)
  {
    hide Scene, TRun, Exec;
    trace, t := FetchedRun(env);
    trace, t := LoopStep(trace, t, Worker(Fetched(7, env), Some(7), None), Launch(7), map[7 := 200], {});
    trace, t := LoopStep(trace, t, Worker(Staging(7, env), Some(7), None), StageVerdict(true), map[7 := 200], {});
  }

  lemma AckStore(s: Store, env: Envelope)
    requires s.inflight == map[7 := 200] && s.done == {} && InHand(s, env)
    ensures var u := Acked(s, 0, 7, env.order, true);
            && u.inflight == map[] && u.done == {7} && u.alive == s.alive && Attempt(u, 7) == Attempt(s, 7)
            && u.processing == map[]
  {
    assert RemoveFirst([7], 7) == [];
  }

  lemma AckIs(s: Store, env: Envelope)
    ensures var k, act := Worker(Acking(7, env, true), Some(7), None), Ack(7, env, true, true, true);
            && Exec(1, s, WorkerCommand(0, k, act)) == Acked(s, 0, 7, env.order, true)
            && WorkerNext(s, 0, k, act) == k.(pc := Returning(7))
  {
    hide Acked;
  }

  lemma AckedRun(env: Envelope) returns (trace: seq<Tact>, t: Timed)
    requires env.order != ""
    ensures Scene(trace, t, Worker(Returning(7), Some(7), None), map[], {7}) && t.q.store.processing == map[]
  {
    trace, t := AckingRun(env);
    AckStore(t.q.store, env);
    AckIs(t.q.store, env);
    hide TRun, Acked, Attempt, Exec, WorkerCommand, WorkerNext;
    trace, t := LoopDo(trace, t, Worker(Acking(7, env, true), Some(7), None), Ack(7, env, true, true, true),
                       map[7 := 200], {});
  }

  lemma BeatStoreIs(s: Store)
    requires s.inflight == map[] && s.alive == {0}
    ensures BeatStore(SETTINGS, s, 0, Some(7), 0) == s.(inflight := map[7 := 200])
  {
  }

  /** After the ack, the beat puts the task back. */
  lemma ReaddedRun(env: Envelope) returns (trace: seq<Tact>, t: Timed)
    requires env.order != ""
    ensures Scene(trace, t, Worker(Returning(7), Some(7), None), map[7 := 200], {7}) && t.q.store.processing == map[]
  {
    trace, t := AckedRun(env);
    BeatStoreIs(t.q.store);
    hide TRun, BeatStore;
    trace, t := TStep(trace, t, Beat(0));
  }

  /** Then the worker stops. */
  ghost predicate Aftermath(trace: seq<Tact>, t: Timed, alive: set<WorkerId>) {
    && TRun(SETTINGS, trace) == Some(t)
    && t.q.workers == map[] && t.q.store.inflight == map[7 := 200] && t.q.store.done == {7}
    && t.q.store.alive == alive && t.q.store.processing == map[] && Attempt(t.q.store, 7) == 1
    && t.beatAt == map[0 := 0]
  }

  lemma StoppedRun(env: Envelope) returns (trace: seq<Tact>, t: Timed)
    requires env.order != ""
    ensures Aftermath(trace, t, {0}) && t.now == 2000 && t.tickAt == 0 && t.reaper == Asleep
  {
    hide TRun, WorkerCan, WorkerNext, WorkerCommand, Enqueued, Moved, Removed, Scored, Extended, Acked, Expired, Drained;
    trace, t := ReaddedRun(env);
    trace, t := TStep(trace, t, Die(0));
    assert t.q.workers == map[];
    trace, t := TStep(trace, t, Wait(2000));
  }

  lemma FadedRun(env: Envelope) returns (trace: seq<Tact>, t: Timed)
    requires env.order != ""
    ensures Aftermath(trace, t, {}) && t.now == 100000 && t.tickAt == 0 && t.reaper == Asleep
  {
    hide TRun, WorkerCan, WorkerNext, WorkerCommand, Enqueued, Moved, Removed, Scored, Extended, Acked, Expired, Drained;
    trace, t := StoppedRun(env);
    trace, t := TStep(trace, t, Fade(0));
    assert t.q.store.alive == {};
    trace, t := TStep(trace, t, Wait(98000));
  }

  lemma TickedRun(env: Envelope) returns (trace: seq<Tact>, t: Timed)
    requires env.order != ""
    ensures Aftermath(trace, t, {}) && t.now == 100000 && t.reaper == Draining(100000, {})
  {
    hide TRun, Attempt, WorkerCan, WorkerNext, WorkerCommand, Enqueued, Moved, Removed, Scored, Extended, Acked, Expired, Drained;
    trace, t := FadedRun(env);
    trace, t := TStep(trace, t, TickStart);
    assert t.reaper.ids == {};
    trace, t := TStep(trace, t, TickScan);
  }

  lemma OverdueRun(env: Envelope) returns (trace: seq<Tact>, t: Timed)
    requires env.order != ""
    ensures Aftermath(trace, t, {}) && t.reaper.Expiring? && 7 in t.reaper.ids
  {
    hide TRun, Attempt, WorkerCan, WorkerNext, WorkerCommand, Enqueued, Moved, Removed, Scored, Extended, Acked, Expired, Drained;
    trace, t := TickedRun(env);
    trace, t := TStep(trace, t, TickEnd);
    trace, t := TStep(trace, t, Wait(100000));
    trace, t := TStep(trace, t, TickStart);
  }

  /** The task is done, and dead as well, although every timing assumption holds. */
  lemma DoneAndDeadRun(env: Envelope) returns (trace: seq<Tact>, t: Timed)
    requires env.order != ""
    ensures IsSafe(SETTINGS) && TRun(SETTINGS, trace) == Some(t)
    ensures 7 in t.q.store.done && 7 in t.q.store.dead
  {
    hide TRun, WorkerCan, WorkerNext, WorkerCommand, Enqueued, Moved, Removed, Scored, Extended, Acked, Drained;
    trace, t := OverdueRun(env);
    trace, t := TStep(trace, t, TickExpire(7));
  }
}
