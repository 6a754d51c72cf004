/**
  Single ownership. Under the timing assumptions of module Timed, a task that is neither done nor
  dead has exactly one token, at most one worker is on it, and its attempt counter pays exactly once
  for each crash and each abandonment.
*/
module Ownership {
  import opened Lists
  import opened Keyspace
  import opened Queue
  import opened Spots
  import opened Timed

  function PcOf(t: Timed, w: WorkerId): Pc {
    if w in t.q.workers then t.q.workers[w].pc else Idle
  }

  predicate IsOn(pc: Pc, id: TaskId) {
    !pc.Idle? && pc.id == id
  }

  /** The id is in w's list, or w has given it up and still heartbeats it. */
  predicate Guards(t: Timed, w: WorkerId, id: TaskId) {
    id in ListOf(t.q.store, w) || PcOf(t, w) == Returning(id)
  }

  /** Past the gate and not yet through with the task. */
  predicate Handling(pc: Pc, id: TaskId) {
    IsOn(pc, id) && !pc.Claimed? && !pc.Skipping? && !pc.Returning?
  }

  // ---- each worker by itself ----

  predicate HoldsList(pc: Pc) {
    !pc.Idle? && !pc.Returning?
  }

  predicate SetsCurrent(pc: Pc) {
    !pc.Idle? && !pc.Claimed? && !pc.Skipping? && !pc.Gated? && !pc.Added?
  }

  /** A live worker's list is exactly what its loop is on; a dead one leaves at most one id behind. */
  ghost predicate Tidy(t: Timed, w: WorkerId) {
    var l := ListOf(t.q.store, w);
    && (l != [] || PcOf(t, w) != Idle ==> w in t.beatAt)
    && (w !in t.q.workers ==> |l| <= 1)
    && (w in t.q.workers ==>
          var k := t.q.workers[w];
          && !k.pc.Dropping?
          && l == (if HoldsList(k.pc) then [k.pc.id] else [])
          && k.current == (if SetsCurrent(k.pc) then Some(k.pc.id) else None))
  }

  ghost predicate AllTidy(t: Timed) {
    forall w :: Tidy(t, w)
  }

  /** The gate keeps: no one handles a task that is done, and only done tasks are skipped. */
  ghost predicate HandledNotDone(t: Timed) {
    && (forall w, id :: Handling(PcOf(t, w), id) ==> id !in t.q.store.done)
    && (forall w :: PcOf(t, w).Skipping? ==> PcOf(t, w).id in t.q.store.done)
  }

  /** A dead worker's list waits for no more than one reaper interval after its key has lapsed. */
  ghost predicate DrainedInTime(c: Config, t: Timed) {
    && (forall w :: w !in t.q.workers && ListOf(t.q.store, w) != [] ==>
          w in t.beatAt && t.tickAt <= t.beatAt[w] + 2000 * c.heartbeat)
    && (t.reaper.Draining? ==>
          forall w :: w !in t.q.workers && ListOf(t.q.store, w) != [] && w !in t.reaper.todo ==>
            w in t.beatAt && t.reaper.start <= t.beatAt[w] + 2000 * c.heartbeat)
  }

  // ---- one task ----

  ghost predicate Exclusive(t: Timed, id: TaskId) {
    var p := SpotOf(t.q.store, id);
    && p.ready + (if p.inflight.Some? then 1 else 0) + p.dead <= 1
    && (forall w :: Guards(t, w, id) ==> p.ready == 0 && p.dead == 0)
    && (forall v, w :: Guards(t, v, id) && Guards(t, w, id) ==> v == w)
  }

  ghost predicate Protected(c: Config, t: Timed, id: TaskId) {
    var p := SpotOf(t.q.store, id);
    && (forall w :: IsOn(PcOf(t, w), id) && (PcOf(t, w).Claimed? || PcOf(t, w).Gated?) ==> p.inflight.None?)
    && (forall w :: IsOn(PcOf(t, w), id) && (PcOf(t, w).Added? || SetsCurrent(PcOf(t, w))) ==> p.inflight.Some?)
    && (forall w :: Guards(t, w, id) && p.inflight.Some? ==>
          w in t.beatAt && p.inflight.value >= Unix(t.beatAt[w]) + c.visibility - c.grace)
    && (forall w :: PcOf(t, w) == Added(id) ==>
          w in t.stamp && p.inflight.Some? && p.inflight.value >= Unix(t.stamp[w]) + c.visibility)
    && (t.reaper.Expiring? && id in t.reaper.ids ==> p.inflight.Some? && forall w :: !Guards(t, w, id))
  }

  /** A fault on id that its attempt counter has not paid for yet. */
  ghost predicate Owed(t: Timed, id: TaskId) {
    || (SpotOf(t.q.store, id).inflight.Some? && forall w :: id !in ListOf(t.q.store, w))
    || (exists w :: w !in t.q.workers && id in ListOf(t.q.store, w))
  }

  ghost predicate Accounted(t: Timed, id: TaskId) {
    var p := SpotOf(t.q.store, id);
    && (!p.known ==> p.ready == 0 && p.inflight.None? && p.dead == 0 && FaultsOf(t, id) == 0
                     && forall w :: !Guards(t, w, id))
    && (p.known ==> p.attempt + (if Owed(t, id) then 1 else 0) == 1 + FaultsOf(t, id))
  }

  ghost predicate Owned(c: Config, t: Timed, id: TaskId) {
    id !in t.q.store.done ==> Exclusive(t, id) && Protected(c, t, id) && Accounted(t, id)
  }

  ghost predicate Good(c: Config, t: Timed) {
    && Clocks(c, t) && AllTidy(t) && HandledNotDone(t) && DrainedInTime(c, t)
    && forall id :: Owned(c, t, id)
  }

  // ---- the store and the loops after a timed step ----

  lemma QueueStepLists(max: int, q: State, a: Action, w: WorkerId)
    requires Can(q, a)
    ensures ListOf(Do(max, q, a).store, w) == ListAfter(q.store, CommandOf(q, a), w)
  {
    assert CommandOf(q, a).Move? ==> q.store.ready != [];
    ExecList(max, q.store, CommandOf(q, a), w);
  }

  lemma BeatLists(c: Config, t: Timed, w: WorkerId, v: WorkerId)
    requires TCan(c, t, Beat(w))
    ensures ListOf(TDo(c, t, Beat(w)).q.store, v) == ListOf(t.q.store, v)
  {
  }

  // ---- AllTidy ----

  /** What a loop step does to a list that is exactly what the loop is on. */
  lemma LoopList(s: Store, w: WorkerId, k: Worker, act: WorkerAct)
    requires WorkerCan(s, w, k, act) && Succeeds(act) && !k.pc.Dropping?
    requires ListOf(s, w) == if HoldsList(k.pc) then [k.pc.id] else []
    ensures var n := WorkerNext(s, w, k, act);
            && !n.pc.Dropping?
            && ListAfter(s, WorkerCommand(w, k, act), w) == if HoldsList(n.pc) then [n.pc.id] else []
  {
    hide ListOf;
  }

  /** And to the task a loop has set as its current one. */
  lemma LoopCurrent(s: Store, w: WorkerId, k: Worker, act: WorkerAct)
    requires WorkerCan(s, w, k, act) && Succeeds(act) && !k.pc.Dropping?
    requires k.current == if SetsCurrent(k.pc) then Some(k.pc.id) else None
    ensures var n := WorkerNext(s, w, k, act);
            n.current == if SetsCurrent(n.pc) then Some(n.pc.id) else None
  {
  }

  lemma TidyLoop(c: Config, t: Timed, w: WorkerId, act: WorkerAct)
    requires TCan(c, t, Loop(w, act)) && Tidy(t, w)
    ensures Tidy(TDo(c, t, Loop(w, act)), w)
  {
    hide Exec, WorkerCan, WorkerNext, WorkerCommand, Succeeds, HoldsList, SetsCurrent, ListOf, ListAfter, Culprit, Blamed;
    var k := t.q.workers[w];
    QueueStepLists(c.max, t.q, Work(w, act), w);
    LoopList(t.q.store, w, k, act);
    LoopCurrent(t.q.store, w, k, act);
    LoopBeats(c, t, w, act);
  }

  lemma LoopBeats(c: Config, t: Timed, w: WorkerId, act: WorkerAct)
    requires TCan(c, t, Loop(w, act)) && Tidy(t, w)
    ensures w in t.beatAt
  {
  }

  lemma TidyOther(c: Config, t: Timed, a: Tact, w: WorkerId)
    requires Clocks(c, t) && IsSafe(c)
    requires TCan(c, t, a) && Tidy(t, w) && !(a.Loop? && a.w == w)
    ensures Tidy(TDo(c, t, a), w)
  {
    var u := TDo(c, t, a);
    WorkersQueued(c, t, a, w);
    if a.Beat? {
      BeatLists(c, t, a.w, w);
    } else if TimedAction(a).Some? {
      QueueStepLists(c.max, t.q, TimedAction(a).value, w);
      ListsMoved(c, t, a, w);
    }
  }

  /** Which lists a timed step can change. */
  lemma ListsMoved(c: Config, t: Timed, a: Tact, w: WorkerId)
    requires TCan(c, t, a) && TimedAction(a).Some? && !(a.Loop? && a.w == w)
    ensures ListAfter(t.q.store, CommandOf(t.q, TimedAction(a).value), w) ==
            if a == TickDrain(w) && w !in t.q.store.alive then [] else ListOf(t.q.store, w)
  {
  }

  lemma TidyKept(c: Config, t: Timed, a: Tact)
    requires IsSafe(c) && Clocks(c, t) && AllTidy(t) && TCan(c, t, a)
    ensures AllTidy(TDo(c, t, a))
  {
    forall w ensures Tidy(TDo(c, t, a), w) {
      assert Tidy(t, w);
      if a.Loop? && a.w == w {
        TidyLoop(c, t, w, a.act);
      } else {
        TidyOther(c, t, a, w);
      }
    }
  }

  // ---- HandledNotDone ----

  lemma ExecDone(max: int, s: Store, c: Command)
    requires c.Move? ==> s.ready != []
    ensures Exec(max, s, c).done == s.done + (if c.AckTx? then {c.id} else {})
  {
    if c.DrainScript? {
      DrainedFrame(s, ListOf(s, c.w), max);
    }
  }

  /** Only an ack adds to done, and it adds the id its worker was handling. */
  lemma DoneAfter(c: Config, t: Timed, a: Tact)
    requires TCan(c, t, a)
    ensures var done := TDo(c, t, a).q.store.done;
            if a.Loop? && a.act.Ack? then
              Handling(PcOf(t, a.w), a.act.id) && done == t.q.store.done + {a.act.id}
            else done == t.q.store.done
  {
    hide Exec, Culprit, Blamed, ReaperAfter, MayWait;
    if TimedAction(a).Some? {
      LivenessCommands(t, c, a);
      ExecDone(c.max, t.q.store, CommandOf(t.q, TimedAction(a).value));
    }
  }

  /** How a loop changes under a timed step. */
  lemma PcAfter(c: Config, t: Timed, a: Tact, w: WorkerId)
    requires TCan(c, t, a)
    ensures var u := TDo(c, t, a);
            PcOf(u, w) ==
            if a.Loop? && a.w == w then WorkerNext(t.q.store, w, t.q.workers[w], a.act).pc
            else if a == Die(w) then Idle
            else PcOf(t, w)
  {
    WorkersQueued(c, t, a, w);
  }

  lemma NewlyHandling(c: Config, t: Timed, w: WorkerId, act: WorkerAct, id: TaskId)
    requires TCan(c, t, Loop(w, act))
    requires Handling(WorkerNext(t.q.store, w, t.q.workers[w], act).pc, id)
    ensures Handling(PcOf(t, w), id) || id !in t.q.store.done
    ensures !act.Ack?
  {
  }

  lemma NewlySkipping(c: Config, t: Timed, w: WorkerId, act: WorkerAct)
    requires TCan(c, t, Loop(w, act))
    ensures var pc := WorkerNext(t.q.store, w, t.q.workers[w], act).pc;
            pc.Skipping? ==> pc.id in t.q.store.done
  {
  }

  lemma OneHandler(c: Config, t: Timed, v: WorkerId, w: WorkerId, id: TaskId)
    requires Good(c, t) && Handling(PcOf(t, v), id) && Handling(PcOf(t, w), id)
    ensures v == w
  {
    hide Clocks, DrainedInTime, Protected, Accounted;
    assert Tidy(t, v) && Tidy(t, w) && Owned(c, t, id);
    assert Guards(t, v, id) && Guards(t, w, id);
  }

  lemma HandledKept(c: Config, t: Timed, a: Tact)
    requires Good(c, t) && TCan(c, t, a)
    ensures HandledNotDone(TDo(c, t, a))
  {
    hide TDo, Clocks, DrainedInTime, Protected, Accounted, WorkerNext, WorkerCan, Succeeds, SpotOf, ListOf, MayWait;
    var u := TDo(c, t, a);
    DoneAfter(c, t, a);
    forall w | PcOf(u, w).Skipping? ensures PcOf(u, w).id in u.q.store.done {
      PcAfter(c, t, a, w);
      if a.Loop? && a.w == w {
        NewlySkipping(c, t, w, a.act);
      }
    }
    forall w, id | Handling(PcOf(u, w), id) ensures id !in u.q.store.done {
      PcAfter(c, t, a, w);
      if a.Loop? && a.w == w {
        NewlyHandling(c, t, w, a.act, id);
      } else if a.Loop? && a.act.Ack? && a.act.id == id {
        OneHandler(c, t, w, a.w, id);
      }
    }
  }

  // ---- DrainedInTime ----

  lemma ListsAfter(c: Config, t: Timed, a: Tact, w: WorkerId)
    requires TCan(c, t, a) && !(a.Loop? && a.w == w)
    ensures ListOf(TDo(c, t, a).q.store, w) ==
            if a == TickDrain(w) && w !in t.q.store.alive then [] else ListOf(t.q.store, w)
  {
    if a.Beat? {
      BeatLists(c, t, a.w, w);
    } else if TimedAction(a).Some? {
      QueueStepLists(c.max, t.q, TimedAction(a).value, w);
      ListsMoved(c, t, a, w);
    }
  }

  lemma LeftBehind(c: Config, t: Timed, a: Tact, w: WorkerId)
    requires IsSafe(c) && Clocks(c, t) && AllTidy(t) && DrainedInTime(c, t) && TCan(c, t, a)
    requires var u := TDo(c, t, a); w !in u.q.workers && ListOf(u.q.store, w) != []
    ensures var u := TDo(c, t, a);
            && w in u.beatAt && u.tickAt <= u.beatAt[w] + 2000 * c.heartbeat
            && (u.reaper.Draining? && w !in u.reaper.todo ==> u.reaper.start <= u.beatAt[w] + 2000 * c.heartbeat)
  {
    hide Exec, WorkerNext, WorkerCan, WorkerCommand, Succeeds, Culprit, Blamed, HoldsList, SetsCurrent;
    assert Tidy(t, w);
    WorkersQueued(c, t, a, w);
    ListsAfter(c, t, a, w);
    assert a.TickScan? ==> w in t.q.store.processing.Keys;
  }

  lemma DrainedInTimeKept(c: Config, t: Timed, a: Tact)
    requires IsSafe(c) && Clocks(c, t) && AllTidy(t) && DrainedInTime(c, t) && TCan(c, t, a)
    ensures DrainedInTime(c, TDo(c, t, a))
  {
    var u := TDo(c, t, a);
    forall w | w !in u.q.workers && ListOf(u.q.store, w) != []
      ensures w in u.beatAt && u.tickAt <= u.beatAt[w] + 2000 * c.heartbeat
      ensures u.reaper.Draining? && w !in u.reaper.todo ==> u.reaper.start <= u.beatAt[w] + 2000 * c.heartbeat
    {
      LeftBehind(c, t, a, w);
    }
  }

  /** No guarded task is overdue: the heart of the timing argument. */
  lemma GuardedNotOverdue(c: Config, t: Timed, w: WorkerId, id: TaskId)
    requires IsSafe(c) && Clocks(c, t) && AllTidy(t) && DrainedInTime(c, t) && Owned(c, t, id)
    requires id !in t.q.store.done && Guards(t, w, id)
    ensures id !in Overdue(t.q.store, Unix(t.now))
  {
    assert Tidy(t, w);
    if id in t.q.store.inflight {
      var limit := t.beatAt[w] + 1000 * (2 * c.heartbeat + c.interval);
      assert t.now <= limit;
      UnixMono(t.now, limit);
      UnixShift(t.beatAt[w], 2 * c.heartbeat + c.interval);
    }
  }
}
