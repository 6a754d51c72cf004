/**
  No worker ever waits for anything but its stage: within the timing assumptions it can always go on to
  the end of its round at once, and the task it is on is done if the stage decides.
*/
module Finishing {
  import opened Lists
  import opened Keyspace
  import opened Queue
  import opened Timed
  import opened Known
  import opened Progress

  /** No ZADD has failed, and nothing is there that was not enqueued. */
  ghost predicate Manned(t: Timed) {
    AllKnown(t.q) && forall w <- t.q.workers :: !t.q.workers[w].pc.Dropping?
  }

  lemma QueueManned(c: Config, t: Timed, a: Tact)
    requires Manned(t) && TCan(c, t, a) && !a.Beat?
    ensures Manned(TDo(c, t, a))
  {
    hide AllKnown, KnownStore, Exec, WorkerCommand, SweepCan, SweepCommand, SweepNext, MayWait, Culprit, Blamed, ReaperAfter;
    if TimedAction(a).Some? {
      AllKnownKept(c.max, t.q, TimedAction(a).value);
    }
    forall w <- TDo(c, t, a).q.workers
      ensures !TDo(c, t, a).q.workers[w].pc.Dropping?
    {
      WorkersQueued(c, t, a, w);
    }
  }

  lemma BeatManned(c: Config, t: Timed, w: WorkerId)
    requires Manned(t) && TCan(c, t, Beat(w))
    ensures Manned(TDo(c, t, Beat(w)))
  {
    hide KnownStore, Culprit, Blamed;
    var s, k := t.q.store, t.q.workers[w];
    var deadline := Unix(t.now) + c.visibility;
    assert KnownWorker(s, k);
    ExecKnown(c.max, s, SetAlive(w));
    if k.current.Some? {
      ExecKnown(c.max, s.(alive := s.alive + {w}), Extend(k.current.value, deadline));
    }
    var u := TDo(c, t, Beat(w));
    forall v <- u.q.workers
      ensures KnownWorker(u.q.store, u.q.workers[v])
    {
      assert KnownWorker(s, t.q.workers[v]);
    }
  }

  lemma {:induction false} AlwaysManned(c: Config, trace: seq<Tact>, t: Timed)
    requires TRun(c, trace) == Some(t)
    ensures Manned(t)
    decreases |trace|
  {
    hide Manned, TCan, TDo;
    if trace == [] {
      DawnManned();
    } else {
      var last := |trace| - 1;
      var before := TRun(c, trace[..last]).value;
      AlwaysManned(c, trace[..last], before);
      if trace[last].Beat? {
        BeatManned(c, before, trace[last].w);
      } else {
        QueueManned(c, before, trace[last]);
      }
    }
  }

  lemma DawnManned()
    ensures Manned(DAWN)
  {
  }

  // ---- one worker ----

  /** What a loop does next, when the stage decides as verdict says. */
  function NextAct(s: Store, pc: Pc, deadline: int, verdict: Option<bool>): WorkerAct
    requires !pc.Idle? && !pc.Dropping?
  {
    match pc
    case Claimed(id) => if id in s.done then GateDone else GateOpen
    case Skipping(_) => SkipRemove(true)
    case Gated(_) => AddInflight(deadline)
    case Added(_) => SetCurrent
    case Watched(_) => Fetch
    case Fetched(id, _) => Launch(id)
    case Staging(_, _) => if verdict.Some? then StageVerdict(verdict.value) else StageError
    case Acking(id, env, success) => Ack(id, env, success, true, true)
    case Abandoning(_) => Abandon(true)
    case Returning(_) => ClearCurrent
  }

  function NextStep(c: Config, t: Timed, w: WorkerId, verdict: Option<bool>): Tact
    requires w in t.q.workers && !t.q.workers[w].pc.Idle? && !t.q.workers[w].pc.Dropping?
  {
    var pc := t.q.workers[w].pc;
    if pc.Gated? && w !in t.stamp then Compute(w)
    else Loop(w, NextAct(t.q.store, pc, if w in t.stamp then Unix(t.stamp[w]) + c.visibility else 0, verdict))
  }

  function StepsLeft(pc: Pc, stamped: bool): nat {
    match pc
    case Idle => 0
    case Claimed(_) => 11
    case Skipping(_) => 1
    case Gated(_) => if stamped then 9 else 10
    case Dropping(_, _) => 1
    case Added(_) => 8
    case Watched(_) => 7
    case Fetched(_, _) => 6
    case Staging(_, _) => 5
    case Acking(_, _, _) => 4
    case Abandoning(_) => 4
    case Returning(_) => 3
  }

  /** On its way to have the task done. */
  predicate WillDo(pc: Pc, verdict: Option<bool>) {
    || pc.Acking?
    || (verdict.Some? && (pc.Claimed? || pc.Gated? || pc.Added? || pc.Watched? || pc.Fetched? || pc.Staging?))
  }

  /** The command of such a step takes nothing out of done, and an ack puts its task there. */
  lemma DoneGrows(max: int, s: Store, w: WorkerId, k: Worker, act: WorkerAct)
    requires WorkerCan(s, w, k, act)
    ensures s.done <= Exec(max, s, WorkerCommand(w, k, act)).done
    ensures act.Ack? && act.applied ==> act.id in Exec(max, s, WorkerCommand(w, k, act)).done
  {
    hide Drained, Expired, Enqueued;
  }

  lemma ActGoes(s: Store, w: WorkerId, k: Worker, deadline: int, verdict: Option<bool>, stamped: bool)
    requires !k.pc.Idle? && !k.pc.Dropping? && TaskOf(s, k.pc.id).payload.Some? && (k.pc.Gated? ==> stamped)
    ensures var act := NextAct(s, k.pc, deadline, verdict);
            && WorkerCan(s, w, k, act) && Succeeds(act) && !act.Claim?
            && (act.AddInflight? ==> k.pc.Gated? && act.deadline == deadline)
            && (k.pc.Acking? ==> act.Ack? && act.applied && act.id == k.pc.id)
  {
    hide Exec, WorkerNext;
  }

  lemma ActLeadsOn(s: Store, w: WorkerId, k: Worker, deadline: int, verdict: Option<bool>, stamped: bool)
    requires !k.pc.Idle? && !k.pc.Dropping? && (k.pc.Gated? ==> stamped)
    requires WorkerCan(s, w, k, NextAct(s, k.pc, deadline, verdict))
    ensures var act := NextAct(s, k.pc, deadline, verdict);
            var n := WorkerNext(s, w, k, act).pc;
            && StepsLeft(n, stamped && !act.GateOpen?) < StepsLeft(k.pc, stamped)
            && (WillDo(k.pc, verdict) ==> k.pc.id in s.done || k.pc.Acking? || (WillDo(n, verdict) && n.id == k.pc.id))
  {
    hide WorkerCan;
  }

  /** The step can be taken, and leads on. */
  lemma StepGoes(c: Config, t: Timed, w: WorkerId, verdict: Option<bool>)
    requires Manned(t) && w in t.q.workers && !t.q.workers[w].pc.Idle?
    requires !t.q.workers[w].pc.Dropping?
    ensures var a := NextStep(c, t, w, verdict);
            var pc, s := t.q.workers[w].pc, t.q.store;
            && TCan(c, t, a)
            && (a.Loop? ==>
                  var k := WorkerNext(s, w, t.q.workers[w], a.act);
                  && StepsLeft(k.pc, w in t.stamp && !a.act.GateOpen?) < StepsLeft(pc, w in t.stamp)
                  && (WillDo(pc, verdict) ==> pc.id in s.done || pc.Acking? || (WillDo(k.pc, verdict) && k.pc.id == pc.id))
                  && (pc.Acking? ==> a.act.Ack? && a.act.applied && a.act.id == pc.id))
            && (!a.Loop? ==> a == Compute(w) && pc.Gated? && w !in t.stamp)
  {
    hide KnownStore, Exec, MayWait, WorkerCan, WorkerNext, Succeeds, NextAct, StepsLeft, WillDo;
    var s, k := t.q.store, t.q.workers[w];
    assert KnownWorker(s, k);
    PayloadThere(s, k.pc.id);
    if !(k.pc.Gated? && w !in t.stamp) {
      var deadline := if w in t.stamp then Unix(t.stamp[w]) + c.visibility else 0;
      ActGoes(s, w, k, deadline, verdict, w in t.stamp);
      ActLeadsOn(s, w, k, deadline, verdict, w in t.stamp);
    }
  }

  lemma PayloadThere(s: Store, id: TaskId)
    requires KnownStore(s) && id in s.tasks
    ensures TaskOf(s, id).payload.Some?
  {
    assert HasPayload(s, id);
  }

  /** What it changes of the rest. */
  lemma OnlyThisWorker(c: Config, t: Timed, w: WorkerId, a: Tact)
    requires TCan(c, t, a) && (a == Compute(w) || (a.Loop? && a.w == w))
    ensures var u := TDo(c, t, a);
            && u.now == t.now && u.q.workers.Keys == t.q.workers.Keys
            && (forall v <- t.q.workers :: v != w ==> u.q.workers[v] == t.q.workers[v])
            && (w in u.stamp <==> a.Compute? || (w in t.stamp && !a.act.GateOpen?))
            && (a.Compute? ==> u.q == t.q)
            && (a.Loop? ==> u.q.workers[w] == WorkerNext(t.q.store, w, t.q.workers[w], a.act))
            && t.q.store.done <= u.q.store.done
            && (a.Loop? && a.act.Ack? && a.act.applied ==> a.act.id in u.q.store.done)
  {
    hide Exec, WorkerCommand, MayWait, Culprit, Blamed, ReaperAfter, WorkerNext;
    if a.Loop? {
      DoneGrows(c.max, t.q.store, w, t.q.workers[w], a.act);
    }
  }

  lemma {:induction false} FinishesFrom(c: Config, before: seq<Tact>, trace: seq<Tact>, t: Timed, w: WorkerId, verdict: Option<bool>)
      returns (longer: seq<Tact>, u: Timed)
    requires IsSafe(c) && Reached(c, before, trace, t) && w in t.q.workers
    ensures Reached(c, before, longer, u) && u.now == t.now && u.q.workers.Keys == t.q.workers.Keys
    ensures u.q.workers[w].pc.Idle? && forall v <- t.q.workers :: v != w ==> u.q.workers[v] == t.q.workers[v]
    ensures t.q.store.done <= u.q.store.done
    ensures WillDo(t.q.workers[w].pc, verdict) ==> t.q.workers[w].pc.id in u.q.store.done
    decreases StepsLeft(t.q.workers[w].pc, w in t.stamp)
  {
    hide Reached, Manned, TCan, TDo, WorkerNext, NextStep;
    longer, u := trace, t;
    if !t.q.workers[w].pc.Idle? {
      ReachedManned(c, before, trace, t, w);
      var a := NextStep(c, t, w, verdict);
      StepGoes(c, t, w, verdict);
      NextIs(c, t, w, verdict);
      OnlyThisWorker(c, t, w, a);
      longer, u := Goes(c, before, trace, t, a);
      longer, u := FinishesFrom(c, before, longer, u, w, verdict);
    }
  }

  lemma NextIs(c: Config, t: Timed, w: WorkerId, verdict: Option<bool>)
    requires w in t.q.workers && !t.q.workers[w].pc.Idle? && !t.q.workers[w].pc.Dropping?
    ensures var a := NextStep(c, t, w, verdict);
            a == Compute(w) || (a.Loop? && a.w == w)
  {
  }

  lemma ReachedManned(c: Config, before: seq<Tact>, trace: seq<Tact>, t: Timed, w: WorkerId)
    requires Reached(c, before, trace, t) && w in t.q.workers
    ensures Manned(t) && !t.q.workers[w].pc.Dropping?
  {
    hide TRun, Clocks, AllKnown;
    AlwaysManned(c, trace, t);
  }

  /**
    Main result: after every run within the timing assumptions, each running worker can at once go on to
    the end of its round, nobody else moving; if the stage decides, the task it has claimed is done then.
  */
  lemma Finishes(c: Config, trace: seq<Tact>, t: Timed, w: WorkerId, verdict: Option<bool>)
      returns (longer: seq<Tact>, u: Timed)
    requires IsSafe(c) && TRun(c, trace) == Some(t) && w in t.q.workers
    ensures trace <= longer && TRun(c, longer) == Some(u) && u.now == t.now
    ensures u.q.workers.Keys == t.q.workers.Keys && forall v <- t.q.workers :: v != w ==> u.q.workers[v] == t.q.workers[v]
    ensures u.q.workers[w].pc.Idle?
    ensures WillDo(t.q.workers[w].pc, verdict) ==> t.q.workers[w].pc.id in u.q.store.done
  {
    hide Clocks;
    ClocksAlways(c, trace, t);
    longer, u := FinishesFrom(c, trace, trace, t, w, verdict);
  }
}
