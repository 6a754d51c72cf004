/**
  An order that the stage accepts can be settled: a run of all the processes from the enqueue of its task
  to the finalized flag. With what is sound, that makes acceptance exactly what settlement takes.
*/
module Delivery {
  import opened Lists
  import opened Keyspace
  import opened Queue
  import opened Handshake
  import opened Rejection
  import opened Acceptance
  import opened EndToEnd

  // ---- runs of worker 0 with its pod ----

  lemma Happens(max: int, events: seq<Event>, s: System, e: Event) returns (longer: seq<Event>, t: System)
    requires SystemRun(max, events) == Some(s) && Possible(s, e)
    ensures longer == events + [e] && t == Next(max, s, e) && SystemRun(max, longer) == Some(t)
  {
    longer, t := events + [e], Next(max, s, e);
    assert longer[..|events|] == events;
  }

  /** Nothing but one task has been enqueued. */
  ghost predicate OneOrder(events: seq<Event>, id: TaskId, env: Envelope) {
    forall e <- events :: e.InQueue? && e.act.Enqueue? ==> e.act == Enqueue(id, env)
  }

  /** Worker 0 alone, its loop, the store, and its pod. */
  ghost predicate Alone0(max: int, events: seq<Event>, s: System, st: Store, k: Worker, pod: Pod) {
    SystemRun(max, events) == Some(s) && s.queue == State(st, map[0 := k], map[]) && PodOf(s, 0) == pod
  }

  /** What a step of the loop means for the pod. */
  function SideOf(k: Worker, act: WorkerAct): Option<PodAct> {
    match act
    case Launch(id) => if k.pc.Fetched? then Some(Begin(id, k.pc.env)) else None
    case StageVerdict(_) => Some(Leave)
    case StageError => Some(Leave)
    case ClearCurrent => Some(Leave)
    case Ack(id, _, _, _, replied) => if replied then Some(Clean(id)) else None
    case _ => None
  }

  /** The loop may take the step, and so may the pod. */
  predicate MayStep(st: Store, k: Worker, pod: Pod, act: WorkerAct) {
    && WorkerCan(st, 0, k, act)
    && (SideOf(k, act).Some? ==> PodCan(pod, SideOf(k, act).value))
    && (act.StageVerdict? ==> pod.framework == Verdict(k.pc.id, k.pc.env, act.success))
  }

  lemma StepIsPossible(s: System, st: Store, k: Worker, pod: Pod, act: WorkerAct)
    requires s.queue == State(st, map[0 := k], map[]) && PodOf(s, 0) == pod && MayStep(st, k, pod, act)
    ensures Possible(s, InQueue(Work(0, act)))
    ensures PodSide(s.queue, Work(0, act)) == if SideOf(k, act).Some? then Some((0, SideOf(k, act).value)) else None
  {
    hide PodCan;
  }

  lemma WorkerStep(max: int, events: seq<Event>, s: System, st: Store, k: Worker, pod: Pod, act: WorkerAct,
                   id: TaskId, env: Envelope)
      returns (longer: seq<Event>, t: System)
    requires Alone0(max, events, s, st, k, pod) && OneOrder(events, id, env) && MayStep(st, k, pod, act)
    ensures OneOrder(longer, id, env)
    ensures Alone0(max, longer, t, Exec(max, st, WorkerCommand(0, k, act)), WorkerNext(st, 0, k, act),
                   if SideOf(k, act).Some? then PodDo(pod, SideOf(k, act).value) else pod)
  {
    hide SystemRun, Exec, WorkerNext, WorkerCommand, PodCan, PodDo, SideOf, Possible, PodSide;
    StepIsPossible(s, st, k, pod, act);
    longer, t := Happens(max, events, s, InQueue(Work(0, act)));
    QueueAfter(max, s, st, k, act);
    PodAfter(max, s, Work(0, act));
  }

  lemma QueueAfter(max: int, s: System, st: Store, k: Worker, act: WorkerAct)
    requires s.queue == State(st, map[0 := k], map[]) && WorkerCan(st, 0, k, act)
    ensures Can(s.queue, Work(0, act))
    ensures Do(max, s.queue, Work(0, act)) ==
            State(Exec(max, st, WorkerCommand(0, k, act)), map[0 := WorkerNext(st, 0, k, act)], map[])
  {
    hide Exec, WorkerNext, WorkerCommand, WorkerCan;
    assert WorkersAfter(s.queue, Work(0, act)) == map[0 := WorkerNext(st, 0, k, act)];
  }

  lemma PodAfter(max: int, s: System, a: Action)
    requires Possible(s, InQueue(a))
    ensures Next(max, s, InQueue(a)).queue == Do(max, s.queue, a)
    ensures var side := PodSide(s.queue, a);
            PodOf(Next(max, s, InQueue(a)), 0) ==
            if side.Some? && side.value.0 == 0 then PodDo(PodOf(s, 0), side.value.1) else PodOf(s, 0)
  {
    hide Do, PodDo, PodCan, PodSide, Can;
  }

  // ---- the pod's own steps ----

  /** In an undisturbed attempt the pod does nothing that the queue has a part in. */
  lemma {:induction false} NoLinkedSteps(start: Pod, acts: seq<PodAct>, id: TaskId)
    requires PodFrom(start, acts).Some? && Undisturbed(start, acts, id, {}) && CarriesEnv(start.framework)
    ensures CarriesEnv(PodFrom(start, acts).value.framework) && forall a <- acts :: !IsLinked(a)
    decreases |acts|
  {
    hide PodDo, PodCan;
    if acts != [] {
      var before, a := acts[..|acts| - 1], acts[|acts| - 1];
      assert acts == before + [a];
      NoLinkedSteps(start, before, id);
      StillCarries(PodFrom(start, before).value, a, id);
    }
  }

  lemma StillCarries(p: Pod, a: PodAct, id: TaskId)
    requires PodCan(p, a) && CarriesEnv(p.framework) && !Disturbs(p, a, id)
    ensures CarriesEnv(PodDo(p, a).framework) && !IsLinked(a)
  {
  }

  lemma {:induction false} PodSteps(max: int, events: seq<Event>, s: System, st: Store, k: Worker, pod: Pod,
                                    acts: seq<PodAct>, id: TaskId, env: Envelope)
      returns (longer: seq<Event>, t: System)
    requires Alone0(max, events, s, st, k, pod) && OneOrder(events, id, env)
    requires PodFrom(pod, acts).Some? && forall a <- acts :: !IsLinked(a)
    ensures Alone0(max, longer, t, st, k, PodFrom(pod, acts).value) && OneOrder(longer, id, env)
    decreases |acts|
  {
    hide SystemRun, PodCan, PodDo, IsLinked;
    longer, t := events, s;
    if acts != [] {
      var before, a := acts[..|acts| - 1], acts[|acts| - 1];
      assert acts == before + [a];
      longer, t := PodSteps(max, events, s, st, k, pod, before, id, env);
      longer, t := Happens(max, longer, t, InPod(0, a));
    }
  }

  // ---- from the enqueue to the ack ----

  /** What matters of the store while worker 0 has the only task. */
  ghost predicate InHand(st: Store, id: TaskId, env: Envelope) {
    && st.done == {} && st.pending == {} && st.finalized == map[env.order := false]
    && TaskOf(st, id).payload == Some(env)
  }

  /** A worker has started and the task has been enqueued. */
  lemma Enqueued0(max: int, id: TaskId, env: Envelope) returns (events: seq<Event>, s: System, st: Store)
    requires env.order != ""
    ensures Alone0(max, events, s, st, Worker(Idle, None, None), EMPTY_POD) && OneOrder(events, id, env)
    ensures InHand(st, id, env) && st.ready == [id]
  {
    NoEvents(max);
    hide SystemRun, WorkerCan, WorkerCommand, WorkerNext, SweepCan, SweepCommand, SweepNext, PodCan, PodDo, OneOrder;
    events, s := Happens(max, [], START, InQueue(Start(0)));
    assert s.queue == State(Keyspace.EMPTY, map[0 := Worker(Idle, None, None)], map[]);
    events, s := Happens(max, events, s, InQueue(Enqueue(id, env)));
    st := s.queue.store;
    assert [] + [id] == [id];
    TwoEvents(id, env);
  }

  lemma NoEvents(max: int)
    ensures SystemRun(max, []) == Some(START)
  {
  }

  lemma TwoEvents(id: TaskId, env: Envelope)
    ensures OneOrder([] + [InQueue(Start(0))] + [InQueue(Enqueue(id, env))], id, env)
  {
  }

  /** The worker takes it and reads its payload. */
  lemma Fetched0(max: int, id: TaskId, env: Envelope) returns (events: seq<Event>, s: System, st: Store)
    requires env.order != ""
    ensures Alone0(max, events, s, st, Worker(Fetched(id, env), Some(id), None), EMPTY_POD) && OneOrder(events, id, env)
    ensures InHand(st, id, env)
  {
    hide Alone0, OneOrder, PodCan, PodDo, Acked, Drained, Expired, Enqueued, Extended, Removed;
    events, s, st := Enqueued0(max, id, env);
    events, s := WorkerStep(max, events, s, st, Worker(Idle, None, None), EMPTY_POD, Claim(id), id, env);
    st := Moved(st, 0);
    events, s := WorkerStep(max, events, s, st, Worker(Claimed(id), None, None), EMPTY_POD, GateOpen, id, env);
    events, s := WorkerStep(max, events, s, st, Worker(Gated(id), None, None), EMPTY_POD, AddInflight(0), id, env);
    st := Scored(st, id, 0);
    events, s := WorkerStep(max, events, s, st, Worker(Added(id), None, None), EMPTY_POD, SetCurrent, id, env);
    events, s := WorkerStep(max, events, s, st, Worker(Watched(id), Some(id), None), EMPTY_POD, Fetch, id, env);
  }

  /** The stage accepts it. */
  lemma Judged0(max: int, id: TaskId, env: Envelope) returns (events: seq<Event>, s: System, st: Store, pod: Pod)
    requires env.order != "" && env.acceptable
    ensures Alone0(max, events, s, st, Worker(Staging(id, env), Some(id), None), pod) && OneOrder(events, id, env)
    ensures InHand(st, id, env) && pod.framework == Verdict(id, env, true)
  {
    hide Alone0, OneOrder, Exec, Going, InHand;
    events, s, st := Fetched0(max, id, env);
    assert EMPTY_POD.framework.Off?;
    events, s := WorkerStep(max, events, s, st, Worker(Fetched(id, env), Some(id), None), EMPTY_POD, Launch(id), id, env);
    ExecNothing(max, st);
    var acts;
    acts, pod := Succeeds(EMPTY_POD, id, env);
    GoingMeans(PodDo(EMPTY_POD, Begin(id, env)), acts, pod, id, env);
    NoLinkedSteps(PodDo(EMPTY_POD, Begin(id, env)), acts, id);
    events, s := PodSteps(max, events, s, st, Worker(Staging(id, env), Some(id), None), PodDo(EMPTY_POD, Begin(id, env)),
                          acts, id, env);
  }

  lemma ExecNothing(max: int, st: Store)
    ensures Exec(max, st, Nop) == st
  {
  }

  lemma GoingMeans(start: Pod, acts: seq<PodAct>, p: Pod, id: TaskId, env: Envelope)
    requires Going(start, acts, p, id, env, {})
    ensures PodFrom(start, acts) == Some(p) && Undisturbed(start, acts, id, {})
  {
  }

  lemma AckSettles(st: Store, id: TaskId, env: Envelope)
    requires InHand(st, id, env) && env.order != ""
    ensures var t := Acked(st, 0, id, env.order, true); t.pending == {env.order} && t.finalized == map[env.order := false]
  {
    hide RemoveFirst;
  }

  lemma AckCommand(max: int, st: Store, id: TaskId, env: Envelope)
    ensures var k, act := Worker(Acking(id, env, true), Some(id), None), Ack(id, env, true, true, true);
            && Exec(max, st, WorkerCommand(0, k, act)) == Acked(st, 0, id, env.order, true)
            && SideOf(k, act) == Some(Clean(id))
  {
    hide Acked;
  }

  /** And the worker acks it. */
  lemma Acked0(max: int, id: TaskId, env: Envelope) returns (events: seq<Event>, s: System)
    requires env.order != "" && env.acceptable
    ensures SystemRun(max, events) == Some(s) && OneOrder(events, id, env) && s.queue.sweepers == map[]
    ensures s.queue.store.pending == {env.order} && s.queue.store.finalized == map[env.order := false]
  {
    hide SystemRun, OneOrder, Exec, WorkerCommand, InHand, Acked;
    var st, pod;
    events, s, st, pod := Judged0(max, id, env);
    ExecNothing(max, st);
    assert WorkerCommand(0, Worker(Staging(id, env), Some(id), None), StageVerdict(true)) == Nop by {
      VerdictIsNoCommand(id, env);
    }
    events, s := WorkerStep(max, events, s, st, Worker(Staging(id, env), Some(id), None), pod, StageVerdict(true), id, env);
    AckSettles(st, id, env);
    AckCommand(max, st, id, env);
    var ack := Ack(id, env, true, true, true);
    events, s := WorkerStep(max, events, s, st, Worker(Acking(id, env, true), Some(id), None), PodDo(pod, Leave), ack, id, env);
  }

  lemma VerdictIsNoCommand(id: TaskId, env: Envelope)
    ensures WorkerCommand(0, Worker(Staging(id, env), Some(id), None), StageVerdict(true)) == Nop
  {
  }

  /** A sweeper finalizes its order. */
  lemma Finalized0(max: int, id: TaskId, env: Envelope) returns (events: seq<Event>, s: System)
    requires env.order != "" && env.acceptable
    ensures SystemRun(max, events) == Some(s) && OneOrder(events, id, env) && IsFinalized(s.queue.store, env.order)
  {
    hide SystemRun, OneOrder, WorkerCan, WorkerCommand, WorkerNext, Acked, Drained, Expired, Enqueued, Extended, Moved,
      Removed, Scored, PodCan, PodDo;
    events, s := Acked0(max, id, env);
    events, s := SweepStep(max, events, s, Members, id, env);
    events, s := SweepStep(max, events, s, Visit(env.order), id, env);
    events, s := SweepStep(max, events, s, WriteFlag(env.order, true, true), id, env);
  }

  lemma SweepStep(max: int, events: seq<Event>, s: System, a: SweepAct, id: TaskId, env: Envelope)
      returns (longer: seq<Event>, t: System)
    requires SystemRun(max, events) == Some(s) && OneOrder(events, id, env) && SweepCan(s.queue.store, SweeperOf(s.queue, 0), a)
    ensures SystemRun(max, longer) == Some(t) && OneOrder(longer, id, env)
    ensures t.queue.store == Exec(max, s.queue.store, SweepCommand(SweeperOf(s.queue, 0), a))
    ensures SweeperOf(t.queue, 0) == SweepNext(s.queue.store, SweeperOf(s.queue, 0), a)
  {
    hide SystemRun, Exec, SweepCan, SweepCommand, SweepNext, PodCan, PodDo;
    longer, t := Happens(max, events, s, InQueue(Sweep(0, a)));
  }

  // ---- exactly ----

  /** In some run of all the processes, with no other order enqueued, the task's order ends up finalized. */
  ghost predicate CanSettle(max: int, id: TaskId, env: Envelope) {
    exists events: seq<Event> | SystemRun(max, events).Some? && OneOrder(events, id, env) ::
      IsFinalized(SystemRun(max, events).value.queue.store, env.order)
  }

  /**
    Main result: the order of a task can be settled if and only if the stage accepts its envelope.
  */
  lemma SettledIff(max: int, id: TaskId, env: Envelope)
    requires env.order != ""
    ensures CanSettle(max, id, env) <==> env.acceptable
  {
    hide SystemRun, IsFinalized, OneOrder;
    if env.acceptable {
      var events, s := Finalized0(max, id, env);
    }
    if CanSettle(max, id, env) {
      var events: seq<Event> :| SystemRun(max, events).Some? && OneOrder(events, id, env)
                                && IsFinalized(SystemRun(max, events).value.queue.store, env.order);
      OnlyAcceptable(max, events, id, env);
    }
  }

  lemma OnlyAcceptable(max: int, events: seq<Event>, id: TaskId, env: Envelope)
    requires SystemRun(max, events).Some? && OneOrder(events, id, env)
    requires IsFinalized(SystemRun(max, events).value.queue.store, env.order)
    ensures env.acceptable
  {
    hide SystemRun, IsFinalized, StageAccepted;
    FinalizedIsSound(max, events, env.order);
  }
}
