/**
  The queue machine and the pods together: a worker's runStage is the handshake of its own pod.
  Success is sound end to end, from the exit code of a stage child to the finalized flag.
*/
module EndToEnd {
  import opened Lists
  import opened Keyspace
  import opened Queue
  import opened Handshake
  import opened Settlement

  datatype Event =
    | InQueue(act: Action)
    | InPod(w: WorkerId, step: PodAct)

  datatype System = System(queue: State, pods: map<WorkerId, Pod>)

  const START := System(INIT, map[])

  function PodOf(s: System, w: WorkerId): Pod {
    if w in s.pods then s.pods[w] else EMPTY_POD
  }

  /** What a queue step means for its worker's pod: it enters, leaves or cleans up after runStage. */
  function PodSide(q: State, a: Action): Option<(WorkerId, PodAct)> {
    match a
    case Crash(w) => Some((w, Leave))
    case Work(w, Launch(id)) =>
      if w in q.workers && q.workers[w].pc.Fetched? then Some((w, Begin(id, q.workers[w].pc.env))) else None
    case Work(w, StageVerdict(_)) => Some((w, Leave))
    case Work(w, StageError) => Some((w, Leave))
    case Work(w, Ack(id, _, _, _, true)) => Some((w, Clean(id)))
    case Work(w, ClearCurrent) => Some((w, Leave))
    case _ => None
  }

  /** These pod steps happen only as the other side of a queue step. */
  predicate IsLinked(a: PodAct) {
    a.Begin? || a.Clean? || a.Leave?
  }

  predicate Possible(s: System, e: Event) {
    match e
    case InQueue(a) =>
      && Can(s.queue, a)
      && (PodSide(s.queue, a).Some? ==> PodCan(PodOf(s, PodSide(s.queue, a).value.0), PodSide(s.queue, a).value.1))
      && (a.Work? && a.act.StageVerdict? ==>
            var pc, f := s.queue.workers[a.w].pc, PodOf(s, a.w).framework;
            f == Verdict(pc.id, pc.env, a.act.success))
    case InPod(w, step) => !IsLinked(step) && PodCan(PodOf(s, w), step)
  }

  function Next(max: int, s: System, e: Event): System
    requires Possible(s, e)
  {
    match e
    case InQueue(a) =>
      var side := PodSide(s.queue, a);
      System(Do(max, s.queue, a),
             if side.None? then s.pods
             else s.pods[side.value.0 := PodDo(PodOf(s, side.value.0), side.value.1)])
    case InPod(w, step) => s.(pods := s.pods[w := PodDo(PodOf(s, w), step)])
  }

  function SystemRun(max: int, events: seq<Event>): Option<System>
    decreases |events|
  {
    if events == [] then Some(START)
    else
      var before := SystemRun(max, events[..|events| - 1]);
      var e := events[|events| - 1];
      if before.Some? && Possible(before.value, e) then Some(Next(max, before.value, e)) else None
  }

  /** The queue's own part of a run. */
  function QueueTrace(events: seq<Event>): seq<Action>
    decreases |events|
  {
    if events == [] then []
    else
      var e := events[|events| - 1];
      QueueTrace(events[..|events| - 1]) + (if e.InQueue? then [e.act] else [])
  }

  /** Every system run is a run of the queue machine, so all its theorems hold of it. */
  lemma {:induction false} ProjectsToQueue(max: int, events: seq<Event>)
    requires SystemRun(max, events).Some?
    ensures Run(max, QueueTrace(events)) == Some(SystemRun(max, events).value.queue)
    decreases |events|
  {
    if events != [] {
      ProjectsToQueue(max, events[..|events| - 1]);
      var e := events[|events| - 1];
      if e.InQueue? {
        var s := SystemRun(max, events[..|events| - 1]).value;
        var longer, t := Step(max, QueueTrace(events[..|events| - 1]), s.queue, e.act);
      } else {
        assert QueueTrace(events) == QueueTrace(events[..|events| - 1]);
      }
    }
  }

  /** A child in w's pod that read the whole of env for task id exited 0 during these events. */
  predicate StageAccepted(events: seq<Event>, w: WorkerId, id: TaskId, env: Envelope) {
    InPod(w, ChildExit(id, Some(Whole(env)), true)) in events
  }

  function AcceptedIn(events: seq<Event>, w: WorkerId): set<(TaskId, Envelope)> {
    set e <- events | e.InPod? && e.w == w && AcceptedBy(e.step) != {} :: (e.step.id, e.step.input.value.env)
  }

  /** The envelopes of the enqueued tasks. */
  function Payloads(s: Store): map<TaskId, Envelope> {
    map id | id in s.tasks && s.tasks[id].payload.Some? :: s.tasks[id].payload.value
  }

  lemma AcceptedGrows(events: seq<Event>, w: WorkerId)
    requires events != []
    ensures var e, before := events[|events| - 1], events[..|events| - 1];
            AcceptedIn(events, w) ==
            AcceptedIn(before, w) + (if e.InPod? && e.w == w then AcceptedBy(e.step) else {})
  {
    assert events == events[..|events| - 1] + [events[|events| - 1]];
  }

  lemma AcceptedMeans(events: seq<Event>, w: WorkerId, id: TaskId, env: Envelope)
    requires (id, env) in AcceptedIn(events, w)
    ensures StageAccepted(events, w, id, env)
  {
    var e :| e in events && e.InPod? && e.w == w && AcceptedBy(e.step) == {(id, env)};
    assert e == InPod(w, ChildExit(id, Some(Whole(env)), true));
  }

  ghost predicate PodsSound(s: System, events: seq<Event>) {
    forall w :: Sound(PodOf(s, w), Payloads(s.queue.store), AcceptedIn(events, w))
  }

  /** A worker about to ack a success has it from a child that accepted. */
  ghost predicate AcksSound(s: System, events: seq<Event>) {
    forall w, id, env :: w in s.queue.workers && s.queue.workers[w].pc == Acking(id, env, true) ==>
      StageAccepted(events, w, id, env)
  }

  /** Enqueues add envelopes for new ids and nothing takes one away. */
  lemma PayloadsGrow(max: int, s: Store, c: Command)
    requires c.Move? ==> s.ready != []
    requires c.EnqueueTx? ==> PayloadOf(s, c.id).None?
    ensures var p, q := Payloads(s), Payloads(Exec(max, s, c));
            forall id :: id in p ==> id in q && q[id] == p[id]
  {
    var t := Exec(max, s, c);
    hide Exec;
    forall id | id in Payloads(s) ensures id in Payloads(t) && Payloads(t)[id] == Payloads(s)[id] {
      PayloadKept(max, s, c, id);
    }
  }

  /** More enqueued tasks and more accepted pairs keep a pod sound. */
  lemma SoundGrows(p: Pod, pay1: map<TaskId, Envelope>, acc1: set<(TaskId, Envelope)>,
                   pay2: map<TaskId, Envelope>, acc2: set<(TaskId, Envelope)>)
    requires Sound(p, pay1, acc1) && acc1 <= acc2
    requires forall id :: id in pay1 ==> id in pay2 && pay2[id] == pay1[id]
    ensures Sound(p, pay2, acc2)
  {
  }

  lemma SideBegins(s: System, a: Action)
    requires Can(s.queue, a) && Faithful(s.queue) && PodSide(s.queue, a).Some?
    ensures var step := PodSide(s.queue, a).value.1;
            step.Begin? ==> step.id in Payloads(s.queue.store) && Payloads(s.queue.store)[step.id] == step.env
    ensures AcceptedBy(PodSide(s.queue, a).value.1) == {}
  {
    var step := PodSide(s.queue, a).value.1;
    if step.Begin? {
      assert Carries(s.queue.workers[a.w].pc, step.id, step.env);
      assert PayloadOf(s.queue.store, step.id) == Some(step.env);
    }
  }

  lemma PodStepSound(max: int, s: System, e: Event, events: seq<Event>, w: WorkerId)
    requires events != [] && e == events[|events| - 1] && e.InPod? && Possible(s, e)
    requires PodsSound(s, events[..|events| - 1])
    ensures Sound(PodOf(Next(max, s, e), w), Payloads(Next(max, s, e).queue.store), AcceptedIn(events, w))
  {
    hide Sound, AcceptedIn, Payloads, PodCan, PodDo, AcceptedBy;
    var before := events[..|events| - 1];
    AcceptedGrows(events, w);
    assert Sound(PodOf(s, w), Payloads(s.queue.store), AcceptedIn(before, w));
    assert AcceptedIn(before, w) + {} == AcceptedIn(before, w);
    if e.w == w {
      SoundKept(PodOf(s, w), e.step, Payloads(s.queue.store), AcceptedIn(before, w));
    }
  }

  lemma QueueStepSound(max: int, s: System, e: Event, events: seq<Event>, w: WorkerId)
    requires events != [] && e == events[|events| - 1] && e.InQueue? && Possible(s, e) && Faithful(s.queue)
    requires PodsSound(s, events[..|events| - 1])
    ensures Sound(PodOf(Next(max, s, e), w), Payloads(Next(max, s, e).queue.store), AcceptedIn(events, w))
  {
    hide Sound, AcceptedIn, Payloads, PodCan, PodDo, Can, Do, Faithful, AcceptedBy, PodSide;
    var before := events[..|events| - 1];
    var t := Next(max, s, e);
    var pay, side := Payloads(s.queue.store), PodSide(s.queue, e.act);
    AcceptedGrows(events, w);
    assert Sound(PodOf(s, w), pay, AcceptedIn(before, w));
    assert AcceptedIn(before, w) + {} == AcceptedIn(before, w);
    QueueSideGrows(max, s, e.act);
    if side.Some? && side.value.0 == w {
      SideBegins(s, e.act);
      SoundKept(PodOf(s, w), side.value.1, pay, AcceptedIn(before, w));
    }
    SoundGrows(PodOf(t, w), pay, AcceptedIn(before, w), Payloads(t.queue.store), AcceptedIn(events, w));
  }

  lemma PodsSoundKept(max: int, s: System, e: Event, events: seq<Event>, w: WorkerId)
    requires events != [] && e == events[|events| - 1] && Possible(s, e) && Faithful(s.queue)
    requires PodsSound(s, events[..|events| - 1])
    ensures Sound(PodOf(Next(max, s, e), w), Payloads(Next(max, s, e).queue.store), AcceptedIn(events, w))
  {
    hide PodsSound, Sound, Possible, Next, Faithful, AcceptedIn, Payloads;
    if e.InPod? {
      PodStepSound(max, s, e, events, w);
    } else {
      QueueStepSound(max, s, e, events, w);
    }
  }

  lemma QueueSideGrows(max: int, s: System, a: Action)
    requires Can(s.queue, a)
    ensures var p, q := Payloads(s.queue.store), Payloads(Do(max, s.queue, a).store);
            forall id :: id in p ==> id in q && q[id] == p[id]
  {
    EnqueueIsNew(s.queue, a);
    PayloadsGrow(max, s.queue.store, CommandOf(s.queue, a));
  }

  lemma AckingComesFrom(s: System, e: Event, w: WorkerId, id: TaskId, env: Envelope)
    requires Possible(s, e) && e.InQueue?
    requires w in WorkersAfter(s.queue, e.act) && WorkersAfter(s.queue, e.act)[w].pc == Acking(id, env, true)
    ensures || (w in s.queue.workers && s.queue.workers[w].pc == Acking(id, env, true))
            || PodOf(s, w).framework == Verdict(id, env, true)
  {
  }

  lemma AcksSoundKept(max: int, s: System, e: Event, events: seq<Event>)
    requires events != [] && e == events[|events| - 1] && Possible(s, e)
    requires PodsSound(s, events[..|events| - 1]) && AcksSound(s, events[..|events| - 1])
    ensures AcksSound(Next(max, s, e), events)
  {
    var before := events[..|events| - 1];
    var t := Next(max, s, e);
    assert events == before + [e];
    forall w, id, env | w in t.queue.workers && t.queue.workers[w].pc == Acking(id, env, true)
      ensures StageAccepted(events, w, id, env)
    {
      if e.InQueue? {
        AckingComesFrom(s, e, w, id, env);
        if PodOf(s, w).framework == Verdict(id, env, true) {
          assert Sound(PodOf(s, w), Payloads(s.queue.store), AcceptedIn(before, w));
          AcceptedMeans(before, w, id, env);
        }
      }
    }
  }

  lemma {:induction false} AlwaysSound(max: int, events: seq<Event>)
    requires SystemRun(max, events).Some?
    ensures PodsSound(SystemRun(max, events).value, events) && AcksSound(SystemRun(max, events).value, events)
    decreases |events|
  {
    if events != [] {
      var before := events[..|events| - 1];
      AlwaysSound(max, before);
      ProjectsToQueue(max, before);
      AlwaysFaithful(max, QueueTrace(before));
      var s := SystemRun(max, before).value;
      AcksSoundKept(max, s, events[|events| - 1], events);
      forall w ensures Sound(PodOf(SystemRun(max, events).value, w),
                             Payloads(SystemRun(max, events).value.queue.store), AcceptedIn(events, w))
      {
        PodsSoundKept(max, s, events[|events| - 1], events, w);
      }
    }
  }

  /**
    Main result. In every run of all the processes, an ack with success for a task comes after the
    exit 0 of a stage child that, in that worker's pod, read for that task exactly the stored envelope.
  */
  lemma SuccessIsSound(max: int, events: seq<Event>, n: nat)
    requires SystemRun(max, events).Some? && n < |events|
    requires events[n].InQueue? && IsSuccess(events[n].act)
    ensures var act := events[n].act.act;
            && StageAccepted(events[..n], events[n].act.w, act.id, act.env)
            && SystemRun(max, events[..n]).Some?
            && PayloadOf(SystemRun(max, events[..n]).value.queue.store, act.id) == Some(act.env)
  {
    PrefixRuns(max, events, n);
    PrefixRuns(max, events, n + 1);
    assert events[..n + 1][..n] == events[..n];
    AlwaysSound(max, events[..n]);
    ProjectsToQueue(max, events[..n]);
    AlwaysFaithful(max, QueueTrace(events[..n]));
    var s := SystemRun(max, events[..n]).value;
    CommandsOnSwept(s.queue, events[n].act);
    var act := events[n].act.act;
    assert Carries(s.queue.workers[events[n].act.w].pc, act.id, act.env);
  }

  lemma {:induction false} PrefixRuns(max: int, events: seq<Event>, n: nat)
    requires SystemRun(max, events).Some? && n <= |events|
    ensures SystemRun(max, events[..n]).Some?
    decreases |events|
  {
    if n < |events| {
      PrefixRuns(max, events[..|events| - 1], n);
      assert events[..|events| - 1][..n] == events[..n];
    } else {
      assert events[..n] == events;
    }
  }

  lemma {:induction false} QueueTraceMember(events: seq<Event>, a: Action)
    requires a in QueueTrace(events)
    ensures InQueue(a) in events
    decreases |events|
  {
    if events != [] {
      var e := events[|events| - 1];
      assert events == events[..|events| - 1] + [e];
      if a in QueueTrace(events[..|events| - 1]) {
        QueueTraceMember(events[..|events| - 1], a);
      }
    }
  }

  /** Main result: an order is finalized only if a stage child accepted the envelope that carries it. */
  lemma FinalizedIsSound(max: int, events: seq<Event>, o: OrderId)
    requires SystemRun(max, events).Some?
    requires IsFinalized(SystemRun(max, events).value.queue.store, o)
    ensures exists w: WorkerId, id: TaskId, env: Envelope ::
              && env.order == o && env.acceptable && StageAccepted(events, w, id, env)
              && InQueue(Enqueue(id, env)) in events
  {
    ProjectsToQueue(max, events);
    FinalizedWasAcked(max, QueueTrace(events));
    var a :| a in QueueTrace(events) && IsSuccess(a) && a.act.env.order == o;
    QueueTraceMember(events, a);
    var n :| 0 <= n < |events| && events[n] == InQueue(a);
    SuccessIsSound(max, events, n);
    assert events[..n] <= events;
    assert StageAccepted(events, a.w, a.act.id, a.act.env);
    AcceptableExit(max, events, a.w, a.act.id, a.act.env);
    ProjectsToQueue(max, events[..n]);
    PayloadWasEnqueued(max, QueueTrace(events[..n]), a.act.id, a.act.env);
    QueueTraceMember(events[..n], Enqueue(a.act.id, a.act.env));
  }

  /** A stored envelope has been enqueued under its id. */
  lemma {:induction false} PayloadWasEnqueued(max: int, trace: seq<Action>, id: TaskId, env: Envelope)
    requires Run(max, trace).Some? && PayloadOf(Run(max, trace).value.store, id) == Some(env)
    ensures Enqueue(id, env) in trace
    decreases |trace|
  {
    hide Exec, PayloadOf, CommandOf, Can;
    if trace == [] {
      NothingStored(id);
    } else {
      var before, a := trace[..|trace| - 1], trace[|trace| - 1];
      assert trace == before + [a];
      var s := Run(max, before).value;
      EnqueueIsNew(s, a);
      PayloadKept(max, s.store, CommandOf(s, a), id);
      if a != Enqueue(id, env) {
        PayloadWasEnqueued(max, before, id, env);
      }
    }
  }

  lemma NothingStored(id: TaskId)
    ensures PayloadOf(INIT.store, id).None?
  {
  }

  /** A child exits 0 only on an envelope the stage accepts. */
  lemma {:induction false} AcceptableExit(max: int, events: seq<Event>, w: WorkerId, id: TaskId, env: Envelope)
    requires SystemRun(max, events).Some? && StageAccepted(events, w, id, env)
    ensures env.acceptable
    decreases |events|
  {
    var e := events[|events| - 1];
    assert events == events[..|events| - 1] + [e];
    if e != InPod(w, ChildExit(id, Some(Whole(env)), true)) {
      AcceptableExit(max, events[..|events| - 1], w, id, env);
    }
  }
}
