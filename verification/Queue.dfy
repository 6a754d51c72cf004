/**
  The work queue and the settlement sweepers as one state machine. A step is one Redis command,
  transaction or script, or one in-memory move of a worker; steps of any number of workers,
  coordinators and sweepers interleave freely with crashes, lost replies and liveness lapses.
*/
module Queue {
  import opened Lists
  import opened Keyspace

  /** Where runLoop, claim and handleTask stand. */
  datatype Pc =
    | Idle                                                   // between claims
    | Claimed(id: TaskId)                                    // BLMOVE returned id
    | Skipping(id: TaskId)                                   // found in done, LREM to come
    | Gated(id: TaskId)                                      // not in done, ZADD to come
    | Dropping(id: TaskId, added: bool)                      // ZADD reported an error, LREM to come
    | Added(id: TaskId)                                      // ZADD succeeded
    | Watched(id: TaskId)                                    // current set
    | Fetched(id: TaskId, env: Envelope)                     // payload read
    | Staging(id: TaskId, env: Envelope)                     // inside runStage
    | Acking(id: TaskId, env: Envelope, success: bool)       // runStage returned a verdict
    | Abandoning(id: TaskId)                                 // giving up, LREM to come
    | Returning(id: TaskId)                                  // deferred setCurrent("") to come

  /** A running framework process: its loop, its `current` field and the beat in progress. */
  datatype Worker = Worker(pc: Pc, current: Option<TaskId>, beat: Option<TaskId>)

  /** One sweeper process: the orders its sweep has still to visit and the one it is on. */
  datatype SweepPc = Looping | Writing(order: OrderId) | Removing(order: OrderId)
  datatype Sweeper = Sweeper(todo: set<OrderId>, pc: SweepPc)

  datatype WorkerAct =
    | Claim(id: TaskId)                        // BLMOVE answered
    | ClaimLost(id: TaskId)                    // BLMOVE applied, its reply lost
    | GateDone | GateOpen | GateError          // SISMEMBER done
    | SkipRemove(applied: bool)
    | AddInflight(deadline: int)
    | AddInflightError(deadline: int, applied: bool)
    | DropUnadded(id: TaskId, added: bool, applied: bool)
    | SetCurrent
    | Fetch | FetchError                       // HGET payload
    | Launch(id: TaskId)                       // runStage entered
    | StageVerdict(success: bool) | StageError
    | Abandon(applied: bool)
    | Ack(id: TaskId, env: Envelope, success: bool, applied: bool, replied: bool)
    | ClearCurrent
    | BeatAlive(applied: bool) | BeatRead | BeatExtend(deadline: int, applied: bool)

  datatype SweepAct =
    | Members                                  // SMEMBERS settle:pending
    | Visit(order: OrderId)                    // HGET finalized
    | VisitError(order: OrderId)
    | WriteFlag(order: OrderId, applied: bool, replied: bool)
    | Unlist(applied: bool)
    | Stop                                     // crash or restart

  datatype Action =
    | Enqueue(id: TaskId, env: Envelope)
    | Expire(id: TaskId)                       // requeueExpiredScript
    | Drain(w: WorkerId)                       // drainDeadWorkerScript
    | Lapse(w: WorkerId)                       // the liveness key runs out
    | Start(w: WorkerId)
    | Crash(w: WorkerId)
    | Work(w: WorkerId, act: WorkerAct)
    | Sweep(k: SweeperId, sweep: SweepAct)

  datatype State = State(
    store: Store,
    workers: map<WorkerId, Worker>,            // running workers only
    sweepers: map<SweeperId, Sweeper>)

  const INIT := State(EMPTY, map[], map[])

  // ---- worker steps ----

  predicate WorkerCan(s: Store, w: WorkerId, k: Worker, a: WorkerAct) {
    match a
    case Claim(id) => k.pc.Idle? && s.ready != [] && s.ready[0] == id
    case ClaimLost(id) => k.pc.Idle? && s.ready != [] && s.ready[0] == id
    case GateDone => k.pc.Claimed? && k.pc.id in s.done
    case GateOpen => k.pc.Claimed? && k.pc.id !in s.done
    case GateError => k.pc.Claimed?
    case SkipRemove(_) => k.pc.Skipping?
    case AddInflight(_) => k.pc.Gated?
    case AddInflightError(_, _) => k.pc.Gated?
    case DropUnadded(id, added, _) => k.pc == Dropping(id, added)
    case SetCurrent => k.pc.Added?
    case Fetch => k.pc.Watched? && TaskOf(s, k.pc.id).payload.Some?
    case FetchError => k.pc.Watched?
    case Launch(id) => k.pc.Fetched? && k.pc.id == id
    case StageVerdict(_) => k.pc.Staging?
    case StageError => k.pc.Staging?
    case Abandon(_) => k.pc.Abandoning?
    case Ack(id, env, success, applied, replied) =>
      k.pc == Acking(id, env, success) && (replied ==> applied)
    case ClearCurrent => k.pc.Returning?
    case BeatAlive(_) => true
    case BeatRead => true
    case BeatExtend(_, _) => k.beat.Some?
  }

  /** The Redis command a worker step amounts to; an error that was not applied is no command. */
  function WorkerCommand(w: WorkerId, k: Worker, a: WorkerAct): Command {
    match a
    case Claim(_) => Move(w)
    case ClaimLost(_) => Move(w)
    case SkipRemove(true) => if k.pc.Skipping? then Remove(w, k.pc.id) else Nop
    case AddInflight(deadline) => if k.pc.Gated? then Score(k.pc.id, deadline) else Nop
    case AddInflightError(deadline, true) => if k.pc.Gated? then Score(k.pc.id, deadline) else Nop
    case DropUnadded(id, _, true) => Remove(w, id)
    case Abandon(true) => if k.pc.Abandoning? then Remove(w, k.pc.id) else Nop
    case Ack(id, env, success, true, _) => AckTx(w, id, env.order, success)
    case BeatAlive(true) => SetAlive(w)
    case BeatExtend(deadline, true) => if k.beat.Some? then Extend(k.beat.value, deadline) else Nop
    case _ => Nop
  }

  /** The process side of a worker step. */
  function WorkerNext(s: Store, w: WorkerId, k: Worker, a: WorkerAct): Worker
    requires WorkerCan(s, w, k, a)
  {
    match a
    case Claim(id) => k.(pc := Claimed(id))
    case ClaimLost(_) => k
    case GateDone => k.(pc := Skipping(k.pc.id))
    case GateOpen => k.(pc := Gated(k.pc.id))
    case GateError => k.(pc := Idle)
    case SkipRemove(_) => k.(pc := Idle)
    case AddInflight(_) => k.(pc := Added(k.pc.id))
    case AddInflightError(_, applied) => k.(pc := Dropping(k.pc.id, applied))
    case DropUnadded(_, _, _) => k.(pc := Idle)
    case SetCurrent => k.(pc := Watched(k.pc.id), current := Some(k.pc.id))
    case Fetch => k.(pc := Fetched(k.pc.id, TaskOf(s, k.pc.id).payload.value))
    case FetchError => k.(pc := Abandoning(k.pc.id))
    case Launch(_) => k.(pc := Staging(k.pc.id, k.pc.env))
    case StageVerdict(success) => k.(pc := Acking(k.pc.id, k.pc.env, success))
    case StageError => k.(pc := Abandoning(k.pc.id))
    case Abandon(_) => k.(pc := Returning(k.pc.id))
    case Ack(_, _, _, _, _) => k.(pc := Returning(k.pc.id))
    case ClearCurrent => k.(pc := Idle, current := None)
    case BeatAlive(_) => k
    case BeatRead => k.(beat := k.current)
    case BeatExtend(_, _) => k.(beat := None)
  }

  // ---- sweeper steps ----

  predicate SweepCan(s: Store, k: Sweeper, a: SweepAct) {
    match a
    case Members => k.pc.Looping? && k.todo == {}
    case Visit(o) => k.pc.Looping? && o in k.todo
    case VisitError(o) => k.pc.Looping? && o in k.todo
    case WriteFlag(o, applied, replied) => k.pc == Writing(o) && (replied ==> applied)
    case Unlist(_) => k.pc.Removing?
    case Stop => true
  }

  function SweepCommand(k: Sweeper, a: SweepAct): Command {
    match a
    case WriteFlag(o, true, _) => SetFinalized(o)
    case Unlist(true) => if k.pc.Removing? then RemovePending(k.pc.order) else Nop
    case _ => Nop
  }

  function SweepNext(s: Store, k: Sweeper, a: SweepAct): Sweeper
    requires SweepCan(s, k, a)
  {
    match a
    case Members => Sweeper(s.pending, Looping)
    case Visit(o) => Sweeper(k.todo - {o}, if IsFinalized(s, o) then Removing(o) else Writing(o))
    case VisitError(o) => Sweeper(k.todo - {o}, Looping)
    case WriteFlag(o, _, replied) => Sweeper(k.todo, if replied then Removing(o) else Looping)
    case Unlist(_) => Sweeper(k.todo, Looping)
    case Stop => Sweeper({}, Looping)
  }

  function SweeperOf(s: State, k: SweeperId): Sweeper {
    if k in s.sweepers then s.sweepers[k] else Sweeper({}, Looping)
  }

  // ---- the whole machine ----

  predicate Can(s: State, a: Action) {
    match a
    case Enqueue(id, env) => id !in s.store.tasks && env.order != ""
    case Expire(_) => true
    case Drain(_) => true
    case Lapse(_) => true
    case Start(w) => w !in s.workers
    case Crash(w) => w in s.workers
    case Work(w, act) => w in s.workers && WorkerCan(s.store, w, s.workers[w], act)
    case Sweep(k, act) => SweepCan(s.store, SweeperOf(s, k), act)
  }

  function CommandOf(s: State, a: Action): Command {
    match a
    case Enqueue(id, env) => EnqueueTx(id, env)
    case Expire(id) => ExpireScript(id)
    case Drain(w) => DrainScript(w)
    case Lapse(w) => LapseKey(w)
    case Start(_) => Nop
    case Crash(_) => Nop
    case Work(w, act) => if w in s.workers then WorkerCommand(w, s.workers[w], act) else Nop
    case Sweep(k, act) => SweepCommand(SweeperOf(s, k), act)
  }

  function WorkersAfter(s: State, a: Action): map<WorkerId, Worker>
    requires Can(s, a)
  {
    match a
    case Start(w) => s.workers[w := Worker(Idle, None, None)]
    case Crash(w) => s.workers - {w}
    case Work(w, act) => s.workers[w := WorkerNext(s.store, w, s.workers[w], act)]
    case _ => s.workers
  }

  function SweepersAfter(s: State, a: Action): map<SweeperId, Sweeper>
    requires Can(s, a)
  {
    match a
    case Sweep(k, act) => s.sweepers[k := SweepNext(s.store, SweeperOf(s, k), act)]
    case _ => s.sweepers
  }

  function Do(max: int, s: State, a: Action): State
    requires Can(s, a)
  {
    State(Exec(max, s.store, CommandOf(s, a)), WorkersAfter(s, a), SweepersAfter(s, a))
  }

  /** The state a run ends in, or None when some step of it is not enabled. */
  function Run(max: int, trace: seq<Action>): Option<State>
    decreases |trace|
  {
    if trace == [] then Some(INIT)
    else
      var before := Run(max, trace[..|trace| - 1]);
      var a := trace[|trace| - 1];
      if before.Some? && Can(before.value, a) then Some(Do(max, before.value, a)) else None
  }

  /** One more step of a run. */
  lemma Step(max: int, trace: seq<Action>, s: State, a: Action) returns (longer: seq<Action>, t: State)
    requires Run(max, trace) == Some(s) && Can(s, a)
    ensures longer == trace + [a] && t == Do(max, s, a) && Run(max, longer) == Some(t)
  {
    longer, t := trace + [a], Do(max, s, a);
    assert longer[..|trace|] == trace;
  }

  /** One worker step of a run in which worker 0 is alone. */
  lemma Alone(max: int, trace: seq<Action>, st: Store, k: Worker, act: WorkerAct) returns (longer: seq<Action>, u: Store)
    requires Run(max, trace) == Some(State(st, map[0 := k], map[])) && WorkerCan(st, 0, k, act)
    ensures longer == trace + [Work(0, act)] && u == Exec(max, st, WorkerCommand(0, k, act))
    ensures Run(max, longer) == Some(State(u, map[0 := WorkerNext(st, 0, k, act)], map[]))
  {
    hide Run, Exec;
    var s := State(st, map[0 := k], map[]);
    var t;
    longer, t := Step(max, trace, s, Work(0, act));
    u := t.store;
    assert t.workers == map[0 := WorkerNext(st, 0, k, act)];
  }

  /** A run in which worker 0 starts and one task is enqueued. */
  lemma FirstTask(max: int, id: TaskId, env: Envelope) returns (trace: seq<Action>, st: Store)
    requires env.order != ""
    ensures st == EMPTY.(ready := [id], tasks := map[id := Task(Some(env), Ready, 1)], finalized := map[env.order := false])
    ensures Run(max, trace) == Some(State(st, map[0 := Worker(Idle, None, None)], map[]))
  {
    Nothing(max);
    hide Run, WorkerCan, WorkerCommand, WorkerNext, SweepCan, SweepCommand, SweepNext;
    var s;
    trace, s := Step(max, [], INIT, Start(0));
    assert s == State(EMPTY, map[0 := Worker(Idle, None, None)], map[]);
    trace, s := Step(max, trace, s, Enqueue(id, env));
    st := s.store;
    assert [] + [id] == [id];
  }

  lemma Nothing(max: int)
    ensures Run(max, []) == Some(INIT)
  {
  }

  /** The state some steps lead to from s, or None when one of them is not enabled. */
  function Continue(max: int, s: State, acts: seq<Action>): Option<State>
    decreases |acts|
  {
    if acts == [] then Some(s)
    else
      var before := Continue(max, s, acts[..|acts| - 1]);
      var a := acts[|acts| - 1];
      if before.Some? && Can(before.value, a) then Some(Do(max, before.value, a)) else None
  }

  lemma {:induction false} ContinueTwice(max: int, s: State, first: seq<Action>, second: seq<Action>)
    requires Continue(max, s, first).Some?
    ensures Continue(max, s, first + second) == Continue(max, Continue(max, s, first).value, second)
    decreases |second|
  {
    if second == [] {
      assert first + second == first;
    } else {
      var last := |second| - 1;
      ContinueTwice(max, s, first, second[..last]);
      assert (first + second)[..|first + second| - 1] == first + second[..last];
    }
  }
}
