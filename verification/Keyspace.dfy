/**
  The redis-workqueue keyspace and the commands, transactions and Lua scripts that the
  coordinator, the worker framework and the settlement sweeper run against it.
  Every function here is one atomic Redis step.
*/
module Keyspace {
  import opened Lists

  type TaskId = nat
  type WorkerId = nat
  type SweeperId = nat
  type OrderId = string

  /** The task envelope: the order it carries, and what the user's stage would decide about it. */
  datatype Envelope = Envelope(order: OrderId, acceptable: bool)

  datatype Status = Unset | Ready | Done | Failed | Dead

  /** The hash orderforge:task:<id>; payload is absent until the task is enqueued. */
  datatype Task = Task(payload: Option<Envelope>, status: Status, attempt: int)

  datatype Store = Store(
    ready: seq<TaskId>,
    processing: map<WorkerId, seq<TaskId>>,
    inflight: map<TaskId, int>,
    done: set<TaskId>,
    dead: seq<TaskId>,
    tasks: map<TaskId, Task>,
    alive: set<WorkerId>,
    pending: set<OrderId>,
    finalized: map<OrderId, bool>)

  const EMPTY := Store([], map[], map[], {}, [], map[], {}, {}, map[])

  /** A key that does not exist reads as the empty list. */
  function ListOf(s: Store, w: WorkerId): seq<TaskId> {
    if w in s.processing then s.processing[w] else []
  }

  /** Redis deletes a list key together with its last element. */
  function WithList(s: Store, w: WorkerId, l: seq<TaskId>): Store {
    s.(processing := if l == [] then s.processing - {w} else s.processing[w := l])
  }

  function TaskOf(s: Store, id: TaskId): Task {
    if id in s.tasks then s.tasks[id] else Task(None, Unset, 0)
  }

  function Attempt(s: Store, id: TaskId): int {
    TaskOf(s, id).attempt
  }

  // ---- enqueue.go ----

  /** The MULTI of handleEnqueue. */
  function Enqueued(s: Store, id: TaskId, env: Envelope): Store {
    s.(tasks := s.tasks[id := Task(Some(env), Ready, 1)],
       finalized := s.finalized[env.order := false],
       ready := s.ready + [id])
  }

  // ---- workqueue-framework/main.go ----

  /** BLMOVE ready processing:<w> LEFT RIGHT. */
  function Moved(s: Store, w: WorkerId): Store
    requires s.ready != []
  {
    WithList(s, w, ListOf(s, w) + [s.ready[0]]).(ready := s.ready[1..])
  }

  /** LREM processing:<w> 1 id. */
  function Removed(s: Store, w: WorkerId, id: TaskId): Store {
    WithList(s, w, RemoveFirst(ListOf(s, w), id))
  }

  /** ZADD inflight deadline id. */
  function Scored(s: Store, id: TaskId, deadline: int): Store {
    s.(inflight := s.inflight[id := deadline])
  }

  /** ZADD inflight GT deadline id: never lowers a score, but does add a missing member. */
  function Extended(s: Store, id: TaskId, deadline: int): Store {
    if id in s.inflight && s.inflight[id] >= deadline then s else Scored(s, id, deadline)
  }

  /** The MULTI of ack. */
  function Acked(s: Store, w: WorkerId, id: TaskId, order: OrderId, success: bool): Store {
    var s := s.(done := s.done + {id});
    var s := if success && order != "" then s.(pending := s.pending + {order}) else s;
    var s := Removed(s, w, id);
    s.(inflight := s.inflight - {id},
       tasks := s.tasks[id := TaskOf(s, id).(status := if success then Done else Failed)])
  }

  // ---- reaper.go ----

  /** ZRANGEBYSCORE inflight -inf now. */
  function Overdue(s: Store, now: int): set<TaskId> {
    set id | id in s.inflight && s.inflight[id] <= now
  }

  /** The common tail of both scripts: count an attempt, then requeue or bury the id. */
  function Retried(s: Store, id: TaskId, max: int): Store {
    var t := TaskOf(s, id);
    if t.attempt + 1 > max then
      s.(tasks := s.tasks[id := t.(attempt := t.attempt + 1, status := Dead)], dead := s.dead + [id])
    else
      s.(tasks := s.tasks[id := t.(attempt := t.attempt + 1, status := Ready)], ready := s.ready + [id])
  }

  /** requeueExpiredScript. */
  function Expired(s: Store, id: TaskId, max: int): Store {
    if id !in s.inflight then s else Retried(s.(inflight := s.inflight - {id}), id, max)
  }

  /** The loop of drainDeadWorkerScript over the ids it read. */
  function DrainedIds(s: Store, ids: seq<TaskId>, max: int): Store
    decreases |ids|
  {
    if ids == [] then s
    else
      var last := |ids| - 1;
      var s := DrainedIds(s, ids[..last], max);
      Retried(s.(inflight := s.inflight - {ids[last]}), ids[last], max)
  }

  /** What that loop leaves alone. */
  lemma {:induction false} DrainedFrame(s: Store, ids: seq<TaskId>, max: int)
    ensures var t := DrainedIds(s, ids, max);
            && t == s.(ready := t.ready, inflight := t.inflight, dead := t.dead, tasks := t.tasks)
            && t.inflight.Keys <= s.inflight.Keys && s.tasks.Keys <= t.tasks.Keys
    decreases |ids|
  {
    if ids != [] {
      DrainedFrame(s, ids[..|ids| - 1], max);
    }
  }

  /** drainDeadWorkerScript. */
  function Drained(s: Store, w: WorkerId, max: int): Store {
    if w in s.alive then s else WithList(DrainedIds(s, ListOf(s, w), max), w, [])
  }

  // ---- settlement/app.py ----

  predicate IsFinalized(s: Store, o: OrderId) {
    o in s.finalized && s.finalized[o]
  }

  // ---- all of them ----

  datatype Command =
    | Nop
    | EnqueueTx(id: TaskId, env: Envelope)
    | Move(w: WorkerId)
    | Remove(w: WorkerId, id: TaskId)
    | Score(id: TaskId, deadline: int)
    | Extend(id: TaskId, deadline: int)
    | SetAlive(w: WorkerId)
    | AckTx(w: WorkerId, id: TaskId, order: OrderId, success: bool)
    | ExpireScript(id: TaskId)
    | DrainScript(w: WorkerId)
    | LapseKey(w: WorkerId)                 // SET EX runs out
    | SetFinalized(order: OrderId)          // HSET order:<o> finalized 1
    | RemovePending(order: OrderId)         // SREM settle:pending o

  /** The effect of one command, with MAX_ATTEMPTS as the scripts' argument. */
  function Exec(max: int, s: Store, c: Command): Store
    requires c.Move? ==> s.ready != []
  {
    match c
    case Nop => s
    case EnqueueTx(id, env) => Enqueued(s, id, env)
    case Move(w) => Moved(s, w)
    case Remove(w, id) => Removed(s, w, id)
    case Score(id, deadline) => Scored(s, id, deadline)
    case Extend(id, deadline) => Extended(s, id, deadline)
    case SetAlive(w) => s.(alive := s.alive + {w})
    case AckTx(w, id, order, success) => Acked(s, w, id, order, success)
    case ExpireScript(id) => Expired(s, id, max)
    case DrainScript(w) => Drained(s, w, max)
    case LapseKey(w) => s.(alive := s.alive - {w})
    case SetFinalized(o) => s.(finalized := s.finalized[o := true])
    case RemovePending(o) => s.(pending := s.pending - {o})
  }
}
