/**
  Nothing is in the queue that was not enqueued: whatever any list, inflight or process refers to is a
  task with a payload.
*/
module Known {
  import opened Lists
  import opened Keyspace
  import opened Queue

  predicate HasPayload(s: Store, id: TaskId) {
    id in s.tasks && s.tasks[id].payload.Some?
  }

  ghost predicate KnownStore(s: Store) {
    && (forall id <- s.tasks :: HasPayload(s, id))
    && (forall id <- s.ready :: id in s.tasks)
    && (forall id <- s.inflight :: id in s.tasks)
    && (forall w, id :: id in ListOf(s, w) ==> id in s.tasks)
  }

  /** What a command writes about is known. */
  predicate Concerns(s: Store, c: Command) {
    match c
    case Move(_) => s.ready != []
    case Score(id, _) => id in s.tasks
    case Extend(id, _) => id in s.tasks
    case AckTx(_, id, _, _) => id in s.tasks
    case _ => true
  }

  lemma RetriedKnown(s: Store, id: TaskId, max: int)
    requires KnownStore(s) && id in s.tasks
    ensures var t := Retried(s.(inflight := s.inflight - {id}), id, max);
            KnownStore(t) && t.tasks.Keys == s.tasks.Keys && t.processing == s.processing
  {
    assert HasPayload(s, id);
    var t := Retried(s.(inflight := s.inflight - {id}), id, max);
    forall w, x | x in ListOf(t, w)
      ensures x in t.tasks
    {
      assert x in ListOf(s, w);
    }
  }

  lemma {:induction false} DrainedKnown(s: Store, ids: seq<TaskId>, max: int)
    requires KnownStore(s) && forall id <- ids :: id in s.tasks
    ensures KnownStore(DrainedIds(s, ids, max)) && DrainedIds(s, ids, max).tasks.Keys == s.tasks.Keys
    decreases |ids|
  {
    hide KnownStore, Retried;
    if ids != [] {
      var last := |ids| - 1;
      assert forall id <- ids[..last] :: id in ids;
      DrainedKnown(s, ids[..last], max);
      RetriedKnown(DrainedIds(s, ids[..last], max), ids[last], max);
    }
  }

  lemma ListKnown(s: Store, w: WorkerId, l: seq<TaskId>)
    requires KnownStore(s) && forall id <- l :: id in s.tasks
    ensures KnownStore(WithList(s, w, l))
  {
    var t := WithList(s, w, l);
    assert forall v :: ListOf(t, v) == if v == w then l else ListOf(s, v);
  }

  /** Every command keeps it. */
  lemma ExecKnown(max: int, s: Store, c: Command)
    requires KnownStore(s) && Concerns(s, c)
    ensures KnownStore(Exec(max, s, c)) && s.tasks.Keys <= Exec(max, s, c).tasks.Keys
  {
    match c
    case EnqueueTx(id, env) => EnqueuedKnown(s, id, env);
    case Move(w) =>
      ListKnown(s, w, ListOf(s, w) + [s.ready[0]]);
      ReadyKnown(WithList(s, w, ListOf(s, w) + [s.ready[0]]), s.ready[1..]);
    case Remove(w, id) => RemovedKnown(s, w, id);
    case Score(id, deadline) => ScoredKnown(s, id, deadline);
    case Extend(id, deadline) => ScoredKnown(s, id, deadline);
    case AckTx(w, id, order, success) => AckedKnown(s, w, id, order, success);
    case ExpireScript(id) =>
      if id in s.inflight {
        RetriedKnown(s, id, max);
      }
    case DrainScript(w) =>
      DrainedKnown(s, ListOf(s, w), max);
      ListKnown(DrainedIds(s, ListOf(s, w), max), w, []);
    case _ => SameTasks(s, Exec(max, s, c));
  }

  lemma SameTasks(s: Store, t: Store)
    requires KnownStore(s) && t.tasks == s.tasks && t.ready == s.ready && t.processing == s.processing && t.inflight == s.inflight
    ensures KnownStore(t)
  {
    assert forall w :: ListOf(t, w) == ListOf(s, w);
  }

  lemma EnqueuedKnown(s: Store, id: TaskId, env: Envelope)
    requires KnownStore(s)
    ensures KnownStore(Enqueued(s, id, env)) && s.tasks.Keys <= Enqueued(s, id, env).tasks.Keys
  {
    var t := Enqueued(s, id, env);
    assert forall w :: ListOf(t, w) == ListOf(s, w);
    assert forall x <- s.tasks :: HasPayload(s, x);
  }

  lemma ReadyKnown(s: Store, ready: seq<TaskId>)
    requires KnownStore(s) && forall id <- ready :: id in s.tasks
    ensures KnownStore(s.(ready := ready))
  {
    assert forall w :: ListOf(s.(ready := ready), w) == ListOf(s, w);
  }

  lemma RemovedKnown(s: Store, w: WorkerId, id: TaskId)
    requires KnownStore(s)
    ensures KnownStore(Removed(s, w, id))
  {
    RemovedIsPart(ListOf(s, w), id);
    ListKnown(s, w, RemoveFirst(ListOf(s, w), id));
  }

  lemma {:induction false} RemovedIsPart(l: seq<TaskId>, id: TaskId)
    ensures forall x <- RemoveFirst(l, id) :: x in l
    decreases |l|
  {
    if l != [] && l[0] != id {
      RemovedIsPart(l[1..], id);
    }
  }

  lemma ScoredKnown(s: Store, id: TaskId, deadline: int)
    requires KnownStore(s) && id in s.tasks
    ensures KnownStore(Scored(s, id, deadline))
  {
    assert forall w :: ListOf(Scored(s, id, deadline), w) == ListOf(s, w);
  }

  lemma AckedKnown(s: Store, w: WorkerId, id: TaskId, order: OrderId, success: bool)
    requires KnownStore(s) && id in s.tasks
    ensures KnownStore(Acked(s, w, id, order, success)) && Acked(s, w, id, order, success).tasks.Keys == s.tasks.Keys
  {
    RemovedKnown(s, w, id);
    assert HasPayload(s, id);
    var r, t := Removed(s, w, id), Acked(s, w, id, order, success);
    assert t.processing == r.processing && t.ready == r.ready;
    assert forall v :: ListOf(t, v) == ListOf(r, v);
    assert forall x <- s.tasks :: HasPayload(s, x);
  }

  // ---- the processes ----

  predicate KnownWorker(s: Store, k: Worker) {
    && (!k.pc.Idle? ==> k.pc.id in s.tasks)
    && (k.current.Some? ==> k.current.value in s.tasks)
    && (k.beat.Some? ==> k.beat.value in s.tasks)
  }

  ghost predicate AllKnown(s: State) {
    KnownStore(s.store) && forall w <- s.workers :: KnownWorker(s.store, s.workers[w])
  }

  lemma WorkerKnown(s: Store, w: WorkerId, k: Worker, act: WorkerAct)
    requires WorkerCan(s, w, k, act) && KnownStore(s) && KnownWorker(s, k)
    ensures Concerns(s, WorkerCommand(w, k, act)) && KnownWorker(s, WorkerNext(s, w, k, act))
  {
  }

  lemma CommandsKnown(s: State, a: Action)
    requires AllKnown(s) && Can(s, a)
    ensures Concerns(s.store, CommandOf(s, a))
    ensures forall w <- WorkersAfter(s, a) :: KnownWorker(s.store, WorkersAfter(s, a)[w])
  {
    hide KnownStore, WorkerCan, WorkerNext, WorkerCommand, SweepCan, SweepCommand;
    if a.Work? {
      WorkerKnown(s.store, a.w, s.workers[a.w], a.act);
    } else if a.Sweep? {
      SweepConcerns(s.store, SweeperOf(s, a.k), a.sweep);
    }
  }

  lemma SweepConcerns(s: Store, k: Sweeper, act: SweepAct)
    ensures Concerns(s, SweepCommand(k, act))
  {
  }

  lemma StillKnown(s: Store, t: Store, k: Worker)
    requires KnownWorker(s, k) && s.tasks.Keys <= t.tasks.Keys
    ensures KnownWorker(t, k)
  {
  }

  lemma AllKnownKept(max: int, s: State, a: Action)
    requires AllKnown(s) && Can(s, a)
    ensures AllKnown(Do(max, s, a))
  {
    hide KnownStore, KnownWorker, Concerns, CommandOf, WorkersAfter, SweepersAfter, Exec, Can;
    CommandsKnown(s, a);
    ExecKnown(max, s.store, CommandOf(s, a));
    var t := Do(max, s, a);
    forall w <- t.workers
      ensures KnownWorker(t.store, t.workers[w])
    {
      StillKnown(s.store, t.store, t.workers[w]);
    }
  }

  lemma NothingKnown()
    ensures AllKnown(INIT)
  {
  }

  lemma {:induction false} AlwaysKnown(max: int, trace: seq<Action>, s: State)
    requires Run(max, trace) == Some(s)
    ensures AllKnown(s)
    decreases |trace|
  {
    hide AllKnown, Do, Can;
    if trace == [] {
      NothingKnown();
    } else {
      var last := |trace| - 1;
      AlwaysKnown(max, trace[..last], Run(max, trace[..last]).value);
      AllKnownKept(max, Run(max, trace[..last]).value, trace[last]);
    }
  }

  /** Main result: in every run, the payload a worker asks for is there, so HGET finds it whenever it answers. */
  lemma FetchFinds(max: int, trace: seq<Action>, s: State, w: WorkerId)
    requires Run(max, trace) == Some(s) && w in s.workers && !s.workers[w].pc.Idle?
    ensures HasPayload(s.store, s.workers[w].pc.id)
    ensures s.workers[w].pc.Watched? ==> Can(s, Work(w, Fetch))
  {
    hide Run;
    AlwaysKnown(max, trace, s);
    assert KnownWorker(s.store, s.workers[w]);
  }
}
