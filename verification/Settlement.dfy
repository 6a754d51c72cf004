/**
  Settlement: what acks and any number of interleaved sweepers do to settle:pending and to the
  finalized flags, crashes and lost replies included.
*/
module Settlement {
  import opened Lists
  import opened Keyspace
  import opened Queue

  predicate IsSuccess(a: Action) {
    a.Work? && a.act.Ack? && a.act.success && a.act.applied
  }

  /** The tasks acked with success in a run. */
  function Succeeded(trace: seq<Action>): set<TaskId> {
    set a <- trace | IsSuccess(a) :: a.act.id
  }

  /** The orders of those acks. */
  function SucceededOrders(trace: seq<Action>): set<OrderId> {
    set a <- trace | IsSuccess(a) :: a.act.env.order
  }

  function EnqueuedOrders(trace: seq<Action>): set<OrderId> {
    set a <- trace | a.Enqueue? :: a.env.order
  }

  /** order-api draws a new order id for every order, so no enqueue repeats one. */
  predicate FreshOrders(trace: seq<Action>)
    decreases |trace|
  {
    trace != [] ==>
      var last := |trace| - 1;
      FreshOrders(trace[..last])
      && (trace[last].Enqueue? ==> trace[last].env.order !in EnqueuedOrders(trace[..last]))
  }

  function PayloadOf(s: Store, id: TaskId): Option<Envelope> {
    TaskOf(s, id).payload
  }

  /** The envelope a worker carries, once it has read it. */
  predicate Carries(pc: Pc, id: TaskId, env: Envelope) {
    match pc
    case Fetched(i, e) => i == id && e == env
    case Staging(i, e) => i == id && e == env
    case Acking(i, e, _) => i == id && e == env
    case _ => false
  }

  predicate IsSettled(s: Store, o: OrderId) {
    o in s.pending || IsFinalized(s, o)
  }

  function OrderOf(pc: SweepPc): set<OrderId> {
    match pc
    case Looping => {}
    case Writing(o) => {o}
    case Removing(o) => {o}
  }

  // ---- invariant 1: workers carry the stored envelope, in every run ----

  ghost predicate Faithful(s: State) {
    && (forall w, id, env :: w in s.workers && Carries(s.workers[w].pc, id, env) ==>
          PayloadOf(s.store, id) == Some(env))
    && (forall id :: PayloadOf(s.store, id).Some? ==> PayloadOf(s.store, id).value.order != "")
  }

  lemma {:induction false} DrainedPayload(s: Store, ids: seq<TaskId>, max: int, id: TaskId)
    ensures PayloadOf(DrainedIds(s, ids, max), id) == PayloadOf(s, id)
    decreases |ids|
  {
    if ids != [] {
      DrainedPayload(s, ids[..|ids| - 1], max, id);
    }
  }

  /** A payload is written once, by the enqueue of its task. */
  lemma PayloadKept(max: int, s: Store, c: Command, id: TaskId)
    requires c.Move? ==> s.ready != []
    ensures PayloadOf(Exec(max, s, c), id) ==
            if c.EnqueueTx? && c.id == id then Some(c.env) else PayloadOf(s, id)
  {
    hide ListOf, RemoveFirst, Acked, Expired, DrainedIds;
    match c {
      case AckTx(w, x, order, success) => AckedPayload(s, w, x, order, success, id);
      case ExpireScript(x) => ExpiredPayload(s, x, max, id);
      case DrainScript(w) => DrainedPayload(s, ListOf(s, w), max, id);
      case _ =>
    }
  }

  lemma AckedPayload(s: Store, w: WorkerId, x: TaskId, order: OrderId, success: bool, id: TaskId)
    ensures PayloadOf(Acked(s, w, x, order, success), id) == PayloadOf(s, id)
  {
    hide ListOf, RemoveFirst;
  }

  lemma ExpiredPayload(s: Store, x: TaskId, max: int, id: TaskId)
    ensures PayloadOf(Expired(s, x, max), id) == PayloadOf(s, id)
  {
  }

  lemma CarriedBefore(max: int, s: State, a: Action, w: WorkerId, id: TaskId, env: Envelope)
    requires Can(s, a) && w in WorkersAfter(s, a) && Carries(WorkersAfter(s, a)[w].pc, id, env)
    ensures (w in s.workers && Carries(s.workers[w].pc, id, env)) || PayloadOf(s.store, id) == Some(env)
    ensures CommandOf(s, a).EnqueueTx? ==> w in s.workers && Carries(s.workers[w].pc, id, env)
  {
  }

  lemma EnqueueIsNew(s: State, a: Action)
    requires Can(s, a)
    ensures CommandOf(s, a).Move? ==> s.store.ready != []
    ensures CommandOf(s, a).EnqueueTx? <==> a.Enqueue?
    ensures a.Enqueue? ==>
              CommandOf(s, a) == EnqueueTx(a.id, a.env) && PayloadOf(s.store, a.id).None? && a.env.order != ""
  {
  }

  lemma FaithfulKept(max: int, s: State, a: Action)
    requires Can(s, a) && Faithful(s)
    ensures Faithful(Do(max, s, a))
  {
    hide Can, Exec, CommandOf, WorkersAfter, SweepersAfter, PayloadOf;
    var t := Do(max, s, a);
    EnqueueIsNew(s, a);
    forall w, id, env | w in t.workers && Carries(t.workers[w].pc, id, env)
      ensures PayloadOf(t.store, id) == Some(env)
    {
      CarriedBefore(max, s, a, w, id, env);
      PayloadKept(max, s.store, CommandOf(s, a), id);
    }
    forall id | PayloadOf(t.store, id).Some? ensures PayloadOf(t.store, id).value.order != "" {
      PayloadKept(max, s.store, CommandOf(s, a), id);
    }
  }

  lemma {:induction false} AlwaysFaithful(max: int, trace: seq<Action>)
    requires Run(max, trace).Some?
    ensures Faithful(Run(max, trace).value)
    decreases |trace|
  {
    if trace != [] {
      AlwaysFaithful(max, trace[..|trace| - 1]);
      FaithfulKept(max, Run(max, trace[..|trace| - 1]).value, trace[|trace| - 1]);
    }
  }

  // ---- invariant 2: only orders acked with success are ever pending, swept or finalized ----

  function Swept(k: Sweeper): set<OrderId> {
    k.todo + OrderOf(k.pc)
  }

  ghost predicate OnlySucceeded(s: State, enqueued: set<OrderId>, succeeded: set<OrderId>) {
    && (forall id :: PayloadOf(s.store, id).Some? ==> PayloadOf(s.store, id).value.order in enqueued)
    && succeeded <= enqueued
    && s.store.pending <= succeeded
    && (forall k :: Swept(SweeperOf(s, k)) <= succeeded)
    && (forall o :: IsFinalized(s.store, o) ==> o in succeeded)
  }

  lemma OrdersGrow(trace: seq<Action>)
    requires trace != []
    ensures var a, before := trace[|trace| - 1], trace[..|trace| - 1];
            && EnqueuedOrders(trace) == EnqueuedOrders(before) + (if a.Enqueue? then {a.env.order} else {})
            && SucceededOrders(trace) == SucceededOrders(before) + (if IsSuccess(a) then {a.act.env.order} else {})
            && Succeeded(trace) == Succeeded(before) + (if IsSuccess(a) then {a.act.id} else {})
  {
    assert trace == trace[..|trace| - 1] + [trace[|trace| - 1]];
  }

  /** How one command moves the two settlement keys. */
  lemma SettlementMoves(max: int, s: Store, c: Command)
    requires c.Move? ==> s.ready != []
    ensures var t := Exec(max, s, c);
            && t.pending == (if c.AckTx? && c.success && c.order != "" then s.pending + {c.order}
                             else if c.RemovePending? then s.pending - {c.order}
                             else s.pending)
            && t.finalized == (if c.EnqueueTx? then s.finalized[c.env.order := false]
                               else if c.SetFinalized? then s.finalized[c.order := true]
                               else s.finalized)
  {
    if c.DrainScript? {
      DrainedFrame(s, ListOf(s, c.w), max);
    }
  }

  /** A sweeper works only on what it read from pending, and each command it issues is on its order. */
  lemma SweeperMoves(s: State, a: Action, k: SweeperId)
    requires Can(s, a)
    ensures var before, after := SweeperOf(s, k), SweeperOf(State(s.store, s.workers, SweepersAfter(s, a)), k);
            && Swept(after) <= Swept(before) + s.store.pending
            && (after.pc.Removing? && after.pc != before.pc ==>
                  IsFinalized(s.store, after.pc.order) || CommandOf(s, a) == SetFinalized(after.pc.order))
            && (after.pc.Writing? ==> after.pc == before.pc || !IsFinalized(s.store, after.pc.order))
  {
  }

  lemma CommandsOnSwept(s: State, a: Action)
    requires Can(s, a)
    ensures CommandOf(s, a).SetFinalized? ==>
              a.Sweep? && SweeperOf(s, a.k).pc == Writing(CommandOf(s, a).order)
    ensures CommandOf(s, a).RemovePending? ==>
              a.Sweep? && SweeperOf(s, a.k).pc == Removing(CommandOf(s, a).order)
    ensures CommandOf(s, a).AckTx? && CommandOf(s, a).success <==> IsSuccess(a)
    ensures IsSuccess(a) ==>
              && CommandOf(s, a).order == a.act.env.order
              && a.w in s.workers && Carries(s.workers[a.w].pc, a.act.id, a.act.env)
  {
  }

  function WithEnqueued(enqueued: set<OrderId>, a: Action): set<OrderId> {
    enqueued + (if a.Enqueue? then {a.env.order} else {})
  }

  function WithSucceeded(succeeded: set<OrderId>, a: Action): set<OrderId> {
    succeeded + (if IsSuccess(a) then {a.act.env.order} else {})
  }

  /** The order of a success ack is that of an enqueued payload. */
  lemma SuccessIsEnqueued(s: State, a: Action, enqueued: set<OrderId>, succeeded: set<OrderId>)
    requires Can(s, a) && Faithful(s) && OnlySucceeded(s, enqueued, succeeded) && IsSuccess(a)
    ensures a.act.env.order in enqueued && a.act.env.order != ""
    ensures PayloadOf(s.store, a.act.id) == Some(a.act.env)
  {
    CommandsOnSwept(s, a);
    assert Carries(s.workers[a.w].pc, a.act.id, a.act.env);
    assert PayloadOf(s.store, a.act.id) == Some(a.act.env);
  }

  lemma OnlySucceededKept(max: int, s: State, a: Action, enqueued: set<OrderId>, succeeded: set<OrderId>)
    requires Can(s, a) && Faithful(s) && OnlySucceeded(s, enqueued, succeeded)
    ensures OnlySucceeded(Do(max, s, a), WithEnqueued(enqueued, a), WithSucceeded(succeeded, a))
  {
    var t := Do(max, s, a);
    EnqueueIsNew(s, a);
    CommandsOnSwept(s, a);
    SettlementMoves(max, s.store, CommandOf(s, a));
    if IsSuccess(a) {
      SuccessIsEnqueued(s, a, enqueued, succeeded);
    }
    hide Can, Exec, CommandOf, WorkersAfter, SweepersAfter, PayloadOf, IsSuccess;
    forall id | PayloadOf(t.store, id).Some?
      ensures PayloadOf(t.store, id).value.order in WithEnqueued(enqueued, a)
    {
      PayloadKept(max, s.store, CommandOf(s, a), id);
    }
    forall k ensures Swept(SweeperOf(t, k)) <= WithSucceeded(succeeded, a) {
      SweeperMoves(s, a, k);
    }
    if a.Sweep? {
      assert OrderOf(SweeperOf(s, a.k).pc) <= Swept(SweeperOf(s, a.k));
    }
  }

  /** In every run, an order is pending or finalized only if some task carrying it was acked with success. */
  lemma {:induction false} FinalizedWasAcked(max: int, trace: seq<Action>)
    requires Run(max, trace).Some?
    ensures OnlySucceeded(Run(max, trace).value, EnqueuedOrders(trace), SucceededOrders(trace))
    decreases |trace|
  {
    if trace != [] {
      FinalizedWasAcked(max, trace[..|trace| - 1]);
      AlwaysFaithful(max, trace[..|trace| - 1]);
      OrdersGrow(trace);
      OnlySucceededKept(max, Run(max, trace[..|trace| - 1]).value, trace[|trace| - 1],
                        EnqueuedOrders(trace[..|trace| - 1]), SucceededOrders(trace[..|trace| - 1]));
    }
  }

  // ---- main result: no settlement is lost ----

  ghost predicate AllSettled(s: State, succeeded: set<OrderId>) {
    && (forall o :: o in succeeded ==> IsSettled(s.store, o))
    && (forall k :: SweeperOf(s, k).pc.Removing? ==> IsFinalized(s.store, SweeperOf(s, k).pc.order))
  }

  /**
    An enqueue that takes back a settlement: its order id has been acked with success and left
    settle:pending, or a sweeper is just about to take it off.
  */
  ghost predicate Unsettles(s: State, a: Action, succeeded: set<OrderId>) {
    a.Enqueue?
    && ((a.env.order in succeeded && a.env.order !in s.store.pending)
        || exists k :: SweeperOf(s, k).pc == Removing(a.env.order))
  }

  lemma AllSettledKept(max: int, s: State, a: Action, enqueued: set<OrderId>, succeeded: set<OrderId>)
    requires Can(s, a) && Faithful(s) && OnlySucceeded(s, enqueued, succeeded) && AllSettled(s, succeeded)
    requires !Unsettles(s, a, succeeded)
    ensures AllSettled(Do(max, s, a), WithSucceeded(succeeded, a))
  {
    var t := Do(max, s, a);
    EnqueueIsNew(s, a);
    CommandsOnSwept(s, a);
    SettlementMoves(max, s.store, CommandOf(s, a));
    if IsSuccess(a) {
      SuccessIsEnqueued(s, a, enqueued, succeeded);
    }
    hide Can, Exec, CommandOf, WorkersAfter, SweepersAfter, PayloadOf, IsSuccess, Faithful;
    forall o | o in WithSucceeded(succeeded, a) ensures IsSettled(t.store, o) {
    }
    forall k | SweeperOf(t, k).pc.Removing? ensures IsFinalized(t.store, SweeperOf(t, k).pc.order) {
      SweeperMoves(s, a, k);
      assert SweeperOf(s, k).pc.Removing? ==> SweeperOf(s, k).pc.order in Swept(SweeperOf(s, k));
    }
  }

  /** Main result: a step takes back a settlement, or is about to, if and only if it is such an enqueue. */
  lemma SettledIff(max: int, s: State, a: Action, enqueued: set<OrderId>, succeeded: set<OrderId>)
    requires Can(s, a) && Faithful(s) && OnlySucceeded(s, enqueued, succeeded) && AllSettled(s, succeeded)
    ensures AllSettled(Do(max, s, a), WithSucceeded(succeeded, a)) <==> !Unsettles(s, a, succeeded)
  {
    if Unsettles(s, a, succeeded) {
      var o, t := a.env.order, Do(max, s, a);
      SettlementMoves(max, s.store, CommandOf(s, a));
      assert !IsFinalized(t.store, o);
      if o in succeeded && o !in s.store.pending {
        assert o in WithSucceeded(succeeded, a) && !IsSettled(t.store, o);
      } else {
        var k :| SweeperOf(s, k).pc == Removing(o);
        assert SweeperOf(t, k).pc == Removing(o);
      }
    } else {
      AllSettledKept(max, s, a, enqueued, succeeded);
    }
  }

  /** From then on one SREM away from being lost. */
  lemma OneStepFromLost(max: int, s: State, k: SweeperId, enqueued: set<OrderId>, succeeded: set<OrderId>)
    requires OnlySucceeded(s, enqueued, succeeded)
    requires SweeperOf(s, k).pc.Removing? && !IsFinalized(s.store, SweeperOf(s, k).pc.order)
    ensures var o := SweeperOf(s, k).pc.order;
            o in succeeded && Can(s, Sweep(k, Unlist(true))) && !IsSettled(Do(max, s, Sweep(k, Unlist(true))).store, o)
  {
    assert OrderOf(SweeperOf(s, k).pc) <= Swept(SweeperOf(s, k));
  }

  /** At every point of the run, what was acked with success is settled. */
  ghost predicate SettledThroughout(max: int, trace: seq<Action>)
    requires Run(max, trace).Some?
    decreases |trace|
  {
    && AllSettled(Run(max, trace).value, SucceededOrders(trace))
    && (trace != [] ==> SettledThroughout(max, trace[..|trace| - 1]))
  }

  /** No enqueue of the run reuses the id of a settled order. */
  ghost predicate ReusesNoSettled(max: int, trace: seq<Action>)
    requires Run(max, trace).Some?
    decreases |trace|
  {
    trace != [] ==>
      var before := trace[..|trace| - 1];
      ReusesNoSettled(max, before)
      && !Unsettles(Run(max, before).value, trace[|trace| - 1], SucceededOrders(before))
  }

  /**
    Main result. Whatever the interleaving of acks with any number of sweepers and crashes, every order
    acked with success stays pending or finalized if and only if no enqueue reuses the id of an order
    that is settled or is just being taken off the pending set.
  */
  lemma {:induction false} NoSettlementLostIff(max: int, trace: seq<Action>)
    requires Run(max, trace).Some?
    ensures SettledThroughout(max, trace) <==> ReusesNoSettled(max, trace)
    decreases |trace|
  {
    if trace != [] {
      var before := trace[..|trace| - 1];
      NoSettlementLostIff(max, before);
      if SettledThroughout(max, before) {
        AlwaysFaithful(max, before);
        FinalizedWasAcked(max, before);
        OrdersGrow(trace);
        SettledIff(max, Run(max, before).value, trace[|trace| - 1], EnqueuedOrders(before), SucceededOrders(before));
      }
    }
  }

  /** Fresh order ids reuse nothing. */
  lemma {:induction false} FreshReusesNothing(max: int, trace: seq<Action>)
    requires Run(max, trace).Some? && FreshOrders(trace)
    ensures ReusesNoSettled(max, trace)
    decreases |trace|
  {
    if trace != [] {
      var before, a := trace[..|trace| - 1], trace[|trace| - 1];
      FreshReusesNothing(max, before);
      FinalizedWasAcked(max, before);
      var s := Run(max, before).value;
      if a.Enqueue? {
        forall k ensures SweeperOf(s, k).pc != Removing(a.env.order) {
          assert OrderOf(SweeperOf(s, k).pc) <= Swept(SweeperOf(s, k)) <= SucceededOrders(before);
        }
      }
    }
  }

  /** So with fresh order ids no settlement is lost. */
  lemma NoSettlementLost(max: int, trace: seq<Action>)
    requires Run(max, trace).Some? && FreshOrders(trace)
    ensures AllSettled(Run(max, trace).value, SucceededOrders(trace))
  {
    FreshReusesNothing(max, trace);
    NoSettlementLostIff(max, trace);
  }

  // ---- how often an order is settled ----

  predicate IsWrite(a: Action, o: OrderId) {
    a.Sweep? && a.sweep.WriteFlag? && a.sweep.order == o && a.sweep.applied
  }

  /** HSET order:<o> finalized 1 in a run: how often, and by which sweepers. */
  function Writes(trace: seq<Action>, o: OrderId): nat
    decreases |trace|
  {
    if trace == [] then 0
    else
      Writes(trace[..|trace| - 1], o) + (if IsWrite(trace[|trace| - 1], o) then 1 else 0)
  }

  function Writers(trace: seq<Action>, o: OrderId): set<SweeperId> {
    set a <- trace | IsWrite(a, o) :: a.k
  }

  lemma WritersGrow(trace: seq<Action>, o: OrderId)
    requires trace != []
    ensures var a, before := trace[|trace| - 1], trace[..|trace| - 1];
            Writers(trace, o) == Writers(before, o) + (if IsWrite(a, o) then {a.k} else {})
  {
    assert trace == trace[..|trace| - 1] + [trace[|trace| - 1]];
  }

  /** A sweeper that has written the flag is never about to write it again, and the flag is up. */
  ghost predicate WritersDone(s: State, o: OrderId, writers: set<SweeperId>) {
    forall k :: k in writers ==> IsFinalized(s.store, o) && SweeperOf(s, k).pc != Writing(o)
  }

  lemma WritesMove(s: State, a: Action, o: OrderId)
    requires Can(s, a) && IsWrite(a, o)
    ensures CommandOf(s, a) == SetFinalized(o) && SweeperOf(s, a.k).pc == Writing(o)
    ensures SweeperOf(State(s.store, s.workers, SweepersAfter(s, a)), a.k).pc != Writing(o)
  {
  }

  lemma FlagStays(max: int, trace: seq<Action>, o: OrderId)
    requires trace != [] && Run(max, trace).Some? && FreshOrders(trace)
    requires var before := trace[..|trace| - 1];
             && Run(max, before).Some?
             && OnlySucceeded(Run(max, before).value, EnqueuedOrders(before), SucceededOrders(before))
             && IsFinalized(Run(max, before).value.store, o)
    ensures IsFinalized(Run(max, trace).value.store, o)
  {
    var s, a := Run(max, trace[..|trace| - 1]).value, trace[|trace| - 1];
    assert a.Enqueue? ==> a.env.order !in EnqueuedOrders(trace[..|trace| - 1]);
    EnqueueIsNew(s, a);
    SettlementMoves(max, s.store, CommandOf(s, a));
  }

  lemma {:induction false} WritersAreDone(max: int, trace: seq<Action>, o: OrderId)
    requires Run(max, trace).Some? && FreshOrders(trace)
    ensures WritersDone(Run(max, trace).value, o, Writers(trace, o)) && Writes(trace, o) == |Writers(trace, o)|
    decreases |trace|
  {
    if trace != [] {
      var before := trace[..|trace| - 1];
      WritersAreDone(max, before, o);
      FinalizedWasAcked(max, before);
      WritersDoneKept(max, trace, o);
    }
  }

  lemma WritersDoneKept(max: int, trace: seq<Action>, o: OrderId)
    requires trace != [] && Run(max, trace).Some? && FreshOrders(trace)
    requires var before := trace[..|trace| - 1];
             && Run(max, before).Some?
             && OnlySucceeded(Run(max, before).value, EnqueuedOrders(before), SucceededOrders(before))
             && WritersDone(Run(max, before).value, o, Writers(before, o))
             && Writes(before, o) == |Writers(before, o)|
    ensures WritersDone(Run(max, trace).value, o, Writers(trace, o)) && Writes(trace, o) == |Writers(trace, o)|
  {
    hide Exec, WorkerCan, WorkerNext, WorkerCommand;
    var before := trace[..|trace| - 1];
    var s, a := Run(max, before).value, trace[|trace| - 1];
    var t := Do(max, s, a);
    assert Run(max, trace).value == t;
    WritersGrow(trace, o);
    assert IsFinalized(s.store, o) ==> IsFinalized(t.store, o) by {
      if IsFinalized(s.store, o) {
        FlagStays(max, trace, o);
      }
    }
    hide Run, Can, Exec, CommandOf, WorkersAfter, SweepersAfter, Writers, FreshOrders, OnlySucceeded;
    if IsWrite(a, o) {
      WritesMove(s, a, o);
      EnqueueIsNew(s, a);
      SettlementMoves(max, s.store, CommandOf(s, a));
      assert a.k !in Writers(before, o);
    }
    forall k | k in Writers(trace, o) ensures IsFinalized(t.store, o) && SweeperOf(t, k).pc != Writing(o) {
      SweeperMoves(s, a, k);
    }
  }

  function Sweepers(trace: seq<Action>): set<SweeperId> {
    set a <- trace | a.Sweep? :: a.k
  }

  /** Main result: an order is settled at most once by each sweeper, crashes and lost replies included. */
  lemma SettledOncePerSweeper(max: int, trace: seq<Action>, o: OrderId)
    requires Run(max, trace).Some? && FreshOrders(trace)
    ensures Writes(trace, o) <= |Sweepers(trace)|
  {
    WritersAreDone(max, trace, o);
    assert Writers(trace, o) <= Sweepers(trace);
    assert Sweepers(trace) == Writers(trace, o) + (Sweepers(trace) - Writers(trace, o));
  }

  /** At no time are two sweepers between reading o as not finalized and writing it. */
  ghost predicate WindowsDisjoint(max: int, trace: seq<Action>, o: OrderId) {
    forall n, k1, k2 | 0 <= n <= |trace| && Run(max, trace[..n]).Some?
                       && SweeperOf(Run(max, trace[..n]).value, k1).pc == Writing(o)
                       && SweeperOf(Run(max, trace[..n]).value, k2).pc == Writing(o) :: k1 == k2
  }

  /** Main result: without overlapping windows an order is settled at most once. */
  lemma {:induction false} SettledOnce(max: int, trace: seq<Action>, o: OrderId)
    requires Run(max, trace).Some? && FreshOrders(trace) && WindowsDisjoint(max, trace, o)
    ensures Writes(trace, o) <= 1
    ensures Writes(trace, o) == 1 ==> forall k :: SweeperOf(Run(max, trace).value, k).pc != Writing(o)
    decreases |trace|
  {
    if trace != [] {
      var before := trace[..|trace| - 1];
      var s, a := Run(max, before).value, trace[|trace| - 1];
      assert WindowsDisjoint(max, before, o) by {
        assert forall n | 0 <= n <= |before| :: before[..n] == trace[..n];
      }
      SettledOnce(max, before, o);
      WritersAreDone(max, before, o);
      WindowAt(max, trace, o);
      OneMoreWrite(max, s, a, o, Writes(before, o), |Writers(before, o)|);
    }
  }

  lemma WindowAt(max: int, trace: seq<Action>, o: OrderId)
    requires trace != [] && WindowsDisjoint(max, trace, o) && Run(max, trace[..|trace| - 1]).Some?
    ensures var s := Run(max, trace[..|trace| - 1]).value;
            forall k1, k2 | SweeperOf(s, k1).pc == Writing(o) && SweeperOf(s, k2).pc == Writing(o) :: k1 == k2
  {
  }

  lemma OneMoreWrite(max: int, s: State, a: Action, o: OrderId, writes: nat, writers: nat)
    requires Can(s, a) && writes <= 1
    requires writes == 1 ==> IsFinalized(s.store, o) && forall k :: SweeperOf(s, k).pc != Writing(o)
    requires forall k1, k2 | SweeperOf(s, k1).pc == Writing(o) && SweeperOf(s, k2).pc == Writing(o) :: k1 == k2
    ensures var t := Do(max, s, a);
            var n := writes + (if IsWrite(a, o) then 1 else 0);
            n <= 1 && (n == 1 ==> forall k :: SweeperOf(t, k).pc != Writing(o))
  {
    var t := Do(max, s, a);
    if IsWrite(a, o) {
      WritesMove(s, a, o);
    }
    if writes == 1 || IsWrite(a, o) {
      forall k ensures SweeperOf(t, k).pc != Writing(o) {
        SweeperMoves(s, a, k);
      }
    }
  }
}
