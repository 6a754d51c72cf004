/**
  The settlement sweep as it is written, and what many of them at once amount to: every
  interleaving of complete sweeps ends where one sweep alone ends.
*/
module SettlementApp {
  import opened Lists
  import opened Keyspace
  import opened Queue
  import opened RedisServer
  import opened Settlement

  /** The flags of m with those of orders raised. */
  function Raised(m: map<OrderId, bool>, orders: set<OrderId>): map<OrderId, bool> {
    map o | o in m.Keys + orders :: o in orders || m[o]
  }

  lemma RaisedMore(m: map<OrderId, bool>, orders: set<OrderId>, o: OrderId)
    ensures Raised(m, orders + {o}) == Raised(m, orders)[o := true]
  {
  }

  lemma RaisedNone(m: map<OrderId, bool>)
    ensures Raised(m, {}) == m
  {
  }

  /** The store after one undisturbed sweep. */
  function Settled(s: Store): Store {
    s.(pending := {}, finalized := Raised(s.finalized, s.pending))
  }

  /** How the three calls for one order end; a call that raises ends the work on that order. */
  datatype Ends = Ends(read: bool, write: Outcome, removal: Outcome)

  predicate Flags(s: Store, o: OrderId, e: Ends) {
    e.read && !IsFinalized(s, o) && !e.write.Refused?
  }

  predicate Clears(s: Store, o: OrderId, e: Ends) {
    e.read && (IsFinalized(s, o) || e.write.Answered?) && !e.removal.Refused?
  }

  function Flagged(s: Store, orders: set<OrderId>, ends: OrderId -> Ends): set<OrderId> {
    set o | o in orders && Flags(s, o, ends(o))
  }

  function Cleared(s: Store, orders: set<OrderId>, ends: OrderId -> Ends): set<OrderId> {
    set o | o in orders && Clears(s, o, ends(o))
  }

  /** The store after the work on some orders, whose calls end as given. */
  function SweptOver(s: Store, orders: set<OrderId>, ends: OrderId -> Ends): Store {
    s.(pending := s.pending - Cleared(s, orders, ends), finalized := Raised(s.finalized, Flagged(s, orders, ends)))
  }

  function SweptBy(s: Store, ends: OrderId -> Ends): Store {
    SweptOver(s, s.pending, ends)
  }

  /** What finalize_order leaves of a store. */
  function Finalized(s: Store, o: OrderId, e: Ends): Store {
    s.(finalized := if Flags(s, o, e) then s.finalized[o := true] else s.finalized,
       pending := if Clears(s, o, e) then s.pending - {o} else s.pending)
  }

  /** Main result: however the calls of a sweep end, a pending order it takes off is finalized. */
  lemma SweepLosesNothing(s: Store, ends: OrderId -> Ends, o: OrderId)
    requires IsSettled(s, o)
    ensures IsSettled(SweptBy(s, ends), o)
  {
  }

  /** Without a failure it settles everything pending. */
  lemma CleanSweep(s: Store, ends: OrderId -> Ends)
    requires forall o <- s.pending :: ends(o) == Ends(true, Answered, Answered)
    ensures SweptBy(s, ends) == Settled(s)
  {
    assert Cleared(s, s.pending, ends) == s.pending;
    assert SweptBy(s, ends).finalized == Settled(s).finalized;
  }

  class App {
    const r: Redis

    constructor (r: Redis)
      ensures this.r == r
    {
      this.r := r;
    }

    /** ok is false when a call raises. */
    method FinalizeOrder(order: OrderId, e: Ends) returns (ok: bool)
      modifies r`finalized, r`pending
      ensures r.View() == Finalized(old(r.View()), order, e)
      ensures ok ==> IsFinalized(r.View(), order) && order !in r.pending
    {
      if !e.read {
        return false;
      }
      if !(order in r.finalized && r.finalized[order]) {
        if !e.write.Refused? {
          r.finalized := r.finalized[order := true];
        }
        if !e.write.Answered? {
          return false;
        }
      }
      if !e.removal.Refused? {
        r.pending := r.pending - {order};
      }
      return e.removal.Answered?;
    }

    /** sweep, when is_leader() answered leads and SMEMBERS answered or not. */
    method Sweep(leads: bool, listed: bool, ends: OrderId -> Ends)
      modifies r`finalized, r`pending
      ensures r.View() == if leads && listed then SweptBy(old(r.View()), ends) else old(r.View())
    {
      if leads && listed {
        SweepPending(ends);
      }
    }

    method SweepPending(ends: OrderId -> Ends)
      modifies r`finalized, r`pending
      ensures r.View() == SweptBy(old(r.View()), ends)
    {
      hide Finalized, SweptOver;
      ghost var s := r.View();
      var todo := r.pending;
      ghost var seen: set<OrderId> := {};
      NoneSwept(s, ends);
      while todo != {}
        invariant seen + todo == s.pending && seen !! todo
        invariant r.View() == SweptOver(s, seen, ends)
        decreases |todo|
      {
        var order :| order in todo;
        OneMoreSwept(s, seen, ends, order);
        seen := seen + {order};
        todo := todo - {order};
        var _ := FinalizeOrder(order, ends(order));
      }
      assert seen == s.pending;
    }
  }

  lemma NoneSwept(s: Store, ends: OrderId -> Ends)
    ensures SweptOver(s, {}, ends) == s
  {
    RaisedNone(s.finalized);
    assert Flagged(s, {}, ends) == {} == Cleared(s, {}, ends);
  }

  lemma OneMoreSwept(s: Store, seen: set<OrderId>, ends: OrderId -> Ends, o: OrderId)
    requires o !in seen
    ensures SweptOver(s, seen + {o}, ends) == Finalized(SweptOver(s, seen, ends), o, ends(o))
  {
    var t := SweptOver(s, seen, ends);
    assert IsFinalized(t, o) <==> IsFinalized(s, o);
    assert Flagged(s, seen + {o}, ends) == Flagged(s, seen, ends) + (if Flags(s, o, ends(o)) then {o} else {});
    assert Cleared(s, seen + {o}, ends) == Cleared(s, seen, ends) + (if Clears(s, o, ends(o)) then {o} else {});
    RaisedMore(s.finalized, Flagged(s, seen, ends), o);
    assert Flagged(s, seen, ends) + {} == Flagged(s, seen, ends);
  }

  // ---- a sweep as steps of the queue machine ----

  /** The same processes, but for the sweeper k. */
  ghost predicate OnlySweeper(s: State, t: State, k: SweeperId, after: Queue.Sweeper) {
    t.workers == s.workers && t.sweepers == s.sweepers[k := after]
  }

  lemma SweepStep(max: int, start: State, acts: seq<Action>, s: State, k: SweeperId, act: SweepAct)
      returns (more: seq<Action>, t: State)
    requires Continue(max, start, acts) == Some(s) && SweepCan(s.store, SweeperOf(s, k), act)
    ensures Continue(max, start, more) == Some(t)
    ensures t.store == Exec(max, s.store, SweepCommand(SweeperOf(s, k), act))
    ensures OnlySweeper(s, t, k, SweepNext(s.store, SweeperOf(s, k), act))
  {
    hide Exec;
    more, t := acts + [Action.Sweep(k, act)], Do(max, s, Action.Sweep(k, act));
    assert more[..|acts|] == acts;
  }

  /** finalize_order, however its calls end, is steps of a sweeper that has the order ahead of it. */
  lemma OrderRuns(max: int, start: State, acts: seq<Action>, s: State, k: SweeperId, o: OrderId, e: Ends)
      returns (more: seq<Action>, t: State)
    requires Continue(max, start, acts) == Some(s) && SweeperOf(s, k).pc.Looping? && o in SweeperOf(s, k).todo
    ensures Continue(max, start, more) == Some(t) && t.store == Finalized(s.store, o, e)
    ensures OnlySweeper(s, t, k, Queue.Sweeper(SweeperOf(s, k).todo - {o}, Looping))
  {
    hide Continue, Acked, Drained, Enqueued, Moved, Removed, Extended, Scored, Expired;
    if !e.read {
      more, t := SweepStep(max, start, acts, s, k, VisitError(o));
      return;
    }
    more, t := SweepStep(max, start, acts, s, k, Visit(o));
    if !IsFinalized(s.store, o) {
      more, t := SweepStep(max, start, more, t, k, WriteFlag(o, !e.write.Refused?, e.write.Answered?));
    }
    if IsFinalized(s.store, o) || e.write.Answered? {
      more, t := SweepStep(max, start, more, t, k, Unlist(!e.removal.Refused?));
    }
  }

  lemma {:induction false} LoopRuns(max: int, start: State, acts: seq<Action>, s: State, k: SweeperId,
                                    before: Store, seen: set<OrderId>, ends: OrderId -> Ends)
      returns (more: seq<Action>, t: State)
    requires Continue(max, start, acts) == Some(s) && k in s.sweepers
    requires s.sweepers[k].pc.Looping? && seen !! s.sweepers[k].todo
    requires s.store == SweptOver(before, seen, ends)
    ensures Continue(max, start, more) == Some(t)
    ensures t.store == SweptOver(before, seen + s.sweepers[k].todo, ends)
    ensures OnlySweeper(s, t, k, Queue.Sweeper({}, Looping))
    decreases s.sweepers[k].todo
  {
    hide Continue, SweptOver, Finalized;
    var todo := s.sweepers[k].todo;
    if todo == {} {
      assert seen + todo == seen;
      assert s.sweepers[k := Queue.Sweeper({}, Looping)] == s.sweepers;
      more, t := acts, s;
    } else {
      var o :| o in todo;
      more, t := OrderRuns(max, start, acts, s, k, o, ends(o));
      OneMoreSwept(before, seen, ends, o);
      assert (seen + {o}) + (todo - {o}) == seen + todo;
      more, t := LoopRuns(max, start, more, t, k, before, seen + {o}, ends);
    }
  }

  lemma SweepRunsFrom(max: int, start: State, acts: seq<Action>, s: State, k: SweeperId, ends: OrderId -> Ends)
      returns (more: seq<Action>, t: State)
    requires Continue(max, start, acts) == Some(s) && SweeperOf(s, k) == Queue.Sweeper({}, Looping)
    ensures Continue(max, start, more) == Some(t) && t.store == SweptBy(s.store, ends)
    ensures OnlySweeper(s, t, k, Queue.Sweeper({}, Looping))
  {
    hide Continue, SweptOver;
    more, t := SweepStep(max, start, acts, s, k, Members);
    NoneSwept(s.store, ends);
    assert {} + s.store.pending == s.store.pending;
    more, t := LoopRuns(max, start, more, t, k, s.store, {}, ends);
  }

  /**
    Main result: from every state of the queue machine, a sweep is a run of steps of one sweeper, started
    anew if it was in the middle of something; however its calls end, it leaves the store that SweptBy says.
  */
  lemma SweepRuns(max: int, s: State, k: SweeperId, ends: OrderId -> Ends) returns (acts: seq<Action>, t: State)
    ensures Continue(max, s, acts) == Some(t) && t.store == SweptBy(s.store, ends)
    ensures OnlySweeper(s, t, k, Queue.Sweeper({}, Looping))
  {
    hide Continue, SweptOver, SweptBy;
    NoActs(max, s);
    if SweeperOf(s, k) == Queue.Sweeper({}, Looping) {
      acts, t := SweepRunsFrom(max, s, [], s, k, ends);
    } else {
      acts, t := SweepStep(max, s, [], s, k, Stop);
      acts, t := SweepRunsFrom(max, s, acts, t, k, ends);
    }
  }

  lemma NoActs(max: int, s: State)
    ensures Continue(max, s, []) == Some(s)
  {
  }

  // ---- many sweepers ----

  /** A sweep step whose call succeeded. */
  predicate IsClean(a: Action) {
    && a.Sweep?
    && match a.sweep
       case Members => true
       case Visit(_) => true
       case WriteFlag(_, applied, replied) => applied && replied
       case Unlist(applied) => applied
       case _ => false
  }

  ghost predicate AllIdle(s: State) {
    forall k :: SweeperOf(s, k) == Queue.Sweeper({}, Looping)
  }

  /** Nothing but sweeps leads from start to s. */
  ghost predicate SweptStore(start: Store, s: Store) {
    && s == start.(pending := s.pending, finalized := s.finalized)
    && s.pending <= start.pending
    && start.finalized.Keys <= s.finalized.Keys <= start.finalized.Keys + start.pending
    && (forall o :: o in start.finalized && o !in start.pending ==> s.finalized[o] == start.finalized[o])
    && (forall o :: IsFinalized(start, o) ==> IsFinalized(s, o))
    && (forall o :: o in start.pending && o !in s.pending ==> IsFinalized(s, o))
  }

  /** Between start and t only sweeps have happened. */
  ghost predicate Sweeping(start: Store, t: State) {
    && SweptStore(start, t.store)
    && (forall k :: Swept(SweeperOf(t, k)) <= start.pending)
    && (forall k :: SweeperOf(t, k).pc.Removing? ==> IsFinalized(t.store, SweeperOf(t, k).pc.order))
  }

  /** Since its SMEMBERS, a sweeper still has every pending order ahead of it. */
  ghost predicate Covers(t: State, k: SweeperId) {
    t.store.pending <= Swept(SweeperOf(t, k))
  }

  lemma CleanCommands(s: State, a: Action)
    requires Can(s, a) && IsClean(a)
    ensures var c := CommandOf(s, a);
            c.Nop? || (c.SetFinalized? && SweeperOf(s, a.k).pc == Writing(c.order))
            || (c.RemovePending? && SweeperOf(s, a.k).pc == Removing(c.order))
  {
  }

  lemma CleanLoops(s: State, a: Action, k: SweeperId)
    requires Can(s, a) && IsClean(a)
    ensures var before, after := SweeperOf(s, k), SweeperOf(State(s.store, s.workers, SweepersAfter(s, a)), k);
            && (k != a.k ==> after == before)
            && (k == a.k && a.sweep.Members? ==> after == Queue.Sweeper(s.store.pending, Looping))
            && (k == a.k && a.sweep.Unlist? ==> before.pc.Removing? && after == Queue.Sweeper(before.todo, Looping))
            && (k == a.k && !a.sweep.Members? && !a.sweep.Unlist? ==> Swept(after) == Swept(before))
            && (after.pc.Removing? ==> after == before || IsFinalized(s.store, after.pc.order)
                                       || CommandOf(s, a) == SetFinalized(after.pc.order))
            && (CommandOf(s, a).RemovePending? ==> a.sweep.Unlist?)
  {
  }

  lemma SweptStoreKept(max: int, start: Store, s: Store, c: Command)
    requires SweptStore(start, s)
    requires c.Nop? || (c.SetFinalized? && c.order in start.pending) || (c.RemovePending? && IsFinalized(s, c.order))
    ensures SweptStore(start, Exec(max, s, c))
    ensures forall o :: IsFinalized(s, o) || c == SetFinalized(o) ==> IsFinalized(Exec(max, s, c), o)
  {
  }

  lemma SweepingKept(max: int, start: Store, s: State, a: Action)
    requires Sweeping(start, s) && Can(s, a) && IsClean(a)
    ensures Sweeping(start, Do(max, s, a))
  {
    hide SweptStore, Exec, CommandOf, Can, IsFinalized;
    var t := Do(max, s, a);
    CleanCommands(s, a);
    var k := SweeperOf(s, a.k);
    assert OrderOf(k.pc) <= Swept(k) && Swept(k) <= start.pending;
    SweptStoreKept(max, start, s.store, CommandOf(s, a));
    forall k
      ensures Swept(SweeperOf(t, k)) <= start.pending
      ensures SweeperOf(t, k).pc.Removing? ==> IsFinalized(t.store, SweeperOf(t, k).pc.order)
    {
      SweeperLoops(max, start, s, a, k);
    }
  }

  lemma SweeperLoops(max: int, start: Store, s: State, a: Action, k: SweeperId)
    requires Sweeping(start, s) && Can(s, a) && IsClean(a)
    ensures var after := SweeperOf(Do(max, s, a), k);
            && Swept(after) <= start.pending
            && (after.pc.Removing? ==> IsFinalized(s.store, after.pc.order) || CommandOf(s, a) == SetFinalized(after.pc.order))
  {
    hide Exec, CommandOf, Can, IsClean, IsFinalized;
    CleanLoops(s, a, k);
    assert SweptStore(start, s.store) ==> s.store.pending <= start.pending;
    assert Swept(SweeperOf(s, k)) <= start.pending;
  }

  lemma CoversKept(max: int, s: State, a: Action, k: SweeperId)
    requires Can(s, a) && IsClean(a) && (Covers(s, k) || a == Action.Sweep(k, Members))
    ensures Covers(Do(max, s, a), k)
  {
    CleanCommands(s, a);
    CleanLoops(s, a, k);
    assert !CommandOf(s, a).RemovePending? ==> Do(max, s, a).store.pending == s.store.pending;
  }

  predicate Started(acts: seq<Action>, k: SweeperId) {
    Action.Sweep(k, Members) in acts
  }

  lemma {:induction false} SweepsProgress(max: int, s: State, acts: seq<Action>)
    requires Continue(max, s, acts).Some? && AllIdle(s) && forall a :: a in acts ==> IsClean(a)
    ensures Sweeping(s.store, Continue(max, s, acts).value)
    ensures forall k :: Started(acts, k) ==> Covers(Continue(max, s, acts).value, k)
    decreases |acts|
  {
    if acts != [] {
      var before, a := acts[..|acts| - 1], acts[|acts| - 1];
      assert acts == before + [a];
      assert IsClean(a);
      SweepsProgress(max, s, before);
      var t := Continue(max, s, before).value;
      SweepingKept(max, s.store, t, a);
      forall k | Started(acts, k) ensures Covers(Do(max, t, a), k) {
        assert Started(before, k) || a == Action.Sweep(k, Members);
        CoversKept(max, t, a, k);
      }
    }
  }

  /**
    Main result. However the steps of any number of sweepers interleave, once all have finished and at
    least one has swept, the store is exactly what a single sweep would have left.
  */
  lemma SweepsConverge(max: int, s: State, acts: seq<Action>, k: SweeperId)
    requires Continue(max, s, acts).Some? && AllIdle(s) && Started(acts, k)
    requires forall a :: a in acts ==> IsClean(a)
    requires AllIdle(Continue(max, s, acts).value)
    ensures Continue(max, s, acts).value.store == Settled(s.store)
  {
    SweepsProgress(max, s, acts);
    var t := Continue(max, s, acts).value;
    assert Covers(t, k) && SweeperOf(t, k) == Queue.Sweeper({}, Looping);
    assert t.store.pending == {};
    forall o | o in s.store.pending ensures IsFinalized(t.store, o) {
    }
    assert t.store.finalized == Settled(s.store).finalized;
  }

  // ---- a reused order id ----

  ghost predicate OneTask(s: Store, env: Envelope, processing: map<WorkerId, seq<TaskId>>) {
    && s.processing == processing && s.tasks.Keys == {1} && TaskOf(s, 1).payload == Some(env)
    && s.pending == {} && s.finalized == map[env.order := false]
  }

  lemma ClaimedRun(env: Envelope) returns (trace: seq<Action>, st: Store)
    requires env.order != ""
    ensures Run(5, trace) == Some(State(st, map[0 := Worker(Claimed(1), None, None)], map[]))
    ensures OneTask(st, env, map[0 := [1]]) && st.done == {}
  {
    hide Run, Acked, Drained, Expired, Enqueued, Extended, Removed;
    trace, st := FirstTask(5, 1, env);
    assert [] + [1] == [1];
    trace, st := Alone(5, trace, st, Worker(Idle, None, None), Claim(1));
  }

  lemma WatchedRun(env: Envelope) returns (trace: seq<Action>, st: Store)
    requires env.order != ""
    ensures Run(5, trace) == Some(State(st, map[0 := Worker(Watched(1), Some(1), None)], map[]))
    ensures OneTask(st, env, map[0 := [1]])
  {
    hide Run, Acked, Drained, Expired, Enqueued, Extended, Moved, Removed;
    trace, st := ClaimedRun(env);
    trace, st := Alone(5, trace, st, Worker(Claimed(1), None, None), GateOpen);
    trace, st := Alone(5, trace, st, Worker(Gated(1), None, None), AddInflight(30));
    trace, st := Alone(5, trace, st, Worker(Added(1), None, None), SetCurrent);
  }

  /** The task is acked with success. */
  lemma SuccessRun(env: Envelope) returns (trace: seq<Action>, st: Store)
    requires env.order != ""
    ensures Run(5, trace) == Some(State(st, map[0 := Worker(Returning(1), Some(1), None)], map[]))
    ensures st.pending == {env.order} && st.finalized == map[env.order := false] && st.tasks.Keys == {1}
  {
    hide Run, Drained, Expired, Enqueued, Extended, Moved;
    trace, st := WatchedRun(env);
    trace, st := Alone(5, trace, st, Worker(Watched(1), Some(1), None), Fetch);
    trace, st := Alone(5, trace, st, Worker(Fetched(1, env), Some(1), None), Launch(1));
    trace, st := Alone(5, trace, st, Worker(Staging(1, env), Some(1), None), StageVerdict(true));
    trace, st := Alone(5, trace, st, Worker(Acking(1, env, true), Some(1), None), Ack(1, env, true, true, true));
  }

  /** A sweeper has written the flag and is about to remove the order from pending. */
  lemma WrittenRun(env: Envelope) returns (trace: seq<Action>, s: State)
    requires env.order != ""
    ensures Run(5, trace) == Some(s) && SweeperOf(s, 0) == Queue.Sweeper({}, Removing(env.order))
    ensures s.store.pending == {env.order} && s.store.tasks.Keys == {1}
  {
    hide Run, WorkerCan, WorkerCommand, WorkerNext, Moved, Acked, Drained, Expired, Enqueued, Extended, Removed, Scored;
    var st;
    trace, st := SuccessRun(env);
    s := State(st, map[0 := Worker(Returning(1), Some(1), None)], map[]);
    trace, s := Step(5, trace, s, Action.Sweep(0, Members));
    trace, s := Step(5, trace, s, Action.Sweep(0, Visit(env.order)));
    trace, s := Step(5, trace, s, Action.Sweep(0, WriteFlag(env.order, true, true)));
  }

  /**
    Freshness is needed. A sweeper stands between its HSET and its SREM for an acked order when the
    same order id is enqueued again: the flag drops, the SREM follows, and the order of the acked
    task is neither pending nor finalized.
  */
  lemma ReusedOrderIsLost(env: Envelope) returns (trace: seq<Action>, s: State)
    requires env.order != ""
    ensures Run(5, trace) == Some(s) && Enqueue(2, env) in trace && !IsSettled(s.store, env.order)
  {
    hide Run, WorkerCan, WorkerCommand, WorkerNext, Moved, Acked, Drained, Expired, Extended, Removed, Scored;
    trace, s := WrittenRun(env);
    trace, s := Step(5, trace, s, Enqueue(2, env));
    trace, s := Step(5, trace, s, Action.Sweep(0, Unlist(true)));
  }
}
