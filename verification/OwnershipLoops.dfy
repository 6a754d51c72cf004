/** The steps of a worker's loop keep every task owned, and with that the whole invariant is kept. */
module OwnershipLoops {
  import opened Lists
  import opened Keyspace
  import opened Queue
  import opened Spots
  import opened Timed
  import opened Ownership
  import opened OwnershipSteps

  /** Everything but worker v's loop and list is as before. */
  ghost predicate OnlyLoop(t: Timed, u: Timed, v: WorkerId) {
    && v in t.q.workers
    && (forall w :: w != v ==> ListOf(u.q.store, w) == ListOf(t.q.store, w) && PcOf(u, w) == PcOf(t, w))
    && (forall w :: w in u.q.workers <==> w in t.q.workers)
    && u.now == t.now && u.beatAt == t.beatAt && u.reaper == t.reaper
    && (forall w :: w != v && w in t.stamp ==> w in u.stamp && u.stamp[w] == t.stamp[w])
  }

  lemma LoopEffects(c: Config, t: Timed, v: WorkerId, act: WorkerAct)
    requires TCan(c, t, Loop(v, act))
    ensures OnlyLoop(t, TDo(c, t, Loop(v, act)), v)
  {
    hide Exec, WorkerCan, WorkerCommand, Succeeds, SweepCan, SweepNext, SweepCommand, MayWait;
    var a := Loop(v, act);
    var u := TDo(c, t, a);
    forall w ensures w in u.q.workers <==> w in t.q.workers {
      WorkersQueued(c, t, a, w);
    }
    hide TDo, ListOf, PcOf;
    forall w | w != v ensures ListOf(u.q.store, w) == ListOf(t.q.store, w) && PcOf(u, w) == PcOf(t, w) {
      ListsAfter(c, t, a, w);
      PcAfter(c, t, a, w);
    }
    LoopFields(c, t, v, act);
  }

  lemma LoopFields(c: Config, t: Timed, v: WorkerId, act: WorkerAct)
    requires TCan(c, t, Loop(v, act))
    ensures var u := TDo(c, t, Loop(v, act));
            && v in t.q.workers
            && u.now == t.now && u.beatAt == t.beatAt && u.reaper == t.reaper
            && u.stamp == (if act.GateOpen? then t.stamp - {v} else t.stamp)
            && PcOf(u, v) == WorkerNext(t.q.store, v, t.q.workers[v], act).pc
            && u.faults == (if act.Abandon? then t.faults[PcOf(t, v).id := FaultsOf(t, PcOf(t, v).id) + 1] else t.faults)
  {
    hide Exec, WorkerCommand, MayWait;
    PcAfter(c, t, Loop(v, act), v);
  }

  /** The act is about id. */
  predicate Concerns(t: Timed, v: WorkerId, act: WorkerAct, id: TaskId) {
    IsOn(PcOf(t, v), id) || (act.Claim? && act.id == id)
  }

  lemma LoopSpot(c: Config, t: Timed, v: WorkerId, act: WorkerAct, id: TaskId)
    requires TCan(c, t, Loop(v, act)) && AllTidy(t)
    ensures var p, q := SpotOf(t.q.store, id), SpotOf(TDo(c, t, Loop(v, act)).q.store, id);
            && (!Concerns(t, v, act, id) ==> q == p)
            && (Concerns(t, v, act, id) ==>
                  && (act.Claim? ==> p.ready > 0 && q == p.(ready := p.ready - 1))
                  && (act.AddInflight? ==> q == p.(inflight := Some(act.deadline)))
                  && (act.Ack? ==> q.done)
                  && (!act.Claim? && !act.AddInflight? && !act.Ack? ==> q == p))
  {
    hide Do, Exec, MayWait;
    SpotAfterStep(c, t, Loop(v, act), id);
  }

  // ---- acts about another id ----

  lemma LoopOtherLists(c: Config, t: Timed, v: WorkerId, act: WorkerAct, id: TaskId)
    requires TCan(c, t, Loop(v, act)) && AllTidy(t) && !Concerns(t, v, act, id)
    ensures var u := TDo(c, t, Loop(v, act));
            && id !in ListOf(t.q.store, v) && id !in ListOf(u.q.store, v)
            && !IsOn(PcOf(u, v), id) && FaultsOf(u, id) == FaultsOf(t, id)
  {
    hide Exec, WorkerCommand, MayWait;
    assert Tidy(t, v);
    TidyLoop(c, t, v, act);
    LoopFields(c, t, v, act);
    var u := TDo(c, t, Loop(v, act));
    assert Tidy(u, v) && v in u.q.workers;
    hide Exec;
  }

  lemma LoopOtherOwned(c: Config, t: Timed, v: WorkerId, act: WorkerAct, id: TaskId)
    requires TCan(c, t, Loop(v, act)) && AllTidy(t) && Owned(c, t, id) && !Concerns(t, v, act, id)
    ensures Owned(c, TDo(c, t, Loop(v, act)), id)
  {
    var u := TDo(c, t, Loop(v, act));
    LoopEffects(c, t, v, act);
    LoopOtherLists(c, t, v, act, id);
    LoopSpot(c, t, v, act, id);
    assert !IsOn(PcOf(t, v), id);
    hide TDo, TCan, ListOf, PcOf, SpotOf, FaultsOf, Owned, AllTidy;
    UnconcernedOwned(c, t, u, id);
  }

  // ---- acts about id ----

  lemma ListsOnId(c: Config, t: Timed, v: WorkerId, act: WorkerAct, id: TaskId)
    requires TCan(c, t, Loop(v, act)) && AllTidy(t) && Concerns(t, v, act, id)
    ensures var u := TDo(c, t, Loop(v, act));
            && (id in ListOf(t.q.store, v) <==> HoldsList(PcOf(t, v)))
            && (id in ListOf(u.q.store, v) <==> HoldsList(PcOf(u, v)))
            && v in t.beatAt && !PcOf(t, v).Dropping?
  {
    hide Exec, WorkerCommand, MayWait;
    assert Tidy(t, v);
    TidyLoop(c, t, v, act);
    var u := TDo(c, t, Loop(v, act));
    LoopFields(c, t, v, act);
    assert Tidy(u, v) && v in u.q.workers;
    hide Exec;
  }

  lemma ClaimOwned(c: Config, t: Timed, u: Timed, v: WorkerId, id: TaskId)
    requires Owned(c, t, id) && OnlyLoop(t, u, v) && id !in t.q.store.done
    requires PcOf(t, v) == Idle && PcOf(u, v) == Claimed(id) && u.stamp == t.stamp && u.faults == t.faults
    requires id !in ListOf(t.q.store, v) && id in ListOf(u.q.store, v) && v in t.beatAt
    requires var p := SpotOf(t.q.store, id); p.ready > 0 && SpotOf(u.q.store, id) == p.(ready := p.ready - 1)
    ensures Owned(c, u, id)
  {
    hide SpotOf, ListOf, PcOf, FaultsOf;
    FaultsSame(t, u, id);
    forall w ensures !Guards(t, w, id) {
    }
    forall w | Guards(u, w, id) ensures w == v {
      assert w != v ==> (Guards(u, w, id) <==> Guards(t, w, id));
    }
    assert forall w :: id in ListOf(t.q.store, w) ==> Guards(t, w, id);
    assert SpotOf(t.q.store, id).inflight.None?;
    assert !Owed(u, id) && !Owed(t, id);
    assert SpotOf(t.q.store, id).known;
  }

  /** The loop moves on with id in hand. */
  lemma MoveOnOwned(c: Config, t: Timed, u: Timed, v: WorkerId, id: TaskId)
    requires Owned(c, t, id) && OnlyLoop(t, u, v) && id !in t.q.store.done
    requires IsOn(PcOf(t, v), id) && IsOn(PcOf(u, v), id) && u.faults == t.faults
    requires id in ListOf(t.q.store, v) && id in ListOf(u.q.store, v)
    requires SpotOf(u.q.store, id) == SpotOf(t.q.store, id)
    requires || (PcOf(t, v).Claimed? && PcOf(u, v).Gated?)
             || ((PcOf(t, v).Added? || SetsCurrent(PcOf(t, v))) && SetsCurrent(PcOf(u, v)) && !PcOf(u, v).Returning?)
    ensures Owned(c, u, id)
  {
    hide SpotOf, ListOf, PcOf, FaultsOf;
    FaultsSame(t, u, id);
    forall w ensures Guards(u, w, id) <==> Guards(t, w, id) {
    }
    forall w ensures id in ListOf(u.q.store, w) <==> id in ListOf(t.q.store, w) {
    }
    assert Owed(u, id) <==> Owed(t, id);
  }

  /** A deadline computed within the grace period is good for the bound. */
  lemma StampBound(c: Config, t: Timed, v: WorkerId)
    requires Clocks(c, t) && v in t.q.workers && PcOf(t, v).Gated? && v in t.stamp && v in t.beatAt
    ensures Unix(t.stamp[v]) >= Unix(t.beatAt[v]) - c.grace
  {
    UnixMono(t.beatAt[v], t.stamp[v] + 1000 * c.grace);
    UnixShift(t.stamp[v], c.grace);
  }

  lemma AddOwned(c: Config, t: Timed, u: Timed, v: WorkerId, id: TaskId, deadline: int)
    requires Owned(c, t, id) && OnlyLoop(t, u, v) && id !in t.q.store.done
    requires PcOf(t, v) == Gated(id) && PcOf(u, v) == Added(id) && u.faults == t.faults && u.stamp == t.stamp
    requires id in ListOf(t.q.store, v) && id in ListOf(u.q.store, v) && v in t.beatAt && v in t.stamp
    requires deadline == Unix(t.stamp[v]) + c.visibility >= Unix(t.beatAt[v]) + c.visibility - c.grace
    requires SpotOf(u.q.store, id) == SpotOf(t.q.store, id).(inflight := Some(deadline))
    requires forall w :: w != v ==> !IsOn(PcOf(t, w), id)
    ensures Owned(c, u, id)
  {
    hide SpotOf, ListOf, PcOf, FaultsOf, Unix;
    FaultsSame(t, u, id);
    forall w ensures Guards(u, w, id) <==> Guards(t, w, id) {
    }
    forall w | id in ListOf(t.q.store, w) ensures w == v {
      assert Guards(t, v, id) && Guards(t, w, id);
    }
    assert Guards(t, v, id) && SpotOf(t.q.store, id).inflight.None?;
    forall w ensures id in ListOf(u.q.store, w) <==> id in ListOf(t.q.store, w) {
    }
    assert !Owed(u, id) && !Owed(t, id);
  }

  /** While v guards id, no other loop is on it. */
  lemma OthersOff(t: Timed, v: WorkerId, id: TaskId)
    requires AllTidy(t) && Exclusive(t, id) && Guards(t, v, id)
    ensures forall w :: w != v ==> !IsOn(PcOf(t, w), id)
  {
    forall w | w != v ensures !IsOn(PcOf(t, w), id) {
      assert Tidy(t, w) && !Guards(t, w, id);
    }
  }

  lemma AbandonOwned(c: Config, t: Timed, u: Timed, v: WorkerId, id: TaskId)
    requires Owned(c, t, id) && OnlyLoop(t, u, v) && id !in t.q.store.done && v in t.beatAt
    requires PcOf(t, v) == Abandoning(id) && PcOf(u, v) == Returning(id)
    requires id in ListOf(t.q.store, v) && id !in ListOf(u.q.store, v)
    requires SpotOf(u.q.store, id) == SpotOf(t.q.store, id) && FaultsOf(u, id) == FaultsOf(t, id) + 1
    ensures Owned(c, u, id)
  {
    hide SpotOf, ListOf, PcOf, FaultsOf;
    forall w ensures Guards(u, w, id) <==> Guards(t, w, id) {
    }
    forall w | id in ListOf(t.q.store, w) ensures w == v {
      assert Guards(t, w, id) && Guards(t, v, id);
    }
    assert Owed(u, id) && !Owed(t, id);
  }

  lemma ReturnOwned(c: Config, t: Timed, u: Timed, v: WorkerId, id: TaskId)
    requires Owned(c, t, id) && OnlyLoop(t, u, v) && id !in t.q.store.done && u.faults == t.faults
    requires PcOf(t, v) == Returning(id) && PcOf(u, v) == Idle
    requires id !in ListOf(t.q.store, v) && id !in ListOf(u.q.store, v)
    requires SpotOf(u.q.store, id) == SpotOf(t.q.store, id)
    ensures Owned(c, u, id)
  {
    hide SpotOf, ListOf, PcOf, FaultsOf;
    FaultsSame(t, u, id);
    forall w | Guards(u, w, id) ensures Guards(t, w, id) {
    }
    forall w ensures id in ListOf(u.q.store, w) <==> id in ListOf(t.q.store, w) {
    }
    assert SpotOf(t.q.store, id).known by {
      assert Guards(t, v, id);
    }
    assert Owed(u, id) <==> Owed(t, id);
  }

  lemma AddStepOwned(c: Config, t: Timed, v: WorkerId, deadline: int, id: TaskId)
    requires Clocks(c, t) && AllTidy(t) && HandledNotDone(t) && Owned(c, t, id) && id !in t.q.store.done
    requires TCan(c, t, Loop(v, AddInflight(deadline))) && Concerns(t, v, AddInflight(deadline), id)
    ensures Owned(c, TDo(c, t, Loop(v, AddInflight(deadline))), id)
  {
    hide TDo, TCan, ListOf, SpotOf, Clocks, AllTidy, HandledNotDone, Protected, Accounted, OnlyLoop, WorkerNext;
    var act := AddInflight(deadline);
    LoopEffects(c, t, v, act);
    LoopFields(c, t, v, act);
    LoopSpot(c, t, v, act, id);
    ListsOnId(c, t, v, act, id);
    ActsOnId(c, t, v, act, id);
    FaultsOnId(c, t, v, act, id);
    assert Guards(t, v, id);
    OthersOff(t, v, id);
    StampBound(c, t, v);
    AddOwned(c, t, TDo(c, t, Loop(v, act)), v, id, deadline);
  }

  lemma LoopOnOwned(c: Config, t: Timed, v: WorkerId, act: WorkerAct, id: TaskId)
    requires IsSafe(c) && Clocks(c, t) && AllTidy(t) && HandledNotDone(t) && Owned(c, t, id)
    requires TCan(c, t, Loop(v, act)) && Concerns(t, v, act, id)
    ensures Owned(c, TDo(c, t, Loop(v, act)), id)
  {
    hide TDo, TCan, ListOf, SpotOf, FaultsOf, Owned, AllTidy, Clocks, HandledNotDone, OnlyLoop, WorkerNext, Guards;
    var u := TDo(c, t, Loop(v, act));
    DoneAfter(c, t, Loop(v, act));
    if id in u.q.store.done {
      DoneOwned(c, u, id);
    } else {
      LoopEffects(c, t, v, act);
      LoopFields(c, t, v, act);
      LoopSpot(c, t, v, act, id);
      ListsOnId(c, t, v, act, id);
      ActsOnId(c, t, v, act, id);
      FaultsOnId(c, t, v, act, id);
      match act {
        case Claim(_) => ClaimOwned(c, t, u, v, id);
        case AddInflight(deadline) => AddStepOwned(c, t, v, deadline, id);
        case Abandon(_) => AbandonOwned(c, t, u, v, id);
        case ClearCurrent => ReturnOwned(c, t, u, v, id);
        case _ => MoveOnOwned(c, t, u, v, id);
      }
    }
  }

  lemma FaultsOnId(c: Config, t: Timed, v: WorkerId, act: WorkerAct, id: TaskId)
    requires TCan(c, t, Loop(v, act)) && Concerns(t, v, act, id)
    ensures act.Abandon? ==> FaultsOf(TDo(c, t, Loop(v, act)), id) == FaultsOf(t, id) + 1
    ensures act.AddInflight? ==> v in t.stamp && act.deadline == Unix(t.stamp[v]) + c.visibility
  {
    LoopFields(c, t, v, act);
  }

  /** From which to which program counter an act takes the worker that is on id. */
  lemma ActsOnId(c: Config, t: Timed, v: WorkerId, act: WorkerAct, id: TaskId)
    requires TCan(c, t, Loop(v, act)) && Concerns(t, v, act, id) && HandledNotDone(t) && id !in t.q.store.done
    ensures var pc, next := PcOf(t, v), PcOf(TDo(c, t, Loop(v, act)), v);
            match act
            case Claim(_) => pc == Idle && next == Claimed(id)
            case AddInflight(_) => pc == Gated(id) && next == Added(id)
            case Abandon(_) => pc == Abandoning(id) && next == Returning(id)
            case ClearCurrent => pc == Returning(id) && next == Idle
            case Ack(_, _, _, _, _) => true
            case _ =>
              && IsOn(pc, id) && IsOn(next, id) && HoldsList(pc)
              && (|| (pc.Claimed? && next.Gated?)
                  || ((pc.Added? || SetsCurrent(pc)) && SetsCurrent(next) && !next.Returning?))
  {
    hide Exec, WorkerCommand, MayWait;
    LoopFields(c, t, v, act);
  }

  // ---- the whole invariant ----

  lemma OwnedKept(c: Config, t: Timed, a: Tact, id: TaskId)
    requires IsSafe(c) && Good(c, t) && TCan(c, t, a)
    ensures Owned(c, TDo(c, t, a), id)
  {
    assert Owned(c, t, id);
    hide TDo, TCan, Owned, Clocks, AllTidy, HandledNotDone, DrainedInTime;
    match a {
      case Beat(w) => BeatOwned(c, t, w, id);
      case Loop(w, act) =>
        if Concerns(t, w, act, id) {
          LoopOnOwned(c, t, w, act, id);
        } else {
          LoopOtherOwned(c, t, w, act, id);
        }
      case Die(w) => DieOwned(c, t, w, id);
      case Order(_, _) => OrderOwned(c, t, a, id);
      case TickStart => TickStartOwned(c, t, id);
      case TickExpire(x) => TickExpireOwned(c, t, x, id);
      case TickDrain(w) => TickDrainOwned(c, t, w, id);
      case _ => QuietOwned(c, t, a, id);
    }
  }

  lemma GoodKept(c: Config, t: Timed, a: Tact)
    requires IsSafe(c) && Good(c, t) && TCan(c, t, a)
    ensures Good(c, TDo(c, t, a))
  {
    ClocksKept(c, t, a);
    TidyKept(c, t, a);
    HandledKept(c, t, a);
    DrainedInTimeKept(c, t, a);
    hide TDo, TCan, Owned, Clocks, AllTidy, HandledNotDone, DrainedInTime;
    forall id ensures Owned(c, TDo(c, t, a), id) {
      OwnedKept(c, t, a, id);
    }
  }

  /** The invariant holds throughout every timed run. */
  lemma {:induction false} AlwaysGood(c: Config, trace: seq<Tact>)
    requires IsSafe(c) && TRun(c, trace).Some?
    ensures Good(c, TRun(c, trace).value)
    decreases |trace|
  {
    if trace != [] {
      AlwaysGood(c, trace[..|trace| - 1]);
      GoodKept(c, TRun(c, trace[..|trace| - 1]).value, trace[|trace| - 1]);
    }
  }
}
