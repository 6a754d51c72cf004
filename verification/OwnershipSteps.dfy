/** Every timed step keeps every task owned: one lemma for each kind of step. */
module OwnershipSteps {
  import opened Lists
  import opened Keyspace
  import opened Queue
  import opened Spots
  import opened Timed
  import opened Ownership

  /** The step from t to u is not about id. */
  ghost predicate Unconcerned(t: Timed, u: Timed, id: TaskId) {
    && SpotOf(u.q.store, id) == SpotOf(t.q.store, id) && FaultsOf(u, id) == FaultsOf(t, id)
    && (forall w :: id in ListOf(u.q.store, w) <==> id in ListOf(t.q.store, w))
    && (forall w :: IsOn(PcOf(u, w), id) || IsOn(PcOf(t, w), id) ==> PcOf(u, w) == PcOf(t, w))
    && (forall w :: Guards(t, w, id) && w in t.beatAt ==> w in u.beatAt && u.beatAt[w] == t.beatAt[w])
    && (forall w :: PcOf(t, w) == Added(id) && w in t.stamp ==> w in u.stamp && u.stamp[w] == t.stamp[w])
    && (forall w :: id in ListOf(t.q.store, w) ==> (w in u.q.workers <==> w in t.q.workers))
    && (u.reaper.Expiring? && id in u.reaper.ids ==> t.reaper.Expiring? && id in t.reaper.ids)
  }

  lemma DoneOwned(c: Config, u: Timed, id: TaskId)
    requires id in u.q.store.done
    ensures Owned(c, u, id)
  {
  }

  lemma DoneIsInSpot(s: Store, id: TaskId)
    ensures SpotOf(s, id).done <==> id in s.done
  {
  }

  lemma UnconcernedOwned(c: Config, t: Timed, u: Timed, id: TaskId)
    requires Owned(c, t, id) && Unconcerned(t, u, id)
    ensures Owned(c, u, id)
  {
    hide SpotOf, ListOf, FaultsOf, PcOf;
    DoneIsInSpot(t.q.store, id);
    DoneIsInSpot(u.q.store, id);
    if id !in t.q.store.done {
      assert Owed(u, id) <==> Owed(t, id);
      forall w ensures Guards(u, w, id) <==> Guards(t, w, id) {
      }
    }
  }

  lemma SpotAfterStep(c: Config, t: Timed, a: Tact, id: TaskId)
    requires TCan(c, t, a) && AllTidy(t) && TimedAction(a).Some?
    ensures var cmd, p := CommandOf(t.q, TimedAction(a).value), SpotOf(t.q.store, id);
            SpotOf(TDo(c, t, a).q.store, id) ==
            if Touches(t.q.store, cmd, id) then SpotAfter(c.max, p, cmd) else p
  {
    var cmd := CommandOf(t.q, TimedAction(a).value);
    LivenessCommands(t, c, a);
    if a.TickDrain? {
      assert Tidy(t, a.w);
    }
    assert cmd.DrainScript? ==> a == TickDrain(cmd.w);
    ExecSpot(c.max, t.q.store, cmd, id);
  }

  // ---- steps that concern no task ----

  /** All lists and loops after a step that is no loop step. */
  ghost predicate SameLoops(t: Timed, u: Timed) {
    forall w :: ListOf(u.q.store, w) == ListOf(t.q.store, w) && PcOf(u, w) == PcOf(t, w)
  }

  lemma LoopsStay(c: Config, t: Timed, a: Tact)
    requires TCan(c, t, a) && !a.Loop? && !a.Die? && !a.TickDrain?
    ensures SameLoops(t, TDo(c, t, a))
  {
    var u := TDo(c, t, a);
    hide TDo, ListOf, PcOf;
    forall w ensures ListOf(u.q.store, w) == ListOf(t.q.store, w) && PcOf(u, w) == PcOf(t, w) {
      ListsAfter(c, t, a, w);
      PcAfter(c, t, a, w);
    }
  }

  lemma HoldersStay(c: Config, t: Timed, a: Tact, id: TaskId)
    requires Clocks(c, t) && AllTidy(t) && TCan(c, t, a) && !a.Die?
    ensures forall w :: id in ListOf(t.q.store, w) ==> (w in TDo(c, t, a).q.workers <==> w in t.q.workers)
  {
    var u := TDo(c, t, a);
    forall w | id in ListOf(t.q.store, w) ensures w in u.q.workers <==> w in t.q.workers {
      assert Tidy(t, w);
      WorkersQueued(c, t, a, w);
    }
  }

  /** A step that leaves all loops alone and is not about id. */
  lemma UnmovedOwned(c: Config, t: Timed, u: Timed, id: TaskId)
    requires Owned(c, t, id) && SameLoops(t, u)
    requires SpotOf(u.q.store, id) == SpotOf(t.q.store, id) && FaultsOf(u, id) == FaultsOf(t, id)
    requires forall w :: id in ListOf(t.q.store, w) ==> (w in u.q.workers <==> w in t.q.workers)
    requires forall w :: Guards(t, w, id) && w in t.beatAt ==> w in u.beatAt && u.beatAt[w] == t.beatAt[w]
    requires forall w :: PcOf(t, w) == Added(id) && w in t.stamp ==> w in u.stamp && u.stamp[w] == t.stamp[w]
    requires u.reaper.Expiring? && id in u.reaper.ids ==> t.reaper.Expiring? && id in t.reaper.ids
    ensures Owned(c, u, id)
  {
    hide SpotOf, ListOf, PcOf, FaultsOf, Guards, Owned, IsOn;
    UnconcernedOwned(c, t, u, id);
  }

  lemma QuietFields(c: Config, t: Timed, a: Tact, id: TaskId)
    requires TCan(c, t, a)
    requires a.Wait? || a.Hire? || a.Compute? || a.Fade? || a.TickScan? || a.TickEnd? || a.Settle?
    ensures var u := TDo(c, t, a);
            u.beatAt == t.beatAt && u.faults == t.faults && (u.reaper.Expiring? ==> u.reaper == t.reaper)
    ensures forall w :: PcOf(t, w) == Added(id) && w in t.stamp ==>
              w in TDo(c, t, a).stamp && TDo(c, t, a).stamp[w] == t.stamp[w]
  {
  }

  lemma QuietOwned(c: Config, t: Timed, a: Tact, id: TaskId)
    requires Clocks(c, t) && AllTidy(t) && Owned(c, t, id) && TCan(c, t, a)
    requires a.Wait? || a.Hire? || a.Compute? || a.Fade? || a.TickScan? || a.TickEnd? || a.Settle?
    ensures Owned(c, TDo(c, t, a), id)
  {
    var u := TDo(c, t, a);
    LoopsStay(c, t, a);
    HoldersStay(c, t, a, id);
    QuietFields(c, t, a, id);
    QuietSpot(c, t, a, id);
    hide TDo, TCan, ListOf, PcOf, SpotOf, Owned, SameLoops, AllTidy, Guards;
    UnmovedOwned(c, t, u, id);
  }

  lemma QuietSpot(c: Config, t: Timed, a: Tact, id: TaskId)
    requires AllTidy(t) && TCan(c, t, a)
    requires a.Wait? || a.Hire? || a.Compute? || a.Fade? || a.TickScan? || a.TickEnd? || a.Settle?
    ensures SpotOf(TDo(c, t, a).q.store, id) == SpotOf(t.q.store, id)
  {
    hide Do, Can, Touches, SpotAfter, SpotOf, CommandOf, Tidy, MayWait;
    if TimedAction(a).Some? {
      SpotAfterStep(c, t, a, id);
      QuietTouches(t, a, id);
    }
  }

  lemma QuietTouches(t: Timed, a: Tact, id: TaskId)
    requires a.Hire? || a.Fade? || a.Settle?
    ensures !Touches(t.q.store, CommandOf(t.q, TimedAction(a).value), id)
  {
  }

  // ---- the coordinator's steps ----

  /** The fields a coordinator step leaves alone. */
  lemma CoordinatorFields(c: Config, t: Timed, a: Tact, id: TaskId)
    requires TCan(c, t, a) && (a.Order? || a.TickExpire? || a.TickDrain?)
    ensures var u := TDo(c, t, a);
            && u.beatAt == t.beatAt && u.faults == t.faults && u.stamp == t.stamp
            && (u.reaper.Expiring? ==> t.reaper.Expiring? && u.reaper.ids <= t.reaper.ids)
            && (a == TickExpire(id) ==> u.reaper.Expiring? && id !in u.reaper.ids)
  {
  }

  /** An id no one guards is in no loop and in no list. */
  lemma NoOneOn(t: Timed, id: TaskId)
    requires AllTidy(t) && forall w :: !Guards(t, w, id)
    ensures forall w :: !IsOn(PcOf(t, w), id)
    ensures forall w :: id !in ListOf(t.q.store, w)
  {
    forall w ensures !IsOn(PcOf(t, w), id) && id !in ListOf(t.q.store, w) {
      assert Tidy(t, w) && !Guards(t, w, id);
    }
  }

  /** What is left to show for an id that is in no loop and in no list. */
  lemma FreeOwned(c: Config, u: Timed, id: TaskId)
    requires forall w :: !IsOn(PcOf(u, w), id)
    requires forall w :: id !in ListOf(u.q.store, w)
    requires var p := SpotOf(u.q.store, id);
             && p.known && p.inflight.None? && p.ready + p.dead <= 1 && p.attempt == 1 + FaultsOf(u, id)
    requires u.reaper.Expiring? ==> id !in u.reaper.ids
    ensures Owned(c, u, id)
  {
    hide SpotOf, ListOf, PcOf, FaultsOf;
    forall w ensures !Guards(u, w, id) {
      assert !IsOn(PcOf(u, w), id);
    }
    assert !Owed(u, id);
  }

  lemma OrderOwned(c: Config, t: Timed, a: Tact, id: TaskId)
    requires Clocks(c, t) && AllTidy(t) && Owned(c, t, id) && TCan(c, t, a) && a.Order?
    ensures Owned(c, TDo(c, t, a), id)
  {
    hide Exec, WorkerCan, WorkerNext, WorkerCommand, Succeeds, SweepCan, SweepNext, SweepCommand, MayWait;
    var u := TDo(c, t, a);
    LoopsStay(c, t, a);
    HoldersStay(c, t, a, id);
    SpotAfterStep(c, t, a, id);
    CoordinatorFields(c, t, a, id);
    if a.id != id {
      hide TDo, ListOf, PcOf, SpotOf, Owned, SameLoops, AllTidy, Guards;
      UnmovedOwned(c, t, u, id);
    } else {
      assert !SpotOf(t.q.store, id).known;
      assert id in u.q.store.done <==> SpotOf(u.q.store, id).done;
      assert id in t.q.store.done <==> SpotOf(t.q.store, id).done;
      if id !in t.q.store.done {
        NoOneOn(t, id);
        hide TDo, ListOf, PcOf, SpotOf, AllTidy, Guards;
        FreeOwned(c, u, id);
      }
    }
  }

  /** Nothing but the reaper has changed, and it has read no id that someone guards. */
  lemma ReaperOwned(c: Config, t: Timed, u: Timed, id: TaskId)
    requires Owned(c, t, id)
    requires u.q == t.q && u.beatAt == t.beatAt && u.stamp == t.stamp && u.faults == t.faults
    requires u.reaper.Expiring? && id in u.reaper.ids && id !in t.q.store.done ==>
               SpotOf(t.q.store, id).inflight.Some? && forall w :: !Guards(t, w, id)
    ensures Owned(c, u, id)
  {
    hide SpotOf, ListOf, FaultsOf;
    assert forall w :: PcOf(u, w) == PcOf(t, w) && Guards(u, w, id) == Guards(t, w, id);
    FaultsSame(t, u, id);
    assert Owed(u, id) == Owed(t, id);
  }

  lemma TickStartOwned(c: Config, t: Timed, id: TaskId)
    requires IsSafe(c) && Good(c, t) && TCan(c, t, TickStart)
    ensures Owned(c, TDo(c, t, TickStart), id)
  {
    hide Tidy, Clocks, DrainedInTime, HandledNotDone, Guards, Exclusive, Protected, Accounted;
    var u := TDo(c, t, TickStart);
    assert Owned(c, t, id);
    forall w | Guards(t, w, id) && id !in t.q.store.done
      ensures id !in u.reaper.ids
    {
      GuardedNotOverdue(c, t, w, id);
    }
    ReaperOwned(c, t, u, id);
  }

  lemma TickExpireOwned(c: Config, t: Timed, x: TaskId, id: TaskId)
    requires Clocks(c, t) && AllTidy(t) && Owned(c, t, id) && TCan(c, t, TickExpire(x))
    ensures Owned(c, TDo(c, t, TickExpire(x)), id)
  {
    hide Exec, WorkerCan, WorkerNext, WorkerCommand, Succeeds, SweepCan, SweepNext, SweepCommand, MayWait;
    var a := TickExpire(x);
    var u := TDo(c, t, a);
    LoopsStay(c, t, a);
    HoldersStay(c, t, a, id);
    SpotAfterStep(c, t, a, id);
    CoordinatorFields(c, t, a, id);
    if x != id {
      hide TDo, ListOf, PcOf, SpotOf, Owned, SameLoops, AllTidy, Guards;
      UnmovedOwned(c, t, u, id);
    } else {
      ExpireSpot(c, t, id);
      if id !in t.q.store.done {
        NoOneOn(t, id);
        hide TDo, ListOf, PcOf, SpotOf, AllTidy, Guards, Owed, Touches, SpotAfter;
        FreeOwned(c, u, id);
      } else {
        assert SpotOf(u.q.store, id).done;
      }
    }
  }

  /** What an attempt adds to an id. */
  lemma PaidSpot(p: Spot, max: int)
    ensures var q := RetriedSpot(p, max);
            && q.done == p.done && q.known && q.inflight.None?
            && q.ready + q.dead == p.ready + p.dead + 1 && q.attempt == p.attempt + 1
  {
  }

  /** The expiry of an overdue id pays for the fault it was owed. */
  lemma ExpireSpot(c: Config, t: Timed, id: TaskId)
    requires AllTidy(t) && Owned(c, t, id) && TCan(c, t, TickExpire(id))
    ensures var p, q := SpotOf(t.q.store, id), SpotOf(TDo(c, t, TickExpire(id)).q.store, id);
            && q.done == p.done
            && (!p.done ==> q.known && q.inflight.None? && q.ready + q.dead <= 1
                            && q.attempt == 1 + FaultsOf(t, id) && forall w :: !Guards(t, w, id))
  {
    hide Do, Can, RetriedSpot, Tidy, FaultsOf;
    SpotAfterStep(c, t, TickExpire(id), id);
    PaidSpot(SpotOf(t.q.store, id), c.max);
    if id !in t.q.store.done {
      assert forall w :: id in ListOf(t.q.store, w) ==> Guards(t, w, id);
      assert Owed(t, id);
    }
  }

  /** The lists and loops after a drain. */
  lemma DrainEffects(c: Config, t: Timed, v: WorkerId)
    requires TCan(c, t, TickDrain(v))
    ensures var u := TDo(c, t, TickDrain(v));
            forall w ::
              && ListOf(u.q.store, w) == (if w == v && w !in t.q.store.alive then [] else ListOf(t.q.store, w))
              && PcOf(u, w) == PcOf(t, w)
  {
    var u := TDo(c, t, TickDrain(v));
    hide TDo, ListOf, PcOf;
    forall w
      ensures ListOf(u.q.store, w) == (if w == v && w !in t.q.store.alive then [] else ListOf(t.q.store, w))
      ensures PcOf(u, w) == PcOf(t, w)
    {
      ListsAfter(c, t, TickDrain(v), w);
      PcAfter(c, t, TickDrain(v), w);
    }
  }

  /** The dead holder of id has it alone in its list, and no one else guards it. */
  lemma DeadHolder(c: Config, t: Timed, v: WorkerId, id: TaskId)
    requires Clocks(c, t) && AllTidy(t) && Owned(c, t, id) && v !in t.q.store.alive && id in ListOf(t.q.store, v)
    ensures v !in t.q.workers && ListOf(t.q.store, v) == [id]
    ensures var p := SpotOf(t.q.store, id);
            id !in t.q.store.done ==>
              && p.known && p.ready == 0 && p.dead == 0 && p.attempt == FaultsOf(t, id)
              && forall w :: Guards(t, w, id) ==> w == v
  {
    hide SpotOf, FaultsOf, Protected;
    assert Tidy(t, v) && Guards(t, v, id);
    if id !in t.q.store.done {
      assert Owed(t, id);
    }
  }

  /** Draining the dead holder of id pays for the fault it was owed. */
  lemma DrainSpot(c: Config, t: Timed, v: WorkerId, id: TaskId)
    requires Clocks(c, t) && AllTidy(t) && Owned(c, t, id) && TCan(c, t, TickDrain(v))
    requires v !in t.q.store.alive && id in ListOf(t.q.store, v)
    ensures var p, q := SpotOf(t.q.store, id), SpotOf(TDo(c, t, TickDrain(v)).q.store, id);
            && q.done == p.done
            && (!p.done ==> q.known && q.inflight.None? && q.ready + q.dead <= 1
                            && q.attempt == 1 + FaultsOf(t, id) && t.reaper.Draining?)
    ensures id !in t.q.store.done ==> forall w :: Guards(t, w, id) ==> w == v
  {
    hide Do, Can, RetriedSpot, Tidy, FaultsOf, Exclusive, Protected, Accounted, Clocks, ListOf, Guards;
    DeadHolder(c, t, v, id);
    SpotAfterStep(c, t, TickDrain(v), id);
    PaidSpot(SpotOf(t.q.store, id), c.max);
  }

  lemma TickDrainOwned(c: Config, t: Timed, v: WorkerId, id: TaskId)
    requires Clocks(c, t) && AllTidy(t) && Owned(c, t, id) && TCan(c, t, TickDrain(v))
    ensures Owned(c, TDo(c, t, TickDrain(v)), id)
  {
    hide TDo, TCan, ListOf, PcOf, SpotOf, FaultsOf, Owned, Clocks, AllTidy, Guards, IsOn;
    var a := TickDrain(v);
    var u := TDo(c, t, a);
    DrainEffects(c, t, v);
    CoordinatorFields(c, t, a, id);
    FaultsSame(t, u, id);
    DoneIsInSpot(t.q.store, id);
    DoneIsInSpot(u.q.store, id);
    if id in u.q.store.done {
      DoneOwned(c, u, id);
    } else if v !in t.q.store.alive && id in ListOf(t.q.store, v) {
      DrainSpot(c, t, v, id);
      DrainedFree(c, t, v, id);
      FreeOwned(c, u, id);
    } else {
      HoldersStay(c, t, a, id);
      DrainOther(c, t, v, id);
      UnconcernedOwned(c, t, u, id);
    }
  }

  lemma DrainOther(c: Config, t: Timed, v: WorkerId, id: TaskId)
    requires AllTidy(t) && TCan(c, t, TickDrain(v)) && (v in t.q.store.alive || id !in ListOf(t.q.store, v))
    ensures SpotOf(TDo(c, t, TickDrain(v)).q.store, id) == SpotOf(t.q.store, id)
  {
    SpotAfterStep(c, t, TickDrain(v), id);
  }

  lemma DrainedFree(c: Config, t: Timed, v: WorkerId, id: TaskId)
    requires Clocks(c, t) && AllTidy(t) && TCan(c, t, TickDrain(v))
    requires v !in t.q.store.alive && id in ListOf(t.q.store, v)
    requires id !in t.q.store.done ==> forall w :: Guards(t, w, id) ==> w == v
    ensures var u := TDo(c, t, TickDrain(v));
            id !in t.q.store.done ==> forall w :: !IsOn(PcOf(u, w), id) && id !in ListOf(u.q.store, w)
  {
    var u := TDo(c, t, TickDrain(v));
    DrainEffects(c, t, v);
    if id !in t.q.store.done {
      assert Tidy(t, v);
      hide TDo;
      forall w ensures !IsOn(PcOf(u, w), id) && id !in ListOf(u.q.store, w) {
        assert Tidy(t, w);
        assert IsOn(PcOf(t, w), id) || id in ListOf(t.q.store, w) ==> Guards(t, w, id);
      }
    }
  }

  // ---- beats and crashes ----

  lemma BeatSpot(c: Config, t: Timed, w: WorkerId, id: TaskId)
    requires TCan(c, t, Beat(w))
    ensures var p, k := SpotOf(t.q.store, id), t.q.workers[w];
            SpotOf(TDo(c, t, Beat(w)).q.store, id) ==
            if k.current == Some(id) then p.(inflight := Later(p.inflight, Unix(t.now) + c.visibility)) else p
  {
    hide Exec, WorkerCan, WorkerNext, WorkerCommand, Succeeds, SweepCan, SweepNext, SweepCommand, MayWait;
  }

  lemma BeatFields(c: Config, t: Timed, v: WorkerId)
    requires TCan(c, t, Beat(v))
    ensures var u := TDo(c, t, Beat(v));
            && u.beatAt == t.beatAt[v := t.now] && u.stamp == t.stamp && u.reaper == t.reaper && u.faults == t.faults
            && u.q.store.done == t.q.store.done
  {
  }

  /** A worker that is not on id neither guards it nor has it as its current task. */
  lemma NotOn(t: Timed, v: WorkerId, id: TaskId)
    requires Tidy(t, v) && v in t.q.workers && !IsOn(PcOf(t, v), id)
    ensures !Guards(t, v, id) && t.q.workers[v].current != Some(id)
  {
  }

  lemma OnGuards(t: Timed, v: WorkerId, id: TaskId)
    requires Tidy(t, v) && v in t.q.workers && IsOn(PcOf(t, v), id)
    ensures Guards(t, v, id)
  {
  }

  lemma BeatOwned(c: Config, t: Timed, v: WorkerId, id: TaskId)
    requires IsSafe(c) && Clocks(c, t) && AllTidy(t) && HandledNotDone(t) && Owned(c, t, id) && TCan(c, t, Beat(v))
    ensures Owned(c, TDo(c, t, Beat(v)), id)
  {
    hide TDo, ListOf, PcOf, SpotOf, FaultsOf, Owned, Clocks, HandledNotDone, SameLoops, Guards, Tidy, IsOn;
    var a, u := Beat(v), TDo(c, t, Beat(v));
    LoopsStay(c, t, a);
    HoldersStay(c, t, a, id);
    BeatSpot(c, t, v, id);
    BeatFields(c, t, v);
    FaultsSame(t, u, id);
    assert Tidy(t, v);
    if id in u.q.store.done {
      DoneOwned(c, u, id);
    } else if IsOn(PcOf(t, v), id) {
      BeatScore(c, t, v, id);
      OnGuards(t, v, id);
      BeatOnOwned(c, t, u, v, id);
    } else {
      NotOn(t, v, id);
      UnmovedOwned(c, t, u, id);
    }
  }

  lemma BeatOnOwned(c: Config, t: Timed, u: Timed, v: WorkerId, id: TaskId)
    requires Owned(c, t, id) && SameLoops(t, u) && id !in t.q.store.done && Guards(t, v, id)
    requires forall w :: id in ListOf(t.q.store, w) ==> (w in u.q.workers <==> w in t.q.workers)
    requires var p, q := SpotOf(t.q.store, id), SpotOf(u.q.store, id);
             && q == p.(inflight := q.inflight)
             && (q.inflight.Some? <==> p.inflight.Some?)
             && (q.inflight.Some? ==> q.inflight.value >= p.inflight.value
                                      && q.inflight.value >= Unix(t.now) + c.visibility - c.grace)
    requires u.beatAt == t.beatAt[v := t.now] && u.stamp == t.stamp && u.reaper == t.reaper && u.faults == t.faults
    ensures Owned(c, u, id)
  {
    hide SpotOf, ListOf, PcOf, FaultsOf;
    forall w ensures Guards(u, w, id) <==> Guards(t, w, id) {
    }
    assert Owed(u, id) <==> Owed(t, id);
    assert FaultsOf(u, id) == FaultsOf(t, id) by {
      FaultsSame(t, u, id);
    }
  }

  lemma FaultsSame(t: Timed, u: Timed, id: TaskId)
    requires u.faults == t.faults
    ensures FaultsOf(u, id) == FaultsOf(t, id)
  {
  }

  /** After the beat of the worker that is on id, its score is a full visibility away. */
  lemma BeatScore(c: Config, t: Timed, v: WorkerId, id: TaskId)
    requires IsSafe(c) && Clocks(c, t) && AllTidy(t) && HandledNotDone(t) && Owned(c, t, id)
    requires TCan(c, t, Beat(v)) && IsOn(PcOf(t, v), id) && id !in t.q.store.done
    ensures var p, q := SpotOf(t.q.store, id), SpotOf(TDo(c, t, Beat(v)).q.store, id);
            && q == p.(inflight := q.inflight)
            && (q.inflight.Some? <==> p.inflight.Some?)
            && (q.inflight.Some? ==> q.inflight.value >= p.inflight.value
                                     && q.inflight.value >= Unix(t.now) + c.visibility - c.grace)
  {
    hide Exec, WorkerCan, WorkerNext, WorkerCommand, Succeeds, SweepCan, SweepNext, SweepCommand, MayWait;
    BeatSpot(c, t, v, id);
    assert Tidy(t, v) && Guards(t, v, id);
    if PcOf(t, v) == Added(id) {
      UnixMono(t.now, t.stamp[v] + 1000 * c.grace);
      UnixShift(t.stamp[v], c.grace);
    }
  }

  lemma DieEffects(c: Config, t: Timed, v: WorkerId)
    requires TCan(c, t, Die(v))
    ensures var u := TDo(c, t, Die(v));
            forall w ::
              && ListOf(u.q.store, w) == ListOf(t.q.store, w)
              && PcOf(u, w) == (if w == v then Idle else PcOf(t, w))
              && (w in u.q.workers <==> w in t.q.workers && w != v)
  {
    var u := TDo(c, t, Die(v));
    forall w
      ensures ListOf(u.q.store, w) == ListOf(t.q.store, w)
      ensures PcOf(u, w) == (if w == v then Idle else PcOf(t, w))
      ensures w in u.q.workers <==> w in t.q.workers && w != v
    {
      ListsAfter(c, t, Die(v), w);
      PcAfter(c, t, Die(v), w);
      WorkersQueued(c, t, Die(v), w);
    }
  }

  lemma DieFields(c: Config, t: Timed, v: WorkerId, id: TaskId)
    requires TCan(c, t, Die(v)) && Tidy(t, v)
    ensures var u := TDo(c, t, Die(v));
            && u.beatAt == t.beatAt && u.stamp == t.stamp && u.reaper == t.reaper
            && FaultsOf(u, id) == FaultsOf(t, id) + (if id in ListOf(t.q.store, v) then 1 else 0)
  {
    hide Do, Can;
  }

  lemma DieSpot(c: Config, t: Timed, v: WorkerId, id: TaskId)
    requires TCan(c, t, Die(v)) && AllTidy(t)
    ensures SpotOf(TDo(c, t, Die(v)).q.store, id) == SpotOf(t.q.store, id)
  {
    hide SpotOf, Exec, TDo, Tidy;
    SpotAfterStep(c, t, Die(v), id);
  }

  lemma DieOwned(c: Config, t: Timed, v: WorkerId, id: TaskId)
    requires AllTidy(t) && Owned(c, t, id) && TCan(c, t, Die(v))
    ensures Owned(c, TDo(c, t, Die(v)), id)
  {
    hide TDo, Can, ListOf, PcOf, SpotOf, FaultsOf, Owned, Tidy;
    var u := TDo(c, t, Die(v));
    assert Tidy(t, v);
    DieEffects(c, t, v);
    DieFields(c, t, v, id);
    DieSpot(c, t, v, id);
    DoneIsInSpot(t.q.store, id);
    DoneIsInSpot(u.q.store, id);
    if id in u.q.store.done {
      DoneOwned(c, u, id);
    } else if IsOn(PcOf(t, v), id) {
      DieOnOwned(c, t, u, v, id);
    } else {
      NotOn(t, v, id);
      IdleIsOff(id);
      UnconcernedOwned(c, t, u, id);
    }
  }

  lemma IdleIsOff(id: TaskId)
    ensures !IsOn(Idle, id)
  {
  }

  lemma DieOnOwned(c: Config, t: Timed, u: Timed, v: WorkerId, id: TaskId)
    requires Tidy(t, v) && Owned(c, t, id) && v in t.q.workers && IsOn(PcOf(t, v), id) && id !in t.q.store.done
    requires forall w ::
               && ListOf(u.q.store, w) == ListOf(t.q.store, w)
               && PcOf(u, w) == (if w == v then Idle else PcOf(t, w))
               && (w in u.q.workers <==> w in t.q.workers && w != v)
    requires SpotOf(u.q.store, id) == SpotOf(t.q.store, id)
    requires FaultsOf(u, id) == FaultsOf(t, id) + (if id in ListOf(t.q.store, v) then 1 else 0)
    requires u.beatAt == t.beatAt && u.stamp == t.stamp && u.reaper == t.reaper
    ensures Owned(c, u, id)
  {
    hide SpotOf, FaultsOf, ListOf, PcOf, Tidy;
    OnHolds(t, v, id);
    assert Guards(t, v, id);
    forall w | Guards(u, w, id) ensures Guards(t, w, id) {
    }
    forall w | id in ListOf(t.q.store, w) ensures w == v {
      assert Guards(t, w, id);
    }
    if PcOf(t, v) == Returning(id) {
      assert Owed(t, id) && Owed(u, id);
    } else {
      assert !Owed(t, id) && Owed(u, id);
    }
  }

  lemma OnHolds(t: Timed, v: WorkerId, id: TaskId)
    requires Tidy(t, v) && v in t.q.workers && IsOn(PcOf(t, v), id)
    ensures PcOf(t, v) != Returning(id) <==> id in ListOf(t.q.store, v)
  {
  }
}
