/** What the timed invariant means for a task: one token, one handler, one attempt per fault. */
module OwnershipResults {
  import opened Lists
  import opened Keyspace
  import opened Queue
  import opened Spots
  import opened Timed
  import opened Ownership
  import opened OwnershipSteps
  import opened OwnershipLoops
  import NoLoss

  // ---- timed runs lose nothing ----

  lemma NothingLostStep(c: Config, t: Timed, a: Tact, id: TaskId)
    requires TCan(c, t, a) && NoLoss.Inv(t.q, id)
    ensures NoLoss.Inv(TDo(c, t, a).q, id)
  {
    if a.Beat? {
      var u := TDo(c, t, a);
      if exists w :: NoLoss.Holds(t.q, w, id) {
        var w :| NoLoss.Holds(t.q, w, id);
        assert NoLoss.Holds(u.q, w, id);
      }
    } else if TimedAction(a).Some? {
      assert !NoLoss.DropsOnlyCopy(TimedAction(a).value, id);
      assert Can(t.q, TimedAction(a).value);
      NoLoss.StepKeeps(c.max, t.q, TimedAction(a).value, id);
    }
  }

  lemma {:induction false} NothingLost(c: Config, trace: seq<Tact>, id: TaskId)
    requires TRun(c, trace).Some?
    ensures NoLoss.Inv(TRun(c, trace).value.q, id)
    decreases |trace|
  {
    if trace != [] {
      NothingLost(c, trace[..|trace| - 1], id);
      NothingLostStep(c, TRun(c, trace[..|trace| - 1]).value, trace[|trace| - 1], id);
    }
  }

  // ---- main result ----

  ghost predicate Unheld(t: Timed, id: TaskId) {
    forall w :: id !in ListOf(t.q.store, w)
  }

  /** The token is a copy in ready, the one copy in one list, or an inflight entry without a copy. */
  ghost predicate OneToken(t: Timed, id: TaskId) {
    var p := SpotOf(t.q.store, id);
    && p.dead == 0
    && (|| (p.ready == 1 && p.inflight.None? && Unheld(t, id))
        || (p.ready == 0 && p.inflight.Some? && Unheld(t, id))
        || (p.ready == 0 && exists w :: HeldBy(t, w, id)))
  }

  ghost predicate HeldBy(t: Timed, w: WorkerId, id: TaskId) {
    ListOf(t.q.store, w) == [id] && forall v :: v != w ==> id !in ListOf(t.q.store, v)
  }

  ghost predicate Buried(t: Timed, id: TaskId) {
    var p := SpotOf(t.q.store, id);
    p.dead == 1 && p.ready == 0 && p.inflight.None? && Unheld(t, id)
  }

  lemma HolderIsAlone(c: Config, t: Timed, w: WorkerId, id: TaskId)
    requires Good(c, t) && id !in t.q.store.done && id in ListOf(t.q.store, w)
    ensures HeldBy(t, w, id) && SpotOf(t.q.store, id).ready == 0 && SpotOf(t.q.store, id).dead == 0
  {
    assert Owned(c, t, id) && Tidy(t, w) && Guards(t, w, id);
    assert forall v :: id in ListOf(t.q.store, v) ==> Guards(t, v, id);
  }

  lemma TokenOf(c: Config, t: Timed, id: TaskId)
    requires Good(c, t) && NoLoss.Inv(t.q, id) && id in t.q.store.tasks && id !in t.q.store.done
    ensures OneToken(t, id) || Buried(t, id)
  {
    assert Owned(c, t, id);
    if w :| id in ListOf(t.q.store, w) {
      HolderIsAlone(c, t, w, id);
    } else {
      assert Unheld(t, id);
      assert NoLoss.Safe(t.q.store, id);
    }
  }

  /** What the timing assumptions give a task that is not done. */
  ghost predicate OneOwner(t: Timed, id: TaskId) {
    && (id !in t.q.store.dead ==> OneToken(t, id))
    && (id in t.q.store.dead ==> Buried(t, id))
    && (forall v, w :: Handling(PcOf(t, v), id) && Handling(PcOf(t, w), id) ==> v == w)
    && Attempt(t.q.store, id) == 1 + FaultsOf(t, id) - (if Owed(t, id) then 1 else 0)
  }

  /**
    Main result. Under the timing assumptions, in every run, a task that is not done has exactly one
    token, or is buried in dead with none; at most one worker is past the gate with it; and its
    attempt counter is one more than the crashes and abandonments it has suffered, less the one
    that is still to be reaped.
  */
  lemma SingleOwnership(c: Config, trace: seq<Tact>, t: Timed, id: TaskId)
    requires IsSafe(c) && TRun(c, trace) == Some(t)
    ensures id in t.q.store.tasks && id !in t.q.store.done ==> OneOwner(t, id)
  {
    AlwaysGood(c, trace);
    NothingLost(c, trace, id);
    if id in t.q.store.tasks && id !in t.q.store.done {
      assert Owned(c, t, id);
      TokenOf(c, t, id);
      assert id in t.q.store.dead <==> SpotOf(t.q.store, id).dead > 0;
      forall v, w | Handling(PcOf(t, v), id) && Handling(PcOf(t, w), id) ensures v == w {
        assert Tidy(t, v) && Tidy(t, w);
        assert Guards(t, v, id) && Guards(t, w, id);
      }
    }
  }

  // ---- done and dead ----

  /** The worker has acked id but not yet cleared current, and its heartbeat re-adds id to inflight. */
  predicate BeatsAfterAck(t: Timed, a: Tact, id: TaskId) {
    a.Beat? && a.w in t.q.workers && t.q.workers[a.w].current == Some(id) && id in t.q.store.done
  }

  predicate NeverBeatsAfterAck(c: Config, trace: seq<Tact>, id: TaskId)
    decreases |trace|
  {
    trace != [] ==>
      var before := trace[..|trace| - 1];
      NeverBeatsAfterAck(c, before, id)
      && (TRun(c, before).Some? ==> !BeatsAfterAck(TRun(c, before).value, trace[|trace| - 1], id))
  }

  /** A done task is nowhere else, and loops are at most returning from it. */
  ghost predicate Finished(t: Timed, id: TaskId) {
    id in t.q.store.done ==>
      var p := SpotOf(t.q.store, id);
      && p.known && p.ready == 0 && p.inflight.None? && p.dead == 0
      && forall w :: id !in ListOf(t.q.store, w) && (IsOn(PcOf(t, w), id) ==> PcOf(t, w).Returning?)
  }

  lemma AckHolder(c: Config, t: Timed, v: WorkerId, act: WorkerAct, id: TaskId)
    requires Tidy(t, v) && TCan(c, t, Loop(v, act)) && act.Ack? && act.id == id
    ensures Guards(t, v, id)
  {
  }

  lemma AckSpot(c: Config, t: Timed, v: WorkerId, act: WorkerAct, id: TaskId)
    requires AllTidy(t) && TCan(c, t, Loop(v, act)) && act.Ack? && act.id == id && id !in t.q.store.done
    ensures var p, q := SpotOf(t.q.store, id), SpotOf(TDo(c, t, Loop(v, act)).q.store, id);
            q == p.(inflight := None, done := true, known := true)
  {
    hide SpotOf, TDo, AllTidy;
    SpotAfterStep(c, t, Loop(v, act), id);
  }

  lemma AckFacts(c: Config, t: Timed, v: WorkerId, act: WorkerAct, id: TaskId)
    requires Good(c, t) && TCan(c, t, Loop(v, act)) && act.Ack? && act.id == id && id !in t.q.store.done
    ensures var p, q := SpotOf(t.q.store, id), SpotOf(TDo(c, t, Loop(v, act)).q.store, id);
            p.ready == 0 && p.dead == 0 && q == p.(inflight := None, done := true, known := true)
    ensures Guards(t, v, id) && forall w :: w != v ==> !IsOn(PcOf(t, w), id) && !Guards(t, w, id)
  {
    assert Owned(c, t, id) && Tidy(t, v);
    hide TCan, TDo, Tidy, Good, SpotOf, PcOf, Protected, Accounted;
    AckHolder(c, t, v, act, id);
    OthersOff(t, v, id);
    AckSpot(c, t, v, act, id);
  }

  lemma FinishedByAck(c: Config, t: Timed, v: WorkerId, act: WorkerAct, id: TaskId)
    requires Good(c, t) && TCan(c, t, Loop(v, act)) && act.Ack? && act.id == id && id !in t.q.store.done
    ensures Finished(TDo(c, t, Loop(v, act)), id)
  {
    hide TDo, ListOf, PcOf, SpotOf, Clocks, Tidy, HandledNotDone, DrainedInTime, Owned;
    var u := TDo(c, t, Loop(v, act));
    AckFacts(c, t, v, act, id);
    LoopEffects(c, t, v, act);
    LoopFields(c, t, v, act);
    AckListed(c, t, v, act, id);
    forall w
      ensures id !in ListOf(u.q.store, w) && (IsOn(PcOf(u, w), id) ==> PcOf(u, w).Returning?)
    {
      if w != v {
        assert id in ListOf(t.q.store, w) ==> Guards(t, w, id);
      }
    }
  }

  lemma AckListed(c: Config, t: Timed, v: WorkerId, act: WorkerAct, id: TaskId)
    requires AllTidy(t) && TCan(c, t, Loop(v, act)) && act.Ack? && act.id == id
    ensures id !in ListOf(TDo(c, t, Loop(v, act)).q.store, v) && PcOf(TDo(c, t, Loop(v, act)), v).Returning?
  {
    hide ListOf, Tidy, TDo;
    LoopFields(c, t, v, act);
    ListsOnId(c, t, v, act, id);
  }

  lemma FinishedStays(c: Config, t: Timed, a: Tact, id: TaskId)
    requires IsSafe(c) && Good(c, t) && Finished(t, id) && TCan(c, t, a) && id in t.q.store.done
    requires !BeatsAfterAck(t, a, id)
    ensures Finished(TDo(c, t, a), id)
  {
    var u := TDo(c, t, a);
    FinishedSpot(c, t, a, id);
    FinishedLoops(c, t, a, id);
  }

  /** Main result: a step brings a done task back if and only if it is such a beat. */
  lemma DoneComesBackIff(c: Config, t: Timed, a: Tact, id: TaskId)
    requires IsSafe(c) && Good(c, t) && Finished(t, id) && TCan(c, t, a) && id in t.q.store.done
    ensures !Finished(TDo(c, t, a), id) <==> BeatsAfterAck(t, a, id)
  {
    if BeatsAfterAck(t, a, id) {
      var u := TDo(c, t, a);
      assert id in u.q.store.done && id in u.q.store.inflight;
    } else {
      FinishedStays(c, t, a, id);
    }
  }

  /** No step but such a beat is about a finished task. */
  lemma FinishedUntouched(c: Config, t: Timed, a: Tact, id: TaskId)
    requires Finished(t, id) && TCan(c, t, a) && TimedAction(a).Some? && !a.Loop? && id in t.q.store.done
    ensures !Touches(t.q.store, CommandOf(t.q, TimedAction(a).value), id)
  {
    hide SweepCan, MayWait, WorkerCan, WorkerCommand;
    if a.TickDrain? {
      assert id !in ListOf(t.q.store, a.w);
    }
    assert a.TickExpire? ==> SpotOf(t.q.store, id).inflight.None?;
    assert a.Order? ==> SpotOf(t.q.store, id).known;
  }

  lemma FinishedLoopSpot(c: Config, t: Timed, v: WorkerId, act: WorkerAct, id: TaskId)
    requires AllTidy(t) && Finished(t, id) && TCan(c, t, Loop(v, act)) && id in t.q.store.done
    ensures SpotOf(TDo(c, t, Loop(v, act)).q.store, id) == SpotOf(t.q.store, id)
  {
    hide TDo, ListOf, SpotOf, Tidy, WorkerCommand;
    LoopSpot(c, t, v, act, id);
    assert IsOn(PcOf(t, v), id) ==> PcOf(t, v).Returning?;
  }

  lemma FinishedSpot(c: Config, t: Timed, a: Tact, id: TaskId)
    requires AllTidy(t) && Finished(t, id) && TCan(c, t, a) && id in t.q.store.done && !BeatsAfterAck(t, a, id)
    ensures SpotOf(TDo(c, t, a).q.store, id) == SpotOf(t.q.store, id)
  {
    hide Can, Do, SpotOf, Tidy, Finished, Touches, MayWait;
    if a.Beat? {
      BeatSpot(c, t, a.w, id);
    } else if a.Loop? {
      FinishedLoopSpot(c, t, a.w, a.act, id);
    } else if TimedAction(a).Some? {
      SpotAfterStep(c, t, a, id);
      FinishedUntouched(c, t, a, id);
    }
  }

  lemma FinishedLoops(c: Config, t: Timed, a: Tact, id: TaskId)
    requires IsSafe(c) && Good(c, t) && Finished(t, id) && TCan(c, t, a) && id in t.q.store.done
    requires !BeatsAfterAck(t, a, id)
    ensures var u := TDo(c, t, a);
            forall w :: id !in ListOf(u.q.store, w) && (IsOn(PcOf(u, w), id) ==> PcOf(u, w).Returning?)
  {
    var u := TDo(c, t, a);
    TidyKept(c, t, a);
    FinishedPcs(c, t, a, id);
    forall w ensures id !in ListOf(u.q.store, w) {
      if w in u.q.workers {
        assert Tidy(u, w);
        assert PcOf(u, w) == u.q.workers[w].pc;
      } else {
        ListsKeepOut(c, t, a, w, id);
      }
    }
  }

  lemma ListsKeepOut(c: Config, t: Timed, a: Tact, w: WorkerId, id: TaskId)
    requires TCan(c, t, a) && w !in TDo(c, t, a).q.workers && id !in ListOf(t.q.store, w)
    ensures id !in ListOf(TDo(c, t, a).q.store, w)
  {
    WorkersQueued(c, t, a, w);
    ListsAfter(c, t, a, w);
  }

  lemma FinishedPcs(c: Config, t: Timed, a: Tact, id: TaskId)
    requires Finished(t, id) && TCan(c, t, a) && id in t.q.store.done
    ensures forall w :: IsOn(PcOf(TDo(c, t, a), w), id) ==> PcOf(TDo(c, t, a), w).Returning?
  {
    forall w | IsOn(PcOf(TDo(c, t, a), w), id) ensures PcOf(TDo(c, t, a), w).Returning? {
      PcAfter(c, t, a, w);
      if a.Loop? && a.w == w {
        assert IsOn(PcOf(t, w), id) ==> PcOf(t, w).Returning?;
        assert SpotOf(t.q.store, id).ready == 0 && id !in t.q.store.ready;
      }
    }
  }

  lemma {:induction false} AlwaysFinished(c: Config, trace: seq<Tact>, id: TaskId)
    requires IsSafe(c) && TRun(c, trace).Some? && NeverBeatsAfterAck(c, trace, id)
    ensures Finished(TRun(c, trace).value, id)
    decreases |trace|
  {
    if trace != [] {
      var before, a := trace[..|trace| - 1], trace[|trace| - 1];
      AlwaysFinished(c, before, id);
      AlwaysGood(c, before);
      var t := TRun(c, before).value;
      if id in t.q.store.done {
        FinishedStays(c, t, a, id);
      } else {
        DoneAfter(c, t, a);
        if id in TDo(c, t, a).q.store.done {
          FinishedByAck(c, t, a.w, a.act, id);
        }
      }
    }
  }

  /**
    Main result. Timing alone does not keep done and dead apart: they are disjoint for every task
    whose worker never beats between its ack and setCurrent("").
  */
  lemma DoneIsNotDead(c: Config, trace: seq<Tact>, t: Timed, id: TaskId)
    requires IsSafe(c) && TRun(c, trace) == Some(t) && NeverBeatsAfterAck(c, trace, id)
    ensures !(id in t.q.store.done && id in t.q.store.dead)
  {
    AlwaysFinished(c, trace, id);
  }
}
