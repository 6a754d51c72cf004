/** When a task becomes dead, exactly, and when one that is done does. */
module Burial {
  import opened Lists
  import opened Keyspace
  import opened Queue
  import opened Timed
  import opened Spots
  import opened Ownership
  import opened OwnershipSteps
  import opened OwnershipLoops
  import opened OwnershipResults

  /** The reaper takes the task out of inflight or out of a dead worker's list, its attempts used up. */
  predicate Buries(c: Config, t: Timed, a: Tact, id: TaskId) {
    && Attempt(t.q.store, id) + 1 > c.max
    && (|| (a == TickExpire(id) && id in t.q.store.inflight)
        || (a.TickDrain? && a.w !in t.q.store.alive && ListOf(t.q.store, a.w) == [id]))
  }

  /** Only the two scripts touch the dead list. */
  lemma CommandBuries(max: int, s: Store, p: Spot, cmd: Command, id: TaskId)
    ensures SpotAfter(max, p, cmd).dead ==
            p.dead + (if (cmd.ExpireScript? || cmd.DrainScript?) && p.attempt + 1 > max then 1 else 0)
  {
  }

  lemma ReaperCommands(t: Timed, a: Tact)
    requires TimedAction(a).Some?
    ensures var cmd := CommandOf(t.q, TimedAction(a).value);
            && (cmd.ExpireScript? <==> a.TickExpire?) && (cmd.ExpireScript? ==> cmd.id == a.id)
            && (cmd.DrainScript? <==> a.TickDrain?) && (cmd.DrainScript? ==> cmd.w == a.w)
  {
  }

  lemma AttemptInSpot(s: Store, id: TaskId)
    ensures SpotOf(s, id).attempt == Attempt(s, id)
  {
  }

  lemma BuriedOnce(c: Config, t: Timed, a: Tact, id: TaskId)
    requires AllTidy(t) && TCan(c, t, a)
    ensures SpotOf(TDo(c, t, a).q.store, id).dead ==
            SpotOf(t.q.store, id).dead + (if Buries(c, t, a, id) then 1 else 0)
  {
    hide Do, Can, SpotAfter, SpotOf, ListOf, Tidy, CommandOf, Attempt, MayWait;
    if a.Beat? {
      BeatSpot(c, t, a.w, id);
    } else if TimedAction(a).Some? {
      var cmd, p := CommandOf(t.q, TimedAction(a).value), SpotOf(t.q.store, id);
      SpotAfterStep(c, t, a, id);
      ReaperCommands(t, a);
      CommandBuries(c.max, t.q.store, p, cmd, id);
      AttemptInSpot(t.q.store, id);
    }
  }

  /** Main result: under the timing assumptions a step makes a task dead if and only if it is such a step. */
  lemma BuriedIff(c: Config, trace: seq<Tact>, t: Timed, a: Tact, id: TaskId)
    requires IsSafe(c) && TRun(c, trace) == Some(t) && TCan(c, t, a) && id !in t.q.store.dead
    ensures id in TDo(c, t, a).q.store.dead <==> Buries(c, t, a, id)
  {
    hide TRun, TCan, TDo;
    AlwaysGood(c, trace);
    hide Tidy;
    BuriedOnce(c, t, a, id);
    assert id !in t.q.store.dead ==> Count(t.q.store.dead, id) == 0;
  }

  /** Some step of the run buries the task when it is done already. */
  predicate BuriedWhenDone(c: Config, trace: seq<Tact>, id: TaskId)
    decreases |trace|
  {
    trace != [] &&
    var before, a := trace[..|trace| - 1], trace[|trace| - 1];
    BuriedWhenDone(c, before, id)
    || (TRun(c, before).Some?
        && var t := TRun(c, before).value;
           id in t.q.store.done && id !in t.q.store.dead && Buries(c, t, a, id))
  }

  lemma StepOnDone(c: Config, t: Timed, a: Tact, id: TaskId)
    requires IsSafe(c) && Good(c, t) && TCan(c, t, a)
    ensures var s, u := t.q.store, TDo(c, t, a).q.store;
            (id in u.done && id in u.dead) <==>
            id in s.done && (id in s.dead || Buries(c, t, a, id))
  {
    BuriedOnce(c, t, a, id);
    DoneAfter(c, t, a);
    if id !in t.q.store.done && a.Loop? && a.act.Ack? && a.act.id == id {
      AckFacts(c, t, a.w, a.act, id);
    }
    hide TDo, TCan, Good, Buries;
    assert forall s: Store :: id in s.dead <==> SpotOf(s, id).dead > 0;
  }

  /**
    Main result. Under the timing assumptions, a task ends up done and dead if and only if the reaper
    buries it, its attempts used up, after it was acked. By DoneComesBackIff only a beat between the
    ack and setCurrent("") can have brought it back to where the reaper finds it.
  */
  lemma {:induction false} DoneAndDeadIff(c: Config, trace: seq<Tact>, t: Timed, id: TaskId)
    requires IsSafe(c) && TRun(c, trace) == Some(t)
    ensures (id in t.q.store.done && id in t.q.store.dead) <==> BuriedWhenDone(c, trace, id)
    decreases |trace|
  {
    hide TCan, TDo, Buries;
    if trace != [] {
      var before, a := trace[..|trace| - 1], trace[|trace| - 1];
      var s := TRun(c, before).value;
      DoneAndDeadIff(c, before, s, id);
      AlwaysGood(c, before);
      hide Good;
      StepOnDone(c, s, a, id);
    }
  }

  /** A task is buried when done only if its worker has beaten between its ack and clearing current. */
  lemma BuriedAfterBeat(c: Config, trace: seq<Tact>, id: TaskId)
    requires IsSafe(c) && TRun(c, trace).Some? && BuriedWhenDone(c, trace, id)
    ensures !NeverBeatsAfterAck(c, trace, id)
  {
    hide TRun, BuriedWhenDone, NeverBeatsAfterAck;
    DoneAndDeadIff(c, trace, TRun(c, trace).value, id);
    if NeverBeatsAfterAck(c, trace, id) {
      DoneIsNotDead(c, trace, TRun(c, trace).value, id);
    }
  }
}
