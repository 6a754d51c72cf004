/**
  The worker framework as it is written: runLoop, claim, handleTask, ack and a heartbeat over a
  Redis whose calls may fail or lose their replies. Each method takes exactly the steps the
  worker's part of the queue machine allows.
*/
module Framework {
  import opened Lists
  import opened Keyspace
  import opened Queue
  import opened RedisServer

  datatype StageResult = Accepted | Rejected | NoAnswer

  /** How each call of one round of runLoop ends. */
  datatype Luck = Luck(
    move: Outcome, gate: Outcome, skip: Outcome, zadd: Outcome, drop: Outcome,
    fetch: Outcome, stage: StageResult, abandon: Outcome, ack: Outcome)

  /** Worker w alone with the store. */
  function Solo(s: Store, w: WorkerId, k: Worker): State {
    State(s, map[w := k], map[])
  }

  lemma More(s: State, acts: seq<Action>, st: Store, w: WorkerId, k: Worker, act: WorkerAct)
    requires Continue(0, s, acts) == Some(Solo(st, w, k)) && WorkerCan(st, w, k, act)
    ensures Continue(0, s, acts + [Work(w, act)]) ==
            Some(Solo(Exec(0, st, WorkerCommand(w, k, act)), w, WorkerNext(st, w, k, act)))
  {
    var t := Solo(st, w, k);
    assert (acts + [Work(w, act)])[..|acts|] == acts;
    assert Do(0, t, Work(w, act)).workers == map[w := WorkerNext(st, w, k, act)];
  }

  lemma NoSteps(s: State)
    ensures Continue(0, s, []) == Some(s)
  {
  }

  // ---- what a round of runLoop leaves behind ----

  /** The id that claim returns. */
  function ClaimedId(s: Store, o: Luck): Option<TaskId> {
    if s.ready != [] && o.move.Answered? && o.gate.Answered? && s.ready[0] !in s.done then Some(s.ready[0]) else None
  }

  function AfterGate(s: Store, w: WorkerId, id: TaskId, o: Luck): Store {
    if o.gate.Answered? && id in s.done && !o.skip.Refused? then Removed(s, w, id) else s
  }

  function AfterClaim(s: Store, w: WorkerId, o: Luck): Store {
    if s.ready == [] || o.move.Refused? then s
    else if o.move.Answered? then AfterGate(Moved(s, w), w, s.ready[0], o)
    else Moved(s, w)
  }

  /** The envelope that reaches the stage, if there is one. */
  function Submitted(s: Store, id: TaskId, o: Luck): Option<Envelope> {
    if o.zadd.Answered? && o.fetch.Answered? then TaskOf(s, id).payload else None
  }

  function AfterStage(s: Store, w: WorkerId, id: TaskId, env: Option<Envelope>, o: Luck): Store {
    if env.Some? && !o.stage.NoAnswer? then
      if o.ack.Refused? then s else Acked(s, w, id, env.value.order, o.stage.Accepted?)
    else if o.abandon.Refused? then s else Removed(s, w, id)
  }

  function AfterTask(s: Store, w: WorkerId, id: TaskId, deadline: int, o: Luck): Store {
    var scored := if o.zadd.Refused? then s else Scored(s, id, deadline);
    if o.zadd.Answered? then AfterStage(scored, w, id, Submitted(s, id, o), o)
    else if o.drop.Refused? then scored else Removed(scored, w, id)
  }

  function AfterBeat(s: Store, w: WorkerId, current: Option<TaskId>, deadline: int, alive: Outcome, extend: Outcome): Store {
    var s := if alive.Refused? then s else s.(alive := s.alive + {w});
    if current.Some? && !extend.Refused? then Extended(s, current.value, deadline) else s
  }

  function AfterRound(s: Store, w: WorkerId, visibility: int, now: int, o: Luck): Store {
    var id := ClaimedId(s, o);
    if id.Some? then AfterTask(AfterClaim(s, w, o), w, id.value, now + visibility, o) else AfterClaim(s, w, o)
  }

  function AfterRounds(s: Store, w: WorkerId, visibility: int, rounds: seq<(int, Luck)>): Store
    decreases |rounds|
  {
    if rounds == [] then s
    else
      var last := |rounds| - 1;
      AfterRound(AfterRounds(s, w, visibility, rounds[..last]), w, visibility, rounds[last].0, rounds[last].1)
  }

  lemma NoRounds(s: Store, w: WorkerId, visibility: int, rounds: seq<(int, Luck)>)
    ensures AfterRounds(s, w, visibility, rounds[..0]) == s
  {
  }

  lemma OneMoreRound(s: Store, w: WorkerId, visibility: int, rounds: seq<(int, Luck)>, i: nat)
    requires i < |rounds|
    ensures AfterRounds(s, w, visibility, rounds[..i + 1]) ==
            AfterRound(AfterRounds(s, w, visibility, rounds[..i]), w, visibility, rounds[i].0, rounds[i].1)
  {
    hide AfterRound;
    assert rounds[..i + 1][..i] == rounds[..i];
  }

  /** The task is acked: its ZADD and HGET answered with a payload, the stage decided, and the transaction ran. */
  predicate IsAcked(s: Store, id: TaskId, o: Luck) {
    && o.zadd.Answered? && o.fetch.Answered? && TaskOf(s, id).payload.Some?
    && (o.stage.Accepted? || o.stage.Rejected?) && !o.ack.Refused?
  }

  lemma RemovedLeaves(s: Store, w: WorkerId, id: TaskId)
    ensures Removed(s, w, id) == s.(processing := Removed(s, w, id).processing)
    ensures ListOf(Removed(s, w, id), w) == RemoveFirst(ListOf(s, w), id)
    ensures forall v :: v != w ==> ListOf(Removed(s, w, id), v) == ListOf(s, v)
  {
    hide RemoveFirst;
  }

  /**
    Main result: what becomes of a claimed task is decided by how its own calls and its stage end. It is
    done if and only if it is acked, its order is put up for settlement if and only if the stage accepted
    it, a task given up keeps its deadline for the reaper, and nothing else changes.
  */
  lemma TaskOutcome(s: Store, w: WorkerId, id: TaskId, deadline: int, o: Luck)
    ensures var t := AfterTask(s, w, id, deadline, o);
            var acked := IsAcked(s, id, o);
            && t.done == s.done + (if acked then {id} else {})
            && t.pending == s.pending + (if acked && o.stage.Accepted? && TaskOf(s, id).payload.value.order != ""
                                         then {TaskOf(s, id).payload.value.order} else {})
            && t.inflight == (if acked then s.inflight - {id}
                              else if o.zadd.Refused? then s.inflight
                              else s.inflight[id := deadline])
            && t.tasks == (if acked then s.tasks[id := TaskOf(s, id).(status := if o.stage.Accepted? then Done else Failed)]
                           else s.tasks)
            && t.ready == s.ready && t.dead == s.dead && t.alive == s.alive && t.finalized == s.finalized
    ensures var t := AfterTask(s, w, id, deadline, o);
            var stays := if !o.zadd.Answered? then o.drop.Refused?
                         else if o.fetch.Answered? && TaskOf(s, id).payload.Some? && !o.stage.NoAnswer? then o.ack.Refused?
                         else o.abandon.Refused?;
            && ListOf(t, w) == (if stays then ListOf(s, w) else RemoveFirst(ListOf(s, w), id))
            && forall v :: v != w ==> ListOf(t, v) == ListOf(s, v)
  {
    hide RemoveFirst, Removed, ListOf;
    var scored := Scored(s, id, deadline);
    SameLists(s, scored);
    RemovedLeaves(s, w, id);
    RemovedLeaves(scored, w, id);
    if IsAcked(s, id, o) {
      AckOutcome(s, w, id, deadline, TaskOf(s, id).payload.value.order, o.stage.Accepted?);
    }
  }

  // ---- a worker whom nothing fails ----

  predicate IsLucky(o: Luck) {
    && o.move.Answered? && o.gate.Answered? && o.skip.Answered? && o.zadd.Answered? && o.fetch.Answered?
    && (o.stage.Accepted? || o.stage.Rejected?) && o.ack.Answered?
  }

  ghost predicate SamePayloads(s: Store, t: Store) {
    forall id :: TaskOf(t, id).payload == TaskOf(s, id).payload
  }

  lemma LuckyClaim(s: Store, w: WorkerId, o: Luck)
    requires IsLucky(o) && s.ready != []
    ensures var t := AfterClaim(s, w, o);
            t.ready == s.ready[1..] && t.done == s.done && t.tasks == s.tasks
  {
    hide ListOf, RemoveFirst;
  }

  lemma LuckyRound(s: Store, w: WorkerId, visibility: int, now: int, o: Luck)
    requires IsLucky(o) && s.ready != []
    ensures var t := AfterRound(s, w, visibility, now, o);
            && t.ready == s.ready[1..] && s.done <= t.done && SamePayloads(s, t)
            && (TaskOf(s, s.ready[0]).payload.Some? ==> s.ready[0] in t.done)
  {
    hide AfterClaim, AfterTask;
    LuckyClaim(s, w, o);
    TaskOutcome(AfterClaim(s, w, o), w, s.ready[0], now + visibility, o);
  }

  /** Main result: a worker whom nothing fails takes the ready tasks in their order and acks each of them. */
  lemma {:induction false} LuckyLoop(s: Store, w: WorkerId, visibility: int, rounds: seq<(int, Luck)>)
    requires forall r <- rounds :: IsLucky(r.1)
    ensures var t := AfterRounds(s, w, visibility, rounds);
            var n := if |rounds| <= |s.ready| then |rounds| else |s.ready|;
            && t.ready == s.ready[n..] && s.done <= t.done && SamePayloads(s, t)
            && forall i :: 0 <= i < n && TaskOf(s, s.ready[i]).payload.Some? ==> s.ready[i] in t.done
    decreases |rounds|
  {
    hide AfterRound, TaskOf;
    if rounds != [] {
      var last := |rounds| - 1;
      LuckyLoop(s, w, visibility, rounds[..last]);
      var u := AfterRounds(s, w, visibility, rounds[..last]);
      assert rounds[last] in rounds;
      if u.ready != [] {
        assert s.ready[last..][1..] == s.ready[last + 1..];
        LuckyRound(u, w, visibility, rounds[last].0, rounds[last].1);
      } else {
        NothingReady(u, w, visibility, rounds[last].0, rounds[last].1);
      }
    }
  }

  lemma NothingReady(s: Store, w: WorkerId, visibility: int, now: int, o: Luck)
    requires s.ready == []
    ensures AfterRound(s, w, visibility, now, o) == s
  {
  }

  lemma SameLists(s: Store, t: Store)
    requires t.processing == s.processing
    ensures forall v :: ListOf(t, v) == ListOf(s, v)
  {
  }

  lemma AckOutcome(s: Store, w: WorkerId, id: TaskId, deadline: int, order: OrderId, success: bool)
    ensures var t := Acked(Scored(s, id, deadline), w, id, order, success);
            && t.done == s.done + {id} && t.pending == s.pending + (if success && order != "" then {order} else {})
            && t.inflight == s.inflight - {id}
            && t.tasks == s.tasks[id := TaskOf(s, id).(status := if success then Done else Failed)]
            && t.ready == s.ready && t.dead == s.dead && t.alive == s.alive && t.finalized == s.finalized
            && ListOf(t, w) == RemoveFirst(ListOf(s, w), id) && forall v :: v != w ==> ListOf(t, v) == ListOf(s, v)
  {
    hide RemoveFirst;
  }

  class Framework {
    const w: WorkerId
    const rdb: Redis
    const visibility: int
    var current: Option<TaskId>

    constructor (w: WorkerId, rdb: Redis, visibility: int)
      ensures this.w == w && this.rdb == rdb && this.visibility == visibility && current == None
    {
      this.w, this.rdb, this.visibility, this.current := w, rdb, visibility, None;
    }

    /** The machine state that this object and its Redis amount to when the loop stands at pc. */
    ghost function At(pc: Pc): State
      reads this, rdb
    {
      Solo(rdb.View(), w, Worker(pc, current, None))
    }

    ghost predicate Took(start: State, acts: seq<Action>, pc: Pc)
      reads this, rdb
    {
      Continue(0, start, acts) == Some(At(pc))
    }

    /** The idempotency gate: a done task is removed from the processing list and skipped. */
    method Gate(id: TaskId, o: Luck) returns (open: bool, ghost acts: seq<Action>)
      requires current == None
      modifies rdb
      ensures Took(old(At(Claimed(id))), acts, if open then Gated(id) else Idle)
      ensures open == (o.gate.Answered? && id !in old(rdb.done))
      ensures rdb.View() == AfterGate(old(rdb.View()), w, id, o)
    {
      ghost var start, s, k := At(Claimed(id)), rdb.View(), Worker(Claimed(id), None, None);
      var done, err := rdb.SIsMember(id, o.gate);
      if err {
        More(start, [], s, w, k, GateError);
        return false, [] + [Work(w, GateError)];
      }
      if done {
        More(start, [], s, w, k, GateDone);
        acts := [] + [Work(w, GateDone)];
        var _ := rdb.LRem(w, id, o.skip);
        More(start, acts, s, w, k.(pc := Skipping(id)), SkipRemove(!o.skip.Refused?));
        return false, acts + [Work(w, SkipRemove(!o.skip.Refused?))];
      }
      More(start, [], s, w, k, GateOpen);
      return true, [] + [Work(w, GateOpen)];
    }

    /** BLMOVE, then the gate. */
    method Claim(o: Luck) returns (id: Option<TaskId>, ghost acts: seq<Action>)
      requires current == None
      modifies rdb
      ensures Took(old(At(Idle)), acts, if id.Some? then Gated(id.value) else Idle)
      ensures id == ClaimedId(old(rdb.View()), o) && rdb.View() == AfterClaim(old(rdb.View()), w, o)
      ensures acts == [] <==> old(rdb.ready) == [] || o.move.Refused?
    {
      ghost var start, s, k := At(Idle), rdb.View(), Worker(Idle, None, None);
      acts := [];
      var moved, err := rdb.BLMove(w, o.move);
      if moved.None? {
        if s.ready != [] && !o.move.Refused? {
          More(start, [], s, w, k, ClaimLost(s.ready[0]));
          acts := [] + [Work(w, ClaimLost(s.ready[0]))];
        }
        return None, acts;
      }
      More(start, [], s, w, k, Queue.Claim(moved.value));
      acts := [] + [Work(w, Queue.Claim(moved.value))];
      assert Took(start, acts, Claimed(moved.value)) && rdb.done == s.done;
      var open, more := Gate(moved.value, o);
      ContinueTwice(0, start, acts, more);
      return if open then moved else None, acts + more;
    }

    /** The claimed task from its ZADD to its ack or its abandonment. */
    method HandleTask(id: TaskId, now: int, o: Luck) returns (ghost acts: seq<Action>)
      requires current == None
      modifies rdb, this
      ensures Took(old(At(Gated(id))), acts, Idle) && current == None
      ensures rdb.View() == AfterTask(old(rdb.View()), w, id, now + visibility, o)
    {
      hide Continue, WithList, Retried, DrainedIds, Acked, Extended, Removed;
      ghost var start, s0 := At(Gated(id)), rdb.View();
      ghost var k := Worker(Gated(id), None, None);
      NoSteps(start);
      var deadline := now + visibility;
      var err := rdb.ZAdd(id, deadline, o.zadd);
      if err {
        More(start, [], s0, w, k, AddInflightError(deadline, !o.zadd.Refused?));
        acts := [] + [Work(w, AddInflightError(deadline, !o.zadd.Refused?))];
        ghost var s1 := rdb.View();
        var _ := rdb.LRem(w, id, o.drop);
        ghost var drop := DropUnadded(id, !o.zadd.Refused?, !o.drop.Refused?);
        More(start, acts, s1, w, k.(pc := Dropping(id, !o.zadd.Refused?)), drop);
        acts := acts + [Work(w, drop)];
        return acts;
      }
      More(start, [], s0, w, k, AddInflight(deadline));
      acts := [] + [Work(w, AddInflight(deadline))];
      More(start, acts, rdb.View(), w, k.(pc := Added(id)), Queue.SetCurrent);
      acts := acts + [Work(w, Queue.SetCurrent)];
      current := Some(id);
      assert Took(start, acts, Watched(id));
      ghost var more := WhileCurrent(id, o);
      ContinueTwice(0, start, acts, more);
      acts := acts + more;
    }

    /** What handleTask does between setCurrent(id) and the deferred setCurrent(""). */
    method WhileCurrent(id: TaskId, o: Luck) returns (ghost acts: seq<Action>)
      requires current == Some(id)
      modifies rdb, this
      ensures Took(old(At(Watched(id))), acts, Idle) && current == None
      ensures var s := old(rdb.View());
              rdb.View() == AfterStage(s, w, id, if o.fetch.Answered? then TaskOf(s, id).payload else None, o)
    {
      ghost var start, s := At(Watched(id)), rdb.View();
      ghost var k := Worker(Watched(id), Some(id), None);
      var env := rdb.HGetPayload(id, o.fetch);
      if env.None? {
        More(start, [], s, w, k, FetchError);
        acts := [] + [Work(w, FetchError)];
        ghost var more := GiveUp(id, o);
        ContinueTwice(0, start, acts, more);
        return acts + more;
      }
      More(start, [], s, w, k, Fetch);
      acts := [] + [Work(w, Fetch)];
      More(start, acts, s, w, k.(pc := Fetched(id, env.value)), Launch(id));
      acts := acts + [Work(w, Launch(id))];
      ghost var staging := k.(pc := Staging(id, env.value));
      if o.stage.NoAnswer? {
        More(start, acts, s, w, staging, StageError);
        acts := acts + [Work(w, StageError)];
        ghost var more := GiveUp(id, o);
        ContinueTwice(0, start, acts, more);
        return acts + more;
      }
      var success := o.stage.Accepted?;
      More(start, acts, s, w, staging, StageVerdict(success));
      acts := acts + [Work(w, StageVerdict(success))];
      assert Took(start, acts, Acking(id, env.value, success));
      ghost var more := Acknowledge(id, env.value, success, o);
      ContinueTwice(0, start, acts, more);
      acts := acts + more;
    }

    /** The ack; the copy stays in the list when it fails. */
    method Acknowledge(id: TaskId, env: Envelope, success: bool, o: Luck) returns (ghost acts: seq<Action>)
      requires current == Some(id)
      modifies rdb, this
      ensures Took(old(At(Acking(id, env, success))), acts, Idle) && current == None
      ensures rdb.View() == if o.ack.Refused? then old(rdb.View()) else Acked(old(rdb.View()), w, id, env.order, success)
    {
      hide Continue, WithList, Retried, DrainedIds, Acked, Extended, Removed, Scored;
      ghost var start, s := At(Acking(id, env, success)), rdb.View();
      ghost var k := Worker(Acking(id, env, success), Some(id), None);
      NoSteps(start);
      var err := rdb.AckTx(w, id, env.order, success, o.ack);
      ghost var ack := Ack(id, env, success, !o.ack.Refused?, o.ack.Answered?);
      More(start, [], s, w, k, ack);
      acts := [] + [Work(w, ack)];
      More(start, acts, rdb.View(), w, k.(pc := Returning(id)), ClearCurrent);
      acts := acts + [Work(w, ClearCurrent)];
      current := None;
    }

    /** lremProcessing, best-effort, and the return. */
    method GiveUp(id: TaskId, o: Luck) returns (ghost acts: seq<Action>)
      requires current == Some(id)
      modifies rdb, this
      ensures Took(old(At(Abandoning(id))), acts, Idle) && current == None
      ensures rdb.View() == if o.abandon.Refused? then old(rdb.View()) else Removed(old(rdb.View()), w, id)
    {
      hide Continue, WithList, Retried, DrainedIds, Acked, Extended, Removed, Scored;
      ghost var start, s := At(Abandoning(id)), rdb.View();
      ghost var k := Worker(Abandoning(id), Some(id), None);
      NoSteps(start);
      var _ := rdb.LRem(w, id, o.abandon);
      More(start, [], s, w, k, Abandon(!o.abandon.Refused?));
      acts := [] + [Work(w, Abandon(!o.abandon.Refused?))];
      More(start, acts, rdb.View(), w, k.(pc := Returning(id)), ClearCurrent);
      acts := acts + [Work(w, ClearCurrent)];
      current := None;
    }

    /** One beat of heartbeatLoop while the loop stands at pc. */
    method Beat(ghost pc: Pc, now: int, alive: Outcome, extend: Outcome) returns (ghost acts: seq<Action>)
      modifies rdb
      ensures Took(old(At(pc)), acts, pc)
      ensures rdb.View() == AfterBeat(old(rdb.View()), w, current, now + visibility, alive, extend)
      ensures acts == [Work(w, BeatAlive(!alive.Refused?))] +
                      (if current.Some? then [Work(w, BeatRead), Work(w, BeatExtend(now + visibility, !extend.Refused?))] else [])
    {
      hide Continue, WithList, Retried, DrainedIds, Acked, Extended, Removed, Scored;
      ghost var start, s, k := At(pc), rdb.View(), Worker(pc, current, None);
      NoSteps(start);
      rdb.SetAlive(w, alive);
      More(start, [], s, w, k, BeatAlive(!alive.Refused?));
      acts := [] + [Work(w, BeatAlive(!alive.Refused?))];
      if current.Some? {
        ghost var s1 := rdb.View();
        More(start, acts, s1, w, k, BeatRead);
        acts := acts + [Work(w, BeatRead)];
        rdb.ZAddGT(current.value, now + visibility, extend);
        ghost var act := BeatExtend(now + visibility, !extend.Refused?);
        More(start, acts, s1, w, k.(beat := current), act);
        acts := acts + [Work(w, act)];
      }
    }

    /** runLoop for as many rounds as the context lives, at the given times. */
    method RunLoop(rounds: seq<(int, Luck)>) returns (ghost acts: seq<Action>)
      requires current == None
      modifies rdb, this
      ensures Took(old(At(Idle)), acts, Idle) && current == None
      ensures rdb.View() == AfterRounds(old(rdb.View()), w, visibility, rounds)
    {
      hide Continue, AfterRounds, ClaimedId, AfterClaim, AfterTask;
      ghost var start, s := At(Idle), rdb.View();
      acts := [];
      var i := 0;
      NoSteps(start);
      NoRounds(s, w, visibility, rounds);
      while i < |rounds|
        invariant 0 <= i <= |rounds| && current == None
        invariant Took(start, acts, Idle)
        invariant rdb.View() == AfterRounds(s, w, visibility, rounds[..i])
      {
        OneMoreRound(s, w, visibility, rounds, i);
        var id, more := Claim(rounds[i].1);
        ContinueTwice(0, start, acts, more);
        acts := acts + more;
        if id.Some? {
          more := HandleTask(id.value, rounds[i].0, rounds[i].1);
          ContinueTwice(0, start, acts, more);
          acts := acts + more;
        }
        i := i + 1;
      }
      assert rounds[..i] == rounds;
    }
  }
}
