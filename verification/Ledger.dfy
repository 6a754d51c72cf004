/**
  The attempt ledger. However the two reaper paths, stale scans, lost replies and crashes race,
  the attempt counter accounts for every push, and so bounds how often the stage is launched.
*/
module Ledger {
  import opened Lists
  import opened Keyspace
  import opened Queue

  predicate IsClaim(a: Action, id: TaskId) {
    a.Work? && (a.act == Claim(id) || a.act == ClaimLost(id))
  }

  /** How often id was moved out of ready in a run. */
  function Claims(trace: seq<Action>, id: TaskId): nat
    decreases |trace|
  {
    if trace == [] then 0
    else
      var last := |trace| - 1;
      Claims(trace[..last], id) + (if IsClaim(trace[last], id) then 1 else 0)
  }

  /** How often runStage was entered for id in a run. */
  function Launches(trace: seq<Action>, id: TaskId): nat
    decreases |trace|
  {
    if trace == [] then 0
    else
      var last := |trace| - 1;
      var a := trace[last];
      Launches(trace[..last], id) + (if a.Work? && a.act == Launch(id) then 1 else 0)
  }

  function Min(a: int, b: int): int {
    if a <= b then a else b
  }

  /**
    claims counts the ids taken out of ready, so claims plus the copies still there is the number
    of pushes onto ready. Nothing is ever taken out of dead.
  */
  predicate Balanced(max: int, s: Store, claims: int, id: TaskId) {
    && Attempt(s, id) >= 0
    && claims + Count(s.ready, id) == Min(Attempt(s, id), max)
    && Count(s.dead, id) == Attempt(s, id) - Min(Attempt(s, id), max)
  }

  lemma RetriedBalances(max: int, s: Store, x: TaskId, claims: int, id: TaskId)
    requires Balanced(max, s, claims, id)
    ensures Balanced(max, Retried(s, x, max), claims, id)
  {
    hide Count;
    CountAppend(s.ready, x, id);
    CountAppend(s.dead, x, id);
  }

  lemma {:induction false} DrainedBalances(max: int, s: Store, ids: seq<TaskId>, claims: int, id: TaskId)
    requires Balanced(max, s, claims, id)
    ensures Balanced(max, DrainedIds(s, ids, max), claims, id)
    decreases |ids|
  {
    if ids != [] {
      var last := |ids| - 1;
      DrainedBalances(max, s, ids[..last], claims, id);
      var t := DrainedIds(s, ids[..last], max);
      RetriedBalances(max, t.(inflight := t.inflight - {ids[last]}), ids[last], claims, id);
    }
  }

  /** The commands that push onto ready or dead, or pop from ready. */
  predicate Pushes(c: Command) {
    c.EnqueueTx? || c.Move? || c.ExpireScript? || c.DrainScript?
  }

  lemma OthersLeaveLedger(max: int, s: Store, c: Command, id: TaskId)
    requires !Pushes(c)
    ensures var t := Exec(max, s, c);
            t.ready == s.ready && t.dead == s.dead && Attempt(t, id) == Attempt(s, id)
  {
    hide ListOf, RemoveFirst, Enqueued, Moved, Expired, Drained;
  }

  lemma EnqueueBalances(max: int, s: Store, x: TaskId, env: Envelope, claims: int, id: TaskId)
    requires max >= 1 && x !in s.tasks && Balanced(max, s, claims, id)
    ensures Balanced(max, Enqueued(s, x, env), claims, id)
  {
    CountAppend(s.ready, x, id);
  }

  lemma MoveBalances(max: int, s: Store, w: WorkerId, claims: int, id: TaskId)
    requires s.ready != [] && Balanced(max, s, claims, id)
    ensures Balanced(max, Moved(s, w), claims + (if s.ready[0] == id then 1 else 0), id)
  {
    CountTail(s.ready, id);
  }

  lemma CommandBalances(max: int, s: Store, c: Command, claims: int, id: TaskId)
    requires max >= 1 && Balanced(max, s, claims, id)
    requires c.Move? ==> s.ready != []
    requires c.EnqueueTx? ==> c.id !in s.tasks
    ensures Balanced(max, Exec(max, s, c), claims + (if c.Move? && s.ready[0] == id then 1 else 0), id)
  {
    hide Enqueued, Moved, Retried, Drained, Acked, Removed, Scored, Extended;
    match c {
      case EnqueueTx(x, env) => EnqueueBalances(max, s, x, env, claims, id);
      case Move(w) => MoveBalances(max, s, w, claims, id);
      case ExpireScript(x) => RetriedBalances(max, s.(inflight := s.inflight - {x}), x, claims, id);
      case DrainScript(w) => DrainBalances(max, s, w, claims, id);
      case _ => OthersLeaveLedger(max, s, c, id);
    }
  }

  lemma DrainBalances(max: int, s: Store, w: WorkerId, claims: int, id: TaskId)
    requires Balanced(max, s, claims, id)
    ensures Balanced(max, Drained(s, w, max), claims, id)
  {
    DrainedBalances(max, s, ListOf(s, w), claims, id);
  }

  /** The moves out of ready are exactly the claims. */
  lemma ClaimsAreMoves(s: State, a: Action, id: TaskId)
    requires Can(s, a)
    ensures CommandOf(s, a).Move? ==> s.store.ready != []
    ensures IsClaim(a, id) <==> CommandOf(s, a).Move? && s.store.ready[0] == id
    ensures CommandOf(s, a).EnqueueTx? ==> CommandOf(s, a).id !in s.store.tasks
  {
  }

  /** Main result: the ledger balances after every run, for every id. */
  lemma {:induction false} AttemptLedger(max: int, trace: seq<Action>, id: TaskId)
    requires max >= 1 && Run(max, trace).Some?
    ensures Balanced(max, Run(max, trace).value.store, Claims(trace, id), id)
    decreases |trace|
  {
    if trace != [] {
      var last := |trace| - 1;
      AttemptLedger(max, trace[..last], id);
      var s := Run(max, trace[..last]).value;
      ClaimsAreMoves(s, trace[last], id);
      CommandBalances(max, s.store, CommandOf(s, trace[last]), Claims(trace[..last], id), id);
    }
  }

  // ---- the status of a task ----

  /** A terminal status is never claimed of a task that has not come to it. */
  predicate StatusFine(s: Store, id: TaskId) {
    match TaskOf(s, id).status
    case Dead => id in s.dead
    case Done => id in s.done
    case Failed => id in s.done
    case Ready => id in s.tasks
    case Unset => true
  }

  lemma RetriedStatus(s: Store, x: TaskId, max: int, id: TaskId)
    requires StatusFine(s, id)
    ensures StatusFine(Retried(s.(inflight := s.inflight - {x}), x, max), id)
  {
  }

  lemma {:induction false} DrainedStatus(s: Store, ids: seq<TaskId>, max: int, id: TaskId)
    requires StatusFine(s, id)
    ensures StatusFine(DrainedIds(s, ids, max), id)
    decreases |ids|
  {
    hide StatusFine, Retried;
    if ids != [] {
      var last := |ids| - 1;
      DrainedStatus(s, ids[..last], max, id);
      RetriedStatus(DrainedIds(s, ids[..last], max), ids[last], max, id);
    }
  }

  lemma AckedStatus(s: Store, w: WorkerId, x: TaskId, order: OrderId, success: bool, id: TaskId)
    requires StatusFine(s, id)
    ensures StatusFine(Acked(s, w, x, order, success), id)
  {
    hide ListOf, RemoveFirst;
  }

  lemma CommandStatus(max: int, s: Store, c: Command, id: TaskId)
    requires (c.Move? ==> s.ready != []) && StatusFine(s, id)
    ensures StatusFine(Exec(max, s, c), id)
  {
    hide ListOf, RemoveFirst, DrainedIds, Acked, Retried;
    match c {
      case AckTx(w, x, order, success) => AckedStatus(s, w, x, order, success, id);
      case ExpireScript(x) => RetriedStatus(s, x, max, id);
      case DrainScript(w) => DrainedStatus(s, ListOf(s, w), max, id);
      case _ =>
    }
  }

  /** Main result: in every run a task marked dead is in dead, and one marked done or failed is in done. */
  lemma {:induction false} StatusIsTrue(max: int, trace: seq<Action>, id: TaskId)
    requires Run(max, trace).Some?
    ensures StatusFine(Run(max, trace).value.store, id)
    decreases |trace|
  {
    hide StatusFine, Exec, Can, CommandOf;
    if trace == [] {
      NoStatus(id);
    } else {
      var last := |trace| - 1;
      StatusIsTrue(max, trace[..last], id);
      var s := Run(max, trace[..last]).value;
      ClaimsAreMoves(s, trace[last], id);
      CommandStatus(max, s.store, CommandOf(s, trace[last]), id);
    }
  }

  lemma NoStatus(id: TaskId)
    ensures StatusFine(INIT.store, id)
  {
  }

  // ---- first in, first out ----

  /** The ids that some steps move out of ready, in order. */
  function Popped(acts: seq<Action>): seq<TaskId>
    decreases |acts|
  {
    if acts == [] then []
    else
      var last := |acts| - 1;
      Popped(acts[..last]) + (if acts[last].Work? && acts[last].act.Claim? then [acts[last].act.id]
                              else if acts[last].Work? && acts[last].act.ClaimLost? then [acts[last].act.id]
                              else [])
  }

  lemma {:induction false} DrainedQueues(s: Store, ids: seq<TaskId>, max: int)
    ensures s.ready <= DrainedIds(s, ids, max).ready
    decreases |ids|
  {
    if ids != [] {
      DrainedQueues(s, ids[..|ids| - 1], max);
    }
  }

  lemma CommandQueues(max: int, s: Store, c: Command)
    requires c.Move? ==> s.ready != []
    ensures if c.Move? then Exec(max, s, c).ready == s.ready[1..] else s.ready <= Exec(max, s, c).ready
    ensures c.EnqueueTx? ==> Exec(max, s, c).ready == s.ready + [c.id]
  {
    hide ListOf, RemoveFirst, DrainedIds;
    if c.DrainScript? {
      DrainedQueues(s, ListOf(s, c.w), max);
    }
  }

  lemma StepQueues(max: int, s: State, a: Action)
    requires Can(s, a)
    ensures s.store.ready <= Popped([a]) + Do(max, s, a).store.ready
  {
    hide Exec;
    CommandQueues(max, s.store, CommandOf(s, a));
    ClaimsAreMoves(s, a, if s.store.ready != [] then s.store.ready[0] else 0);
    assert [a][..0] == [] && Popped([]) == [];
  }

  lemma {:induction false} PoppedMore(acts: seq<Action>, a: Action)
    ensures Popped(acts + [a]) == Popped(acts) + Popped([a])
  {
    assert (acts + [a])[..|acts|] == acts && [a][..0] == [] && Popped([]) == [];
  }

  /**
    Main result: ready is first in, first out. From any state on, the ids waiting leave in the order in
    which they wait, ahead of everything pushed later; an enqueue goes to the end (CommandQueues).
  */
  lemma {:induction false} FirstInFirstOut(max: int, s: State, acts: seq<Action>)
    requires Continue(max, s, acts).Some?
    ensures s.store.ready <= Popped(acts) + Continue(max, s, acts).value.store.ready
    decreases |acts|
  {
    hide Can, Do, Popped;
    if acts == [] {
      NonePopped(s.store.ready);
    } else {
      var before, a := acts[..|acts| - 1], acts[|acts| - 1];
      assert acts == before + [a];
      FirstInFirstOut(max, s, before);
      var t := Continue(max, s, before).value;
      StepQueues(max, t, a);
      PoppedMore(before, a);
      Ahead(s.store.ready, Popped(before), t.store.ready, Popped([a]), Do(max, t, a).store.ready);
    }
  }

  lemma NonePopped(ids: seq<TaskId>)
    ensures ids <= Popped([]) + ids
  {
  }

  lemma Ahead(waiting: seq<TaskId>, first: seq<TaskId>, ready: seq<TaskId>, next: seq<TaskId>, left: seq<TaskId>)
    requires waiting <= first + ready && ready <= next + left
    ensures waiting <= first + next + left
  {
    assert first + next + left == first + (next + left);
  }

  // ---- launches ----

  /** Claimed id and not yet in runStage with it. */
  predicate BeforeLaunch(pc: Pc, id: TaskId) {
    match pc
    case Claimed(i) => i == id
    case Gated(i) => i == id
    case Added(i) => i == id
    case Watched(i) => i == id
    case Fetched(i, _) => i == id
    case _ => false
  }

  function Approaching(s: State, id: TaskId): set<WorkerId> {
    set w | w in s.workers && BeforeLaunch(s.workers[w].pc, id)
  }

  lemma StepApproaches(max: int, s: State, a: Action, id: TaskId)
    requires Can(s, a)
    ensures var before, after := Approaching(s, id), Approaching(Do(max, s, a), id);
            || (a.Work? && a.act == Launch(id) && a.w in before && after == before - {a.w})
            || (IsClaim(a, id) && after <= before + {a.w})
            || (after <= before && !(a.Work? && a.act == Launch(id)))
  {
    hide Exec, CommandOf;
  }

  lemma {:induction false} LaunchesAreClaimed(max: int, trace: seq<Action>, id: TaskId)
    requires Run(max, trace).Some?
    ensures Launches(trace, id) + |Approaching(Run(max, trace).value, id)| <= Claims(trace, id)
    decreases |trace|
  {
    if trace != [] {
      var last := |trace| - 1;
      var a := trace[last];
      LaunchesAreClaimed(max, trace[..last], id);
      var s := Run(max, trace[..last]).value;
      StepApproaches(max, s, a, id);
      var before, after := Approaching(s, id), Approaching(Do(max, s, a), id);
      if IsClaim(a, id) && after <= before + {a.w} {
        SubsetSize(after, before + {a.w});
      } else if after <= before {
        SubsetSize(after, before);
      }
    }
  }

  /** Main result: no interleaving launches the stage of one task more than MAX_ATTEMPTS times. */
  lemma StageRunsBounded(max: int, trace: seq<Action>, id: TaskId)
    requires max >= 1 && Run(max, trace).Some?
    ensures Launches(trace, id) <= Claims(trace, id) <= max
  {
    AttemptLedger(max, trace, id);
    LaunchesAreClaimed(max, trace, id);
  }
}
