/**
  No task is lost. A copy in a worker's processing list does not count once that worker is past its
  ZADD, because the worker may remove it; everything else that carries the id does.
*/
module NoLoss {
  import opened Lists
  import opened Keyspace
  import opened Queue
  import opened Spots

  /** The worker has put the id in inflight and may still LREM its processing copies. */
  predicate PastZadd(pc: Pc, id: TaskId) {
    match pc
    case Dropping(i, added) => i == id && added
    case Added(i) => i == id
    case Watched(i) => i == id
    case Fetched(i, _) => i == id
    case Staging(i, _) => i == id
    case Acking(i, _, _) => i == id
    case Abandoning(i) => i == id
    case _ => false
  }

  /** w's processing list carries the id, and w is not about to take it out again. */
  predicate Holds(s: State, w: WorkerId, id: TaskId) {
    id in ListOf(s.store, w) && !(w in s.workers && PastZadd(s.workers[w].pc, id))
  }

  ghost predicate Located(s: State, id: TaskId) {
    Safe(s.store, id) || exists w :: Holds(s, w, id)
  }

  /** A worker skipping an id has seen it in done, and nothing leaves done. */
  ghost predicate SkipsAreDone(s: State) {
    forall w :: w in s.workers && s.workers[w].pc.Skipping? ==> s.workers[w].pc.id in s.store.done
  }

  ghost predicate Inv(s: State, id: TaskId) {
    SkipsAreDone(s) && (id in s.store.tasks ==> Located(s, id))
  }

  /** The branch at main.go:233-237 after a ZADD that really failed, when its LREM takes effect. */
  predicate DropsOnlyCopy(a: Action, id: TaskId) {
    a.Work? && a.act == DropUnadded(id, false, true)
  }

  // ---- what one Redis command does to one id ----

  /** id is in a place no worker's own LREM can reach. */
  predicate Safe(s: Store, id: TaskId) {
    id in s.ready || id in s.inflight || id in s.done || id in s.dead
  }

  /** Draining keeps safe ids safe, makes the drained ones safe, and creates no other hash. */
  lemma {:induction false} DrainedKeeps(s: Store, ids: seq<TaskId>, max: int, id: TaskId)
    ensures var t := DrainedIds(s, ids, max);
            && (Safe(s, id) || id in ids ==> Safe(t, id))
            && (id in t.tasks ==> id in s.tasks || id in ids)
    decreases |ids|
  {
    DrainedFrame(s, ids, max);
    if ids != [] {
      var last := |ids| - 1;
      DrainedKeeps(s, ids[..last], max, id);
      RetriedKeeps(DrainedIds(s, ids[..last], max), ids[last], max, id);
      assert ids == ids[..last] + [ids[last]];
    }
  }

  lemma RetriedKeeps(s: Store, x: TaskId, max: int, id: TaskId)
    ensures var t := Retried(s.(inflight := s.inflight - {x}), x, max);
            && (Safe(s, id) || id == x ==> Safe(t, id))
            && (id in t.tasks ==> id in s.tasks || id == x)
  {
  }

  lemma DrainKeeps(s: Store, w: WorkerId, max: int, id: TaskId)
    ensures var t := Drained(s, w, max);
            && (Safe(s, id) || (w !in s.alive && id in ListOf(s, w)) ==> Safe(t, id))
            && (id in t.tasks ==> id in s.tasks || (w !in s.alive && id in ListOf(s, w)))
  {
    DrainedKeeps(s, ListOf(s, w), max, id);
  }

  lemma MoveKeeps(s: Store, w: WorkerId, id: TaskId)
    requires s.ready != []
    ensures Safe(s, id) ==> Safe(Moved(s, w), id) || s.ready[0] == id
  {
    hide ListOf;
    assert s.ready == [s.ready[0]] + s.ready[1..];
  }

  lemma AckKeeps(s: Store, w: WorkerId, x: TaskId, order: OrderId, success: bool, id: TaskId)
    ensures Safe(s, id) || id == x ==> Safe(Acked(s, w, x, order, success), id)
    ensures id in Acked(s, w, x, order, success).tasks ==> id in s.tasks || id == x
  {
    hide ListOf, RemoveFirst;
  }

  /** Safe ids stay safe, except that a claim moves one into the claimer's list. */
  lemma SafeKept(max: int, s: Store, c: Command, id: TaskId)
    requires c.Move? ==> s.ready != []
    requires Safe(s, id)
    ensures var t := Exec(max, s, c); Safe(t, id) || (c.Move? && id in ListOf(t, c.w))
  {
    hide Retried, Drained, Acked, Moved, ListOf, RemoveFirst;
    match c {
      case Move(w) =>
        MoveKeeps(s, w, id);
        ExecList(max, s, c, w);
      case AckTx(w, x, order, success) => AckKeeps(s, w, x, order, success, id);
      case ExpireScript(x) => RetriedKeeps(s, x, max, id);
      case DrainScript(w) => DrainKeeps(s, w, max, id);
      case _ =>
    }
  }

  /** A list copy goes only by its owner's LREM, or the id becomes safe. */
  lemma ListKept(max: int, s: Store, c: Command, v: WorkerId, id: TaskId)
    requires c.Move? ==> s.ready != []
    requires id in ListOf(s, v)
    ensures var t := Exec(max, s, c);
            id in ListOf(t, v) || Safe(t, id) || c == Remove(v, id)
  {
    hide Retried, Drained, Acked, Moved, ListOf, RemoveFirst;
    ExecList(max, s, c, v);
    match c {
      case Remove(_, x) => MemberRemoved(ListOf(s, v), x, id);
      case AckTx(w, x, order, success) =>
        MemberRemoved(ListOf(s, v), x, id);
        AckKeeps(s, w, x, order, success, id);
      case DrainScript(w) => DrainKeeps(s, w, max, id);
      case _ =>
    }
  }

  /** A task hash appears only for an id that is then safe. */
  lemma NewIsSafe(max: int, s: Store, c: Command, id: TaskId)
    requires c.Move? ==> s.ready != []
    requires id !in s.tasks && id in Exec(max, s, c).tasks
    ensures Safe(Exec(max, s, c), id)
  {
    hide Retried, Drained, Acked, ListOf, RemoveFirst;
    match c {
      case AckTx(w, x, order, success) => AckKeeps(s, w, x, order, success, id);
      case ExpireScript(x) => RetriedKeeps(s, x, max, id);
      case DrainScript(w) => DrainKeeps(s, w, max, id);
      case _ =>
    }
  }

  lemma DoneGrows(max: int, s: Store, c: Command)
    requires c.Move? ==> s.ready != []
    ensures s.done <= Exec(max, s, c).done
  {
    if c.DrainScript? {
      DrainedFrame(s, ListOf(s, c.w), max);
    }
  }

  // ---- what one step does ----

  lemma SkipsKept(max: int, s: State, a: Action)
    requires Can(s, a) && SkipsAreDone(s)
    ensures SkipsAreDone(Do(max, s, a))
  {
    DoneGrows(max, s.store, CommandOf(s, a));
  }

  /** A worker comes to be past its ZADD only by a ZADD that took effect. */
  lemma NewlyPastZadd(max: int, s: State, a: Action, v: WorkerId, id: TaskId)
    requires Can(s, a)
    requires v in WorkersAfter(s, a) && PastZadd(WorkersAfter(s, a)[v].pc, id)
    requires !(v in s.workers && PastZadd(s.workers[v].pc, id))
    ensures CommandOf(s, a).Score? && CommandOf(s, a).id == id
  {
  }

  /** Only the failed-ZADD branch removes a copy that still counts. */
  lemma CountedCopyKept(s: State, a: Action, v: WorkerId, id: TaskId)
    requires Can(s, a) && SkipsAreDone(s) && Holds(s, v, id)
    requires CommandOf(s, a) == Remove(v, id)
    ensures DropsOnlyCopy(a, id) || id in s.store.done
  {
  }

  /** A worker whose claim has just been applied is not past any ZADD. */
  lemma ClaimedCounts(max: int, s: State, a: Action, id: TaskId)
    requires Can(s, a) && CommandOf(s, a).Move? && id in ListOf(Do(max, s, a).store, CommandOf(s, a).w)
    ensures Holds(Do(max, s, a), CommandOf(s, a).w, id)
  {
  }

  lemma StepKeeps(max: int, s: State, a: Action, id: TaskId)
    requires Inv(s, id) && Can(s, a) && !DropsOnlyCopy(a, id)
    ensures Inv(Do(max, s, a), id)
  {
    hide Exec, Can, CommandOf, WorkersAfter, SweepersAfter;
    var t := Do(max, s, a);
    var c := CommandOf(s, a);
    MovesFromReady(s, a);
    SkipsKept(max, s, a);
    if id !in s.store.tasks {
      if id in t.store.tasks {
        NewIsSafe(max, s.store, c, id);
      }
    } else if Safe(s.store, id) {
      SafeKept(max, s.store, c, id);
      if !Safe(t.store, id) {
        ClaimedCounts(max, s, a, id);
      }
    } else {
      var v :| Holds(s, v, id);
      ListKept(max, s.store, c, v, id);
      if c == Remove(v, id) {
        CountedCopyKept(s, a, v, id);
      } else if !Safe(t.store, id) && v in WorkersAfter(s, a) && PastZadd(WorkersAfter(s, a)[v].pc, id) {
        NewlyPastZadd(max, s, a, v, id);
        ScoredIsSafe(max, s.store, c);
      } else if !Safe(t.store, id) {
        assert Holds(t, v, id);
      }
    }
  }

  lemma MovesFromReady(s: State, a: Action)
    requires Can(s, a)
    ensures CommandOf(s, a).Move? ==> s.store.ready != []
  {
  }

  lemma ScoredIsSafe(max: int, s: Store, c: Command)
    requires c.Score?
    ensures Safe(Exec(max, s, c), c.id)
  {
  }

  // ---- the failed-ZADD branch ----

  /** The id is somewhere else than in one copy of w's list. */
  ghost predicate Elsewhere(s: State, w: WorkerId, id: TaskId) {
    Safe(s.store, id) || Count(ListOf(s.store, w), id) >= 2 || exists v :: v != w && Holds(s, v, id)
  }

  /**
    The failed-ZADD branch itself: removing the copy keeps the id exactly when, before the LREM,
    the id was somewhere else too, or twice in this worker's own list.
  */
  lemma DropKeepsIff(max: int, s: State, w: WorkerId, id: TaskId)
    requires Can(s, Work(w, DropUnadded(id, false, true)))
    ensures Located(Do(max, s, Work(w, DropUnadded(id, false, true))), id) <==> Elsewhere(s, w, id)
  {
    var t := Do(max, s, Work(w, DropUnadded(id, false, true)));
    var l := ListOf(s.store, w);
    assert ListOf(t.store, w) == RemoveFirst(l, id);
    MemberRemoved(l, id, id);
    assert id in ListOf(t.store, w) <==> Count(l, id) >= 2;
    forall v | v != w ensures Holds(t, v, id) == Holds(s, v, id) {}
    if Count(l, id) >= 2 {
      assert Holds(t, w, id);
    }
    if exists v :: v != w && Holds(s, v, id) {
      var v :| v != w && Holds(s, v, id);
      assert Holds(t, v, id);
    }
  }

  /** The step removes the last trace of an enqueued id. */
  ghost predicate Loses(s: State, a: Action, id: TaskId) {
    DropsOnlyCopy(a, id) && id in s.store.tasks && !Elsewhere(s, a.w, id)
  }

  /** Main result: a step loses an id if and only if it is a failed-ZADD branch that finds it nowhere else. */
  lemma StepKeepsIff(max: int, s: State, a: Action, id: TaskId)
    requires Inv(s, id) && Can(s, a)
    ensures Inv(Do(max, s, a), id) <==> !Loses(s, a, id)
  {
    if DropsOnlyCopy(a, id) {
      SkipsKept(max, s, a);
      DropKeepsIff(max, s, a.w, id);
      assert Do(max, s, a).store.tasks == s.store.tasks;
    } else {
      StepKeeps(max, s, a, id);
    }
  }

  /** At every point of the run the id, once enqueued, is located. */
  ghost predicate LocatedThroughout(max: int, trace: seq<Action>, id: TaskId)
    requires Run(max, trace).Some?
    decreases |trace|
  {
    && Inv(Run(max, trace).value, id)
    && (trace != [] ==> LocatedThroughout(max, trace[..|trace| - 1], id))
  }

  /** No step of the run loses the id. */
  ghost predicate NeverLoses(max: int, trace: seq<Action>, id: TaskId)
    requires Run(max, trace).Some?
    decreases |trace|
  {
    trace != [] ==>
      var before := trace[..|trace| - 1];
      NeverLoses(max, before, id) && !Loses(Run(max, before).value, trace[|trace| - 1], id)
  }

  /**
    Main result. In every run, whatever the interleaving of crashes, lost replies, lapses, stale
    scans and heartbeats, an enqueued id stays in ready, in some processing list, in inflight, in
    done or in dead, if and only if no failed-ZADD branch removes its copy when it is nowhere else.
  */
  lemma {:induction false} NoTaskLostIff(max: int, trace: seq<Action>, id: TaskId)
    requires Run(max, trace).Some?
    ensures LocatedThroughout(max, trace, id) <==> NeverLoses(max, trace, id)
    decreases |trace|
  {
    hide Inv, Loses, Can, Do;
    if trace == [] {
      NothingEnqueued(max, id);
    } else {
      var last := |trace| - 1;
      NoTaskLostIff(max, trace[..last], id);
      if LocatedThroughout(max, trace[..last], id) {
        StepKeepsIff(max, Run(max, trace[..last]).value, trace[last], id);
      }
    }
  }

  lemma NothingEnqueued(max: int, id: TaskId)
    ensures Inv(INIT, id)
  {
  }

  lemma {:induction false} NoDropNoLoss(max: int, trace: seq<Action>, id: TaskId)
    requires Run(max, trace).Some?
    requires forall i :: 0 <= i < |trace| ==> !DropsOnlyCopy(trace[i], id)
    ensures NeverLoses(max, trace, id)
    decreases |trace|
  {
    hide Run;
    if trace != [] {
      PrefixRuns(max, trace);
      NoDropNoLoss(max, trace[..|trace| - 1], id);
    }
  }

  lemma PrefixRuns(max: int, trace: seq<Action>)
    requires Run(max, trace).Some? && trace != []
    ensures Run(max, trace[..|trace| - 1]).Some?
  {
  }

  /** So an id is never lost in a run without such a branch on it. */
  lemma NoTaskLost(max: int, trace: seq<Action>, id: TaskId)
    requires Run(max, trace).Some?
    requires forall i :: 0 <= i < |trace| ==> !DropsOnlyCopy(trace[i], id)
    ensures Inv(Run(max, trace).value, id)
  {
    NoDropNoLoss(max, trace, id);
    NoTaskLostIff(max, trace, id);
  }

  lemma ClaimedRun(env: Envelope) returns (trace: seq<Action>, st: Store)
    requires env.order != ""
    ensures Run(5, trace) == Some(State(st, map[0 := Worker(Claimed(7), None, None)], map[]))
    ensures 7 in st.tasks && st.processing == map[0 := [7]]
    ensures st.ready == [] && st.inflight == map[] && st.done == {} && st.dead == []
  {
    trace, st := FirstTask(5, 7, env);
    hide Run;
    assert [] + [7] == [7];
    trace, st := Alone(5, trace, st, Worker(Idle, None, None), Claim(7));
  }

  lemma DroppingRun(env: Envelope) returns (trace: seq<Action>, st: Store)
    requires env.order != ""
    ensures Run(5, trace) == Some(State(st, map[0 := Worker(Dropping(7, false), None, None)], map[]))
    ensures 7 in st.tasks && st.processing == map[0 := [7]]
    ensures st.ready == [] && st.inflight == map[] && st.done == {} && st.dead == []
  {
    trace, st := ClaimedRun(env);
    hide Run;
    trace, st := Alone(5, trace, st, Worker(Claimed(7), None, None), GateOpen);
    trace, st := Alone(5, trace, st, Worker(Gated(7), None, None), AddInflightError(30, false));
  }

  /** A run that loses a task: enqueue, claim, gate, a ZADD that really fails, the LREM of the only copy. */
  lemma LosingRun(env: Envelope) returns (trace: seq<Action>, s: State)
    requires env.order != ""
    ensures Run(5, trace) == Some(s) && 7 in s.store.tasks && !Located(s, 7)
  {
    var st;
    trace, st := DroppingRun(env);
    s := State(st, map[0 := Worker(Dropping(7, false), None, None)], map[]);
    OnlyCopy(s);
    DropKeepsIff(5, s, 0, 7);
    hide Run, Located, Elsewhere, Exec;
    var drop := Work(0, DropUnadded(7, false, true));
    assert Do(5, s, drop).store == Removed(st, 0, 7) by {
      DropCommand(s);
    }
    trace, s := Step(5, trace, s, drop);
  }

  lemma OnlyCopy(s: State)
    requires s.store.processing == map[0 := [7]]
    requires s.store.ready == [] && s.store.inflight == map[] && s.store.done == {} && s.store.dead == []
    ensures !Elsewhere(s, 0, 7)
  {
  }

  lemma DropCommand(s: State)
    requires Can(s, Work(0, DropUnadded(7, false, true)))
    ensures Do(5, s, Work(0, DropUnadded(7, false, true))).store == Removed(s.store, 0, 7)
  {
  }
}
