/** What one Redis command does to one id and to one processing list, in closed form. */
module Spots {
  import opened Lists
  import opened Keyspace

  /** Everything the store says about one id outside the processing lists. */
  datatype Spot = Spot(ready: nat, inflight: Option<int>, dead: nat, done: bool, known: bool, attempt: int)

  function SpotOf(s: Store, id: TaskId): Spot {
    Spot(Count(s.ready, id), if id in s.inflight then Some(s.inflight[id]) else None,
         Count(s.dead, id), id in s.done, id in s.tasks, Attempt(s, id))
  }

  /** One more attempt: back to ready, or dead. */
  function RetriedSpot(p: Spot, max: int): Spot {
    var p := p.(inflight := None, known := true, attempt := p.attempt + 1);
    if p.attempt > max then p.(dead := p.dead + 1) else p.(ready := p.ready + 1)
  }

  function Later(score: Option<int>, deadline: int): Option<int> {
    if score.Some? && score.value >= deadline then score else Some(deadline)
  }

  /** The command is about id, in a list of at most one id where lists matter. */
  predicate Touches(s: Store, c: Command, id: TaskId) {
    match c
    case EnqueueTx(x, _) => x == id
    case Move(_) => s.ready != [] && s.ready[0] == id
    case Score(x, _) => x == id
    case Extend(x, _) => x == id
    case AckTx(_, x, _, _) => x == id
    case ExpireScript(x) => x == id && id in s.inflight
    case DrainScript(w) => w !in s.alive && ListOf(s, w) == [id]
    case _ => false
  }

  function SpotAfter(max: int, p: Spot, c: Command): Spot {
    match c
    case EnqueueTx(_, _) => p.(ready := p.ready + 1, known := true, attempt := 1)
    case Move(_) => p.(ready := if p.ready > 0 then p.ready - 1 else 0)
    case Score(_, deadline) => p.(inflight := Some(deadline))
    case Extend(_, deadline) => p.(inflight := Later(p.inflight, deadline))
    case AckTx(_, _, _, _) => p.(inflight := None, done := true, known := true)
    case ExpireScript(_) => RetriedSpot(p, max)
    case DrainScript(_) => RetriedSpot(p, max)
    case _ => p
  }

  lemma RetriedIs(max: int, s: Store, x: TaskId, id: TaskId)
    ensures SpotOf(Retried(s.(inflight := s.inflight - {x}), x, max), id) ==
            if x == id then RetriedSpot(SpotOf(s, id), max) else SpotOf(s, id)
  {
    CountAppend(s.ready, x, id);
    CountAppend(s.dead, x, id);
  }

  lemma EnqueuedIs(s: Store, x: TaskId, env: Envelope, id: TaskId)
    ensures SpotOf(Enqueued(s, x, env), id) ==
            if x == id then SpotAfter(0, SpotOf(s, id), EnqueueTx(x, env)) else SpotOf(s, id)
  {
    CountAppend(s.ready, x, id);
  }

  lemma MovedIs(s: Store, w: WorkerId, id: TaskId)
    requires s.ready != []
    ensures SpotOf(Moved(s, w), id) ==
            if s.ready[0] == id then SpotAfter(0, SpotOf(s, id), Move(w)) else SpotOf(s, id)
  {
    CountTail(s.ready, id);
  }

  lemma AckedIs(s: Store, w: WorkerId, x: TaskId, order: OrderId, success: bool, id: TaskId)
    ensures SpotOf(Acked(s, w, x, order, success), id) ==
            if x == id then SpotAfter(0, SpotOf(s, id), AckTx(w, x, order, success)) else SpotOf(s, id)
  {
  }

  lemma DrainedIs(max: int, s: Store, w: WorkerId, id: TaskId)
    requires |ListOf(s, w)| <= 1
    ensures SpotOf(Drained(s, w, max), id) ==
            if w !in s.alive && ListOf(s, w) == [id] then RetriedSpot(SpotOf(s, id), max) else SpotOf(s, id)
  {
    var ids := ListOf(s, w);
    if w !in s.alive && ids != [] {
      assert ids[..0] == [] && DrainedIds(s, [], max) == s;
      assert DrainedIds(s, ids, max) == Retried(s.(inflight := s.inflight - {ids[0]}), ids[0], max);
      RetriedIs(max, s, ids[0], id);
    }
  }

  lemma ScoredIs(s: Store, x: TaskId, deadline: int, id: TaskId)
    ensures SpotOf(Scored(s, x, deadline), id) ==
            if x == id then SpotOf(s, id).(inflight := Some(deadline)) else SpotOf(s, id)
    ensures SpotOf(Extended(s, x, deadline), id) ==
            if x == id then SpotOf(s, id).(inflight := Later(SpotOf(s, id).inflight, deadline)) else SpotOf(s, id)
  {
  }

  lemma RemovedIs(s: Store, w: WorkerId, x: TaskId, id: TaskId)
    ensures SpotOf(Removed(s, w, x), id) == SpotOf(s, id)
  {
    hide RemoveFirst;
  }

  /** The closed form is what the command does. */
  lemma ExecSpot(max: int, s: Store, c: Command, id: TaskId)
    requires c.Move? ==> s.ready != []
    requires c.DrainScript? ==> |ListOf(s, c.w)| <= 1
    ensures SpotOf(Exec(max, s, c), id) ==
            if Touches(s, c, id) then SpotAfter(max, SpotOf(s, id), c) else SpotOf(s, id)
  {
    hide Retried, Drained, Acked, Moved, Enqueued, Removed, Scored, Extended, RetriedSpot, ListOf, Later;
    match c {
      case EnqueueTx(x, env) => EnqueuedIs(s, x, env, id);
      case Move(w) => MovedIs(s, w, id);
      case Remove(w, x) => RemovedIs(s, w, x, id);
      case Score(x, deadline) => ScoredIs(s, x, deadline, id);
      case Extend(x, deadline) => ScoredIs(s, x, deadline, id);
      case AckTx(w, x, order, success) => AckedIs(s, w, x, order, success, id);
      case ExpireScript(x) => RetriedIs(max, s, x, id);
      case DrainScript(w) => DrainedIs(max, s, w, id);
      case _ =>
    }
  }

  /** The list of worker v after a command. */
  function ListAfter(s: Store, c: Command, v: WorkerId): seq<TaskId> {
    match c
    case Move(w) => if v == w && s.ready != [] then ListOf(s, v) + [s.ready[0]] else ListOf(s, v)
    case Remove(w, id) => if v == w then RemoveFirst(ListOf(s, v), id) else ListOf(s, v)
    case AckTx(w, id, _, _) => if v == w then RemoveFirst(ListOf(s, v), id) else ListOf(s, v)
    case DrainScript(w) => if v == w && w !in s.alive then [] else ListOf(s, v)
    case _ => ListOf(s, v)
  }

  lemma WithListIs(s: Store, w: WorkerId, l: seq<TaskId>, v: WorkerId)
    ensures ListOf(WithList(s, w, l), v) == if v == w then l else ListOf(s, v)
  {
  }

  lemma AckedList(s: Store, w: WorkerId, id: TaskId, order: OrderId, success: bool, v: WorkerId)
    ensures ListOf(Acked(s, w, id, order, success), v) == if v == w then RemoveFirst(ListOf(s, v), id) else ListOf(s, v)
  {
    hide RemoveFirst, WithList;
    var s1 := s.(done := s.done + {id});
    var s2 := if success && order != "" then s1.(pending := s1.pending + {order}) else s1;
    WithListIs(s2, w, RemoveFirst(ListOf(s2, w), id), v);
  }

  lemma DrainedList(max: int, s: Store, w: WorkerId, v: WorkerId)
    ensures ListOf(Drained(s, w, max), v) == if v == w && w !in s.alive then [] else ListOf(s, v)
  {
    hide DrainedIds, WithList;
    DrainedFrame(s, ListOf(s, w), max);
    WithListIs(DrainedIds(s, ListOf(s, w), max), w, [], v);
  }

  lemma ExpiredList(max: int, s: Store, id: TaskId, v: WorkerId)
    ensures ListOf(Expired(s, id, max), v) == ListOf(s, v)
  {
  }

  lemma ExecList(max: int, s: Store, c: Command, v: WorkerId)
    requires c.Move? ==> s.ready != []
    ensures ListOf(Exec(max, s, c), v) == ListAfter(s, c, v)
  {
    hide RemoveFirst, WithList, Acked, Drained, Expired;
    match c {
      case Move(w) => WithListIs(s, w, ListOf(s, w) + [s.ready[0]], v);
      case Remove(w, id) => WithListIs(s, w, RemoveFirst(ListOf(s, w), id), v);
      case AckTx(w, id, order, success) => AckedList(s, w, id, order, success, v);
      case ExpireScript(id) => ExpiredList(max, s, id, v);
      case DrainScript(w) => DrainedList(max, s, w, v);
      case _ =>
    }
  }
}
