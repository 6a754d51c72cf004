/** redis-workqueue as the object the services share: the commands update its keys in place. */
module RedisServer {
  import opened Lists
  import opened Keyspace

  /** How a call ends: answered, applied with its reply lost, or not applied at all. */
  datatype Outcome = Answered | ReplyLost | Refused

  lemma NoneDrained(s: Store, ids: seq<TaskId>, max: int)
    ensures DrainedIds(s, ids[..0], max) == s
  {
  }

  lemma OneMoreDrained(s: Store, ids: seq<TaskId>, i: nat, max: int)
    requires i < |ids|
    ensures var t := DrainedIds(s, ids[..i], max);
            DrainedIds(s, ids[..i + 1], max) == Retried(t.(inflight := t.inflight - {ids[i]}), ids[i], max)
  {
    hide Retried;
    assert ids[..i + 1][..i] == ids[..i];
  }

  class Redis {
    var ready: seq<TaskId>
    var processing: map<WorkerId, seq<TaskId>>
    var inflight: map<TaskId, int>
    var done: set<TaskId>
    var dead: seq<TaskId>
    var tasks: map<TaskId, Task>
    var alive: set<WorkerId>
    var pending: set<OrderId>
    var finalized: map<OrderId, bool>

    ghost function View(): Store
      reads this
    {
      Store(ready, processing, inflight, done, dead, tasks, alive, pending, finalized)
    }

    /** The MULTI of handleEnqueue. */
    method EnqueueTx(id: TaskId, env: Envelope, o: Outcome) returns (err: bool)
      modifies this
      ensures View() == if o.Refused? then old(View()) else Enqueued(old(View()), id, env)
      ensures err <==> !o.Answered?
    {
      err := !o.Answered?;
      if !o.Refused? {
        tasks := tasks[id := Task(Some(env), Ready, 1)];
        finalized := finalized[env.order := false];
        ready := ready + [id];
      }
    }

    method SetList(w: WorkerId, l: seq<TaskId>)
      modifies this`processing
      ensures View() == WithList(old(View()), w, l)
    {
      processing := if l == [] then processing - {w} else processing[w := l];
    }

    method LRange(w: WorkerId) returns (l: seq<TaskId>)
      ensures l == ListOf(View(), w)
    {
      l := if w in processing then processing[w] else [];
    }

    /** BLMOVE within its time-out: None when ready stays empty, or when the call fails. */
    method BLMove(w: WorkerId, o: Outcome) returns (id: Option<TaskId>, err: bool)
      modifies this
      ensures View() == if old(ready) != [] && !o.Refused? then Moved(old(View()), w) else old(View())
      ensures id == if old(ready) != [] && o.Answered? then Some(old(ready)[0]) else None
      ensures err <==> !o.Answered?
    {
      id, err := None, !o.Answered?;
      if ready != [] && !o.Refused? {
        var l := LRange(w);
        if o.Answered? {
          id := Some(ready[0]);
        }
        SetList(w, l + [ready[0]]);
        ready := ready[1..];
      }
    }

    method SIsMember(id: TaskId, o: Outcome) returns (member: bool, err: bool)
      ensures err <==> !o.Answered?
      ensures !err ==> (member <==> id in View().done)
    {
      member, err := id in done, !o.Answered?;
    }

    method LRem(w: WorkerId, id: TaskId, o: Outcome) returns (err: bool)
      modifies this
      ensures View() == if o.Refused? then old(View()) else Removed(old(View()), w, id)
      ensures err <==> !o.Answered?
    {
      err := !o.Answered?;
      if !o.Refused? {
        var l := LRange(w);
        SetList(w, RemoveFirst(l, id));
      }
    }

    method ZAdd(id: TaskId, deadline: int, o: Outcome) returns (err: bool)
      modifies this
      ensures View() == if o.Refused? then old(View()) else Scored(old(View()), id, deadline)
      ensures err <==> !o.Answered?
    {
      err := !o.Answered?;
      if !o.Refused? {
        inflight := inflight[id := deadline];
      }
    }

    method ZAddGT(id: TaskId, deadline: int, o: Outcome)
      modifies this
      ensures View() == if o.Refused? then old(View()) else Extended(old(View()), id, deadline)
    {
      if !o.Refused? && !(id in inflight && inflight[id] >= deadline) {
        inflight := inflight[id := deadline];
      }
    }

    method SetAlive(w: WorkerId, o: Outcome)
      modifies this
      ensures View() == if o.Refused? then old(View()) else old(View()).(alive := old(alive) + {w})
    {
      if !o.Refused? {
        alive := alive + {w};
      }
    }

    method HGetPayload(id: TaskId, o: Outcome) returns (env: Option<Envelope>)
      ensures env == if o.Answered? then TaskOf(View(), id).payload else None
    {
      env := if o.Answered? && id in tasks then tasks[id].payload else None;
    }

    /** The MULTI of ack. */
    method AckTx(w: WorkerId, id: TaskId, order: OrderId, success: bool, o: Outcome) returns (err: bool)
      modifies this
      ensures View() == if o.Refused? then old(View()) else Acked(old(View()), w, id, order, success)
      ensures err <==> !o.Answered?
    {
      err := !o.Answered?;
      if !o.Refused? {
        done := done + {id};
        if success && order != "" {
          pending := pending + {order};
        }
        var l := LRange(w);
        SetList(w, RemoveFirst(l, id));
        inflight := inflight - {id};
        var t := if id in tasks then tasks[id] else Task(None, Unset, 0);
        tasks := tasks[id := t.(status := if success then Done else Failed)];
      }
    }

    /** HINCRBY attempt, then RPUSH and HSET on one side or the other. */
    method Retry(id: TaskId, max: int) returns (buried: bool)
      modifies this
      ensures View() == Retried(old(View()), id, max)
      ensures buried <==> Attempt(View(), id) > max
    {
      var t := if id in tasks then tasks[id] else Task(None, Unset, 0);
      var attempt := t.attempt + 1;
      buried := attempt > max;
      if buried {
        dead := dead + [id];
        tasks := tasks[id := t.(attempt := attempt, status := Dead)];
      } else {
        ready := ready + [id];
        tasks := tasks[id := t.(attempt := attempt, status := Ready)];
      }
    }

    /** requeueExpiredScript: 0 when the id was not in flight, 1 when requeued, 2 when dead. */
    method RequeueExpired(id: TaskId, max: int) returns (res: int)
      modifies this
      ensures View() == Expired(old(View()), id, max)
      ensures res == if id !in old(inflight) then 0 else if Attempt(View(), id) > max then 2 else 1
    {
      if id !in inflight {
        return 0;
      }
      inflight := inflight - {id};
      var buried := Retry(id, max);
      res := if buried then 2 else 1;
    }

    /** drainDeadWorkerScript: -1 when the worker lives, else the number of ids drained. */
    method DrainDeadWorker(w: WorkerId, max: int) returns (res: int)
      modifies this
      ensures View() == Drained(old(View()), w, max)
      ensures res == if w in old(alive) then -1 else |ListOf(old(View()), w)|
    {
      hide Retried, WithList, DrainedIds;
      if w in alive {
        return -1;
      }
      ghost var s := View();
      var ids := LRange(w);
      NoneDrained(s, ids, max);
      var i := 0;
      while i < |ids|
        invariant 0 <= i <= |ids|
        invariant View() == DrainedIds(s, ids[..i], max)
      {
        OneMoreDrained(s, ids, i, max);
        inflight := inflight - {ids[i]};
        var _ := Retry(ids[i], max);
        i := i + 1;
      }
      assert ids[..i] == ids;
      SetList(w, []);
      res := |ids|;
    }
  }
}
