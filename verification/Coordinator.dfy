/** The coordinator: enqueueing and the two reaper passes, and what one quiet tick achieves. */
module Coordinator {
  import opened Lists
  import opened Keyspace
  import opened Queue
  import opened RedisServer
  import opened Spots
  import NoLoss

  predicate IsReaping(acts: seq<Action>) {
    forall a :: a in acts ==> a.Expire? || a.Drain?
  }

  /** The store after some reaper steps. */
  function Reaped(max: int, s: Store, acts: seq<Action>): Store
    requires IsReaping(acts)
    decreases |acts|
  {
    if acts == [] then s
    else
      var before := Reaped(max, s, acts[..|acts| - 1]);
      var a := acts[|acts| - 1];
      if a.Expire? then Expired(before, a.id, max) else Drained(before, a.w, max)
  }

  lemma ReapedMore(max: int, s: Store, acts: seq<Action>, a: Action)
    requires IsReaping(acts) && (a.Expire? || a.Drain?)
    ensures IsReaping(acts + [a])
    ensures var before := Reaped(max, s, acts);
            Reaped(max, s, acts + [a]) == if a.Expire? then Expired(before, a.id, max) else Drained(before, a.w, max)
  {
    assert (acts + [a])[..|acts|] == acts;
  }

  /** Exactly the ids that acts expires have had one more attempt; every other id is as it was. */
  ghost predicate OnlyExpired(max: int, s: Store, t: Store, acts: seq<Action>) {
    forall id :: SpotOf(t, id) == if Expire(id) in acts then RetriedSpot(SpotOf(s, id), max) else SpotOf(s, id)
  }

  lemma ExpiredSpot(s: Store, x: TaskId, max: int, id: TaskId)
    ensures SpotOf(Expired(s, x, max), id) ==
            if x == id && id in s.inflight then RetriedSpot(SpotOf(s, id), max) else SpotOf(s, id)
  {
    hide Retried, RetriedSpot;
    RetriedIs(max, s, x, id);
  }

  lemma OneMoreExpired(max: int, s: Store, t: Store, acts: seq<Action>, x: TaskId)
    requires OnlyExpired(max, s, t, acts) && Expire(x) !in acts && x in s.inflight
    ensures x in t.inflight && OnlyExpired(max, s, Expired(t, x, max), acts + [Expire(x)])
  {
    hide Expired, RetriedSpot;
    assert SpotOf(t, x).inflight == SpotOf(s, x).inflight;
    forall id
      ensures SpotOf(Expired(t, x, max), id) ==
              if Expire(id) in acts + [Expire(x)] then RetriedSpot(SpotOf(s, id), max) else SpotOf(s, id)
    {
      ExpiredSpot(t, x, max, id);
    }
  }

  lemma NoneExpired(max: int, s: Store)
    ensures OnlyExpired(max, s, s, [])
  {
  }

  /** No dead worker that acts drains has the id in its list. */
  ghost predicate Spares(s: Store, acts: seq<Action>, id: TaskId) {
    forall w :: Drain(w) in acts && w !in s.alive ==> id !in ListOf(s, w)
  }

  /** The id has been taken up again, or buried, for one more attempt at least. */
  ghost predicate Reclaimed(s: Store, t: Store, id: TaskId) {
    id !in t.inflight && Attempt(t, id) > Attempt(s, id) && (id in t.ready || id in t.dead)
  }

  /** Attempts only grow, and what is ready or dead stays. */
  ghost predicate Advances(s: Store, t: Store, id: TaskId) {
    && Attempt(t, id) >= Attempt(s, id) && (id in t.inflight ==> id in s.inflight)
    && (id in s.ready ==> id in t.ready) && (id in s.dead ==> id in t.dead)
  }

  lemma RetryAdvances(s: Store, x: TaskId, max: int, id: TaskId)
    ensures var t := Retried(s.(inflight := s.inflight - {x}), x, max);
            && Advances(s, t, id) && (x == id ==> Reclaimed(s, t, id))
            && (x != id ==> SpotOf(t, id) == SpotOf(s, id))
  {
    RetriedIs(max, s, x, id);
  }

  lemma {:induction false} DrainedAdvances(s: Store, ids: seq<TaskId>, max: int, id: TaskId)
    ensures var t := DrainedIds(s, ids, max);
            Advances(s, t, id) && if id in ids then Reclaimed(s, t, id) else SpotOf(t, id) == SpotOf(s, id)
    decreases |ids|
  {
    hide Retried, SpotOf, Attempt;
    if ids != [] {
      var last := |ids| - 1;
      DrainedAdvances(s, ids[..last], max, id);
      RetryAdvances(DrainedIds(s, ids[..last], max), ids[last], max, id);
      assert ids == ids[..last] + [ids[last]];
    }
  }

  lemma DrainAdvances(s: Store, w: WorkerId, max: int, id: TaskId)
    ensures var t := Drained(s, w, max);
            && Advances(s, t, id)
            && if w !in s.alive && id in ListOf(s, w) then Reclaimed(s, t, id) else SpotOf(t, id) == SpotOf(s, id)
  {
    DrainedAdvances(s, ListOf(s, w), max, id);
  }

  /** Drains reclaim what is in the lists of the dead workers, and touch nothing else. */
  lemma {:induction false} DrainsReclaimOne(max: int, s: Store, acts: seq<Action>, id: TaskId)
    requires IsReaping(acts) && forall a <- acts :: a.Drain?
    ensures var t := Reaped(max, s, acts);
            Advances(s, t, id) && if Spares(s, acts, id) then SpotOf(t, id) == SpotOf(s, id) else Reclaimed(s, t, id)
    decreases |acts|
  {
    hide Drained, SpotOf, Attempt, ListOf;
    if acts != [] {
      var before, a := acts[..|acts| - 1], acts[|acts| - 1];
      assert acts == before + [a] && a in acts;
      DrainsReclaimOne(max, s, before, id);
      ReapingEmpties(max, s, before);
      DrainAdvances(Reaped(max, s, before), a.w, max, id);
    }
  }

  lemma DrainsReclaim(max: int, s: Store, acts: seq<Action>)
    requires IsReaping(acts) && forall a <- acts :: a.Drain?
    ensures forall id :: Spares(s, acts, id) ==> SpotOf(Reaped(max, s, acts), id) == SpotOf(s, id)
    ensures forall id :: !Spares(s, acts, id) ==> Reclaimed(s, Reaped(max, s, acts), id)
  {
    hide Reaped, IsReaping, SpotOf, Spares, Reclaimed;
    forall id
      ensures Spares(s, acts, id) ==> SpotOf(Reaped(max, s, acts), id) == SpotOf(s, id)
      ensures !Spares(s, acts, id) ==> Reclaimed(s, Reaped(max, s, acts), id)
    {
      DrainsReclaimOne(max, s, acts, id);
    }
  }

  /** What the spot of an id says of it. */
  lemma SameSpot(s: Store, t: Store, id: TaskId)
    requires SpotOf(t, id) == SpotOf(s, id)
    ensures id in t.inflight <==> id in s.inflight
    ensures id in s.inflight ==> t.inflight[id] == s.inflight[id]
    ensures Count(t.ready, id) == Count(s.ready, id) && Count(t.dead, id) == Count(s.dead, id)
    ensures Attempt(t, id) == Attempt(s, id)
  {
  }

  class Coordinator {
    const rdb: Redis
    const maxAttempts: int

    constructor (rdb: Redis, maxAttempts: int)
      ensures this.rdb == rdb && this.maxAttempts == maxAttempts
    {
      this.rdb, this.maxAttempts := rdb, maxAttempts;
    }

    /**
      POST /enqueue with a freshly minted task id; body is absent when it is not valid JSON, and o is how
      the transaction ends. After a 500 it may have been applied all the same.
    */
    method HandleEnqueue(body: Option<Envelope>, taskId: TaskId, o: Outcome) returns (code: int)
      requires taskId !in rdb.tasks
      modifies rdb
      ensures code == if body.None? || body.value.order == "" then 400 else if o.Answered? then 201 else 500
      ensures rdb.View() == if code == 400 || o.Refused? then old(rdb.View())
                            else Enqueued(old(rdb.View()), taskId, body.value)
    {
      if body.None? || body.value.order == "" {
        return 400;
      }
      var err := rdb.EnqueueTx(taskId, body.value, o);
      code := if err then 500 else 201;
    }

    /** Pass (a), when ZRANGEBYSCORE answers or not, and each script ends as given. */
    method ReapExpiredInflight(now: int, listed: bool, ends: TaskId -> Outcome) returns (ghost acts: seq<Action>)
      modifies rdb
      ensures IsReaping(acts) && rdb.View() == Reaped(maxAttempts, old(rdb.View()), acts)
      ensures forall id :: Expire(id) in acts <==>
                listed && id in old(rdb.inflight) && old(rdb.inflight)[id] <= now && !ends(id).Refused?
      ensures OnlyExpired(maxAttempts, old(rdb.View()), rdb.View(), acts)
      ensures forall id :: id in rdb.inflight <==> id in old(rdb.inflight) && Expire(id) !in acts
      ensures forall id :: id in old(rdb.inflight) && old(rdb.inflight)[id] > now ==>
                && id in rdb.inflight && rdb.inflight[id] == old(rdb.inflight)[id]
                && Count(rdb.ready, id) == Count(old(rdb.ready), id) && Count(rdb.dead, id) == Count(old(rdb.dead), id)
                && Attempt(rdb.View(), id) == Attempt(old(rdb.View()), id)
      ensures rdb.processing == old(rdb.processing) && rdb.alive == old(rdb.alive)
    {
      hide Expired, RetriedSpot, SpotOf, Attempt, OnlyExpired, Reaped;
      ghost var s := rdb.View();
      acts := [];
      NothingReaped(maxAttempts, s);
      NoneExpired(maxAttempts, s);
      if listed {
        var ids := set id | id in rdb.inflight && rdb.inflight[id] <= now;
        ghost var all := ids;
        while ids != {}
          invariant IsReaping(acts) && rdb.View() == Reaped(maxAttempts, s, acts)
          invariant ids <= all && forall id :: Expire(id) in acts <==> id in all - ids && !ends(id).Refused?
          invariant OnlyExpired(maxAttempts, s, rdb.View(), acts)
          invariant forall id :: id in rdb.inflight <==> id in s.inflight && Expire(id) !in acts
          invariant rdb.processing == s.processing && rdb.alive == s.alive
          decreases |ids|
        {
          var id :| id in ids;
          ids := ids - {id};
          if ends(id).Refused? {
            continue;
          }
          ReapedMore(maxAttempts, s, acts, Expire(id));
          OneMoreExpired(maxAttempts, s, rdb.View(), acts, id);
          ExpiredFrame(rdb.View(), id, maxAttempts);
          acts := acts + [Expire(id)];
          var _ := rdb.RequeueExpired(id, maxAttempts);
        }
      }
      NotYetDue(maxAttempts, s, rdb.View(), acts, now);
    }

    static lemma NotYetDue(max: int, s: Store, t: Store, acts: seq<Action>, now: int)
      requires OnlyExpired(max, s, t, acts)
      requires forall id :: Expire(id) in acts ==> id in s.inflight && s.inflight[id] <= now
      ensures forall id :: id in s.inflight && s.inflight[id] > now ==>
                && id in t.inflight && t.inflight[id] == s.inflight[id]
                && Count(t.ready, id) == Count(s.ready, id) && Count(t.dead, id) == Count(s.dead, id)
                && Attempt(t, id) == Attempt(s, id)
    {
      hide SpotOf, RetriedSpot, Attempt, Count;
      forall id | id in s.inflight && s.inflight[id] > now
        ensures id in t.inflight && t.inflight[id] == s.inflight[id]
        ensures Count(t.ready, id) == Count(s.ready, id) && Count(t.dead, id) == Count(s.dead, id)
        ensures Attempt(t, id) == Attempt(s, id)
      {
        SameSpot(s, t, id);
      }
    }

    static lemma ExpiredFrame(s: Store, id: TaskId, max: int)
      ensures var t := Expired(s, id, max);
              t.inflight.Keys == s.inflight.Keys - {id} && t.processing == s.processing && t.alive == s.alive
    {
    }

    static lemma NothingReaped(max: int, s: Store)
      ensures IsReaping([]) && Reaped(max, s, []) == s
    {
    }

    static lemma DrainFrame(s: Store, w: WorkerId, max: int)
      ensures var t := Drained(s, w, max);
              && t.inflight.Keys <= s.inflight.Keys && t.alive == s.alive
              && forall v :: ListOf(t, v) == if v == w && w !in s.alive then [] else ListOf(s, v)
    {
      DrainedFrame(s, ListOf(s, w), max);
    }

    /** Pass (b), when SCAN delivers so many keys before it fails, and each script ends as given. */
    method ReapDeadWorkers(delivered: nat, ends: WorkerId -> Outcome)
        returns (ghost acts: seq<Action>, ghost tried: set<WorkerId>)
      modifies rdb
      ensures IsReaping(acts) && rdb.View() == Reaped(maxAttempts, old(rdb.View()), acts)
      ensures tried <= old(rdb.processing).Keys
      ensures |tried| == if delivered <= |old(rdb.processing)| then delivered else |old(rdb.processing)|
      ensures delivered >= |old(rdb.processing)| ==> tried == old(rdb.processing).Keys
      ensures forall a <- acts :: a.Drain?
      ensures forall w :: Drain(w) in acts <==> w in tried && !ends(w).Refused?
      ensures forall w :: ListOf(rdb.View(), w) ==
                if Drain(w) in acts && w !in rdb.alive then [] else ListOf(old(rdb.View()), w)
      ensures forall id :: Spares(old(rdb.View()), acts, id) ==> SpotOf(rdb.View(), id) == SpotOf(old(rdb.View()), id)
      ensures forall id :: !Spares(old(rdb.View()), acts, id) ==> Reclaimed(old(rdb.View()), rdb.View(), id)
      ensures rdb.inflight.Keys <= old(rdb.inflight).Keys && rdb.alive == old(rdb.alive)
    {
      hide Reaped, Drained, SpotOf, Attempt, Spares, Reclaimed, ListOf;
      ghost var s := rdb.View();
      acts := [];
      var keys := rdb.processing.Keys;
      NothingReaped(maxAttempts, s);
      ghost var all := keys;
      var seen := 0;
      assert |all| == |old(rdb.processing)|;
      while keys != {} && seen < delivered
        invariant IsReaping(acts) && rdb.View() == Reaped(maxAttempts, s, acts)
        invariant forall a <- acts :: a.Drain?
        invariant keys <= all && forall w :: Drain(w) in acts <==> w in all - keys && !ends(w).Refused?
        invariant seen + |keys| == |all| && seen <= delivered
        decreases |keys|
      {
        var w :| w in keys;
        keys, seen := keys - {w}, seen + 1;
        if ends(w).Refused? {
          continue;
        }
        ReapedMore(maxAttempts, s, acts, Drain(w));
        acts := acts + [Drain(w)];
        var _ := rdb.DrainDeadWorker(w, maxAttempts);
      }
      tried := all - keys;
      ReapingEmpties(maxAttempts, s, acts);
      DrainsReclaim(maxAttempts, s, acts);
    }

    /** One tick of runReaper; if none of its calls fails, it has tried everything there is to reap. */
    method Tick(now: int, listed: bool, expiry: TaskId -> Outcome, delivered: nat, drain: WorkerId -> Outcome)
        returns (ghost acts: seq<Action>)
      modifies rdb
      ensures IsReaping(acts) && rdb.View() == Reaped(maxAttempts, old(rdb.View()), acts)
      ensures listed && delivered >= |old(rdb.processing)|
              && (forall id :: !expiry(id).Refused?) && (forall w :: !drain(w).Refused?) ==>
                IsFullTick(old(rdb.View()), now, acts)
      ensures forall id :: Expire(id) in acts <==>
                listed && id in old(rdb.inflight) && old(rdb.inflight)[id] <= now && !expiry(id).Refused?
      ensures forall id ::
                id in old(rdb.inflight) && old(rdb.inflight)[id] > now && Spares(old(rdb.View()), acts, id) ==>
                && id in rdb.inflight && rdb.inflight[id] == old(rdb.inflight)[id]
                && Count(rdb.ready, id) == Count(old(rdb.ready), id) && Count(rdb.dead, id) == Count(old(rdb.dead), id)
                && Attempt(rdb.View(), id) == Attempt(old(rdb.View()), id)
    {
      hide Reaped, SpotOf, Attempt, Count, OnlyExpired;
      ghost var first := ReapExpiredInflight(now, listed, expiry);
      ghost var middle := rdb.View();
      ghost var second, tried := ReapDeadWorkers(delivered, drain);
      acts := first + second;
      ReapedTwice(maxAttempts, old(rdb.View()), first, second);
      DrainsNotYetDue(old(rdb.View()), middle, rdb.View(), acts, second, now);
    }

    static lemma DrainsNotYetDue(s: Store, m: Store, t: Store, acts: seq<Action>, drains: seq<Action>, now: int)
      requires m.processing == s.processing && m.alive == s.alive && forall a <- drains :: a in acts
      requires forall id :: Spares(m, drains, id) ==> SpotOf(t, id) == SpotOf(m, id)
      requires forall id :: id in s.inflight && s.inflight[id] > now ==>
                 && id in m.inflight && m.inflight[id] == s.inflight[id]
                 && Count(m.ready, id) == Count(s.ready, id) && Count(m.dead, id) == Count(s.dead, id)
                 && Attempt(m, id) == Attempt(s, id)
      ensures forall id :: id in s.inflight && s.inflight[id] > now && Spares(s, acts, id) ==>
                && id in t.inflight && t.inflight[id] == s.inflight[id]
                && Count(t.ready, id) == Count(s.ready, id) && Count(t.dead, id) == Count(s.dead, id)
                && Attempt(t, id) == Attempt(s, id)
    {
      hide SpotOf, Attempt, Count;
      forall id | id in s.inflight && s.inflight[id] > now && Spares(s, acts, id)
        ensures id in t.inflight && t.inflight[id] == s.inflight[id]
        ensures Count(t.ready, id) == Count(s.ready, id) && Count(t.dead, id) == Count(s.dead, id)
        ensures Attempt(t, id) == Attempt(s, id)
      {
        assert Spares(m, drains, id) by {
          assert forall w :: ListOf(m, w) == ListOf(s, w);
        }
        SameSpot(m, t, id);
      }
    }
  }

  /** Every overdue id has been expired and every list tried. */
  ghost predicate IsFullTick(s: Store, now: int, acts: seq<Action>) {
    && IsReaping(acts)
    && (forall id <- Overdue(s, now) :: Expire(id) in acts)
    && (forall w :: w in s.processing ==> Drain(w) in acts)
  }

  /** Reaping adds nothing to inflight or to a list, and takes away what it names. */
  lemma {:induction false} ReapingEmpties(max: int, s: Store, acts: seq<Action>)
    requires IsReaping(acts)
    ensures var t := Reaped(max, s, acts);
            && t.alive == s.alive && t.inflight.Keys <= s.inflight.Keys
            && (forall id :: Expire(id) in acts ==> id !in t.inflight)
            && (forall w :: ListOf(t, w) == if Drain(w) in acts && w !in s.alive then [] else ListOf(s, w))
    decreases |acts|
  {
    if acts != [] {
      var before, a := acts[..|acts| - 1], acts[|acts| - 1];
      assert acts == before + [a] && a in acts;
      ReapingEmpties(max, s, before);
      var u := Reaped(max, s, before);
      if a.Expire? {
        Coordinator.ExpiredFrame(u, a.id, max);
      } else {
        Coordinator.DrainFrame(u, a.w, max);
      }
    }
  }

  lemma {:induction false} ReapedTwice(max: int, s: Store, first: seq<Action>, second: seq<Action>)
    requires IsReaping(first) && IsReaping(second)
    ensures IsReaping(first + second)
    ensures Reaped(max, s, first + second) == Reaped(max, Reaped(max, s, first), second)
    decreases |second|
  {
    if second == [] {
      assert first + second == first;
    } else {
      var last := |second| - 1;
      ReapedTwice(max, s, first, second[..last]);
      ReapedMore(max, s, first + second[..last], second[last]);
      assert first + second == first + second[..last] + [second[last]];
    }
  }

  lemma ReapStep(max: int, s: State, a: Action)
    requires a.Expire? || a.Drain?
    ensures Can(s, a)
    ensures Do(max, s, a) ==
            s.(store := if a.Expire? then Expired(s.store, a.id, max) else Drained(s.store, a.w, max))
  {
    hide Expired, Drained;
  }

  lemma LastReap(trace: seq<Action>, acts: seq<Action>)
    requires acts != [] && IsReaping(acts)
    ensures var before, a := acts[..|acts| - 1], acts[|acts| - 1];
            && trace + acts == trace + before + [a] && acts == before + [a]
            && IsReaping(before) && (a.Expire? || a.Drain?)
  {
  }

  lemma NoReap(trace: seq<Action>)
    ensures trace + [] == trace
  {
  }

  /** Reaper steps go on from any state of a run. */
  lemma {:induction false} ReapingRuns(max: int, trace: seq<Action>, acts: seq<Action>)
    requires Run(max, trace).Some? && IsReaping(acts)
    ensures Run(max, trace + acts) ==
            Some(Run(max, trace).value.(store := Reaped(max, Run(max, trace).value.store, acts)))
    decreases |acts|
  {
    hide Run, Reaped, IsReaping, Can, Do, Expired, Drained;
    var s := Run(max, trace).value;
    if acts == [] {
      NoReap(trace);
      Coordinator.NothingReaped(max, s.store);
    } else {
      var before, a := acts[..|acts| - 1], acts[|acts| - 1];
      LastReap(trace, acts);
      ReapingRuns(max, trace, before);
      var u := Run(max, trace + before).value;
      ReapStep(max, u, a);
      ReapedMore(max, s.store, before, a);
      var longer, t := Step(max, trace + before, u, a);
    }
  }

  lemma {:induction false} ReapingLosesNothing(max: int, trace: seq<Action>, acts: seq<Action>, id: TaskId)
    requires Run(max, trace).Some? && IsReaping(acts) && NoLoss.Inv(Run(max, trace).value, id)
    ensures Run(max, trace + acts).Some? && NoLoss.Inv(Run(max, trace + acts).value, id)
    decreases |acts|
  {
    hide NoLoss.Inv, Run, IsReaping, Can, Do, Expired, Drained;
    if acts == [] {
      NoReap(trace);
    } else {
      var before, a := acts[..|acts| - 1], acts[|acts| - 1];
      LastReap(trace, acts);
      ReapingLosesNothing(max, trace, before, id);
      var s := Run(max, trace + before).value;
      ReapStep(max, s, a);
      var longer, t := Step(max, trace + before, s, a);
      NoLoss.StepKeeps(max, s, a, id);
    }
  }

  /**
    Main result. After any run that ends with no liveness key left and all deadlines passed, a full tick
    leaves inflight and all processing lists empty, and every enqueued task in ready, done or dead,
    unless the failed-ZADD branch lost it.
  */
  lemma QuiescentReaping(max: int, trace: seq<Action>, s: State, now: int, acts: seq<Action>, id: TaskId)
    requires Run(max, trace) == Some(s) && IsFullTick(s.store, now, acts)
    requires s.store.alive == {} && forall x :: x in s.store.inflight ==> s.store.inflight[x] <= now
    requires id in s.store.tasks && NoLoss.NeverLoses(max, trace, id)
    ensures var t := Reaped(max, s.store, acts);
            && t.inflight == map[] && (forall w :: ListOf(t, w) == [])
            && (id in t.ready || id in t.done || id in t.dead)
  {
    ReapingRuns(max, trace, acts);
    ReapingEmpties(max, s.store, acts);
    NoLoss.NoTaskLostIff(max, trace, id);
    ReapingLosesNothing(max, trace, acts, id);
    TasksStay(max, s.store, acts, id);
    EmptyOnes(s.store, Reaped(max, s.store, acts), now, acts);
  }

  lemma EmptyOnes(s: Store, t: Store, now: int, acts: seq<Action>)
    requires IsFullTick(s, now, acts) && s.alive == {} && forall x :: x in s.inflight ==> s.inflight[x] <= now
    requires t.inflight.Keys <= s.inflight.Keys && forall id :: Expire(id) in acts ==> id !in t.inflight
    requires forall w :: ListOf(t, w) == if Drain(w) in acts && w !in s.alive then [] else ListOf(s, w)
    ensures t.inflight == map[] && forall w :: ListOf(t, w) == []
  {
    forall id ensures id !in t.inflight {
      assert id in s.inflight ==> id in Overdue(s, now);
    }
  }

  lemma {:induction false} TasksStay(max: int, s: Store, acts: seq<Action>, id: TaskId)
    requires IsReaping(acts) && id in s.tasks
    ensures id in Reaped(max, s, acts).tasks
    decreases |acts|
  {
    if acts != [] {
      var last := |acts| - 1;
      TasksStay(max, s, acts[..last], id);
      var before := Reaped(max, s, acts[..last]);
      if acts[last].Drain? {
        DrainedFrame(before, ListOf(before, acts[last].w), max);
      }
    }
  }
}
