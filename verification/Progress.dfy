/**
  The assumptions of module Timed never contradict each other: whatever run has kept them so far, it can
  go on to any later moment, with every worker that was running still running.
*/
module Progress {
  import opened Lists
  import opened Keyspace
  import opened Queue
  import opened Timed

  /** t is reached by a run that continues the given one. */
  ghost predicate Reached(c: Config, before: seq<Tact>, trace: seq<Tact>, t: Timed) {
    before <= trace && TRun(c, trace) == Some(t) && Clocks(c, t)
  }

  lemma OneLonger<T>(before: seq<T>, trace: seq<T>, a: T)
    requires before <= trace
    ensures before <= trace + [a] && (trace + [a])[..|trace|] == trace
  {
  }

  lemma NextRun(c: Config, trace: seq<Tact>, t: Timed, a: Tact)
    requires TRun(c, trace) == Some(t) && TCan(c, t, a) && (trace + [a])[..|trace|] == trace
    ensures TRun(c, trace + [a]) == Some(TDo(c, t, a))
  {
    hide TCan, TDo;
  }

  lemma Goes(c: Config, before: seq<Tact>, trace: seq<Tact>, t: Timed, a: Tact) returns (longer: seq<Tact>, u: Timed)
    requires IsSafe(c) && Reached(c, before, trace, t) && TCan(c, t, a)
    ensures longer == trace + [a] && u == TDo(c, t, a) && Reached(c, before, longer, u)
  {
    hide Clocks, TCan, TDo, TRun;
    ClocksKept(c, t, a);
    OneLonger(before, trace, a);
    NextRun(c, trace, t, a);
    longer, u := trace + [a], TDo(c, t, a);
  }

  /** The processes and their clocks, leaving out the reaper. */
  ghost predicate SameProcesses(t: Timed, u: Timed) {
    && u.q.workers == t.q.workers && u.q.store.alive == t.q.store.alive && u.now == t.now
    && u.beatAt == t.beatAt && u.stamp == t.stamp
  }

  // ---- the reaper ----

  lemma ReaperAlone(c: Config, t: Timed, a: Tact)
    requires TCan(c, t, a) && (a.TickStart? || a.TickExpire? || a.TickScan? || a.TickDrain? || a.TickEnd?)
    ensures SameProcesses(t, TDo(c, t, a))
  {
    hide Exec, Blamed, Culprit, Succeeds, MayWait;
    AliveAfter(c, t, a);
  }

  lemma ExpireAll(c: Config, before: seq<Tact>, trace: seq<Tact>, t: Timed) returns (longer: seq<Tact>, u: Timed)
    requires IsSafe(c) && Reached(c, before, trace, t) && t.reaper.Expiring?
    ensures Reached(c, before, longer, u) && SameProcesses(t, u)
    ensures u.reaper == Expiring(t.reaper.start, {}) && u.tickAt == t.tickAt
    decreases t.reaper.ids
  {
    hide Reached, Queued, Culprit, Blamed;
    longer, u := trace, t;
    if t.reaper.ids != {} {
      var id :| id in t.reaper.ids;
      ReaperAlone(c, t, TickExpire(id));
      longer, u := Goes(c, before, trace, t, TickExpire(id));
      longer, u := ExpireAll(c, before, longer, u);
    }
  }

  lemma DrainAll(c: Config, before: seq<Tact>, trace: seq<Tact>, t: Timed) returns (longer: seq<Tact>, u: Timed)
    requires IsSafe(c) && Reached(c, before, trace, t) && t.reaper.Draining?
    ensures Reached(c, before, longer, u) && SameProcesses(t, u)
    ensures u.reaper == Draining(t.reaper.start, {}) && u.tickAt == t.tickAt
    decreases t.reaper.todo
  {
    hide Reached, Queued, Culprit, Blamed;
    longer, u := trace, t;
    if t.reaper.todo != {} {
      var w :| w in t.reaper.todo;
      ReaperAlone(c, t, TickDrain(w));
      longer, u := Goes(c, before, trace, t, TickDrain(w));
      longer, u := DrainAll(c, before, longer, u);
    }
  }

  /** The reaper gets through the tick it is in. */
  lemma Finishes(c: Config, before: seq<Tact>, trace: seq<Tact>, t: Timed) returns (longer: seq<Tact>, u: Timed)
    requires IsSafe(c) && Reached(c, before, trace, t) && !t.reaper.Asleep?
    ensures Reached(c, before, longer, u) && SameProcesses(t, u)
    ensures u.reaper == Asleep && u.tickAt == t.reaper.start
  {
    hide Reached, Queued, Culprit, Blamed;
    longer, u := trace, t;
    if t.reaper.Expiring? {
      longer, u := ExpireAll(c, before, longer, u);
      ReaperAlone(c, u, TickScan);
      longer, u := Goes(c, before, longer, u, TickScan);
    }
    longer, u := DrainAll(c, before, longer, u);
    ReaperAlone(c, u, TickEnd);
    longer, u := Goes(c, before, longer, u, TickEnd);
  }

  /** And through a new one, all of it now. */
  lemma TicksNow(c: Config, before: seq<Tact>, trace: seq<Tact>, t: Timed) returns (longer: seq<Tact>, u: Timed)
    requires IsSafe(c) && Reached(c, before, trace, t)
    ensures Reached(c, before, longer, u) && SameProcesses(t, u) && u.reaper == Asleep && u.tickAt == u.now
  {
    hide Reached, Queued, Culprit, Blamed;
    longer, u := trace, t;
    if !t.reaper.Asleep? {
      longer, u := Finishes(c, before, longer, u);
    }
    ReaperAlone(c, u, TickStart);
    longer, u := Goes(c, before, longer, u, TickStart);
    longer, u := Finishes(c, before, longer, u);
  }

  // ---- the workers ----

  /** All of the workers in ws beat now. */
  lemma BeatAll(c: Config, before: seq<Tact>, trace: seq<Tact>, t: Timed, ws: set<WorkerId>)
      returns (longer: seq<Tact>, u: Timed)
    requires IsSafe(c) && Reached(c, before, trace, t) && ws <= t.q.workers.Keys
    ensures Reached(c, before, longer, u) && u.q.workers == t.q.workers && u.stamp == t.stamp
    ensures u.now == t.now && u.tickAt == t.tickAt
    ensures forall w <- ws :: w in u.beatAt && u.beatAt[w] == u.now
    decreases ws
  {
    hide Reached, Culprit, Blamed, BeatStore;
    longer, u := trace, t;
    if ws != {} {
      var w :| w in ws;
      longer, u := BeatAll(c, before, longer, u, ws - {w});
      longer, u := Goes(c, before, longer, u, Beat(w));
    }
  }

  /** The liveness keys that are due run out. */
  lemma FadeAll(c: Config, before: seq<Tact>, trace: seq<Tact>, t: Timed, ws: set<WorkerId>)
      returns (longer: seq<Tact>, u: Timed)
    requires IsSafe(c) && Reached(c, before, trace, t) && ws <= t.q.store.alive
    requires forall w <- ws :: w in t.beatAt && t.now >= t.beatAt[w] + 2000 * c.heartbeat
    ensures Reached(c, before, longer, u) && u.q.store.alive == t.q.store.alive - ws
    ensures u.q.workers == t.q.workers && u.now == t.now && u.tickAt == t.tickAt
    ensures u.beatAt == t.beatAt && u.stamp == t.stamp
    decreases ws
  {
    hide Reached, Culprit, Blamed, Exec;
    longer, u := trace, t;
    if ws != {} {
      var w :| w in ws;
      longer, u := FadeAll(c, before, longer, u, ws - {w});
      AliveAfter(c, u, Fade(w));
      longer, u := Goes(c, before, longer, u, Fade(w));
    }
  }

  /** A worker whose deadline has been computed and that has not set current yet. */
  ghost predicate IsApproaching(t: Timed, w: WorkerId) {
    w in t.q.workers && w in t.stamp && (t.q.workers[w].pc.Gated? || t.q.workers[w].pc.Added?)
  }

  /** It needs no time to do so. */
  lemma Arrives(c: Config, before: seq<Tact>, trace: seq<Tact>, t: Timed, w: WorkerId)
      returns (longer: seq<Tact>, u: Timed)
    requires IsSafe(c) && Reached(c, before, trace, t) && IsApproaching(t, w)
    ensures Reached(c, before, longer, u) && u.q.store.alive == t.q.store.alive
    ensures u.q.workers.Keys == t.q.workers.Keys && u.q.workers[w].pc.Watched?
    ensures forall v <- t.q.workers :: v != w ==> u.q.workers[v] == t.q.workers[v]
    ensures u.now == t.now && u.tickAt == t.tickAt && u.beatAt == t.beatAt && u.stamp == t.stamp
  {
    hide Reached, Culprit, Blamed, Exec;
    longer, u := trace, t;
    if t.q.workers[w].pc.Gated? {
      var add := Loop(w, AddInflight(Unix(t.stamp[w]) + c.visibility));
      AliveAfter(c, u, add);
      longer, u := Goes(c, before, longer, u, add);
    }
    AliveAfter(c, u, Loop(w, SetCurrent));
    longer, u := Goes(c, before, longer, u, Loop(w, SetCurrent));
  }

  lemma ArriveAll(c: Config, before: seq<Tact>, trace: seq<Tact>, t: Timed, ws: set<WorkerId>)
      returns (longer: seq<Tact>, u: Timed)
    requires IsSafe(c) && Reached(c, before, trace, t) && forall w <- ws :: IsApproaching(t, w)
    ensures Reached(c, before, longer, u) && u.q.store.alive == t.q.store.alive
    ensures u.q.workers.Keys == t.q.workers.Keys
    ensures forall w <- ws :: w in u.q.workers && u.q.workers[w].pc.Watched?
    ensures forall v <- t.q.workers :: v !in ws ==> u.q.workers[v] == t.q.workers[v]
    ensures u.now == t.now && u.tickAt == t.tickAt && u.beatAt == t.beatAt && u.stamp == t.stamp
    decreases ws
  {
    hide Reached;
    longer, u := trace, t;
    if ws != {} {
      var w :| w in ws;
      longer, u := ArriveAll(c, before, longer, u, ws - {w});
      longer, u := Arrives(c, before, longer, u, w);
    }
  }

  // ---- time ----

  /** Nothing that anyone owes is due. */
  lemma NothingDue(c: Config, before: seq<Tact>, trace: seq<Tact>, t: Timed) returns (longer: seq<Tact>, u: Timed)
    requires IsSafe(c) && c.interval > 0 && Reached(c, before, trace, t)
    ensures Reached(c, before, longer, u) && u.now == t.now && u.q.workers.Keys == t.q.workers.Keys
    ensures TCan(c, u, Wait(1))
  {
    hide Reached, SameProcesses;
    longer, u := TicksNow(c, before, trace, t);
    SameMeans(t, u);
    longer, u := BeatAll(c, before, longer, u, u.q.workers.Keys);
    BeatsKnown(c, before, longer, u);
    longer, u := FadeAll(c, before, longer, u, set w | w in u.q.store.alive && u.now >= u.beatAt[w] + 2000 * c.heartbeat);
    BeatsKnown(c, before, longer, u);
    longer, u := ArriveAll(c, before, longer, u, set w | w in u.q.workers && IsApproaching(u, w));
  }

  lemma SameMeans(t: Timed, u: Timed)
    requires SameProcesses(t, u)
    ensures u.q.workers == t.q.workers && u.now == t.now
  {
  }

  lemma BeatsKnown(c: Config, before: seq<Tact>, trace: seq<Tact>, t: Timed)
    requires Reached(c, before, trace, t)
    ensures forall w <- t.q.store.alive :: w in t.beatAt
  {
  }

  lemma {:induction false} GoesOn(c: Config, before: seq<Tact>, trace: seq<Tact>, t: Timed, until: int)
      returns (longer: seq<Tact>, u: Timed)
    requires IsSafe(c) && c.interval > 0 && Reached(c, before, trace, t) && t.now <= until
    ensures Reached(c, before, longer, u) && u.now == until && u.q.workers.Keys == t.q.workers.Keys
    decreases until - t.now
  {
    hide Reached, MayWait;
    longer, u := trace, t;
    if t.now < until {
      longer, u := NothingDue(c, before, longer, u);
      longer, u := Goes(c, before, longer, u, Wait(1));
      longer, u := GoesOn(c, before, longer, u, until);
    }
  }

  lemma {:induction false} ClocksAlways(c: Config, trace: seq<Tact>, t: Timed)
    requires IsSafe(c) && TRun(c, trace) == Some(t)
    ensures Clocks(c, t)
    decreases |trace|
  {
    hide Clocks, TCan, TDo;
    if trace == [] {
      DawnClocks(c);
    } else {
      var last := |trace| - 1;
      ClocksAlways(c, trace[..last], TRun(c, trace[..last]).value);
      ClocksKept(c, TRun(c, trace[..last]).value, trace[last]);
    }
  }

  lemma DawnClocks(c: Config)
    requires IsSafe(c)
    ensures Clocks(c, DAWN)
  {
  }

  /** No time passes as long as the reaper's interval is 0. */
  lemma {:induction false} StandsStill(c: Config, trace: seq<Tact>, t: Timed)
    requires IsSafe(c) && c.interval == 0 && TRun(c, trace) == Some(t)
    ensures t.now == 0
    decreases |trace|
  {
    hide Clocks, TCan, TDo;
    if trace != [] {
      var last := |trace| - 1;
      var before := TRun(c, trace[..last]).value;
      StandsStill(c, trace[..last], before);
      ClocksAlways(c, trace[..last], before);
      NoWait(c, before, trace[last]);
    }
  }

  lemma NoWait(c: Config, t: Timed, a: Tact)
    requires c.interval == 0 && Clocks(c, t) && TCan(c, t, a)
    ensures TDo(c, t, a).now == t.now
  {
  }

  /** The run can be continued to this moment, with every worker running that is running now. */
  ghost predicate CanGoOn(c: Config, trace: seq<Tact>, until: int) {
    && TRun(c, trace).Some?
    && exists longer :: trace <= longer && TRun(c, longer).Some?
        && TRun(c, longer).value.now == until
        && TRun(c, longer).value.q.workers.Keys == TRun(c, trace).value.q.workers.Keys
  }

  /** The moments still to come after a run. */
  ghost predicate Ahead(c: Config, trace: seq<Tact>, until: int) {
    TRun(c, trace).Some? && TRun(c, trace).value.now <= until
  }

  /**
    Main result: every run within the timing assumptions can go on within them to any later moment, with
    all its workers running, if and only if a reaper tick may take any time at all.
  */
  lemma TimeGoesOnIff(c: Config)
    requires IsSafe(c)
    ensures c.interval > 0 <==> forall trace, until :: Ahead(c, trace, until) ==> CanGoOn(c, trace, until)
  {
    hide Clocks, TCan, TDo;
    if c.interval > 0 {
      forall trace, until | Ahead(c, trace, until)
        ensures CanGoOn(c, trace, until)
      {
        var t := TRun(c, trace).value;
        ClocksAlways(c, trace, t);
        var longer, u := GoesOn(c, trace, trace, t, until);
      }
    } else {
      assert Ahead(c, [], 1);
      if CanGoOn(c, [], 1) {
        var longer :| [] <= longer && TRun(c, longer).Some? && TRun(c, longer).value.now == 1;
        StandsStill(c, longer, TRun(c, longer).value);
      }
    }
  }
}
