/**
  The work queue against the clock: the assumptions under which a task has one owner. Times are
  milliseconds; scores and whole-second settings are Unix seconds, as in the source.
*/
module Timed {
  import opened Lists
  import opened Keyspace
  import opened Queue

  /**
    MAX_ATTEMPTS, HEARTBEAT_S, VISIBILITY_S, the time within which a reaper tick completes after the
    start of the previous one, and the time a worker may take from computing its first deadline to
    setCurrent.
  */
  datatype Config = Config(max: int, heartbeat: int, visibility: int, interval: int, grace: int)

  predicate IsSafe(c: Config) {
    && c.heartbeat > 0 && c.interval >= 0 && c.grace >= 0
    && 2 * c.heartbeat + c.interval + c.grace < c.visibility
  }

  function Unix(ms: int): int {
    ms / 1000
  }

  /** The single reaper: between ticks, in pass (a) over the ids it read, or in pass (b) over the keys it read. */
  datatype Reaper = Asleep | Expiring(start: int, ids: set<TaskId>) | Draining(start: int, todo: set<WorkerId>)

  /**
    used: every worker name so far; beatAt: the last beat; stamp: when the deadline of the pending
    ZADD was computed; tickAt: the start of the last completed tick; faults: how often a task was
    abandoned or its worker crashed (history only).
  */
  datatype Timed = Timed(
    q: State,
    now: int,
    used: set<WorkerId>,
    beatAt: map<WorkerId, int>,
    stamp: map<WorkerId, int>,
    tickAt: int,
    reaper: Reaper,
    faults: map<TaskId, nat>)

  const DAWN := Timed(INIT, 0, {}, map[], map[], 0, Asleep, map[])

  datatype Tact =
    | Wait(d: int)
    | Hire(w: WorkerId)
    | Beat(w: WorkerId)                       // SET worker:<w> and ZADD GT, in one go
    | Compute(w: WorkerId)                    // deadline := now + visibility
    | Loop(w: WorkerId, act: WorkerAct)
    | Die(w: WorkerId)
    | Fade(w: WorkerId)
    | Order(id: TaskId, env: Envelope)
    | TickStart | TickExpire(id: TaskId) | TickScan | TickDrain(w: WorkerId) | TickEnd
    | Settle(k: SweeperId, sweep: SweepAct)

  /** The loop steps of a worker whose Redis calls succeed. */
  predicate Succeeds(act: WorkerAct) {
    match act
    case Claim(_) => true
    case GateDone => true
    case GateOpen => true
    case SkipRemove(applied) => applied
    case AddInflight(_) => true
    case SetCurrent => true
    case Fetch => true
    case Launch(_) => true
    case StageVerdict(_) => true
    case StageError => true
    case Abandon(applied) => applied
    case Ack(_, _, _, applied, replied) => applied && replied
    case ClearCurrent => true
    case _ => false
  }

  /** Time passes only as far as the beats, the key expiries, the pending ZADDs and the reaper allow. */
  predicate MayWait(c: Config, t: Timed, until: int) {
    && until <= t.tickAt + 1000 * c.interval
    && (forall w :: w in t.q.workers && w in t.beatAt ==> until <= t.beatAt[w] + 1000 * c.heartbeat)
    && (forall w :: w in t.q.store.alive && w in t.beatAt ==> until <= t.beatAt[w] + 2000 * c.heartbeat)
    && (forall w :: w in t.q.workers && w in t.stamp && (t.q.workers[w].pc.Gated? || t.q.workers[w].pc.Added?) ==>
          until <= t.stamp[w] + 1000 * c.grace)
  }

  predicate TCan(c: Config, t: Timed, a: Tact) {
    var s := t.q.store;
    match a
    case Wait(d) => d > 0 && MayWait(c, t, t.now + d)
    case Hire(w) => w !in t.used && Can(t.q, Start(w))
    case Beat(w) => w in t.q.workers
    case Compute(w) => w in t.q.workers && t.q.workers[w].pc.Gated?
    case Loop(w, act) =>
      && Can(t.q, Work(w, act)) && Succeeds(act)
      && (act.Claim? ==> w in t.beatAt)
      && (act.AddInflight? ==> w in t.stamp && act.deadline == Unix(t.stamp[w]) + c.visibility)
    case Die(w) => w in t.q.workers
    case Fade(w) => w in s.alive && w in t.beatAt && t.now >= t.beatAt[w] + 2000 * c.heartbeat
    case Order(id, env) => Can(t.q, Enqueue(id, env))
    case TickStart => t.reaper.Asleep?
    case TickExpire(id) => t.reaper.Expiring? && id in t.reaper.ids
    case TickScan => t.reaper.Expiring? && t.reaper.ids == {}
    case TickDrain(w) => t.reaper.Draining? && w in t.reaper.todo
    case TickEnd => t.reaper.Draining? && t.reaper.todo == {}
    case Settle(k, act) => Can(t.q, Sweep(k, act))
  }

  /** The store after w's beat at time now. */
  function BeatStore(c: Config, s: Store, w: WorkerId, current: Option<TaskId>, now: int): Store {
    var s := s.(alive := s.alive + {w});
    if current.Some? then Extended(s, current.value, Unix(now) + c.visibility) else s
  }

  /** The queue step behind a timed step other than a beat. */
  function TimedAction(a: Tact): Option<Action> {
    match a
    case Hire(w) => Some(Start(w))
    case Loop(w, act) => Some(Work(w, act))
    case Die(w) => Some(Crash(w))
    case Fade(w) => Some(Lapse(w))
    case Order(id, env) => Some(Enqueue(id, env))
    case TickExpire(id) => Some(Expire(id))
    case TickDrain(w) => Some(Drain(w))
    case Settle(k, act) => Some(Sweep(k, act))
    case _ => None
  }

  function Queued(c: Config, t: Timed, a: Tact): State
    requires TCan(c, t, a)
  {
    if a.Beat? then t.q.(store := BeatStore(c, t.q.store, a.w, t.q.workers[a.w].current, t.now))
    else if TimedAction(a).Some? then Do(c.max, t.q, TimedAction(a).value)
    else t.q
  }

  function FaultsOf(t: Timed, id: TaskId): nat {
    if id in t.faults then t.faults[id] else 0
  }

  /** One more fault for x, if there is an x. */
  function Blamed(t: Timed, x: Option<TaskId>): map<TaskId, nat> {
    if x.None? then t.faults else t.faults[x.value := FaultsOf(t, x.value) + 1]
  }

  function Culprit(t: Timed, a: Tact): Option<TaskId> {
    match a
    case Die(w) => if ListOf(t.q.store, w) != [] then Some(ListOf(t.q.store, w)[0]) else None
    case Loop(w, Abandon(_)) =>
      if w in t.q.workers && t.q.workers[w].pc.Abandoning? then Some(t.q.workers[w].pc.id) else None
    case _ => None
  }

  function ReaperAfter(t: Timed, a: Tact): Reaper
  {
    match a
    case TickStart => Expiring(t.now, Overdue(t.q.store, Unix(t.now)))
    case TickExpire(id) => if t.reaper.Expiring? then t.reaper.(ids := t.reaper.ids - {id}) else t.reaper
    case TickScan => if t.reaper.Expiring? then Draining(t.reaper.start, t.q.store.processing.Keys) else t.reaper
    case TickDrain(w) => if t.reaper.Draining? then t.reaper.(todo := t.reaper.todo - {w}) else t.reaper
    case TickEnd => Asleep
    case _ => t.reaper
  }

  function TDo(c: Config, t: Timed, a: Tact): Timed
    requires TCan(c, t, a)
  {
    Timed(
      Queued(c, t, a),
      if a.Wait? then t.now + a.d else t.now,
      if a.Hire? then t.used + {a.w} else t.used,
      if a.Beat? then t.beatAt[a.w := t.now] else t.beatAt,
      if a.Compute? then t.stamp[a.w := t.now]
      else if a.Loop? && a.act.GateOpen? then t.stamp - {a.w}
      else t.stamp,
      if a.TickEnd? && t.reaper.Draining? then t.reaper.start else t.tickAt,
      ReaperAfter(t, a),
      Blamed(t, Culprit(t, a)))
  }

  function TRun(c: Config, trace: seq<Tact>): Option<Timed>
    decreases |trace|
  {
    if trace == [] then Some(DAWN)
    else
      var before := TRun(c, trace[..|trace| - 1]);
      var a := trace[|trace| - 1];
      if before.Some? && TCan(c, before.value, a) then Some(TDo(c, before.value, a)) else None
  }

  // ---- whole seconds ----

  lemma UnixShift(b: int, k: int)
    ensures Unix(b + 1000 * k) == Unix(b) + k
  {
  }

  lemma UnixMono(a: int, b: int)
    requires a <= b
    ensures Unix(a) <= Unix(b)
  {
  }

  // ---- the clocks ----

  ghost predicate Clocks(c: Config, t: Timed) {
    && t.tickAt <= t.now <= t.tickAt + 1000 * c.interval
    && (!t.reaper.Asleep? ==> t.tickAt <= t.reaper.start <= t.now)
    && (forall w :: w in t.q.workers ==> w in t.used)
    && (forall w :: w in t.beatAt ==> w in t.used && t.beatAt[w] <= t.now)
    && (forall w :: w in t.q.workers && w in t.beatAt ==>
          w in t.q.store.alive && t.now <= t.beatAt[w] + 1000 * c.heartbeat)
    && (forall w :: w in t.q.store.alive ==> w in t.beatAt && t.now <= t.beatAt[w] + 2000 * c.heartbeat)
    && (forall w :: w in t.q.workers && w in t.stamp && (t.q.workers[w].pc.Gated? || t.q.workers[w].pc.Added?) ==>
          t.stamp[w] <= t.now <= t.stamp[w] + 1000 * c.grace)
    && (forall w :: w in t.q.workers && t.q.workers[w].pc.Added? ==> w in t.stamp)
  }

  lemma ExecAlive(max: int, s: Store, c: Command)
    requires c.Move? ==> s.ready != []
    ensures Exec(max, s, c).alive ==
            if c.SetAlive? then s.alive + {c.w} else if c.LapseKey? then s.alive - {c.w} else s.alive
  {
    if c.DrainScript? {
      DrainedFrame(s, ListOf(s, c.w), max);
    }
  }

  lemma LivenessCommands(t: Timed, c: Config, a: Tact)
    requires TCan(c, t, a) && TimedAction(a).Some?
    ensures var cmd := CommandOf(t.q, TimedAction(a).value);
            && !cmd.SetAlive? && (cmd.LapseKey? <==> a.Fade?) && (a.Fade? ==> cmd == LapseKey(a.w))
            && (cmd.Move? ==> t.q.store.ready != [])
  {
  }

  lemma AliveAfter(c: Config, t: Timed, a: Tact)
    requires TCan(c, t, a)
    ensures var s := t.q.store;
            Queued(c, t, a).store.alive ==
            if a.Beat? then s.alive + {a.w} else if a.Fade? then s.alive - {a.w} else s.alive
  {
    if TimedAction(a).Some? {
      LivenessCommands(t, c, a);
      ExecAlive(c.max, t.q.store, CommandOf(t.q, TimedAction(a).value));
    }
  }

  lemma WorkersQueued(c: Config, t: Timed, a: Tact, w: WorkerId)
    requires TCan(c, t, a)
    ensures var now := Queued(c, t, a).workers;
            && (w in now ==> w in t.q.workers || a == Hire(w))
            && (w in now && !(a.Loop? && a.w == w) && a != Hire(w) ==> now[w] == t.q.workers[w])
            && (a == Hire(w) ==> w in now && now[w] == Worker(Idle, None, None))
            && (w in now && a.Loop? && a.w == w ==> now[w] == WorkerNext(t.q.store, w, t.q.workers[w], a.act))
            && (w in t.q.workers && a != Die(w) ==> w in now)
  {
  }

  lemma ApproachesInflight(s: Store, w: WorkerId, k: Worker, act: WorkerAct)
    requires WorkerCan(s, w, k, act) && Succeeds(act)
    ensures WorkerNext(s, w, k, act).pc.Gated? ==> act.GateOpen?
    ensures WorkerNext(s, w, k, act).pc.Added? ==> act.AddInflight? && k.pc.Gated?
  {
  }

  lemma BeatClock(c: Config, t: Timed, a: Tact, w: WorkerId)
    requires IsSafe(c) && Clocks(c, t) && TCan(c, t, a) && w in Queued(c, t, a).workers
    ensures var u := TDo(c, t, a);
            w in u.used && (w in u.beatAt ==> w in u.q.store.alive && u.now <= u.beatAt[w] + 1000 * c.heartbeat)
  {
    hide Queued, Succeeds, WorkerCan, WorkerNext, Culprit, Blamed, ReaperAfter;
    AliveAfter(c, t, a);
    WorkersQueued(c, t, a, w);
  }

  lemma StampClock(c: Config, t: Timed, a: Tact, w: WorkerId)
    requires IsSafe(c) && Clocks(c, t) && TCan(c, t, a) && w in Queued(c, t, a).workers
    ensures var u := TDo(c, t, a);
            var pc := u.q.workers[w].pc;
            && (pc.Added? ==> w in u.stamp)
            && ((pc.Gated? || pc.Added?) && w in u.stamp ==> u.stamp[w] <= u.now <= u.stamp[w] + 1000 * c.grace)
  {
    hide Queued, Succeeds, WorkerCan, WorkerNext, Culprit, Blamed, ReaperAfter;
    WorkersQueued(c, t, a, w);
    if a.Loop? && a.w == w {
      LoopCan(c, t, a);
      ApproachesInflight(t.q.store, w, t.q.workers[w], a.act);
    }
  }

  lemma LoopCan(c: Config, t: Timed, a: Tact)
    requires TCan(c, t, a) && a.Loop?
    ensures a.w in t.q.workers && WorkerCan(t.q.store, a.w, t.q.workers[a.w], a.act) && Succeeds(a.act)
  {
    hide WorkerCan, Succeeds;
  }

  lemma ClocksKept(c: Config, t: Timed, a: Tact)
    requires IsSafe(c) && Clocks(c, t)
    requires TCan(c, t, a)
    ensures Clocks(c, TDo(c, t, a))
  {
    hide Queued, Succeeds, WorkerCan, WorkerNext, Can, Culprit, Blamed;
    var u := TDo(c, t, a);
    AliveAfter(c, t, a);
    forall w | w in u.q.workers
      ensures w in u.used
      ensures w in u.beatAt ==> w in u.q.store.alive && u.now <= u.beatAt[w] + 1000 * c.heartbeat
      ensures u.q.workers[w].pc.Added? ==> w in u.stamp
      ensures (u.q.workers[w].pc.Gated? || u.q.workers[w].pc.Added?) && w in u.stamp ==>
                u.stamp[w] <= u.now <= u.stamp[w] + 1000 * c.grace
    {
      BeatClock(c, t, a, w);
      StampClock(c, t, a, w);
    }
  }
}
