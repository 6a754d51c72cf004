/**
  The file handshake in one worker pod: the framework's runStage, the shim's poll loop and the
  stage children it spawns share the task directories. A step is one file-system call or one
  process event, and steps of the three processes interleave freely.
*/
module Handshake {
  import opened Lists
  import opened Keyspace

  /** What a reader finds in a file: the whole envelope, or a write in progress. */
  datatype Blob = Partial | Whole(env: Envelope)

  /** tasks/<id>: in/order.json, in/order.json.tmp and the three marker files. */
  datatype Dir = Dir(order: Option<Blob>, tmp: Option<Blob>, ready: bool, done: bool, failed: bool)

  const FRESH := Dir(None, None, false, false, false)

  /** Where runStage stands; Cleaning is the RemoveAll that follows an ack. */
  datatype Framework =
    | Off
    | Resetting(id: TaskId, env: Envelope)
    | Cleared(id: TaskId, env: Envelope)
    | Made(id: TaskId, env: Envelope)
    | Filling(id: TaskId, env: Envelope)
    | Filled(id: TaskId, env: Envelope)
    | Placed(id: TaskId, env: Envelope)
    | Polling(id: TaskId, env: Envelope)
    | Peeking(id: TaskId, env: Envelope)         // error.failed not there, response.done next
    | Verdict(id: TaskId, env: Envelope, success: bool)
    | Cleaning(id: TaskId)

  /** A stage child, from spawn to the marker written on its close event. */
  datatype Child = Spawned | HasRead(input: Option<Blob>) | Exited(ok: bool) | Closing(ok: bool)

  /** isEligible tests three markers one after the other. */
  datatype Probe =
    | NoProbe | WantReady(id: TaskId) | WantNoDone(id: TaskId) | WantNoFailed(id: TaskId) | Starting(id: TaskId)

  /** children.Keys is the shim's inProgress set. */
  datatype Pod = Pod(dirs: map<TaskId, Dir>, framework: Framework, probe: Probe, children: map<TaskId, Child>)

  const EMPTY_POD := Pod(map[], Off, NoProbe, map[])

  datatype File = OrderFile | TmpFile | ReadyFile | DoneFile | FailedFile

  datatype PodAct =
    // the framework
    | Begin(id: TaskId, env: Envelope)           // runStage is called
    | Unlink(file: File) | RemoveDir             // RemoveAll, one entry at a time
    | MakeDirs
    | OpenTmp | FinishTmp | Rename               // writeFileAtomic
    | TouchReady
    | PeekFailed | PeekDone                      // one round of the poll
    | Clean(id: TaskId)                          // RemoveAll after the ack
    | Leave                                      // runStage returns, or the process dies
    // the shim
    | Look(id: TaskId) | SeeReady | SeeNoDone | SeeNoFailed
    | Spawn                                      // mkdir out, then spawn
    | SpawnFailed                                // mkdir out fails
    | ChildError(id: TaskId)                     // the error event
    | ChildClose(id: TaskId) | ChildMark(id: TaskId)
    | ShimRestart
    // a stage child
    | ChildRead(id: TaskId)
    | ChildExit(id: TaskId, input: Option<Blob>, ok: bool)

  function Without(d: Dir, f: File): Dir {
    match f
    case OrderFile => d.(order := None)
    case TmpFile => d.(tmp := None)
    case ReadyFile => d.(ready := false)
    case DoneFile => d.(done := false)
    case FailedFile => d.(failed := false)
  }

  predicate Removing(f: Framework) {
    f.Resetting? || f.Cleaning?
  }

  predicate PodCan(p: Pod, a: PodAct) {
    var f := p.framework;
    match a
    case Begin(_, _) => f.Off?
    case Unlink(_) => Removing(f) && f.id in p.dirs
    case RemoveDir => Removing(f) && (f.id in p.dirs ==> p.dirs[f.id] == FRESH)
    case MakeDirs => f.Cleared?
    case OpenTmp => f.Made? && f.id in p.dirs
    case FinishTmp => f.Filling? && f.id in p.dirs
    case Rename => f.Filled? && f.id in p.dirs && p.dirs[f.id].tmp.Some?
    case TouchReady => f.Placed? && f.id in p.dirs
    case PeekFailed => f.Polling?
    case PeekDone => f.Peeking?
    case Clean(_) => f.Off?
    case Leave => true
    case Look(id) => p.probe.NoProbe? && id in p.dirs && id !in p.children
    case SeeReady => p.probe.WantReady?
    case SeeNoDone => p.probe.WantNoDone?
    case SeeNoFailed => p.probe.WantNoFailed?
    case Spawn => p.probe.Starting?
    case SpawnFailed => p.probe.Starting?
    case ChildError(id) => id in p.children && p.children[id].Spawned?
    case ChildClose(id) => id in p.children && p.children[id].Exited?
    case ChildMark(id) => id in p.children && p.children[id].Closing?
    case ShimRestart => true
    case ChildRead(id) => id in p.children && p.children[id].Spawned?
    case ChildExit(id, input, ok) =>
      && id in p.children && p.children[id] == HasRead(input)
      && (ok ==> input.Some? && input.value.Whole? && input.value.env.acceptable)
  }

  /** The marker, if the directory is there to put it in. */
  function Marked(dirs: map<TaskId, Dir>, id: TaskId, ok: bool): map<TaskId, Dir> {
    if id !in dirs then dirs
    else dirs[id := if ok then dirs[id].(done := true) else dirs[id].(failed := true)]
  }

  /** Whether a marker file is there. */
  predicate Shows(p: Pod, id: TaskId, f: File)
    requires f.ReadyFile? || f.DoneFile? || f.FailedFile?
  {
    && id in p.dirs
    && match f
       case ReadyFile => p.dirs[id].ready
       case DoneFile => p.dirs[id].done
       case FailedFile => p.dirs[id].failed
  }

  function DirsAfter(p: Pod, a: PodAct): map<TaskId, Dir>
    requires PodCan(p, a)
  {
    var f, dirs := p.framework, p.dirs;
    match a
    case Unlink(file) => dirs[f.id := Without(dirs[f.id], file)]
    case RemoveDir => dirs - {f.id}
    case MakeDirs => if f.id in dirs then dirs else dirs[f.id := FRESH]
    case OpenTmp => dirs[f.id := dirs[f.id].(tmp := Some(Partial))]
    case FinishTmp => dirs[f.id := dirs[f.id].(tmp := Some(Whole(f.env)))]
    case Rename => dirs[f.id := dirs[f.id].(order := dirs[f.id].tmp, tmp := None)]
    case TouchReady => dirs[f.id := dirs[f.id].(ready := true)]
    case Spawn =>
      // mkdirSync is recursive: it re-creates a directory the framework has just removed.
      if p.probe.id in dirs then dirs else dirs[p.probe.id := FRESH]
    case SpawnFailed => Marked(dirs, p.probe.id, false)
    case ChildError(id) => Marked(dirs, id, false)
    case ChildMark(id) => Marked(dirs, id, p.children[id].ok)
    case _ => dirs
  }

  function FrameworkAfter(p: Pod, a: PodAct): Framework
    requires PodCan(p, a)
  {
    var f := p.framework;
    match a
    case Begin(id, env) => Resetting(id, env)
    case RemoveDir => if f.Resetting? then Cleared(f.id, f.env) else f
    case MakeDirs => Made(f.id, f.env)
    case OpenTmp => Filling(f.id, f.env)
    case FinishTmp => Filled(f.id, f.env)
    case Rename => Placed(f.id, f.env)
    case TouchReady => Polling(f.id, f.env)
    case PeekFailed => if Shows(p, f.id, FailedFile) then Verdict(f.id, f.env, false) else Peeking(f.id, f.env)
    case PeekDone => if Shows(p, f.id, DoneFile) then Verdict(f.id, f.env, true) else Polling(f.id, f.env)
    case Clean(id) => Cleaning(id)
    case Leave => Off
    case _ => f
  }

  function ProbeAfter(p: Pod, a: PodAct): Probe
    requires PodCan(p, a)
  {
    match a
    case Look(id) => WantReady(id)
    case SeeReady => if Shows(p, p.probe.id, ReadyFile) then WantNoDone(p.probe.id) else NoProbe
    case SeeNoDone => if Shows(p, p.probe.id, DoneFile) then NoProbe else WantNoFailed(p.probe.id)
    case SeeNoFailed => if Shows(p, p.probe.id, FailedFile) then NoProbe else Starting(p.probe.id)
    case Spawn => NoProbe
    case SpawnFailed => NoProbe
    case ShimRestart => NoProbe
    case _ => p.probe
  }

  function ChildrenAfter(p: Pod, a: PodAct): map<TaskId, Child>
    requires PodCan(p, a)
  {
    match a
    case Spawn => p.children[p.probe.id := Spawned]
    case ChildError(id) => p.children - {id}
    case ChildRead(id) => p.children[id := HasRead(if id in p.dirs then p.dirs[id].order else None)]
    case ChildExit(id, _, ok) => p.children[id := Exited(ok)]
    case ChildClose(id) => if id in p.dirs then p.children[id := Closing(p.children[id].ok)] else p.children - {id}
    case ChildMark(id) => p.children - {id}
    case ShimRestart => map[]
    case _ => p.children
  }

  function PodDo(p: Pod, a: PodAct): Pod
    requires PodCan(p, a)
  {
    Pod(DirsAfter(p, a), FrameworkAfter(p, a), ProbeAfter(p, a), ChildrenAfter(p, a))
  }

  /** The pod a sequence of steps leads to, or None when a step is not enabled. */
  function PodFrom(start: Pod, trace: seq<PodAct>): Option<Pod>
    decreases |trace|
  {
    if trace == [] then Some(start)
    else
      var before := PodFrom(start, trace[..|trace| - 1]);
      var a := trace[|trace| - 1];
      if before.Some? && PodCan(before.value, a) then Some(PodDo(before.value, a)) else None
  }

  function PodRun(trace: seq<PodAct>): Option<Pod> {
    PodFrom(EMPTY_POD, trace)
  }

  // ---- soundness of the success marker ----

  /** accepted: the (task, envelope) pairs for which a child that read exactly this envelope exited 0. */
  function AcceptedBy(a: PodAct): set<(TaskId, Envelope)> {
    if a.ChildExit? && a.ok && a.input.Some? && a.input.value.Whole? then {(a.id, a.input.value.env)} else {}
  }

  predicate CarriesEnv(f: Framework) {
    !f.Off? && !f.Cleaning?
  }

  predicate IsBlobOf(payload: map<TaskId, Envelope>, id: TaskId, b: Option<Blob>) {
    b.Some? ==> id in payload && b.value == Whole(payload[id])
  }

  predicate IsAccepted(payload: map<TaskId, Envelope>, accepted: set<(TaskId, Envelope)>, id: TaskId) {
    id in payload && (id, payload[id]) in accepted
  }

  /**
    payload gives the one envelope ever handed to runStage for each id. No file or child ever holds
    another, and every trace of success goes back to a child that read it whole and exited 0.
  */
  ghost predicate Sound(p: Pod, payload: map<TaskId, Envelope>, accepted: set<(TaskId, Envelope)>) {
    var f := p.framework;
    && (CarriesEnv(f) ==> f.id in payload && payload[f.id] == f.env)
    && (f.Filled? && f.id in p.dirs ==> p.dirs[f.id].tmp == None || p.dirs[f.id].tmp == Some(Whole(f.env)))
    && (f.Verdict? && f.success ==> IsAccepted(payload, accepted, f.id))
    && (forall id :: id in p.dirs ==> IsBlobOf(payload, id, p.dirs[id].order))
    && (forall id :: id in p.dirs && p.dirs[id].done ==> IsAccepted(payload, accepted, id))
    && (forall id :: id in p.children && p.children[id].HasRead? ==> IsBlobOf(payload, id, p.children[id].input))
    && (forall id :: id in p.children && (p.children[id].Exited? || p.children[id].Closing?) && p.children[id].ok ==>
          IsAccepted(payload, accepted, id))
  }

  lemma SoundOrders(p: Pod, a: PodAct, payload: map<TaskId, Envelope>, accepted: set<(TaskId, Envelope)>, id: TaskId)
    requires PodCan(p, a) && Sound(p, payload, accepted) && id in DirsAfter(p, a)
    ensures IsBlobOf(payload, id, DirsAfter(p, a)[id].order)
  {
    hide IsAccepted;
  }

  lemma SoundMarks(p: Pod, a: PodAct, payload: map<TaskId, Envelope>, accepted: set<(TaskId, Envelope)>, id: TaskId)
    requires PodCan(p, a) && Sound(p, payload, accepted) && id in DirsAfter(p, a)
    ensures DirsAfter(p, a)[id].done ==> IsAccepted(payload, accepted, id)
  {
    hide IsAccepted, IsBlobOf;
  }

  lemma SoundChildren(p: Pod, a: PodAct, payload: map<TaskId, Envelope>, accepted: set<(TaskId, Envelope)>, id: TaskId)
    requires PodCan(p, a) && Sound(p, payload, accepted) && id in ChildrenAfter(p, a)
    ensures var c := ChildrenAfter(p, a)[id];
            && (c.HasRead? ==> IsBlobOf(payload, id, c.input))
            && ((c.Exited? || c.Closing?) && c.ok ==> IsAccepted(payload, accepted + AcceptedBy(a), id))
  {
  }

  /** Every step of the three processes keeps soundness, as long as runStage is given the one envelope. */
  lemma SoundKept(p: Pod, a: PodAct, payload: map<TaskId, Envelope>, accepted: set<(TaskId, Envelope)>)
    requires PodCan(p, a) && Sound(p, payload, accepted)
    requires a.Begin? ==> a.id in payload && payload[a.id] == a.env
    ensures Sound(PodDo(p, a), payload, accepted + AcceptedBy(a))
  {
    var q := PodDo(p, a);
    forall id | id in q.dirs
      ensures IsBlobOf(payload, id, q.dirs[id].order)
      ensures q.dirs[id].done ==> IsAccepted(payload, accepted + AcceptedBy(a), id)
    {
      SoundOrders(p, a, payload, accepted, id);
      SoundMarks(p, a, payload, accepted, id);
    }
    forall id | id in q.children
      ensures var c := q.children[id];
              && (c.HasRead? ==> IsBlobOf(payload, id, c.input))
              && ((c.Exited? || c.Closing?) && c.ok ==> IsAccepted(payload, accepted + AcceptedBy(a), id))
    {
      SoundChildren(p, a, payload, accepted, id);
    }
  }

  // ---- rejection is not sound ----

  /** The trace hands runStage nothing but env, for task 1. */
  predicate AllBegin(trace: seq<PodAct>, env: Envelope) {
    forall a :: a in trace && a.Begin? ==> a == Begin(1, env)
  }

  lemma PodStep(trace: seq<PodAct>, p: Pod, a: PodAct, env: Envelope) returns (longer: seq<PodAct>, q: Pod)
    requires PodRun(trace) == Some(p) && PodCan(p, a)
    requires AllBegin(trace, env) && (a.Begin? ==> a == Begin(1, env))
    ensures q == PodDo(p, a) && PodRun(longer) == Some(q) && AllBegin(longer, env)
  {
    longer, q := trace + [a], PodDo(p, a);
    assert longer[..|trace|] == trace;
  }

  function Only(d: Dir, f: Framework, probe: Probe, children: map<TaskId, Child>): Pod {
    Pod(map[1 := d], f, probe, children)
  }

  /** An attempt prepares its directory. */
  lemma StalePrepares(env: Envelope) returns (t: seq<PodAct>, p: Pod)
    ensures PodRun(t) == Some(p) && AllBegin(t, env)
    ensures p == Only(Dir(Some(Whole(env)), None, true, false, false), Polling(1, env), NoProbe, map[])
  {
    t, p := [], EMPTY_POD;
    assert PodRun(t) == Some(p);
    hide PodRun, AllBegin;
    t, p := PodStep(t, p, Begin(1, env), env);
    t, p := PodStep(t, p, RemoveDir, env);
    t, p := PodStep(t, p, MakeDirs, env);
    assert p.dirs == map[1 := FRESH];
    t, p := StaleRequests(t, p, env);
  }

  lemma StaleRequests(trace: seq<PodAct>, start: Pod, env: Envelope) returns (t: seq<PodAct>, p: Pod)
    requires PodRun(trace) == Some(start) && AllBegin(trace, env)
    requires start == Only(FRESH, Made(1, env), NoProbe, map[])
    ensures PodRun(t) == Some(p) && AllBegin(t, env)
    ensures p == Only(Dir(Some(Whole(env)), None, true, false, false), Polling(1, env), NoProbe, map[])
  {
    hide PodRun, AllBegin;
    t, p := PodStep(trace, start, OpenTmp, env);
    t, p := PodStep(t, p, FinishTmp, env);
    t, p := PodStep(t, p, Rename, env);
    t, p := PodStep(t, p, TouchReady, env);
    assert p.dirs == map[1 := Dir(Some(Whole(env)), None, true, false, false)];
  }

  /** The shim spawns a child for it, and the framework gives up. */
  lemma StaleLooks(env: Envelope) returns (t: seq<PodAct>, p: Pod)
    ensures PodRun(t) == Some(p) && AllBegin(t, env)
    ensures p == Only(Dir(Some(Whole(env)), None, true, false, false), Polling(1, env), Starting(1), map[])
  {
    hide PodRun, AllBegin;
    t, p := StalePrepares(env);
    t, p := PodStep(t, p, Look(1), env);
    t, p := PodStep(t, p, SeeReady, env);
    t, p := PodStep(t, p, SeeNoDone, env);
    t, p := PodStep(t, p, SeeNoFailed, env);
  }

  lemma StaleSpawns(env: Envelope) returns (t: seq<PodAct>, p: Pod)
    ensures PodRun(t) == Some(p) && AllBegin(t, env)
    ensures p == Only(Dir(Some(Whole(env)), None, true, false, false), Off, NoProbe, map[1 := Spawned])
  {
    hide PodRun, AllBegin;
    t, p := StaleLooks(env);
    t, p := PodStep(t, p, Spawn, env);
    t, p := PodStep(t, p, Leave, env);
  }

  /** The second attempt resets the directory while that child reads. */
  lemma StaleReads(env: Envelope) returns (t: seq<PodAct>, p: Pod)
    ensures PodRun(t) == Some(p) && AllBegin(t, env)
    ensures p == Only(FRESH, Resetting(1, env), NoProbe, map[1 := Exited(false)])
  {
    hide PodRun, AllBegin;
    t, p := StaleSpawns(env);
    t, p := PodStep(t, p, Begin(1, env), env);
    t, p := PodStep(t, p, Unlink(OrderFile), env);
    t, p := PodStep(t, p, ChildRead(1), env);
    t, p := PodStep(t, p, ChildExit(1, None, false), env);
    t, p := PodStep(t, p, Unlink(ReadyFile), env);
    assert p.dirs == map[1 := FRESH] && p.children == map[1 := Exited(false)];
  }

  /** Its marker lands in the directory of the second attempt. */
  lemma StaleMarks(env: Envelope) returns (t: seq<PodAct>, p: Pod)
    ensures PodRun(t) == Some(p) && AllBegin(t, env)
    ensures p == Only(FRESH.(failed := true), Made(1, env), NoProbe, map[])
  {
    t, p := StaleReads(env);
    hide PodRun, AllBegin;
    t, p := PodStep(t, p, RemoveDir, env);
    t, p := PodStep(t, p, MakeDirs, env);
    t, p := PodStep(t, p, ChildClose(1), env);
    t, p := PodStep(t, p, ChildMark(1), env);
    assert p.dirs == map[1 := FRESH.(failed := true)] && p.children == map[];
  }

  /**
    Only the success direction is sound. A child outlives a timed-out attempt; the next attempt's
    reset takes order.json from under it, it exits with an error, and its marker lands in the new
    directory: runStage reports a rejection for an envelope the stage would accept.
  */
  lemma SpuriousRejection(env: Envelope) returns (t: seq<PodAct>, p: Pod)
    requires env.acceptable
    ensures PodRun(t) == Some(p) && AllBegin(t, env)
    ensures p.framework == Verdict(1, env, false)
  {
    t, p := StaleMarks(env);
    hide PodRun, AllBegin;
    t, p := PodStep(t, p, OpenTmp, env);
    t, p := PodStep(t, p, FinishTmp, env);
    t, p := PodStep(t, p, Rename, env);
    t, p := PodStep(t, p, TouchReady, env);
    t, p := PodStep(t, p, PeekFailed, env);
  }
}
