/**
  When runStage reports a rejection: exactly what may be left of the task in the pod, when an attempt
  begins, for a reported rejection to mean that a child read the envelope and exited non-zero.
*/
module Rejection {
  import opened Lists
  import opened Keyspace
  import opened Handshake

  // ---- what an attempt may find ----

  function DirOf(p: Pod, id: TaskId): Option<Dir> {
    if id in p.dirs then Some(p.dirs[id]) else None
  }

  function ChildOf(p: Pod, id: TaskId): Option<Child> {
    if id in p.children then Some(p.children[id]) else None
  }

  /** No request of an earlier attempt stands. */
  predicate NoRequest(p: Pod, id: TaskId) {
    id in p.dirs ==> !p.dirs[id].ready
  }

  /** A child left over has read this very envelope, or has exited 0. */
  predicate KnowsBetter(p: Pod, id: TaskId, env: Envelope, refused: bool) {
    id in p.children ==>
      match p.children[id]
      case Spawned => false
      case HasRead(input) => input == Some(Whole(env))
      case Exited(ok) => ok || refused
      case Closing(ok) => ok || refused
  }

  /** The shim has not seen a request yet. */
  predicate NothingSeen(p: Pod, id: TaskId) {
    p.probe.NoProbe? || p.probe.id != id || p.probe.WantReady?
  }

  predicate Harmless(p: Pod, id: TaskId, env: Envelope) {
    NoRequest(p, id) && KnowsBetter(p, id, env, false) && NothingSeen(p, id)
  }

  // ---- undisturbed attempts ----

  /** The steps that end the attempt, or by which the shim marks a failure of its own. */
  predicate Disturbs(p: Pod, a: PodAct, id: TaskId) {
    a.Begin? || a.Leave? || FailsToSpawn(p, a, id) || a == ChildError(id)
  }

  predicate FailsToSpawn(p: Pod, a: PodAct, id: TaskId) {
    a.SpawnFailed? && p.probe == Starting(id)
  }

  /** No step disturbs the attempt, other than those excepted. */
  predicate Undisturbed(start: Pod, acts: seq<PodAct>, id: TaskId, except: set<PodAct>)
    decreases |acts|
  {
    acts != [] ==>
      var before := acts[..|acts| - 1];
      Undisturbed(start, before, id, except)
      && (PodFrom(start, before).Some? && acts[|acts| - 1] !in except ==>
            !Disturbs(PodFrom(start, before).value, acts[|acts| - 1], id))
  }

  /** A child of the task read the whole envelope and exited non-zero. */
  function Refusal(id: TaskId, env: Envelope): PodAct {
    ChildExit(id, Some(Whole(env)), false)
  }

  /** The directory of an attempt that is being prepared: nothing in it tells the shim to start. */
  predicate Preparing(p: Pod, id: TaskId, env: Envelope, refused: bool) {
    && id in p.dirs && !p.dirs[id].ready && (p.dirs[id].failed ==> refused)
    && KnowsBetter(p, id, env, refused) && NothingSeen(p, id)
  }

  /** The envelope is in place; children read it, and a mark of failure goes back to a refusal. */
  predicate Awaited(p: Pod, id: TaskId, env: Envelope, refused: bool) {
    && id in p.dirs && p.dirs[id].order == Some(Whole(env)) && (p.dirs[id].failed ==> refused)
    && (KnowsBetter(p, id, env, refused) || p.children[id].Spawned?)
  }

  /** What holds of the pod during an undisturbed attempt; refused: a child has refused the envelope. */
  predicate Genuine(p: Pod, id: TaskId, env: Envelope, refused: bool) {
    && CarriesEnv(p.framework) && p.framework.id == id && p.framework.env == env
    && match p.framework
       case Resetting(_, _) => NoRequest(p, id) && KnowsBetter(p, id, env, refused) && NothingSeen(p, id)
       case Cleared(_, _) => id !in p.dirs && KnowsBetter(p, id, env, refused) && NothingSeen(p, id)
       case Made(_, _) => Preparing(p, id, env, refused)
       case Filling(_, _) => Preparing(p, id, env, refused)
       case Filled(_, _) => Preparing(p, id, env, refused) && p.dirs[id].tmp == Some(Whole(env))
       case Placed(_, _) => Preparing(p, id, env, refused) && p.dirs[id].order == Some(Whole(env))
       case Polling(_, _) => Awaited(p, id, env, refused)
       case Peeking(_, _) => Awaited(p, id, env, refused)
       case Verdict(_, _, success) => Awaited(p, id, env, refused) && (success || refused)
       case Off => false
       case Cleaning(_) => false
  }

  lemma GenuineByFramework(p: Pod, a: PodAct, id: TaskId, env: Envelope, refused: bool)
    requires PodCan(p, a) && Genuine(p, id, env, refused) && !Disturbs(p, a, id)
    requires FrameworkAfter(p, a) != p.framework || a.Unlink?
    ensures Genuine(PodDo(p, a), id, env, refused)
  {
  }

  predicate IsChildStep(a: PodAct) {
    a.ChildRead? || a.ChildExit? || a.ChildClose? || a.ChildMark? || a.ChildError?
  }

  lemma GenuineByChild(p: Pod, a: PodAct, id: TaskId, env: Envelope, refused: bool)
    requires PodCan(p, a) && Genuine(p, id, env, refused) && !Disturbs(p, a, id)
    requires IsChildStep(a) && !a.ChildMark? && !a.ChildError?
    ensures Genuine(PodDo(p, a), id, env, refused || a == Refusal(id, env))
  {
    assert PodDo(p, a).dirs == p.dirs && PodDo(p, a).framework == p.framework && PodDo(p, a).probe == p.probe;
  }

  lemma GenuineByMark(p: Pod, a: PodAct, id: TaskId, env: Envelope, refused: bool)
    requires PodCan(p, a) && Genuine(p, id, env, refused) && (a.ChildMark? || (a.ChildError? && a.id != id))
    ensures Genuine(PodDo(p, a), id, env, refused)
  {
  }

  lemma GenuineByShim(p: Pod, a: PodAct, id: TaskId, env: Envelope, refused: bool)
    requires PodCan(p, a) && Genuine(p, id, env, refused) && !Disturbs(p, a, id)
    requires FrameworkAfter(p, a) == p.framework && !a.Unlink? && !IsChildStep(a)
    ensures Genuine(PodDo(p, a), id, env, refused)
  {
  }

  lemma OtherFails(p: Pod, a: PodAct, id: TaskId)
    requires a.ChildError? && !Disturbs(p, a, id)
    ensures a.id != id
  {
  }

  lemma StillRefused(p: Pod, id: TaskId, env: Envelope, refused: bool)
    requires Genuine(p, id, env, refused)
    ensures Genuine(p, id, env, true)
  {
  }

  /** Every step of the three processes keeps it. */
  lemma GenuineKept(p: Pod, a: PodAct, id: TaskId, env: Envelope, refused: bool)
    requires PodCan(p, a) && Genuine(p, id, env, refused) && !Disturbs(p, a, id)
    ensures Genuine(PodDo(p, a), id, env, refused || a == Refusal(id, env))
  {
    hide Genuine, PodCan, PodDo, Disturbs;
    if FrameworkAfter(p, a) != p.framework || a.Unlink? {
      GenuineByFramework(p, a, id, env, refused);
      StillRefused(PodDo(p, a), id, env, refused);
    } else if a.ChildMark? || a.ChildError? {
      if a.ChildError? {
        OtherFails(p, a, id);
      }
      GenuineByMark(p, a, id, env, refused);
      StillRefused(PodDo(p, a), id, env, refused);
    } else if IsChildStep(a) {
      GenuineByChild(p, a, id, env, refused);
    } else {
      GenuineByShim(p, a, id, env, refused);
    }
  }

  /** In every undisturbed attempt that starts harmless. */
  lemma {:induction false} AlwaysGenuine(start: Pod, acts: seq<PodAct>, id: TaskId, env: Envelope)
    requires Genuine(start, id, env, false)
    requires PodFrom(start, acts).Some? && Undisturbed(start, acts, id, {})
    ensures Genuine(PodFrom(start, acts).value, id, env, Refusal(id, env) in acts)
    decreases |acts|
  {
    hide Genuine, Disturbs, PodCan, PodDo;
    if acts != [] {
      var before, a := acts[..|acts| - 1], acts[|acts| - 1];
      assert acts == before + [a];
      AlwaysGenuine(start, before, id, env);
      GenuineKept(PodFrom(start, before).value, a, id, env, Refusal(id, env) in before);
    }
  }

  // ---- attempts that are misled ----

  /** An attempt has come from start to p without a refusal, undisturbed but for the steps excepted. */
  ghost predicate Going(start: Pod, acts: seq<PodAct>, p: Pod, id: TaskId, env: Envelope, except: set<PodAct>) {
    && PodFrom(start, acts) == Some(p) && Refusal(id, env) !in acts
    && Undisturbed(start, acts, id, except)
  }

  lemma Begins(start: Pod, id: TaskId, env: Envelope, except: set<PodAct>)
    ensures Going(start, [], start, id, env, except)
  {
  }

  lemma Go(start: Pod, acts: seq<PodAct>, p: Pod, a: PodAct, id: TaskId, env: Envelope, except: set<PodAct>)
      returns (longer: seq<PodAct>, q: Pod)
    requires Going(start, acts, p, id, env, except) && PodCan(p, a) && a != Refusal(id, env)
    requires a in except || !Disturbs(p, a, id)
    ensures q == PodDo(p, a) && Going(start, longer, q, id, env, except)
  {
    longer, q := acts + [a], PodDo(p, a);
    assert longer[..|acts|] == acts;
  }

  /** What the rest of an attempt depends on. */
  ghost predicate Stands(p: Pod, id: TaskId, f: Framework, d: Option<Dir>, c: Option<Child>, probe: Probe) {
    p.framework == f && DirOf(p, id) == d && ChildOf(p, id) == c && p.probe == probe
  }

  /** RemoveAll on whatever directory there is. */
  lemma Unlinks(start: Pod, trace: seq<PodAct>, from: Pod, id: TaskId, env: Envelope, except: set<PodAct>)
      returns (t: seq<PodAct>, p: Pod)
    requires Going(start, trace, from, id, env, except) && from.framework == Resetting(id, env) && id in from.dirs
    ensures Going(start, t, p, id, env, except)
    ensures p == from.(dirs := from.dirs[id := FRESH])
  {
    hide Going, PodCan, PodDo, Disturbs;
    t, p := UnlinkOne(start, trace, from, OrderFile, id, env, except);
    t, p := UnlinkOne(start, t, p, TmpFile, id, env, except);
    t, p := UnlinkOne(start, t, p, ReadyFile, id, env, except);
    t, p := UnlinkOne(start, t, p, DoneFile, id, env, except);
    t, p := UnlinkOne(start, t, p, FailedFile, id, env, except);
    assert p.dirs == from.dirs[id := FRESH];
  }

  lemma UnlinkOne(start: Pod, trace: seq<PodAct>, from: Pod, f: File, id: TaskId, env: Envelope, except: set<PodAct>)
      returns (t: seq<PodAct>, p: Pod)
    requires Going(start, trace, from, id, env, except) && from.framework == Resetting(id, env) && id in from.dirs
    ensures Going(start, t, p, id, env, except)
    ensures p == from.(dirs := from.dirs[id := Without(from.dirs[id], f)])
  {
    hide Going;
    t, p := Go(start, trace, from, Unlink(f), id, env, except);
  }

  lemma Resets(start: Pod, trace: seq<PodAct>, from: Pod, id: TaskId, env: Envelope, except: set<PodAct>)
      returns (t: seq<PodAct>, p: Pod)
    requires Going(start, trace, from, id, env, except) && from.framework == Resetting(id, env)
    ensures Going(start, t, p, id, env, except)
    ensures Stands(p, id, Made(id, env), Some(FRESH), ChildOf(from, id), from.probe)
  {
    hide Going;
    t, p := trace, from;
    if id in from.dirs {
      t, p := Unlinks(start, trace, from, id, env, except);
    }
    t, p := Go(start, t, p, RemoveDir, id, env, except);
    t, p := Go(start, t, p, MakeDirs, id, env, except);
  }

  /** The shim goes on from what it saw earlier and spawns in the new directory. */
  lemma Spawns(start: Pod, trace: seq<PodAct>, from: Pod, id: TaskId, env: Envelope, except: set<PodAct>)
      returns (t: seq<PodAct>, p: Pod)
    requires Going(start, trace, from, id, env, except)
    requires from.framework == Made(id, env) && DirOf(from, id) == Some(FRESH) && !NothingSeen(from, id)
    ensures Going(start, t, p, id, env, except)
    ensures Stands(p, id, Made(id, env), Some(FRESH), Some(Spawned), NoProbe)
  {
    hide Going;
    t, p := trace, from;
    if p.probe.WantNoDone? {
      t, p := Go(start, t, p, SeeNoDone, id, env, except);
    }
    if p.probe.WantNoFailed? {
      t, p := Go(start, t, p, SeeNoFailed, id, env, except);
    }
    t, p := Go(start, t, p, Spawn, id, env, except);
  }

  /** A child that does not know the envelope exits with an error. */
  lemma Exits(start: Pod, trace: seq<PodAct>, from: Pod, id: TaskId, env: Envelope, except: set<PodAct>)
      returns (t: seq<PodAct>, p: Pod)
    requires Going(start, trace, from, id, env, except)
    requires from.framework == Made(id, env) && DirOf(from, id) == Some(FRESH) && !KnowsBetter(from, id, env, false)
    ensures Going(start, t, p, id, env, except) && p.framework == Made(id, env) && DirOf(p, id) == Some(FRESH)
    ensures ChildOf(p, id) == Some(Exited(false)) || ChildOf(p, id) == Some(Closing(false))
  {
    hide Going;
    t, p := trace, from;
    if p.children[id].Spawned? {
      t, p := Go(start, t, p, ChildRead(id), id, env, except);
      assert ChildOf(p, id) == Some(HasRead(None));
    }
    if p.children[id].HasRead? {
      t, p := Go(start, t, p, ChildExit(id, p.children[id].input, false), id, env, except);
    }
  }

  /** Its mark decides the attempt. */
  lemma Marks(start: Pod, trace: seq<PodAct>, from: Pod, id: TaskId, env: Envelope, except: set<PodAct>)
      returns (t: seq<PodAct>, p: Pod)
    requires Going(start, trace, from, id, env, except)
    requires from.framework == Made(id, env) && DirOf(from, id) == Some(FRESH)
    requires ChildOf(from, id) == Some(Exited(false)) || ChildOf(from, id) == Some(Closing(false))
    ensures Going(start, t, p, id, env, except)
    ensures p.framework == Made(id, env) && DirOf(p, id) == Some(FRESH.(failed := true))
  {
    hide Going;
    t, p := trace, from;
    if p.children[id].Exited? {
      t, p := Go(start, t, p, ChildClose(id), id, env, except);
    }
    assert ChildOf(p, id) == Some(Closing(false)) && DirOf(p, id) == Some(FRESH);
    t, p := Go(start, t, p, ChildMark(id), id, env, except);
  }

  /** The envelope is put in place. */
  lemma Places(start: Pod, trace: seq<PodAct>, from: Pod, id: TaskId, env: Envelope, except: set<PodAct>)
      returns (t: seq<PodAct>, p: Pod)
    requires Going(start, trace, from, id, env, except) && from.framework == Made(id, env) && id in from.dirs
    ensures Going(start, t, p, id, env, except)
    ensures var d := from.dirs[id].(order := Some(Whole(env)), tmp := None);
            p == from.(dirs := from.dirs[id := d], framework := Placed(id, env))
  {
    hide Going;
    t, p := Go(start, trace, from, OpenTmp, id, env, except);
    t, p := Go(start, t, p, FinishTmp, id, env, except);
    t, p := Go(start, t, p, Rename, id, env, except);
    var d := from.dirs[id].(order := Some(Whole(env)), tmp := None);
    assert p.dirs == from.dirs[id := d];
  }

  /** The framework writes its request. */
  lemma Requests(start: Pod, trace: seq<PodAct>, from: Pod, id: TaskId, env: Envelope, except: set<PodAct>)
      returns (t: seq<PodAct>, p: Pod)
    requires Going(start, trace, from, id, env, except) && from.framework == Made(id, env) && id in from.dirs
    ensures Going(start, t, p, id, env, except)
    ensures var d := from.dirs[id].(order := Some(Whole(env)), tmp := None, ready := true);
            p == from.(dirs := from.dirs[id := d], framework := Polling(id, env))
  {
    hide Going;
    t, p := Places(start, trace, from, id, env, except);
    t, p := Go(start, t, p, TouchReady, id, env, except);
    var d := from.dirs[id].(order := Some(Whole(env)), tmp := None, ready := true);
    assert p.dirs == from.dirs[id := d];
  }

  lemma Ends(start: Pod, trace: seq<PodAct>, from: Pod, id: TaskId, env: Envelope, except: set<PodAct>)
      returns (t: seq<PodAct>, p: Pod)
    requires Going(start, trace, from, id, env, except)
    requires from.framework == Made(id, env) && DirOf(from, id) == Some(FRESH.(failed := true))
    ensures Going(start, t, p, id, env, except) && p.framework == Verdict(id, env, false)
  {
    t, p := Requests(start, trace, from, id, env, except);
    hide Going;
    t, p := Go(start, t, p, PeekFailed, id, env, except);
  }

  /** A restarted shim sees the request of the earlier attempt before the reset takes it away. */
  lemma LooksAgain(start: Pod, id: TaskId, env: Envelope) returns (t: seq<PodAct>, p: Pod)
    requires start.framework == Resetting(id, env) && !NoRequest(start, id)
    ensures Going(start, t, p, id, env, {})
    ensures p.framework == Resetting(id, env) && p.probe == WantNoDone(id)
  {
    Begins(start, id, env, {});
    hide Going;
    t, p := Go(start, [], start, ShimRestart, id, env, {});
    t, p := Go(start, t, p, Look(id), id, env, {});
    t, p := Go(start, t, p, SeeReady, id, env, {});
  }

  /** Whatever is left that is not harmless can make the attempt report a rejection that no child made. */
  lemma Misled(p: Pod, id: TaskId, env: Envelope) returns (acts: seq<PodAct>, q: Pod)
    requires PodCan(p, Begin(id, env)) && !Harmless(p, id, env)
    ensures Going(PodDo(p, Begin(id, env)), acts, q, id, env, {}) && q.framework == Verdict(id, env, false)
  {
    var start := PodDo(p, Begin(id, env));
    acts, q := [], start;
    Begins(start, id, env, {});
    hide Going, PodDo, PodCan;
    BeginsAs(p, id, env);
    if KnowsBetter(p, id, env, false) && NothingSeen(p, id) {
      acts, q := LooksAgain(start, id, env);
    }
    var seen := !NothingSeen(q, id);
    acts, q := Resets(start, acts, q, id, env, {});
    if seen {
      acts, q := Spawns(start, acts, q, id, env, {});
    }
    acts, q := Exits(start, acts, q, id, env, {});
    acts, q := Marks(start, acts, q, id, env, {});
    acts, q := Ends(start, acts, q, id, env, {});
  }

  lemma BeginsAs(p: Pod, id: TaskId, env: Envelope)
    requires PodCan(p, Begin(id, env))
    ensures PodDo(p, Begin(id, env)) == p.(framework := Resetting(id, env))
  {
  }

  // ---- the condition ----

  /** Every rejection that an undisturbed attempt from p reports goes back to a child's refusal. */
  ghost predicate RejectsGenuinely(p: Pod, id: TaskId, env: Envelope)
    requires PodCan(p, Begin(id, env))
  {
    forall acts: seq<PodAct> |
      var start := PodDo(p, Begin(id, env));
      && PodFrom(start, acts).Some? && Undisturbed(start, acts, id, {})
      && PodFrom(start, acts).value.framework == Verdict(id, env, false)
      :: Refusal(id, env) in acts
  }

  lemma RejectionIsGenuine(p: Pod, acts: seq<PodAct>, id: TaskId, env: Envelope)
    requires PodCan(p, Begin(id, env)) && Harmless(p, id, env)
    requires var start := PodDo(p, Begin(id, env));
             && PodFrom(start, acts).Some? && Undisturbed(start, acts, id, {})
             && PodFrom(start, acts).value.framework == Verdict(id, env, false)
    ensures Refusal(id, env) in acts
  {
    AlwaysGenuine(PodDo(p, Begin(id, env)), acts, id, env);
  }

  /**
    Main result. The rejections that an undisturbed attempt can report all go back to a child of the
    task that read exactly the envelope and exited non-zero, if and only if the attempt begins with no
    request of an earlier one, with no child but one that has read this envelope or exited 0, and with
    no look of the shim that has got past request.ready.
  */
  lemma RejectionIsGenuineIff(p: Pod, id: TaskId, env: Envelope)
    requires PodCan(p, Begin(id, env))
    ensures RejectsGenuinely(p, id, env) <==> Harmless(p, id, env)
  {
    if Harmless(p, id, env) {
      var start := PodDo(p, Begin(id, env));
      forall acts: seq<PodAct> | PodFrom(start, acts).Some? && Undisturbed(start, acts, id, {})
                                 && PodFrom(start, acts).value.framework == Verdict(id, env, false)
        ensures Refusal(id, env) in acts
      {
        RejectionIsGenuine(p, acts, id, env);
      }
    } else {
      var acts, q := Misled(p, id, env);
    }
  }

  // ---- all of it happens ----

  /** From p, reached by the run before, an attempt at task 1 reports a rejection, and no child has ever refused. */
  ghost predicate Rejects(before: seq<PodAct>, p: Pod, acts: seq<PodAct>, env: Envelope, except: set<PodAct>) {
    && PodRun(before) == Some(p) && Refusal(1, env) !in before && PodCan(p, Begin(1, env))
    && PodFrom(PodDo(p, Begin(1, env)), acts).Some?
    && var q := PodFrom(PodDo(p, Begin(1, env)), acts).value;
       Going(PodDo(p, Begin(1, env)), acts, q, 1, env, except) && q.framework == Verdict(1, env, false)
  }

  /** The steps that separate attempts. */
  function Retry(env: Envelope): set<PodAct> {
    {Begin(1, env), Leave}
  }

  function Full(env: Envelope): Dir {
    Dir(Some(Whole(env)), None, true, false, false)
  }

  /** A first attempt is prepared; the shim has not looked yet. */
  lemma FirstRequest(env: Envelope) returns (t: seq<PodAct>, p: Pod)
    ensures Going(EMPTY_POD, t, p, 1, env, Retry(env)) && p == Only(Full(env), Polling(1, env), NoProbe, map[])
  {
    hide Going, Undisturbed, PodFrom;
    Begins(EMPTY_POD, 1, env, Retry(env));
    t, p := Go(EMPTY_POD, [], EMPTY_POD, Begin(1, env), 1, env, Retry(env));
    t, p := Go(EMPTY_POD, t, p, RemoveDir, 1, env, Retry(env));
    t, p := Go(EMPTY_POD, t, p, MakeDirs, 1, env, Retry(env));
    assert p == Only(FRESH, Made(1, env), NoProbe, map[]);
    t, p := Requests(EMPTY_POD, t, p, 1, env, Retry(env));
    assert p.dirs == map[1 := Full(env)];
  }

  /** The shim makes up its mind to start a stage for task 1. */
  lemma LooksAt(start: Pod, trace: seq<PodAct>, from: Pod, env: Envelope, except: set<PodAct>)
      returns (t: seq<PodAct>, p: Pod)
    requires Going(start, trace, from, 1, env, except) && from == Only(Full(env), Polling(1, env), NoProbe, map[])
    ensures Going(start, t, p, 1, env, except) && p == from.(probe := Starting(1))
  {
    hide Going;
    t, p := Go(start, trace, from, Look(1), 1, env, except);
    t, p := Go(start, t, p, SeeReady, 1, env, except);
    t, p := Go(start, t, p, SeeNoDone, 1, env, except);
    t, p := Go(start, t, p, SeeNoFailed, 1, env, except);
  }

  /** The framework gives up, and a reset is cut short after the request is gone. */
  lemma HalfReset(trace: seq<PodAct>, from: Pod, env: Envelope) returns (t: seq<PodAct>, p: Pod)
    requires Going(EMPTY_POD, trace, from, 1, env, Retry(env))
    requires from.framework == Polling(1, env) && from.dirs == map[1 := Full(env)]
    ensures Going(EMPTY_POD, t, p, 1, env, Retry(env))
    ensures p == from.(framework := Off, dirs := map[1 := Full(env).(ready := false)])
  {
    hide Going;
    t, p := Go(EMPTY_POD, trace, from, Leave, 1, env, Retry(env));
    t, p := Go(EMPTY_POD, t, p, Begin(1, env), 1, env, Retry(env));
    t, p := Go(EMPTY_POD, t, p, Unlink(ReadyFile), 1, env, Retry(env));
    assert p.dirs == map[1 := Full(env).(ready := false)];
    t, p := Go(EMPTY_POD, t, p, Leave, 1, env, Retry(env));
  }

  lemma AreRejected(before: seq<PodAct>, p: Pod, env: Envelope) returns (acts: seq<PodAct>)
    requires Going(EMPTY_POD, before, p, 1, env, Retry(env)) && p.framework.Off? && !Harmless(p, 1, env)
    ensures Rejects(before, p, acts, env, {})
  {
    var q;
    acts, q := Misled(p, 1, env);
  }

  /** The request of an earlier attempt is left, and nothing else. */
  lemma DirLeft(env: Envelope) returns (before: seq<PodAct>, p: Pod, acts: seq<PodAct>)
    ensures Rejects(before, p, acts, env, {})
    ensures !NoRequest(p, 1) && KnowsBetter(p, 1, env, false) && NothingSeen(p, 1)
  {
    before, p := FirstRequest(env);
    before, p := Go(EMPTY_POD, before, p, Leave, 1, env, Retry(env));
    acts := AreRejected(before, p, env);
  }

  /** A child of an earlier attempt is left. */
  lemma ChildLeft(env: Envelope) returns (before: seq<PodAct>, p: Pod, acts: seq<PodAct>)
    ensures Rejects(before, p, acts, env, {})
    ensures NoRequest(p, 1) && !KnowsBetter(p, 1, env, false) && NothingSeen(p, 1)
  {
    before, p := FirstRequest(env);
    before, p := LooksAt(EMPTY_POD, before, p, env, Retry(env));
    before, p := Go(EMPTY_POD, before, p, Spawn, 1, env, Retry(env));
    before, p := HalfReset(before, p, env);
    acts := AreRejected(before, p, env);
  }

  /** The shim has seen an earlier request and not acted yet. */
  lemma LookLeft(env: Envelope) returns (before: seq<PodAct>, p: Pod, acts: seq<PodAct>)
    ensures Rejects(before, p, acts, env, {})
    ensures NoRequest(p, 1) && KnowsBetter(p, 1, env, false) && !NothingSeen(p, 1)
  {
    before, p := FirstRequest(env);
    before, p := LooksAt(EMPTY_POD, before, p, env, Retry(env));
    before, p := HalfReset(before, p, env);
    acts := AreRejected(before, p, env);
  }

  // ---- disturbed attempts ----

  /** A clean first attempt, up to the shim's decision to spawn. */
  lemma CleanStart(env: Envelope, except: set<PodAct>) returns (acts: seq<PodAct>, q: Pod)
    ensures Going(PodDo(EMPTY_POD, Begin(1, env)), acts, q, 1, env, except)
    ensures q == Only(Full(env), Polling(1, env), Starting(1), map[])
  {
    var start := PodDo(EMPTY_POD, Begin(1, env));
    Begins(start, 1, env, except);
    hide Going;
    acts, q := Go(start, [], start, RemoveDir, 1, env, except);
    acts, q := Go(start, acts, q, MakeDirs, 1, env, except);
    assert q == Only(FRESH, Made(1, env), NoProbe, map[]);
    acts, q := Requests(start, acts, q, 1, env, except);
    assert q.dirs == map[1 := Full(env)];
    acts, q := LooksAt(start, acts, q, env, except);
  }

  /** The poll of a first attempt finds the shim's marker. */
  lemma FailureSeen(acts: seq<PodAct>, p: Pod, env: Envelope, except: set<PodAct>) returns (longer: seq<PodAct>)
    requires Going(PodDo(EMPTY_POD, Begin(1, env)), acts, p, 1, env, except)
    requires p.framework == Polling(1, env) && 1 in p.dirs && p.dirs[1].failed
    ensures Rejects([], EMPTY_POD, longer, env, except)
  {
    var q;
    longer, q := Go(PodDo(EMPTY_POD, Begin(1, env)), acts, p, PeekFailed, 1, env, except);
  }

  /** The shim cannot make the out directory, and nothing else is wrong. */
  lemma SpawnFails(env: Envelope) returns (acts: seq<PodAct>)
    ensures Rejects([], EMPTY_POD, acts, env, {SpawnFailed}) && Harmless(EMPTY_POD, 1, env)
  {
    var q;
    acts, q := CleanStart(env, {SpawnFailed});
    hide Going, Rejects;
    acts, q := Go(PodDo(EMPTY_POD, Begin(1, env)), acts, q, SpawnFailed, 1, env, {SpawnFailed});
    acts := FailureSeen(acts, q, env, {SpawnFailed});
  }

  /** The spawned process reports an error, and nothing else is wrong. */
  lemma ChildFails(env: Envelope) returns (acts: seq<PodAct>)
    ensures Rejects([], EMPTY_POD, acts, env, {ChildError(1)}) && Harmless(EMPTY_POD, 1, env)
  {
    hide Going, Rejects, PodDo;
    var q;
    acts, q := CleanStart(env, {ChildError(1)});
    acts, q := ChildErrs(PodDo(EMPTY_POD, Begin(1, env)), acts, q, env, {ChildError(1)});
    acts := FailureSeen(acts, q, env, {ChildError(1)});
  }

  lemma ChildErrs(start: Pod, trace: seq<PodAct>, from: Pod, env: Envelope, except: set<PodAct>)
      returns (t: seq<PodAct>, p: Pod)
    requires Going(start, trace, from, 1, env, except) && ChildError(1) in except
    requires from == Only(Full(env), Polling(1, env), Starting(1), map[])
    ensures Going(start, t, p, 1, env, except)
    ensures p == Only(Full(env).(failed := true), Polling(1, env), NoProbe, map[])
  {
    hide Going;
    t, p := Go(start, trace, from, Spawn, 1, env, except);
    assert p == Only(Full(env), Polling(1, env), NoProbe, map[1 := Spawned]);
    t, p := Go(start, t, p, ChildError(1), 1, env, except);
  }
}
