/**
  When runStage can report a success: from every state the pod can be in, exactly for the envelopes that
  the stage accepts.
*/
module Acceptance {
  import opened Lists
  import opened Keyspace
  import opened Handshake
  import opened Rejection

  // ---- an attempt that succeeds ----

  /** The shim finds the request and starts a stage. */
  lemma Starts(start: Pod, trace: seq<PodAct>, from: Pod, id: TaskId, env: Envelope) returns (t: seq<PodAct>, p: Pod)
    requires Going(start, trace, from, id, env, {})
    requires Stands(from, id, Polling(id, env), Some(Full(env)), None, NoProbe)
    ensures Going(start, t, p, id, env, {})
    ensures Stands(p, id, Polling(id, env), Some(Full(env)), Some(Spawned), NoProbe)
  {
    hide Going;
    t, p := Looks(start, trace, from, id, env);
    t, p := Go(start, t, p, Spawn, id, env, {});
  }

  lemma Looks(start: Pod, trace: seq<PodAct>, from: Pod, id: TaskId, env: Envelope) returns (t: seq<PodAct>, p: Pod)
    requires Going(start, trace, from, id, env, {})
    requires Stands(from, id, Polling(id, env), Some(Full(env)), None, NoProbe)
    ensures Going(start, t, p, id, env, {})
    ensures Stands(p, id, Polling(id, env), Some(Full(env)), None, Starting(id))
  {
    hide Going;
    t, p := SeesRequest(start, trace, from, id, env);
    t, p := Go(start, t, p, SeeNoDone, id, env, {});
    t, p := Go(start, t, p, SeeNoFailed, id, env, {});
  }

  lemma SeesRequest(start: Pod, trace: seq<PodAct>, from: Pod, id: TaskId, env: Envelope) returns (t: seq<PodAct>, p: Pod)
    requires Going(start, trace, from, id, env, {})
    requires Stands(from, id, Polling(id, env), Some(Full(env)), None, NoProbe)
    ensures Going(start, t, p, id, env, {})
    ensures Stands(p, id, Polling(id, env), Some(Full(env)), None, WantNoDone(id))
  {
    hide Going;
    t, p := Go(start, trace, from, Look(id), id, env, {});
    t, p := Go(start, t, p, SeeReady, id, env, {});
  }

  /** The child reads the envelope and accepts it. */
  lemma Accepted(start: Pod, trace: seq<PodAct>, from: Pod, id: TaskId, env: Envelope) returns (t: seq<PodAct>, p: Pod)
    requires Going(start, trace, from, id, env, {}) && env.acceptable
    requires Stands(from, id, Polling(id, env), Some(Full(env)), Some(Spawned), NoProbe)
    ensures Going(start, t, p, id, env, {})
    ensures Stands(p, id, Polling(id, env), Some(Full(env)), Some(Exited(true)), NoProbe)
  {
    hide Going;
    t, p := Go(start, trace, from, ChildRead(id), id, env, {});
    t, p := Go(start, t, p, ChildExit(id, Some(Whole(env)), true), id, env, {});
  }

  /** The shim marks it, and the framework sees the mark. */
  lemma Reported(start: Pod, trace: seq<PodAct>, from: Pod, id: TaskId, env: Envelope) returns (t: seq<PodAct>, p: Pod)
    requires Going(start, trace, from, id, env, {})
    requires Stands(from, id, Polling(id, env), Some(Full(env)), Some(Exited(true)), NoProbe)
    ensures Going(start, t, p, id, env, {}) && p.framework == Verdict(id, env, true)
  {
    hide Going;
    t, p := Go(start, trace, from, ChildClose(id), id, env, {});
    t, p := Go(start, t, p, ChildMark(id), id, env, {});
    t, p := Go(start, t, p, PeekFailed, id, env, {});
    t, p := Go(start, t, p, PeekDone, id, env, {});
  }

  /** The framework resets whatever there is and makes its request; a restart clears the shim. */
  lemma Prepared(p: Pod, id: TaskId, env: Envelope) returns (acts: seq<PodAct>, q: Pod)
    requires PodCan(p, Begin(id, env))
    ensures Going(PodDo(p, Begin(id, env)), acts, q, id, env, {})
    ensures Stands(q, id, Polling(id, env), Some(Full(env)), None, NoProbe)
  {
    hide Going;
    var start := PodDo(p, Begin(id, env));
    Begins(start, id, env, {});
    acts, q := Go(start, [], start, ShimRestart, id, env, {});
    acts, q := Resets(start, acts, q, id, env, {});
    acts, q := Requests(start, acts, q, id, env, {});
  }

  /** From every beginning an acceptable envelope can be accepted. */
  lemma Succeeds(p: Pod, id: TaskId, env: Envelope) returns (acts: seq<PodAct>, q: Pod)
    requires PodCan(p, Begin(id, env)) && env.acceptable
    ensures Going(PodDo(p, Begin(id, env)), acts, q, id, env, {}) && q.framework == Verdict(id, env, true)
  {
    hide Going, Stands, PodDo, PodCan;
    var start := PodDo(p, Begin(id, env));
    acts, q := Prepared(p, id, env);
    acts, q := Starts(start, acts, q, id, env);
    acts, q := Accepted(start, acts, q, id, env);
    acts, q := Reported(start, acts, q, id, env);
  }

  // ---- and no other ----

  ghost predicate AllAcceptable(accepted: set<(TaskId, Envelope)>) {
    forall pair <- accepted :: pair.1.acceptable
  }

  lemma OneMoreAccepted(p: Pod, a: PodAct, accepted: set<(TaskId, Envelope)>)
    requires PodCan(p, a) && AllAcceptable(accepted)
    ensures AllAcceptable(accepted + AcceptedBy(a))
  {
  }

  /** An undisturbed attempt keeps the pod sound. */
  lemma {:induction false} StaysSound(start: Pod, acts: seq<PodAct>, id: TaskId, payload: map<TaskId, Envelope>,
                                      accepted: set<(TaskId, Envelope)>) returns (more: set<(TaskId, Envelope)>)
    requires Sound(start, payload, accepted) && AllAcceptable(accepted)
    requires PodFrom(start, acts).Some? && Undisturbed(start, acts, id, {})
    ensures Sound(PodFrom(start, acts).value, payload, more) && AllAcceptable(more)
    decreases |acts|
  {
    hide Sound, PodCan, PodDo, AllAcceptable;
    more := accepted;
    if acts != [] {
      var before, a := acts[..|acts| - 1], acts[|acts| - 1];
      more := StaysSound(start, before, id, payload, accepted);
      var p := PodFrom(start, before).value;
      SoundKept(p, a, payload, more);
      OneMoreAccepted(p, a, more);
      more := more + AcceptedBy(a);
    }
  }

  /** Some undisturbed attempt from p reports a success. */
  ghost predicate CanSucceed(p: Pod, id: TaskId, env: Envelope)
    requires PodCan(p, Begin(id, env))
  {
    exists acts: seq<PodAct> |
      var start := PodDo(p, Begin(id, env));
      PodFrom(start, acts).Some? && Undisturbed(start, acts, id, {})
      :: PodFrom(PodDo(p, Begin(id, env)), acts).value.framework == Verdict(id, env, true)
  }

  lemma BeginsSound(p: Pod, id: TaskId, env: Envelope, payload: map<TaskId, Envelope>, accepted: set<(TaskId, Envelope)>)
    requires Sound(p, payload, accepted) && PodCan(p, Begin(id, env)) && id in payload && payload[id] == env
    ensures Sound(PodDo(p, Begin(id, env)), payload, accepted)
  {
    hide Sound;
    SoundKept(p, Begin(id, env), payload, accepted);
    assert accepted + {} == accepted;
  }

  lemma VerdictIsAccepted(p: Pod, id: TaskId, env: Envelope, payload: map<TaskId, Envelope>, accepted: set<(TaskId, Envelope)>)
    requires Sound(p, payload, accepted) && AllAcceptable(accepted) && p.framework == Verdict(id, env, true)
    ensures env.acceptable
  {
    assert (id, env) in accepted;
  }

  /**
    Main result: whatever earlier attempts have left, an attempt can report a success if and only if the
    stage accepts its envelope.
  */
  lemma SuccessIff(p: Pod, id: TaskId, env: Envelope, payload: map<TaskId, Envelope>, accepted: set<(TaskId, Envelope)>)
    requires PodCan(p, Begin(id, env)) && Sound(p, payload, accepted) && AllAcceptable(accepted)
    requires id in payload && payload[id] == env
    ensures CanSucceed(p, id, env) <==> env.acceptable
  {
    hide Sound, PodCan, PodDo, Undisturbed, PodFrom, AllAcceptable;
    var start := PodDo(p, Begin(id, env));
    if env.acceptable {
      var acts, q := Succeeds(p, id, env);
      assert PodFrom(start, acts) == Some(q);
    }
    if CanSucceed(p, id, env) {
      var acts: seq<PodAct> :| PodFrom(start, acts).Some? && Undisturbed(start, acts, id, {})
                               && PodFrom(start, acts).value.framework == Verdict(id, env, true);
      BeginsSound(p, id, env, payload, accepted);
      var more := StaysSound(start, acts, id, payload, accepted);
      VerdictIsAccepted(PodFrom(start, acts).value, id, env, payload, more);
    }
  }

  /** In particular a first attempt. */
  lemma FirstAttemptIff(id: TaskId, env: Envelope)
    ensures CanSucceed(EMPTY_POD, id, env) <==> env.acceptable
  {
    SuccessIff(EMPTY_POD, id, env, map[id := env], {});
  }
}
