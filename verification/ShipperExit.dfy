/**
  What the shutdown is for: whatever the poll loop is in the middle of, and whatever is logged after the
  signal, a drain that nothing goes wrong for ships it and ends the process.
*/
module ShipperExit {
  import opened Resp
  import opened LogLines
  import opened LogShipper
  import opened ShipperRace

  /** What lies beyond an offset. */
  function Rest(b: Bytes, at: nat): Bytes {
    if at <= |b| then b[at..] else []
  }

  /** Its complete lines. */
  function Ripe(b: Bytes, at: nat): Bytes {
    Rest(b, at)[..Complete(Rest(b, at))]
  }

  /** A drain of one log is under way, and the process will take no more signals. */
  ghost predicate Draining(trace: seq<Action>, s: State, disk: map<Path, Bytes>, sink: seq<Chunk>, drain: Tick) {
    Runs(INIT, trace, s) && !s.running && !s.exited && s.disk == disk && s.sink == sink && s.drain == drain
  }

  lemma Goes(trace: seq<Action>, s: State, a: Action) returns (longer: seq<Action>, t: State)
    requires Runs(INIT, trace, s) && Can(s, a)
    ensures longer == trace + [a] && t == Do(s, a) && Runs(INIT, longer, t)
  {
    hide Runs, Can, Do;
    OneMore(INIT, trace, s, a);
    longer, t := trace + [a], Do(s, a);
  }

  lemma OffsetInside(trace: seq<Action>, s: State, p: Path)
    requires Runs(INIT, trace, s) && !s.exited
    ensures AtLine(ContentOf(s.disk, p), OffsetOf(s.offsets, p))
  {
    AtLeastOnce(trace, s, p, 0, 0);
  }

  /** The signal comes, if it has not come yet, and more is logged after it. */
  lemma Signals(trace: seq<Action>, s: State, p: Path, more: Bytes) returns (longer: seq<Action>, t: State)
    requires Runs(INIT, trace, s) && !s.exited && s.drain.Asleep?
    ensures trace <= longer && Draining(longer, t, s.disk[p := ContentOf(s.disk, p) + more], s.sink, Asleep)
    ensures t.offsets == s.offsets && t.poll == s.poll
  {
    hide Runs;
    longer, t := trace, s;
    if s.running {
      longer, t := Goes(longer, t, Signal);
    }
    longer, t := Goes(longer, t, Log(p, more));
  }

  /** The drain lists the log and finds it as long as it is. */
  lemma Finds(trace: seq<Action>, s: State, p: Path) returns (longer: seq<Action>, t: State)
    requires Draining(trace, s, s.disk, s.sink, Asleep) && IsLog(p)
    ensures var b, at := ContentOf(s.disk, p), OffsetOf(s.offsets, p);
            && at <= |b| && trace <= longer && OffsetOf(t.offsets, p) == at
            && Draining(longer, t, s.disk, s.sink, if |b| <= at then Listing([], []) else Opening(p, |b| - at, [], []))
  {
    hide Runs, IsLog;
    OffsetInside(trace, s, p);
    longer, t := Goes(trace, s, Step(Drain, Start([p])));
    assert [p][1..] == [];
    longer, t := Goes(longer, t, Step(Drain, Look));
    longer, t := Goes(longer, t, Step(Drain, Stat(true, |ContentOf(s.disk, p)|)));
  }

  /** It reads all of it, and has what is in it to ship. */
  lemma Reads(trace: seq<Action>, s: State, p: Path) returns (longer: seq<Action>, t: State)
    requires var b, at := ContentOf(s.disk, p), OffsetOf(s.offsets, p);
             at < |b| && Draining(trace, s, s.disk, s.sink, Opening(p, |b| - at, [], []))
    ensures var at := OffsetOf(s.offsets, p);
            var text := Ripe(ContentOf(s.disk, p), at);
            && trace <= longer && t.offsets == s.offsets
            && Draining(longer, t, s.disk, s.sink,
                        Listing([], if Lines(text) == [] then [] else [Chunk(p, at, text, at + |text|)]))
  {
    hide Runs, Lines, Complete;
    var b, at := ContentOf(s.disk, p), OffsetOf(s.offsets, p);
    longer, t := Goes(trace, s, Step(Drain, Open(true)));
    assert Slice(b, at, |b| - at) == b[at..];
    longer, t := Goes(longer, t, Step(Drain, Read(true, |b| - at)));
    var c := Chunk(p, at, Ripe(b, at), at + |Ripe(b, at)|);
    assert [] + [c] == [c];
  }

  lemma OneCommitted(offsets: map<Path, nat>, batch: seq<Chunk>)
    requires |batch| == 1
    ensures CommittedChunks(offsets, batch) == offsets[batch[0].path := batch[0].newOffset]
  {
  }

  /** It ships that, if there is anything, and the process is over. */
  lemma Ends(trace: seq<Action>, s: State, batch: seq<Chunk>) returns (longer: seq<Action>, t: State)
    requires Draining(trace, s, s.disk, s.sink, Listing([], batch)) && |batch| <= 1
    ensures trace <= longer && Runs(INIT, longer, t) && t.exited && t.disk == s.disk && t.sink == s.sink + batch
    ensures t.offsets == if batch == [] then s.offsets else s.offsets[batch[0].path := batch[0].newOffset]
  {
    hide Runs;
    longer, t := Goes(trace, s, Step(Drain, ShipperRace.Ship(true)));
    if batch == [] {
      assert s.sink + batch == s.sink;
    } else {
      assert batch[1..] == [];
      OneCommitted(s.offsets, batch);
      longer, t := Goes(longer, t, Step(Drain, Push(true, true)));
    }
  }

  /** What is shipped of a log when all of the rest of it is read and pushed. */
  lemma ShippedUp(b: Bytes, at: nat)
    requires AtLine(b, at)
    ensures !HasLine(b, at + |Ripe(b, at)|, |b|) && at + |Ripe(b, at)| <= |b|
    ensures Lines(Ripe(b, at)) != [] <==> HasLine(b, at, |b|)
  {
    hide Lines, Complete, HasLine;
    var rest := b[at..];
    var n := Complete(rest);
    CompleteAtLine(rest);
    CompleteLines(rest);
    LinesOfPiece(b, at, |b|);
    assert b[at..|b|] == rest && b[at + n..|b|] == rest[n..];
    NoLineBeyond(b, at + n, |b|);
  }

  /**
    Main result: after every run in which the process is still up and no drain has begun, whatever is
    logged to p then, some run goes on from there to the end of the process, leaves no complete non-empty
    line of p beyond its offset, and has shipped exactly the complete lines beyond the old one, if there
    are any.
  */
  lemma Delivers(trace: seq<Action>, s: State, p: Path, more: Bytes) returns (longer: seq<Action>, t: State)
    requires Runs(INIT, trace, s) && !s.exited && s.drain.Asleep? && IsLog(p)
    ensures trace <= longer && Runs(INIT, longer, t) && t.exited
    ensures ContentOf(t.disk, p) == ContentOf(s.disk, p) + more
    ensures var b, at := ContentOf(t.disk, p), OffsetOf(s.offsets, p);
            var text := Ripe(b, at);
            && !HasLine(b, OffsetOf(t.offsets, p), |b|)
            && t.sink == if HasLine(b, at, |b|) then s.sink + [Chunk(p, at, text, at + |text|)] else s.sink
  {
    hide Runs, IsLog, Lines, Complete, HasLine, Rest, Ripe;
    longer, t := Signals(trace, s, p, more);
    OffsetInside(longer, t, p);
    var b, at := ContentOf(t.disk, p), OffsetOf(t.offsets, p);
    longer, t := Finds(longer, t, p);
    ShippedUp(b, at);
    if |b| <= at {
      NothingThere(b, at);
      longer, t := Ends(longer, t, []);
    } else {
      longer, t := Reads(longer, t, p);
      var text := Ripe(b, at);
      longer, t := Ends(longer, t, if Lines(text) == [] then [] else [Chunk(p, at, text, at + |text|)]);
    }
  }

  lemma NothingThere(b: Bytes, at: nat)
    requires at == |b|
    ensures !HasLine(b, at, |b|)
  {
    NoLineBeyond(b, at, |b|);
  }
}
