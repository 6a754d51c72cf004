/**
  The last commit of the log shipper, exactly: when the final drain leaves an offset below which
  something was never shipped (services/log-shipper/index.js).
*/
module ShipperDrain {
  import opened LogLines
  import opened LogShipper
  import opened ShipperRace

  /** A file taken once is committed to its chunk's new offset. */
  lemma {:induction false} CommittedOnce(offsets: map<Path, nat>, batch: seq<Chunk>, k: nat)
    requires NoRepeat(PathsOf(batch)) && k < |batch|
    ensures OffsetOf(CommittedChunks(offsets, batch), batch[k].path) == batch[k].newOffset
  {
    var p, n := batch[k].path, OffsetOf(CommittedChunks(offsets, batch), batch[k].path);
    CommittedFrom(offsets, batch, p);
    assert batch[k] in batch;
    var c :| c in batch && c.path == p && n == c.newOffset;
    var j :| 0 <= j < |batch| && batch[j] == c;
    assert PathsOf(batch)[j] == PathsOf(batch)[k] == p;
  }

  // ---- what holds while nothing has been stored without the shipper hearing so ----

  /** Nothing shipped of a file lies beyond its offset. */
  ghost predicate NoneBeyond(s: State, p: Path) {
    forall c <- s.sink :: c.path == p ==> c.at + |c.text| <= OffsetOf(s.offsets, p)
  }

  /** A chunk of the drain is unskewed, or was counted from an offset that nothing will move any more. */
  ghost predicate Counted(s: State, c: Chunk) {
    Unskewed(c)
    || (s.poll.Asleep? && c.at < OffsetOf(s.offsets, c.path) && c.newOffset == OffsetOf(s.offsets, c.path) + |c.text|
        && NoneBeyond(s, c.path))
  }

  ghost predicate DrainFine(s: State) {
    && (s.drain.Reading? && s.drain.at != OffsetOf(s.offsets, s.drain.path) ==>
          s.poll.Asleep? && NoneBeyond(s, s.drain.path))
    && (forall c <- BatchOf(s.drain) :: Counted(s, c))
  }

  /** Until the poll loop has ended, offsets only grow. */
  ghost predicate PollTrails(s: State) {
    s.running || !s.poll.Asleep? ==> forall p: Path :: NoneBeyond(s, p)
  }

  ghost predicate Orderly(s: State) {
    Sound(s) && (!s.exited ==> DrainFine(s) && PollTrails(s))
  }

  /** A push that the sink stored and the shipper took for failed. */
  predicate IsAmbiguous(a: Action) {
    a.Step? && a.act == Push(true, false)
  }

  lemma SameBeyond(s: State, t: State, p: Path)
    requires t.sink == s.sink && OffsetOf(t.offsets, p) == OffsetOf(s.offsets, p)
    ensures NoneBeyond(t, p) == NoneBeyond(s, p)
  {
    hide OffsetOf;
  }

  lemma SameCounted(s: State, t: State, c: Chunk)
    requires Counted(s, c) && t.sink == s.sink && OffsetOf(t.offsets, c.path) == OffsetOf(s.offsets, c.path)
    requires s.poll.Asleep? ==> t.poll.Asleep?
    ensures Counted(t, c)
  {
    hide NoneBeyond, OffsetOf;
    SameBeyond(s, t, c.path);
  }

  /** Steps that move no offset and store nothing. */
  lemma StaysOrderly(s: State, a: Action)
    requires Orderly(s) && Can(s, a) && (a.Step? ==> !a.act.Push? && !a.act.Read? && !a.act.Stat?)
    ensures !Do(s, a).exited ==> DrainFine(Do(s, a)) && PollTrails(Do(s, a))
  {
    hide Backed, NoRepeat, PathsIn, Counted, NoneBeyond, OffsetOf, Started, Lines, Slice, Complete, CommittedChunks;
    var t := Do(s, a);
    assert BatchOf(t.drain) == BatchOf(s.drain) || BatchOf(t.drain) == [];
    forall c <- BatchOf(t.drain)
      ensures Counted(t, c)
    {
      assert s.poll.Asleep? ==> t.poll.Asleep?;
      SameCounted(s, t, c);
    }
    forall p: Path
      ensures NoneBeyond(t, p) == NoneBeyond(s, p)
    {
      SameBeyond(s, t, p);
    }
  }

  lemma StatOrderly(s: State, who: Who, found: bool, size: nat)
    requires Orderly(s) && Can(s, Step(who, Stat(found, size)))
    ensures var t := Do(s, Step(who, Stat(found, size))); DrainFine(t) && PollTrails(t)
  {
    hide NoRepeat, Counted, NoneBeyond, ChunkFine, TickFine;
    var t := Do(s, Step(who, Stat(found, size)));
    var tick := TickOf(s, who);
    NotYetTaken(tick);
    assert forall p: Path :: p != tick.path || OffsetOf(s.offsets, p) <= size ==> OffsetOf(t.offsets, p) == OffsetOf(s.offsets, p);
    assert size < OffsetOf(s.offsets, tick.path) ==> who.Drain? && s.poll.Asleep?;
    hide OffsetFine, Started, OffsetOf;
    forall c <- BatchOf(t.drain)
      ensures Counted(t, c)
    {
      SameCounted(s, t, c);
    }
    if !s.poll.Asleep? || t.drain.Reading? {
      forall p: Path
        ensures NoneBeyond(t, p) == NoneBeyond(s, p)
      {
        SameBeyond(s, t, p);
      }
    }
  }

  lemma ReadOrderly(s: State, who: Who, ok: bool, bytes: nat)
    requires Orderly(s) && Can(s, Step(who, Read(ok, bytes)))
    ensures var t := Do(s, Step(who, Read(ok, bytes))); DrainFine(t) && PollTrails(t)
  {
    NewChunk(s, who, ok, bytes);
    var t := Do(s, Step(who, Read(ok, bytes)));
    var tick, next := TickOf(s, who), TickOf(t, who);
    assert next.batch != tick.batch ==> next.batch == tick.batch + [next.batch[|next.batch| - 1]];
    assert s.drain.Reading? ==> s.drain.at <= OffsetOf(s.offsets, s.drain.path);
    hide Sound, NoRepeat, NextTick, ChunkFine, OffsetOf, NoneBeyond;
    forall p: Path
      ensures NoneBeyond(t, p) == NoneBeyond(s, p)
    {
      SameBeyond(s, t, p);
    }
    forall c <- BatchOf(t.drain)
      ensures Counted(t, c)
    {
      assert c in BatchOf(s.drain) ==> Counted(s, c);
    }
  }

  lemma PollCommits(s: State, p: Path)
    requires Orderly(s) && Can(s, Step(Poll, Push(true, true)))
    ensures var t := Do(s, Step(Poll, Push(true, true)));
            OffsetOf(s.offsets, p) <= OffsetOf(t.offsets, p) && NoneBeyond(t, p)
  {
    hide NoRepeat, CommittedChunks;
    var t, batch := Do(s, Step(Poll, Push(true, true))), s.poll.batch;
    CommittedFrom(s.offsets, batch, p);
    assert NoneBeyond(s, p);
    forall c <- t.sink | c.path == p
      ensures c.at + |c.text| <= OffsetOf(t.offsets, p)
    {
      if c in batch {
        var k :| 0 <= k < |batch| && batch[k] == c;
        CommittedOnce(s.offsets, batch, k);
      }
    }
  }

  lemma PushOrderly(s: State, who: Who, ok: bool)
    requires Orderly(s) && Can(s, Step(who, Push(ok, ok)))
    ensures var t := Do(s, Step(who, Push(ok, ok))); !t.exited ==> DrainFine(t) && PollTrails(t)
  {
    hide Backed, NoRepeat, CommittedChunks, OffsetOf, NoneBeyond;
    var t := Do(s, Step(who, Push(ok, ok)));
    forall p: Path
      ensures !ok ==> NoneBeyond(t, p) == NoneBeyond(s, p)
      ensures ok && who.Poll? ==> OffsetOf(s.offsets, p) <= OffsetOf(t.offsets, p) && NoneBeyond(t, p)
    {
      if !ok {
        SameBeyond(s, t, p);
      } else if who.Poll? {
        PollCommits(s, p);
      }
    }
    assert forall c <- BatchOf(s.drain) :: Counted(s, c);
  }

  lemma OrderlyKept(s: State, a: Action)
    requires Orderly(s) && Can(s, a) && !IsAmbiguous(a)
    ensures Orderly(Do(s, a))
  {
    Kept(s, a);
    hide Sound, DrainFine, PollTrails, Do;
    if a.Step? && a.act.Stat? {
      StatOrderly(s, a.who, a.act.found, a.act.size);
    } else if a.Step? && a.act.Read? {
      ReadOrderly(s, a.who, a.act.ok, a.act.bytes);
    } else if a.Step? && a.act.Push? {
      PushOrderly(s, a.who, a.act.ok);
    } else {
      StaysOrderly(s, a);
    }
  }

  lemma {:induction false} AlwaysOrderlyFrom(s: State, trace: seq<Action>, t: State)
    requires Orderly(s) && Runs(s, trace, t) && forall a <- trace :: !IsAmbiguous(a)
    ensures Orderly(t)
    decreases |trace|
  {
    hide Orderly, Can, Do, IsAmbiguous;
    if trace != [] {
      assert trace[0] in trace && forall a <- trace[1..] :: a in trace;
      OrderlyKept(s, trace[0]);
      AlwaysOrderlyFrom(Do(s, trace[0]), trace[1..], t);
    }
  }

  /** A skewed chunk commits beyond everything shipped of its file. */
  lemma SkewedIsBeyond(s: State, c: Chunk, i: nat)
    requires c.text != [] && Counted(s, c) && !Unskewed(c) && i == c.newOffset - 1
    ensures !Covered(s.sink, c.path, i) && !Covers(c, c.path, i) && OffsetOf(s.offsets, c.path) <= i
  {
    hide OffsetOf;
  }

  lemma NotCovered(sink: seq<Chunk>, batch: seq<Chunk>, k: nat, i: nat)
    requires k < |batch| && NoRepeat(PathsOf(batch))
    requires !Covered(sink, batch[k].path, i) && !Covers(batch[k], batch[k].path, i)
    ensures !Covered(sink + batch, batch[k].path, i)
  {
    var p := batch[k].path;
    forall d <- sink + batch
      ensures !Covers(d, p, i)
    {
      if d in sink {
        assert Covers(d, p, i) ==> Covered(sink, p, i);
      } else if d.path == p {
        var j :| 0 <= j < |batch| && batch[j] == d;
        assert PathsOf(batch)[j] == PathsOf(batch)[k];
      }
    }
  }

  lemma SkewedLoses(s: State, t: State, k: nat)
    requires Orderly(s) && !s.exited && s.drain.Pushing? && k < |s.drain.batch| && !Unskewed(s.drain.batch[k])
    requires t == Do(s, Step(Drain, Push(true, true)))
    ensures !OffsetFine(t, s.drain.batch[k].path)
  {
    var batch, c := s.drain.batch, s.drain.batch[k];
    assert c in batch && Counted(s, c) && ChunkFine(s.disk, c);
    hide Backed, CommittedChunks, ChunkFine, Counted, NoneBeyond, NoRepeat, Covered, Covers;
    var i: nat := c.newOffset - 1;
    SkewedIsBeyond(s, c, i);
    CommittedOnce(s.offsets, batch, k);
    NotCovered(s.sink, batch, k, i);
  }

  /**
    Main result. If no push was stored without the shipper hearing so, the final commit keeps the
    offset of a file sound if and only if the chunk it commits for it is unskewed, that is, if no
    commit of the poll loop came between issuing the read of the chunk and counting from it.
  */
  lemma DrainCommitIff(trace: seq<Action>, s: State, t: State, p: Path)
    requires Runs(INIT, trace, s) && !s.exited && s.drain.Pushing? && forall a <- trace :: !IsAmbiguous(a)
    requires t == Do(s, Step(Drain, Push(true, true)))
    ensures OffsetFine(t, p) <==> forall c <- s.drain.batch :: c.path == p ==> Unskewed(c)
  {
    hide Unskewed, OffsetFine, Orderly, Runs;
    InitOrderly();
    AlwaysOrderlyFrom(INIT, trace, s);
    if forall c <- s.drain.batch :: c.path == p ==> Unskewed(c) {
      DrainCommit(trace, s, t, p);
    } else {
      var c :| c in s.drain.batch && c.path == p && !Unskewed(c);
      var k :| 0 <= k < |s.drain.batch| && s.drain.batch[k] == c;
      SkewedLoses(s, t, k);
    }
  }

  lemma InitOrderly()
    ensures Orderly(INIT)
  {
  }
}
