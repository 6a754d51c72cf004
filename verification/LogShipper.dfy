/**
  The log shipper while its ticks do not overlap (services/log-shipper/index.js): it tails files that
  only grow, over a disk and a sink that may fail at any time. Values carry the line alone.
*/
module LogShipper {
  import opened Lists
  import opened Resp
  import opened LogLines

  type Path = string

  const BATCH_MAX := 200
  const FLUSH_MS := 1000
  const DRAIN_ATTEMPTS := 5

  predicate IsLog(name: Path) {
    |name| >= 4 && name[|name| - 4..] == ".log"
  }

  /** Names that end in .log, and no others. */
  lemma LogNames(name: Path, stem: Path)
    ensures IsLog(stem + ".log")
    ensures IsLog(name) ==> name == name[..|name| - 4] + ".log"
  {
  }

  /** One stream of a push, and the offset its file advances to if the push succeeds. */
  datatype Item = Item(path: Path, values: seq<Bytes>, newOffset: nat)

  function ContentOf(content: map<Path, Bytes>, p: Path): Bytes {
    if p in content then content[p] else []
  }

  function OffsetOf(offsets: map<Path, nat>, p: Path): nat {
    if p in offsets then offsets[p] else 0
  }

  function AcceptedOf(accepted: map<Path, seq<Bytes>>, p: Path): seq<Bytes> {
    if p in accepted then accepted[p] else []
  }

  // ---- what a push and a commit do ----

  function Shipped(accepted: map<Path, seq<Bytes>>, batch: seq<Item>): map<Path, seq<Bytes>>
    decreases |batch|
  {
    if batch == [] then accepted
    else Shipped(accepted[batch[0].path := AcceptedOf(accepted, batch[0].path) + batch[0].values], batch[1..])
  }

  function Committed(offsets: map<Path, nat>, batch: seq<Item>): map<Path, nat>
    decreases |batch|
  {
    if batch == [] then offsets else Committed(offsets[batch[0].path := batch[0].newOffset], batch[1..])
  }

  function ItemOf(batch: seq<Item>, p: Path): Option<Item> {
    if batch == [] then None else if batch[0].path == p then Some(batch[0]) else ItemOf(batch[1..], p)
  }

  ghost predicate Distinct(batch: seq<Item>) {
    forall i, j :: 0 <= i < j < |batch| ==> batch[i].path != batch[j].path
  }

  lemma {:induction false} ItemIsIn(batch: seq<Item>, p: Path)
    ensures var item := ItemOf(batch, p);
            if item.Some? then item.value in batch && item.value.path == p else forall i <- batch :: i.path != p
  {
    if batch != [] {
      ItemIsIn(batch[1..], p);
    }
  }

  lemma {:induction false} ShippedAt(accepted: map<Path, seq<Bytes>>, offsets: map<Path, nat>, batch: seq<Item>, p: Path)
    requires Distinct(batch)
    ensures var item := ItemOf(batch, p);
            && AcceptedOf(Shipped(accepted, batch), p) == AcceptedOf(accepted, p) + (if item.Some? then item.value.values else [])
            && OffsetOf(Committed(offsets, batch), p) == if item.Some? then item.value.newOffset else OffsetOf(offsets, p)
    decreases |batch|
  {
    if batch != [] {
      var i := batch[0];
      ShippedAt(accepted[i.path := AcceptedOf(accepted, i.path) + i.values], offsets[i.path := i.newOffset], batch[1..], p);
      if i.path == p {
        ItemIsIn(batch[1..], p);
      }
    }
  }

  /** A batch item takes a file from its offset to just past a newline. */
  ghost predicate ItemFine(content: map<Path, Bytes>, offsets: map<Path, nat>, i: Item) {
    var b, n := ContentOf(content, i.path), OffsetOf(offsets, i.path);
    n < i.newOffset && AtLine(b, i.newOffset) && i.values == Lines(b[n..i.newOffset]) && i.values != []
  }

  ghost predicate BatchFine(content: map<Path, Bytes>, offsets: map<Path, nat>, batch: seq<Item>) {
    Distinct(batch) && forall i <- batch :: ItemFine(content, offsets, i)
  }

  // ---- the invariant ----

  ghost predicate OffsetsFine(content: map<Path, Bytes>, offsets: map<Path, nat>) {
    forall p: Path :: AtLine(ContentOf(content, p), OffsetOf(offsets, p))
  }

  /** What the sink has of each file is the lines of its committed prefix, in order, once each. */
  ghost predicate Exact(content: map<Path, Bytes>, offsets: map<Path, nat>, accepted: map<Path, seq<Bytes>>) {
    forall p: Path :: OffsetOf(offsets, p) <= |ContentOf(content, p)|
      && AcceptedOf(accepted, p) == Lines(ContentOf(content, p)[..OffsetOf(offsets, p)])
  }

  /** Main result: shipping and committing a batch keeps the sink exact. */
  lemma CommitIsExact(content: map<Path, Bytes>, offsets: map<Path, nat>, accepted: map<Path, seq<Bytes>>, batch: seq<Item>)
    requires OffsetsFine(content, offsets) && BatchFine(content, offsets, batch)
    ensures OffsetsFine(content, Committed(offsets, batch))
    ensures Exact(content, offsets, accepted) ==> Exact(content, Committed(offsets, batch), Shipped(accepted, batch))
  {
    hide Lines, Shipped, Committed, ItemOf;
    forall p: Path
      ensures AtLine(ContentOf(content, p), OffsetOf(Committed(offsets, batch), p))
      ensures Exact(content, offsets, accepted) ==>
        AcceptedOf(Shipped(accepted, batch), p) == Lines(ContentOf(content, p)[..OffsetOf(Committed(offsets, batch), p)])
    {
      ShippedAt(accepted, offsets, batch, p);
      ItemIsIn(batch, p);
      if ItemOf(batch, p).Some? {
        var i := ItemOf(batch, p).value;
        assert ItemFine(content, offsets, i);
        var b, n := ContentOf(content, p), OffsetOf(offsets, p);
        assert b[..i.newOffset] == b[..n] + b[n..i.newOffset];
        LinesSplit(b[..n], b[n..i.newOffset]);
      }
    }
  }

  /** Appending to files keeps all of it. */
  lemma GrowthIsExact(content: map<Path, Bytes>, more: map<Path, Bytes>, offsets: map<Path, nat>, accepted: map<Path, seq<Bytes>>)
    requires OffsetsFine(content, offsets) && forall p: Path :: ContentOf(content, p) <= ContentOf(more, p)
    ensures OffsetsFine(more, offsets) && (Exact(content, offsets, accepted) ==> Exact(more, offsets, accepted))
  {
    hide Lines;
    forall p: Path
      ensures AtLine(ContentOf(more, p), OffsetOf(offsets, p))
      ensures ContentOf(more, p)[..OffsetOf(offsets, p)] == ContentOf(content, p)[..OffsetOf(offsets, p)]
    {
      assert AtLine(ContentOf(content, p), OffsetOf(offsets, p));
      assert ContentOf(content, p) <= ContentOf(more, p);
    }
  }

  function Total(batch: seq<Item>): nat {
    if batch == [] then 0 else |batch[0].values| + Total(batch[1..])
  }

  // ---- the processes ----

  /** The log directory; the application appends to it. */
  class Disk {
    var content: map<Path, Bytes>

    constructor ()
      ensures content == map[]
    {
      content := map[];
    }

    method Append(p: Path, b: Bytes)
      modifies this
      ensures content == old(content)[p := ContentOf(old(content), p) + b]
    {
      content := content[p := ContentOf(content, p) + b];
    }
  }

  /** The log sink: what it has accepted, file by file. */
  class Sink {
    var accepted: map<Path, seq<Bytes>>

    constructor ()
      ensures accepted == map[]
    {
      accepted := map[];
    }

    method Store(batch: seq<Item>)
      modifies this
      ensures accepted == Shipped(old(accepted), batch)
    {
      assert batch[0..] == batch;
      for i := 0 to |batch|
        invariant Shipped(accepted, batch[i..]) == Shipped(old(accepted), batch)
      {
        var p, values := batch[i].path, batch[i].values;
        assert batch[i..][0] == batch[i] && batch[i..][1..] == batch[i + 1..];
        accepted := accepted[p := AcceptedOf(accepted, p) + values];
      }
    }
  }

  /** The non-empty pieces between newlines. */
  method SplitLines(b: Bytes) returns (values: seq<Bytes>)
    ensures values == Lines(b)
  {
    hide LineLen;
    values := [];
    var left := b;
    while LineLen(left) > 0
      invariant values + Lines(left) == Lines(b)
      decreases |left|
    {
      var k := LineLen(left);
      var line := Text(left[..k]);
      assert values + (line + Lines(left[k..])) == values + line + Lines(left[k..]);
      values, left := values + line, left[k..];
    }
  }

  /** How the stat, the open and the read of a file end; the read may stop short. */
  datatype FileEnds = FileEnds(found: bool, readable: bool, cut: Option<nat>)

  predicate IsWhole(e: FileEnds) {
    e.found && e.readable && e.cut.None?
  }

  /** How far into b a read from an offset gets. */
  function ReadTo(b: Bytes, offset: nat, e: FileEnds): (n: nat)
    requires offset <= |b|
    ensures offset <= n <= |b|
  {
    if e.cut.Some? && offset + e.cut.value <= |b| then offset + e.cut.value else |b|
  }

  /** The file has complete non-empty lines to give beyond its offset, as far as it can be read. */
  ghost predicate Yields(content: map<Path, Bytes>, offsets: map<Path, nat>, p: Path, e: FileEnds) {
    var b, n := ContentOf(content, p), OffsetOf(offsets, p);
    e.found && e.readable && n <= |b| && HasLine(b, n, ReadTo(b, n, e))
  }

  /** The item goes to the last newline that was read. */
  ghost predicate TakesAll(content: map<Path, Bytes>, offsets: map<Path, nat>, i: Item, e: FileEnds) {
    var b, n := ContentOf(content, i.path), OffsetOf(offsets, i.path);
    n <= |b| && i.newOffset <= ReadTo(b, n, e) && LF !in b[i.newOffset..ReadTo(b, n, e)]
  }

  /** Reads b[offset..to]; a failed read brings no values. */
  method ReadFrom(b: Bytes, offset: nat, e: FileEnds) returns (values: seq<Bytes>, newOffset: nat)
    requires offset < |b| && AtLine(b, offset)
    ensures values != [] <==> e.readable && HasLine(b, offset, ReadTo(b, offset, e))
    ensures values != [] ==>
              && offset < newOffset <= ReadTo(b, offset, e) && AtLine(b, newOffset)
              && values == Lines(b[offset..newOffset]) && LF !in b[newOffset..ReadTo(b, offset, e)]
  {
    hide Lines, Complete, HasLine;
    if !e.readable {
      return [], offset;
    }
    ghost var to := ReadTo(b, offset, e);
    var slice := b[offset..ReadTo(b, offset, e)];
    LinesOfPiece(b, offset, to);
    CompleteLines(slice);
    SliceComplete(b, offset, to);
    var end := Complete(slice);
    if end == 0 {
      EmptyHasNoLines();
      assert slice[..0] == [];
      return [], offset;
    }
    newOffset := offset + end;
    values := SplitLines(slice[..end]);
  }

  lemma SliceComplete(b: Bytes, offset: nat, to: nat)
    requires offset <= to <= |b|
    ensures var n := Complete(b[offset..to]);
            && b[offset..to][..n] == b[offset..offset + n] && b[offset + n..to] == b[offset..to][n..]
            && LF !in b[offset + n..to] && (n > 0 ==> b[offset + n - 1] == LF)
  {
    hide Complete;
    CompleteAtLine(b[offset..to]);
  }

  /** How a push ends: whether the sink gets it, and whether its 2xx comes back. */
  datatype PushEnds = PushEnds(reached: bool, answered: bool)

  class Shipper {
    const disk: Disk
    const sink: Sink
    var offsets: map<Path, nat>
    var lastFlush: int
    /** Set once the sink has stored a batch without the shipper hearing so. */
    ghost var unsure: bool

    constructor (disk: Disk, sink: Sink, now: int)
      requires sink.accepted == map[]
      ensures this.disk == disk && this.sink == sink && Valid() && !unsure
    {
      this.disk, this.sink := disk, sink;
      offsets, lastFlush, unsure := map[], now, false;
      new;
      assert Lines([]) == [];
      assert forall p: Path :: ContentOf(disk.content, p)[..0] == [];
    }

    ghost predicate Valid()
      reads this, disk, sink
    {
      OffsetsFine(disk.content, offsets) && (!unsure ==> Exact(disk.content, offsets, sink.accepted))
    }

    /** The unread complete lines of one file; a file that is new, or has been truncated, starts at zero. */
    method CollectFile(p: Path, e: FileEnds) returns (item: Option<Item>)
      requires Valid()
      modifies `offsets
      ensures Valid() && forall q: Path :: OffsetOf(offsets, q) == OffsetOf(old(offsets), q)
      ensures item.Some? <==> Yields(disk.content, offsets, p, e)
      ensures item.Some? ==>
                && item.value.path == p && ItemFine(disk.content, offsets, item.value)
                && TakesAll(disk.content, offsets, item.value, e)
    {
      hide Lines, HasLine;
      assert AtLine(ContentOf(disk.content, p), OffsetOf(offsets, p));
      NothingBeyond(ContentOf(disk.content, p));
      if !e.found || p !in disk.content {
        return None;
      }
      var b := disk.content[p];
      var offset := if p in offsets && offsets[p] <= |b| then offsets[p] else 0;
      offsets := offsets[p := offset];
      if |b| <= offset {
        return None;
      }
      var values, end := ReadFrom(b, offset, e);
      return if values == [] then None else Some(Item(p, values, end));
    }

    /** A batch has an item for exactly the listed logs that have lines to give, as far as they can be read. */
    method CollectBatch(names: seq<Path>, ends: Path -> FileEnds) returns (batch: seq<Item>)
      requires Valid() && forall i, j :: 0 <= i < j < |names| ==> names[i] != names[j]
      modifies `offsets
      ensures Valid() && forall q: Path :: OffsetOf(offsets, q) == OffsetOf(old(offsets), q)
      ensures BatchFine(disk.content, offsets, batch)
      ensures forall i <- batch :: i.path in names && IsLog(i.path) && TakesAll(disk.content, offsets, i, ends(i.path))
      ensures forall p <- names :: IsLog(p) ==>
                (ItemOf(batch, p).Some? <==> Yields(disk.content, offsets, p, ends(p)))
    {
      hide Lines, Yields, TakesAll, ItemFine, ItemOf;
      batch := [];
      for i := 0 to |names|
        invariant Valid() && forall q: Path :: OffsetOf(offsets, q) == OffsetOf(old(offsets), q)
        invariant BatchFine(disk.content, offsets, batch)
        invariant forall x <- batch :: x.path in names[..i] && IsLog(x.path) && TakesAll(disk.content, offsets, x, ends(x.path))
        invariant forall p <- names[..i] :: IsLog(p) ==>
                    (ItemOf(batch, p).Some? <==> Yields(disk.content, offsets, p, ends(p)))
      {
        ghost var before := offsets;
        if IsLog(names[i]) {
          var item := CollectFile(names[i], ends(names[i]));
          SameYields(disk.content, before, offsets, ends);
          SameItems(disk.content, before, offsets, batch, ends);
          OneMoreItem(batch, names[i], item);
          if item.Some? {
            batch := batch + [item.value];
          }
        }
      }
      assert names[..|names|] == names;
    }

    /** True only on a 2xx; the sink may have stored the batch all the same. */
    method PushToSink(batch: seq<Item>, push: PushEnds) returns (ok: bool)
      modifies sink, `unsure
      ensures sink.accepted == if push.reached then Shipped(old(sink.accepted), batch) else old(sink.accepted)
      ensures ok == (push.reached && push.answered)
      ensures unsure == (old(unsure) || (push.reached && !push.answered))
    {
      if push.reached {
        sink.Store(batch);
      }
      ok := push.reached && push.answered;
      unsure := unsure || (push.reached && !push.answered);
    }

    method Commit(batch: seq<Item>)
      modifies `offsets
      ensures offsets == Committed(old(offsets), batch)
    {
      assert batch[0..] == batch;
      for i := 0 to |batch|
        invariant Committed(offsets, batch[i..]) == Committed(old(offsets), batch)
      {
        assert batch[i..][0] == batch[i] && batch[i..][1..] == batch[i + 1..];
        offsets := offsets[batch[i].path := batch[i].newOffset];
      }
    }

    /** Pushes a batch, and commits its offsets if that succeeds. */
    method Ship(batch: seq<Item>, push: PushEnds) returns (ok: bool)
      requires Valid() && BatchFine(disk.content, offsets, batch)
      modifies `offsets, `unsure, sink
      ensures Valid()
      ensures sink.accepted == if push.reached then Shipped(old(sink.accepted), batch) else old(sink.accepted)
      ensures ok == (push.reached && push.answered)
      ensures unsure == (old(unsure) || (push.reached && !push.answered))
      ensures forall p: Path :: OffsetOf(offsets, p) ==
                if ok && ItemOf(batch, p).Some? then ItemOf(batch, p).value.newOffset else OffsetOf(old(offsets), p)
    {
      hide Lines, Shipped, Committed, ItemFine, ItemOf;
      ghost var before, accepted := offsets, sink.accepted;
      ok := PushToSink(batch, push);
      if ok {
        Commit(batch);
        CommitIsExact(disk.content, before, accepted, batch);
        CommittedAt(before, batch);
      }
    }

    /** No listed log has a complete non-empty line that has not been shipped. */
    ghost predicate Drained(names: seq<Path>)
      reads this, disk
    {
      forall p <- names :: IsLog(p) ==>
        !HasLine(ContentOf(disk.content, p), OffsetOf(offsets, p), |ContentOf(disk.content, p)|)
    }

    /**
      One tick at time now. A batch goes out when it is forced, large or old enough; offsets move only
      with a push that succeeded, and then to exactly what it shipped. When every file could be read, a
      forced tick that is done leaves nothing behind.
    */
    method Tick(force: bool, now: int, names: seq<Path>, ends: Path -> FileEnds, push: PushEnds)
        returns (done: bool, ghost batch: seq<Item>)
      requires Valid() && forall i, j :: 0 <= i < j < |names| ==> names[i] != names[j]
      modifies this, sink
      ensures Valid() && BatchFine(disk.content, old(offsets), batch)
      ensures forall i <- batch :: i.path in names && IsLog(i.path)
      ensures forall p <- names :: IsLog(p) ==>
                (ItemOf(batch, p).Some? <==> Yields(disk.content, old(offsets), p, ends(p)))
      ensures var due := force || Total(batch) >= BATCH_MAX || now - old(lastFlush) >= FLUSH_MS;
              var pushed := batch != [] && due;
              && done == (if batch == [] then force else due && push.reached && push.answered)
              && sink.accepted == (if pushed && push.reached then Shipped(old(sink.accepted), batch) else old(sink.accepted))
              && unsure == (old(unsure) || (pushed && push.reached && !push.answered))
              && lastFlush == if (batch == [] && !force) || (pushed && done) then now else old(lastFlush)
      ensures forall p: Path :: OffsetOf(offsets, p) ==
                if done && ItemOf(batch, p).Some? then ItemOf(batch, p).value.newOffset else OffsetOf(old(offsets), p)
      ensures force && done && (forall p <- names :: IsWhole(ends(p))) ==> Drained(names)
      ensures !unsure && Drained(names) ==>
                forall p <- names :: IsLog(p) ==> AcceptedOf(sink.accepted, p) == Lines(ContentOf(disk.content, p))
    {
      hide Lines, Shipped, Committed, Yields, TakesAll, BatchFine, OffsetsFine, Exact, ItemOf, OffsetOf, AcceptedOf, Total,
        HasLine, NothingLeft;
      ghost var old0 := offsets;
      var b := CollectBatch(names, ends);
      batch := b;
      SameBatch(disk.content, old0, offsets, batch);
      SameYields(disk.content, old0, offsets, ends);
      SameItems(disk.content, old0, offsets, batch, ends);
      BatchTotal(disk.content, offsets, b);
      done := false;
      if Total(b) == 0 {
        done := force;
        if !force {
          lastFlush := now;
        }
      } else if force || Total(b) >= BATCH_MAX || now - lastFlush >= FLUSH_MS {
        done := Ship(b, push);
        if done {
          lastFlush := now;
        }
      }
      LeavesNothing(disk.content, old0, offsets, names, ends, batch, done);
      DrainedIsDrained(names);
      if !unsure {
        AllShipped(disk.content, offsets, sink.accepted, names);
      }
    }

    lemma DrainedIsDrained(names: seq<Path>)
      ensures Drained(names) <==> NothingLeft(disk.content, offsets, names)
    {
    }

    /** The final drain: forced ticks until one succeeds. */
    method Shutdown(now: int, names: seq<Path>, ends: Path -> FileEnds, pushes: nat -> PushEnds) returns (done: bool)
      requires Valid() && forall i, j :: 0 <= i < j < |names| ==> names[i] != names[j]
      modifies this, sink
      ensures Valid()
      ensures (exists k: nat :: k < DRAIN_ATTEMPTS && pushes(k).reached && pushes(k).answered) ==> done
      ensures done && (forall p <- names :: IsWhole(ends(p))) ==> Drained(names)
    {
      hide Drained;
      ghost var batch;
      done := false;
      for attempt := 0 to DRAIN_ATTEMPTS
        invariant Valid() && !done
        invariant forall k: nat :: k < attempt ==> !(pushes(k).reached && pushes(k).answered)
      {
        done, batch := Tick(true, now, names, ends, pushes(attempt));
        if done {
          return;
        }
      }
    }

    /** The application logs between two ticks. */
    method Logged(p: Path, b: Bytes)
      requires Valid()
      modifies disk
      ensures Valid() && disk.content == old(disk.content)[p := ContentOf(old(disk.content), p) + b]
    {
      ghost var before := disk.content;
      disk.Append(p, b);
      GrowthIsExact(before, disk.content, offsets, sink.accepted);
    }
  }

  lemma NothingBeyond(b: Bytes)
    ensures !HasLine(b, |b|, |b|) && !HasLine([], 0, 0)
  {
  }

  lemma SameYields(content: map<Path, Bytes>, offsets: map<Path, nat>, offsets1: map<Path, nat>, ends: Path -> FileEnds)
    requires forall p: Path :: OffsetOf(offsets1, p) == OffsetOf(offsets, p)
    ensures forall p: Path :: Yields(content, offsets1, p, ends(p)) == Yields(content, offsets, p, ends(p))
  {
    hide HasLine, OffsetOf, ContentOf;
  }

  lemma SameItems(content: map<Path, Bytes>, offsets: map<Path, nat>, offsets1: map<Path, nat>, batch: seq<Item>,
                  ends: Path -> FileEnds)
    requires forall p: Path :: OffsetOf(offsets1, p) == OffsetOf(offsets, p)
    ensures forall i <- batch ::
              && ItemFine(content, offsets1, i) == ItemFine(content, offsets, i)
              && TakesAll(content, offsets1, i, ends(i.path)) == TakesAll(content, offsets, i, ends(i.path))
  {
    hide Lines, OffsetOf, ContentOf;
  }

  lemma {:induction false} ItemAmong(batch: seq<Item>, more: seq<Item>, p: Path)
    ensures ItemOf(batch + more, p) == if ItemOf(batch, p).Some? then ItemOf(batch, p) else ItemOf(more, p)
  {
    if batch == [] {
      assert batch + more == more;
    } else {
      assert (batch + more)[1..] == batch[1..] + more;
      ItemAmong(batch[1..], more, p);
    }
  }

  lemma OneMoreItem(batch: seq<Item>, q: Path, item: Option<Item>)
    requires item.Some? ==> item.value.path == q
    requires forall i <- batch :: i.path != q
    ensures ItemOf(batch, q).None?
    ensures item.Some? ==>
              forall p: Path :: ItemOf(batch + [item.value], p) == if p == q then item else ItemOf(batch, p)
  {
    hide ItemOf;
    ItemIsIn(batch, q);
    if item.Some? {
      forall p: Path
        ensures ItemOf(batch + [item.value], p) == if p == q then item else ItemOf(batch, p)
      {
        ItemAmong(batch, [item.value], p);
        ItemAlone(item.value, p);
      }
    }
  }

  lemma ItemAlone(i: Item, p: Path)
    ensures ItemOf([i], p) == if i.path == p then Some(i) else None
  {
    assert [i][1..] == [];
  }

  lemma CommittedAt(offsets: map<Path, nat>, batch: seq<Item>)
    requires Distinct(batch)
    ensures forall p: Path :: OffsetOf(Committed(offsets, batch), p) ==
              if ItemOf(batch, p).Some? then ItemOf(batch, p).value.newOffset else OffsetOf(offsets, p)
  {
    hide Distinct, Committed, ItemOf, Shipped;
    forall p: Path
      ensures OffsetOf(Committed(offsets, batch), p) ==
              if ItemOf(batch, p).Some? then ItemOf(batch, p).value.newOffset else OffsetOf(offsets, p)
    {
      ShippedAt(map[], offsets, batch, p);
    }
  }

  ghost predicate NothingLeft(content: map<Path, Bytes>, offsets: map<Path, nat>, names: seq<Path>) {
    forall p <- names :: IsLog(p) ==>
      !HasLine(ContentOf(content, p), OffsetOf(offsets, p), |ContentOf(content, p)|)
  }

  /** A batch of all there is, once committed, leaves nothing. */
  lemma LeavesNothing(content: map<Path, Bytes>, before: map<Path, nat>, after: map<Path, nat>, names: seq<Path>,
                      ends: Path -> FileEnds, batch: seq<Item>, done: bool)
    requires OffsetsFine(content, before)
    requires forall p <- names :: IsLog(p) ==> (ItemOf(batch, p).Some? <==> Yields(content, before, p, ends(p)))
    requires forall i <- batch :: TakesAll(content, before, i, ends(i.path))
    requires forall p: Path :: OffsetOf(after, p) ==
               if done && ItemOf(batch, p).Some? then ItemOf(batch, p).value.newOffset else OffsetOf(before, p)
    ensures done && (forall p <- names :: IsWhole(ends(p))) ==> NothingLeft(content, after, names)
  {
    hide HasLine, ItemOf, OffsetOf, ContentOf;
    if done && forall p <- names :: IsWhole(ends(p)) {
      forall p <- names | IsLog(p)
        ensures !HasLine(ContentOf(content, p), OffsetOf(after, p), |ContentOf(content, p)|)
      {
        assert AtLine(ContentOf(content, p), OffsetOf(before, p));
        ItemIsIn(batch, p);
        if ItemOf(batch, p).Some? {
          NoLineBeyond(ContentOf(content, p), OffsetOf(after, p), |ContentOf(content, p)|);
        }
      }
    }
  }

  /** Where nothing is left, an exact sink has every line. */
  lemma AllShipped(content: map<Path, Bytes>, offsets: map<Path, nat>, accepted: map<Path, seq<Bytes>>, names: seq<Path>)
    requires OffsetsFine(content, offsets) && Exact(content, offsets, accepted)
    ensures NothingLeft(content, offsets, names) ==>
              forall p <- names :: IsLog(p) ==> AcceptedOf(accepted, p) == Lines(ContentOf(content, p))
  {
    hide Lines, HasLine, OffsetOf, ContentOf, AcceptedOf;
    if NothingLeft(content, offsets, names) {
      forall p <- names | IsLog(p)
        ensures AcceptedOf(accepted, p) == Lines(ContentOf(content, p))
      {
        assert AtLine(ContentOf(content, p), OffsetOf(offsets, p));
        AllLines(ContentOf(content, p), OffsetOf(offsets, p));
      }
    }
  }

  lemma SameBatch(content: map<Path, Bytes>, offsets: map<Path, nat>, offsets1: map<Path, nat>, batch: seq<Item>)
    requires BatchFine(content, offsets1, batch) && forall p: Path :: OffsetOf(offsets1, p) == OffsetOf(offsets, p)
    ensures BatchFine(content, offsets, batch)
  {
    hide Lines;
  }

  /** Every stream of a batch has lines. */
  lemma BatchTotal(content: map<Path, Bytes>, offsets: map<Path, nat>, batch: seq<Item>)
    requires BatchFine(content, offsets, batch)
    ensures Total(batch) == 0 <==> batch == []
    ensures batch == [] ==> forall p: Path :: ItemOf(batch, p).None?
  {
    hide Lines;
    if batch != [] {
      assert batch[0] in batch && ItemFine(content, offsets, batch[0]);
    }
  }
}
