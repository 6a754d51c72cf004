/**
  The log shipper with its shutdown: the final drain may run while a tick of the poll loop is still
  waiting for the disk or the sink (services/log-shipper/index.js). Every step ends at an await, and
  the steps of the two ticks, of the application that logs, and of the disk and sink interleave.
*/
module ShipperRace {
  import opened Resp
  import opened LogLines
  import opened LogShipper

  /** Bytes read at an offset, and the offset to commit once they are shipped. */
  datatype Chunk = Chunk(path: Path, at: nat, text: Bytes, newOffset: nat)

  datatype Tick =
    | Asleep
    | Listing(todo: seq<Path>, batch: seq<Chunk>)
    | Looking(path: Path, least: nat, todo: seq<Path>, batch: seq<Chunk>)
    | Opening(path: Path, length: nat, todo: seq<Path>, batch: seq<Chunk>)
    | Reading(path: Path, length: nat, at: nat, todo: seq<Path>, batch: seq<Chunk>)
    | Pushing(batch: seq<Chunk>)

  datatype Who = Poll | Drain

  datatype Act =
    | Start(names: seq<Path>)
    | Look
    | Stat(found: bool, size: nat)
    | Open(ok: bool)
    | Read(ok: bool, bytes: nat)
    | Ship(due: bool)
    | Push(stored: bool, ok: bool)

  datatype Action = Log(path: Path, b: Bytes) | Signal | Exit | Step(who: Who, act: Act)

  datatype State = State(disk: map<Path, Bytes>, offsets: map<Path, nat>, sink: seq<Chunk>,
                         poll: Tick, drain: Tick, running: bool, exited: bool)

  const INIT := State(map[], map[], [], Asleep, Asleep, true, false)

  function TickOf(s: State, who: Who): Tick {
    if who.Poll? then s.poll else s.drain
  }

  /** A directory lists a name once. */
  ghost predicate NoRepeat(names: seq<Path>) {
    forall i, j :: 0 <= i < j < |names| ==> names[i] != names[j]
  }

  ghost predicate ActCan(s: State, who: Who, act: Act) {
    var tick := TickOf(s, who);
    match act
    case Start(names) => tick.Asleep? && (who.Poll? <==> s.running) && NoRepeat(names)
    case Look => tick.Listing? && tick.todo != []
    // The size is one the file had at some time since the stat was issued.
    case Stat(_, size) => tick.Looking? && tick.least <= size <= |ContentOf(s.disk, tick.path)|
    case Open(_) => tick.Opening?
    case Read(_, _) => tick.Reading?
    case Ship(_) => tick.Listing? && tick.todo == []
    case Push(stored, ok) => tick.Pushing? && (ok ==> stored)
  }

  ghost predicate Can(s: State, a: Action) {
    !s.exited &&
    match a
    case Log(_, _) => true
    case Signal => s.running
    case Exit => !s.running && s.drain.Asleep?
    case Step(who, act) => ActCan(s, who, act)
  }

  /** What a read brings: perhaps less than asked for, and nothing beyond the end. */
  function Slice(b: Bytes, at: nat, bytes: nat): Bytes {
    if at > |b| then [] else if at + bytes <= |b| then b[at..at + bytes] else b[at..]
  }

  function CommittedChunks(offsets: map<Path, nat>, batch: seq<Chunk>): map<Path, nat>
    decreases |batch|
  {
    if batch == [] then offsets else CommittedChunks(offsets[batch[0].path := batch[0].newOffset], batch[1..])
  }

  /** After the stat of a file: a new file, and one shorter than its offset, start at zero. */
  function Started(s: State, p: Path, size: nat): map<Path, nat> {
    s.offsets[p := if OffsetOf(s.offsets, p) <= size then OffsetOf(s.offsets, p) else 0]
  }

  function NextTick(s: State, who: Who, act: Act): Tick
    requires ActCan(s, who, act)
  {
    var tick := TickOf(s, who);
    match act
    case Start(names) => Listing(names, [])
    case Look =>
      var p, todo := tick.todo[0], tick.todo[1..];
      if IsLog(p) then Looking(p, |ContentOf(s.disk, p)|, todo, tick.batch) else Listing(todo, tick.batch)
    case Stat(found, size) =>
      var offset := OffsetOf(Started(s, tick.path, size), tick.path);
      if !found || size <= offset then Listing(tick.todo, tick.batch)
      else Opening(tick.path, size - offset, tick.todo, tick.batch)
    case Open(ok) =>
      // The position of the read is the offset now, not the one that the length was computed from.
      if ok then Reading(tick.path, tick.length, OffsetOf(s.offsets, tick.path), tick.todo, tick.batch)
      else Listing(tick.todo, tick.batch)
    case Read(ok, bytes) =>
      var slice := Slice(ContentOf(s.disk, tick.path), tick.at, if bytes <= tick.length then bytes else tick.length);
      var text := slice[..Complete(slice)];
      if !ok || Lines(text) == [] then Listing(tick.todo, tick.batch)
      else
        // So is the offset that the new one is counted from.
        var c := Chunk(tick.path, tick.at, text, OffsetOf(s.offsets, tick.path) + |text|);
        Listing(tick.todo, tick.batch + [c])
    case Ship(due) => if tick.batch != [] && (due || who.Drain?) then Pushing(tick.batch) else Asleep
    case Push(_, _) => Asleep
  }

  /** The drain is over, and the process exits, once nothing is left to push or a push succeeded. */
  function Do(s: State, a: Action): State
    requires Can(s, a)
  {
    match a
    case Log(p, b) => s.(disk := s.disk[p := ContentOf(s.disk, p) + b])
    case Signal => s.(running := false)
    case Exit => s.(exited := true)
    case Step(who, act) =>
      var tick, next := TickOf(s, who), NextTick(s, who, act);
      var t := if who.Poll? then s.(poll := next) else s.(drain := next);
      match act
      case Stat(found, size) =>
        if found then t.(offsets := Started(s, tick.path, size)) else t
      case Ship(_) => t.(exited := who.Drain? && tick.batch == [])
      case Push(stored, ok) =>
        t.(sink := if stored then s.sink + tick.batch else s.sink,
           offsets := if ok then CommittedChunks(s.offsets, tick.batch) else s.offsets,
           exited := who.Drain? && ok)
      case _ => t
  }

  ghost predicate Runs(s: State, trace: seq<Action>, t: State)
    decreases |trace|
  {
    if trace == [] then s == t else Can(s, trace[0]) && Runs(Do(s, trace[0]), trace[1..], t)
  }

  // ---- a tick takes every file once ----

  function PathsOf(batch: seq<Chunk>): seq<Path> {
    seq(|batch|, i requires 0 <= i < |batch| => batch[i].path)
  }

  /** The files a tick has taken or has still to look at. */
  function PathsIn(tick: Tick): seq<Path> {
    match tick
    case Asleep => []
    case Listing(todo, batch) => PathsOf(batch) + todo
    case Looking(p, _, todo, batch) => PathsOf(batch) + ([p] + todo)
    case Opening(p, _, todo, batch) => PathsOf(batch) + ([p] + todo)
    case Reading(p, _, _, todo, batch) => PathsOf(batch) + ([p] + todo)
    case Pushing(batch) => PathsOf(batch)
  }

  lemma DropOne(a: seq<Path>, p: Path, b: seq<Path>)
    requires NoRepeat(a + ([p] + b))
    ensures NoRepeat(a + b)
  {
    var all, less := a + ([p] + b), a + b;
    forall i, j | 0 <= i < j < |less|
      ensures less[i] != less[j]
    {
      var x, y := if i < |a| then i else i + 1, if j < |a| then j else j + 1;
      assert less[i] == all[x] && less[j] == all[y];
    }
  }

  lemma PathsKept(s: State, who: Who, act: Act)
    requires ActCan(s, who, act) && NoRepeat(PathsIn(TickOf(s, who)))
    ensures NoRepeat(PathsIn(NextTick(s, who, act)))
  {
    hide Lines, Slice, Complete, NoRepeat;
    var tick, next := TickOf(s, who), NextTick(s, who, act);
    match act
    case Start(names) =>
      assert PathsOf([]) + names == names;
      StartsOnce(s, who, names);
    case Look =>
      assert tick.todo == [tick.todo[0]] + tick.todo[1..];
      DropOne(PathsOf(tick.batch), tick.todo[0], tick.todo[1..]);
    case Stat(_, _) => DropOne(PathsOf(tick.batch), tick.path, tick.todo);
    case Open(_) => DropOne(PathsOf(tick.batch), tick.path, tick.todo);
    case Read(_, _) =>
      DropOne(PathsOf(tick.batch), tick.path, tick.todo);
      if next.batch != tick.batch {
        assert PathsIn(next) == PathsIn(tick);
      }
    case Ship(_) =>
      assert PathsOf(tick.batch) + [] == PathsOf(tick.batch);
      NothingOnce();
    case Push(_, _) => NothingOnce();
  }

  lemma StartsOnce(s: State, who: Who, names: seq<Path>)
    requires ActCan(s, who, Start(names))
    ensures NoRepeat(names)
  {
  }

  lemma NothingOnce()
    ensures NoRepeat([])
  {
  }

  lemma NextOf(s: State, a: Action)
    requires Can(s, a)
    ensures Do(s, a).poll == if a.Step? && a.who.Poll? then NextTick(s, Poll, a.act) else s.poll
    ensures Do(s, a).drain == if a.Step? && a.who.Drain? then NextTick(s, Drain, a.act) else s.drain
  {
    hide NextTick;
  }

  /** The drain ends the process just when all that it has collected is accepted; until then it may try again. */
  lemma ExitsWhenDrained(s: State, act: Act)
    requires Can(s, Step(Drain, act)) && (act.Ship? || act.Push?)
    ensures var t := Do(s, Step(Drain, act));
            && (t.exited <==> if act.Ship? then s.drain.batch == [] else act.ok)
            && (t.exited ==> forall c <- s.drain.batch :: c in t.sink)
            && (!t.exited && act.Push? ==> t.drain.Asleep? && t.offsets == s.offsets)
            && (act.Ship? && !t.exited ==> t.drain == Pushing(s.drain.batch))
  {
    hide Lines, Slice, Complete, CommittedChunks;
  }

  /** The process ends just when the drain has nothing to push, or its push succeeds, or it gives up. */
  lemma ExitsIff(s: State, a: Action)
    requires Can(s, a)
    ensures Do(s, a).exited <==>
              || a.Exit?
              || (a.Step? && a.who.Drain? && if a.act.Ship? then s.drain.batch == [] else a.act.Push? && a.act.ok)
    ensures Do(s, a).exited ==> forall b :: !Can(Do(s, a), b)
  {
    hide Lines, Slice, Complete, CommittedChunks;
  }

  // ---- the invariant ----

  /** A chunk is what the file holds there, and splits no line. */
  ghost predicate ChunkFine(disk: map<Path, Bytes>, c: Chunk) {
    var b := ContentOf(disk, c.path);
    AtLine(b, c.at) && c.text != [] && AtLine(b, c.at + |c.text|) && c.text == b[c.at..c.at + |c.text|]
  }

  ghost predicate Covers(c: Chunk, p: Path, i: nat) {
    c.path == p && c.at <= i < c.at + |c.text|
  }

  ghost predicate Covered(sink: seq<Chunk>, p: Path, i: nat) {
    exists c <- sink :: Covers(c, p, i)
  }

  /** A chunk that will commit to its own end. */
  ghost predicate Unskewed(c: Chunk) {
    c.newOffset == c.at + |c.text|
  }

  function BatchOf(tick: Tick): seq<Chunk> {
    if tick.Asleep? then [] else tick.batch
  }

  ghost predicate TickFine(disk: map<Path, Bytes>, offsets: map<Path, nat>, tick: Tick) {
    && (forall c <- BatchOf(tick) :: ChunkFine(disk, c) && c.at <= OffsetOf(offsets, c.path))
    && (tick.Reading? ==> AtLine(ContentOf(disk, tick.path), tick.at) && tick.at <= OffsetOf(offsets, tick.path))
  }

  /** Nothing moves the offsets under the poll loop. */
  ghost predicate PollFine(offsets: map<Path, nat>, tick: Tick) {
    && (tick.Looking? ==> OffsetOf(offsets, tick.path) <= tick.least)
    && (forall c <- BatchOf(tick) :: Unskewed(c) && c.at == OffsetOf(offsets, c.path))
    && (tick.Reading? ==> tick.at == OffsetOf(offsets, tick.path))
  }

  ghost predicate OffsetFine(s: State, p: Path) {
    AtLine(ContentOf(s.disk, p), OffsetOf(s.offsets, p)) && forall i: nat :: i < OffsetOf(s.offsets, p) ==> Covered(s.sink, p, i)
  }

  /**
    The drain starts after the last poll. A commit can overtake its stat, and its file then starts again
    from zero, but that was the last commit of the poll loop.
  */
  ghost predicate DrainLast(s: State) {
    && NoRepeat(PathsIn(s.poll)) && NoRepeat(PathsIn(s.drain))
    && (!s.drain.Asleep? ==> !s.running)
    && (s.drain.Looking? ==> s.poll.Asleep? || OffsetOf(s.offsets, s.drain.path) <= s.drain.least)
  }

  ghost predicate Sound(s: State) {
    Backed(s) && (!s.exited ==> DrainLast(s))
  }

  /** While the process runs, only the poll loop commits. */
  ghost predicate Backed(s: State) {
    && (forall c <- s.sink :: ChunkFine(s.disk, c))
    && (!s.exited ==>
          && TickFine(s.disk, s.offsets, s.poll) && TickFine(s.disk, s.offsets, s.drain) && PollFine(s.offsets, s.poll)
          && forall p: Path :: OffsetFine(s, p))
  }

  /** Steps that touch neither disk nor sink nor offsets. */
  lemma OffsetsKept(s: State, t: State)
    requires forall p: Path :: OffsetFine(s, p)
    requires t.disk == s.disk && t.sink == s.sink && t.offsets == s.offsets
    ensures forall p: Path :: OffsetFine(t, p)
  {
    hide Covered;
    forall p: Path
      ensures OffsetFine(t, p)
    {
      assert OffsetFine(s, p);
    }
  }

  lemma GrownChunk(disk: map<Path, Bytes>, p: Path, more: Bytes, c: Chunk)
    requires ChunkFine(disk, c)
    ensures ChunkFine(disk[p := ContentOf(disk, p) + more], c)
  {
  }

  lemma LogKept(s: State, p: Path, b: Bytes)
    requires Backed(s) && Can(s, Log(p, b))
    ensures Backed(Do(s, Log(p, b)))
  {
    hide ChunkFine, Covered;
    var t := Do(s, Log(p, b));
    forall c | ChunkFine(s.disk, c)
      ensures ChunkFine(t.disk, c)
    {
      GrownChunk(s.disk, p, b, c);
    }
    assert forall q: Path :: ContentOf(s.disk, q) <= ContentOf(t.disk, q);
    forall q: Path
      ensures OffsetFine(t, q)
    {
      assert OffsetFine(s, q);
    }
  }

  lemma SameOffsets(s: State, t: State, tick: Tick)
    requires t.disk == s.disk && t.sink == s.sink && forall p: Path :: OffsetOf(t.offsets, p) == OffsetOf(s.offsets, p)
    ensures TickFine(s.disk, s.offsets, tick) ==> TickFine(t.disk, t.offsets, tick)
    ensures PollFine(s.offsets, tick) ==> PollFine(t.offsets, tick)
    ensures (forall p: Path :: OffsetFine(s, p)) ==> forall p: Path :: OffsetFine(t, p)
  {
    hide ChunkFine, Covered, OffsetOf;
    if forall p: Path :: OffsetFine(s, p) {
      forall p: Path
        ensures OffsetFine(t, p)
      {
        assert OffsetFine(s, p);
      }
    }
  }

  lemma ListingFine(disk: map<Path, Bytes>, offsets: map<Path, nat>, tick: Tick, next: Tick)
    requires BatchOf(next) == BatchOf(tick) && !next.Reading?
    requires next.Looking? ==> OffsetOf(offsets, next.path) <= next.least
    ensures TickFine(disk, offsets, tick) ==> TickFine(disk, offsets, next)
    ensures PollFine(offsets, tick) ==> PollFine(offsets, next)
  {
    hide ChunkFine, OffsetOf;
  }

  lemma LookKept(s: State, who: Who)
    requires Backed(s) && Can(s, Step(who, Look))
    ensures Backed(Do(s, Step(who, Look)))
  {
    hide ChunkFine, TickFine, PollFine, Covered;
    var t := Do(s, Step(who, Look));
    var tick, next := TickOf(s, who), TickOf(t, who);
    assert OffsetFine(s, tick.todo[0]);
    ListingFine(s.disk, s.offsets, tick, next);
    OffsetsKept(s, t);
  }

  /** Looking at a file moves no offset, unless a commit has overtaken the look. */
  lemma StatKept(s: State, who: Who, found: bool, size: nat)
    requires Backed(s) && Can(s, Step(who, Stat(found, size)))
    requires OffsetOf(s.offsets, TickOf(s, who).path) <= size
    ensures Backed(Do(s, Step(who, Stat(found, size))))
  {
    hide ChunkFine, TickFine, PollFine;
    var t := Do(s, Step(who, Stat(found, size)));
    assert forall p: Path :: OffsetOf(t.offsets, p) == OffsetOf(s.offsets, p);
    hide OffsetFine, Started, OffsetOf;
    ListingFine(s.disk, s.offsets, TickOf(s, who), TickOf(t, who));
    SameOffsets(s, t, t.poll);
    SameOffsets(s, t, t.drain);
  }

  /** The drain starts a file again that none of its chunks is from. */
  lemma StatResets(s: State, found: bool, size: nat)
    requires Backed(s) && DrainLast(s) && Can(s, Step(Drain, Stat(found, size)))
    requires size < OffsetOf(s.offsets, s.drain.path)
    ensures Backed(Do(s, Step(Drain, Stat(found, size))))
  {
    hide ChunkFine, Covered;
    var t := Do(s, Step(Drain, Stat(found, size)));
    assert s.poll.Asleep? && BatchOf(t.drain) == BatchOf(s.drain);
    NotYetTaken(s.drain);
    assert forall p: Path :: p != s.drain.path ==> OffsetOf(t.offsets, p) == OffsetOf(s.offsets, p);
    forall p: Path
      ensures OffsetFine(t, p)
    {
      assert OffsetFine(s, p);
    }
  }

  lemma NotYetTaken(tick: Tick)
    requires NoRepeat(PathsIn(tick)) && !tick.Asleep? && !tick.Listing? && !tick.Pushing?
    ensures forall c <- tick.batch :: c.path != tick.path
  {
    var taken := PathsOf(tick.batch);
    var all := taken + ([tick.path] + tick.todo);
    assert all[|taken|] == tick.path;
    forall c <- tick.batch
      ensures c.path != tick.path
    {
      var i :| 0 <= i < |tick.batch| && tick.batch[i] == c;
      assert all[i] == taken[i] == c.path;
    }
  }

  lemma SliceOf(b: Bytes, at: nat, n: nat, c: nat)
    requires at <= |b| && c <= |Slice(b, at, n)|
    ensures at + c <= |b| && Slice(b, at, n)[..c] == b[at..at + c]
    ensures c > 0 ==> Slice(b, at, n)[c - 1] == b[at + c - 1]
  {
  }

  lemma SliceFine(b: Bytes, at: nat, n: nat)
    requires AtLine(b, at)
    ensures var text := Slice(b, at, n)[..Complete(Slice(b, at, n))];
            at + |text| <= |b| && text == b[at..at + |text|] && AtLine(b, at + |text|)
  {
    hide Slice, Complete;
    var slice := Slice(b, at, n);
    CompleteAtLine(slice);
    SliceOf(b, at, n, Complete(slice));
  }

  /** What a read adds to the batch. */
  lemma NewChunk(s: State, who: Who, ok: bool, bytes: nat)
    requires ActCan(s, who, Read(ok, bytes)) && AtLine(ContentOf(s.disk, TickOf(s, who).path), TickOf(s, who).at)
    ensures var tick, next := TickOf(s, who), NextTick(s, who, Read(ok, bytes));
            && next.Listing?
            && (next.batch != tick.batch ==>
                  && next.batch != [] && next.batch[..|next.batch| - 1] == tick.batch
                  && var c := next.batch[|next.batch| - 1];
                     && ChunkFine(s.disk, c) && c.path == tick.path && c.at == tick.at
                     && c.newOffset == OffsetOf(s.offsets, tick.path) + |c.text|)
  {
    hide Lines, Slice, Complete;
    var tick := TickOf(s, who);
    SliceFine(ContentOf(s.disk, tick.path), tick.at, if bytes <= tick.length then bytes else tick.length);
    EmptyHasNoLines();
  }

  lemma SliceIs(b: Bytes, at: nat, n: nat)
    requires at <= |b|
    ensures at + |Slice(b, at, n)| <= |b| && Slice(b, at, n) == b[at..at + |Slice(b, at, n)|]
  {
  }

  /** A read that succeeds adds a chunk if and only if it brought a complete non-empty line. */
  lemma ReadCollects(s: State, who: Who, ok: bool, bytes: nat)
    requires ActCan(s, who, Read(ok, bytes)) && AtLine(ContentOf(s.disk, TickOf(s, who).path), TickOf(s, who).at)
    ensures var tick := TickOf(s, who);
            var b := ContentOf(s.disk, tick.path);
            var n := |Slice(b, tick.at, if bytes <= tick.length then bytes else tick.length)|;
            NextTick(s, who, Read(ok, bytes)).batch != tick.batch <==> ok && HasLine(b, tick.at, tick.at + n)
  {
    hide Lines, Slice, Complete, HasLine;
    var tick := TickOf(s, who);
    var b := ContentOf(s.disk, tick.path);
    var slice := Slice(b, tick.at, if bytes <= tick.length then bytes else tick.length);
    SliceIs(b, tick.at, if bytes <= tick.length then bytes else tick.length);
    LinesOfPiece(b, tick.at, tick.at + |slice|);
    CompleteLines(slice);
    assert forall c: Chunk :: |tick.batch + [c]| > |tick.batch|;
  }

  lemma ReadTickFine(s: State, who: Who, ok: bool, bytes: nat)
    requires ActCan(s, who, Read(ok, bytes)) && TickFine(s.disk, s.offsets, TickOf(s, who))
    ensures var next := NextTick(s, who, Read(ok, bytes));
            TickFine(s.disk, s.offsets, next) && (PollFine(s.offsets, TickOf(s, who)) ==> PollFine(s.offsets, next))
  {
    hide ChunkFine, NextTick;
    NewChunk(s, who, ok, bytes);
    var tick, next := TickOf(s, who), NextTick(s, who, Read(ok, bytes));
    assert next.batch != tick.batch ==> next.batch == tick.batch + [next.batch[|next.batch| - 1]];
  }

  lemma ReadKept(s: State, who: Who, ok: bool, bytes: nat)
    requires Backed(s) && Can(s, Step(who, Read(ok, bytes)))
    ensures Backed(Do(s, Step(who, Read(ok, bytes))))
  {
    hide OffsetFine, ChunkFine, NextTick, TickFine, PollFine;
    ReadTickFine(s, who, ok, bytes);
    OffsetsKept(s, Do(s, Step(who, Read(ok, bytes))));
  }

  lemma OpenKept(s: State, who: Who, ok: bool)
    requires Backed(s) && Can(s, Step(who, Open(ok)))
    ensures Backed(Do(s, Step(who, Open(ok))))
  {
    hide ChunkFine, Covered;
    var t := Do(s, Step(who, Open(ok)));
    assert OffsetFine(s, TickOf(s, who).path);
    OffsetsKept(s, t);
  }

  lemma TurnKept(s: State, who: Who, act: Act)
    requires Backed(s) && Can(s, Step(who, act)) && (act.Start? || act.Ship?)
    ensures Backed(Do(s, Step(who, act)))
  {
    hide ChunkFine, OffsetFine;
    var t := Do(s, Step(who, act));
    OffsetsKept(s, t);
  }

  lemma SignalKept(s: State, a: Action)
    requires Backed(s) && Can(s, a) && (a.Signal? || a.Exit?)
    ensures Backed(Do(s, a))
  {
    hide ChunkFine, OffsetFine;
    OffsetsKept(s, Do(s, a));
  }

  /** Every offset is as it was or some chunk's. */
  lemma {:induction false} CommittedFrom(offsets: map<Path, nat>, batch: seq<Chunk>, p: Path)
    ensures var n := OffsetOf(CommittedChunks(offsets, batch), p);
            if exists c <- batch :: c.path == p then exists c <- batch :: c.path == p && n == c.newOffset
            else n == OffsetOf(offsets, p)
    decreases |batch|
  {
    if batch != [] {
      CommittedFrom(offsets[batch[0].path := batch[0].newOffset], batch[1..], p);
      assert forall c <- batch :: c == batch[0] || c in batch[1..];
    }
  }

  /** Shipping unskewed chunks and committing them keeps everything below the offsets shipped. */
  lemma CommitFine(s: State, batch: seq<Chunk>, t: State, p: Path)
    requires OffsetFine(s, p) && t.disk == s.disk
    requires forall c <- batch :: c.path == p ==> ChunkFine(s.disk, c) && Unskewed(c) && c.at <= OffsetOf(s.offsets, p)
    requires t.sink == s.sink + batch && t.offsets == CommittedChunks(s.offsets, batch)
    ensures OffsetFine(t, p)
  {
    hide CommittedChunks;
    CommittedFrom(s.offsets, batch, p);
    var n := OffsetOf(t.offsets, p);
    forall i: nat | i < n
      ensures Covered(t.sink, p, i)
    {
      if i < OffsetOf(s.offsets, p) {
        assert Covered(s.sink, p, i);
        var c :| c in s.sink && Covers(c, p, i);
        assert c in t.sink;
      } else {
        var c :| c in batch && c.path == p && n == c.newOffset;
        assert Covers(c, p, i) && c in t.sink;
      }
    }
  }

  lemma MoreCovers(sink: seq<Chunk>, more: seq<Chunk>, p: Path)
    requires sink <= more
    ensures forall i: nat :: Covered(sink, p, i) ==> Covered(more, p, i)
  {
    hide Covers;
    assert forall c <- sink :: c in more;
  }

  lemma PushKept(s: State, who: Who, stored: bool, ok: bool)
    requires Backed(s) && Can(s, Step(who, Push(stored, ok)))
    ensures Backed(Do(s, Step(who, Push(stored, ok))))
  {
    hide ChunkFine, CommittedChunks, Covers;
    var t := Do(s, Step(who, Push(stored, ok)));
    var batch := TickOf(s, who).batch;
    if !t.exited {
      forall p: Path
        ensures OffsetFine(t, p) && OffsetOf(s.offsets, p) <= OffsetOf(t.offsets, p)
      {
        assert OffsetFine(s, p);
        if ok {
          CommitFine(s, batch, t, p);
          CommittedFrom(s.offsets, batch, p);
        } else {
          MoreCovers(s.sink, t.sink, p);
        }
      }
    }
  }

  /** Steps of the drain. */
  lemma DrainSteps(s: State, act: Act)
    requires Backed(s) && DrainLast(s) && Can(s, Step(Drain, act))
    ensures DrainLast(Do(s, Step(Drain, act)))
  {
    hide NoRepeat, PathsIn, ChunkFine, TickFine, PollFine, Lines, Slice, Complete;
    PathsKept(s, Drain, act);
    NextOf(s, Step(Drain, act));
    if act.Look? {
      assert OffsetFine(s, s.drain.todo[0]);
    }
  }

  /** Steps of the poll loop: it goes to sleep with its commit. */
  lemma PollSteps(s: State, act: Act)
    requires Backed(s) && DrainLast(s) && Can(s, Step(Poll, act))
    ensures DrainLast(Do(s, Step(Poll, act)))
  {
    hide NoRepeat, PathsIn, ChunkFine, TickFine, OffsetFine, CommittedChunks, Lines, Slice, Complete;
    PathsKept(s, Poll, act);
    NextOf(s, Step(Poll, act));
  }

  lemma DrainLastKept(s: State, a: Action)
    requires Sound(s) && Can(s, a)
    ensures DrainLast(Do(s, a))
  {
    hide Backed, PathsIn, NoRepeat, NextTick, ActCan;
    if a.Step? {
      if a.who.Poll? {
        PollSteps(s, a.act);
      } else {
        DrainSteps(s, a.act);
      }
    }
  }

  lemma BackedKept(s: State, a: Action)
    requires Sound(s) && Can(s, a)
    ensures Backed(Do(s, a))
  {
    match a
    case Step(who, Stat(found, size)) =>
      if OffsetOf(s.offsets, TickOf(s, who).path) <= size {
        StatKept(s, who, found, size);
      } else {
        StatResets(s, found, size);
      }
    case _ =>
      hide Backed, DrainLast, Do;
      match a {
        case Log(p, b) => LogKept(s, p, b);
        case Signal => SignalKept(s, a);
        case Exit => SignalKept(s, a);
        case Step(who, act) =>
          match act {
            case Look => LookKept(s, who);
            case Read(ok, bytes) => ReadKept(s, who, ok, bytes);
            case Push(stored, ok) => PushKept(s, who, stored, ok);
            case Open(ok) => OpenKept(s, who, ok);
            case _ => TurnKept(s, who, act);
          }
      }
  }

  lemma Kept(s: State, a: Action)
    requires Sound(s) && Can(s, a)
    ensures Sound(Do(s, a))
  {
    hide Backed, DrainLast, Do;
    BackedKept(s, a);
    DrainLastKept(s, a);
  }

  lemma {:induction false} AlwaysSoundFrom(s: State, trace: seq<Action>, t: State)
    requires Sound(s) && Runs(s, trace, t)
    ensures Sound(t)
    decreases |trace|
  {
    hide Sound, Can, Do;
    if trace != [] {
      Kept(s, trace[0]);
      AlwaysSoundFrom(Do(s, trace[0]), trace[1..], t);
    }
  }

  lemma AlwaysSound(trace: seq<Action>, s: State)
    requires Runs(INIT, trace, s)
    ensures Sound(s)
  {
    AlwaysSoundFrom(INIT, trace, s);
  }

  // ---- what it means for the lines ----

  ghost predicate LineShipped(s: State, p: Path, i: nat, j: nat)
    requires j <= |ContentOf(s.disk, p)| && i <= j
  {
    exists c <- s.sink :: c.path == p && ContentOf(s.disk, p)[i..j] in Lines(c.text)
  }

  /** A piece that splits no line holds a line whole or not at all. */
  lemma LineInPiece(b: Bytes, at: nat, end: nat, i: nat, j: nat)
    requires at <= i < end <= |b| && AtLine(b, at) && AtLine(b, end) && IsLine(b, i, j)
    ensures b[i..j] in Lines(b[at..end])
  {
    hide Lines;
    InsideLine(b, i, j);
    assert b[end - 1] == LF && j < end;
    SameSlice(b, at, end, i, j);
    LineAmong(b[at..end], i - at, j - at);
  }

  lemma LineInChunk(disk: map<Path, Bytes>, c: Chunk, i: nat, j: nat)
    requires ChunkFine(disk, c) && IsLine(ContentOf(disk, c.path), i, j) && Covers(c, c.path, i)
    ensures ContentOf(disk, c.path)[i..j] in Lines(c.text)
  {
    hide Lines, ContentOf, IsLine;
    LineInPiece(ContentOf(disk, c.path), c.at, c.at + |c.text|, i, j);
  }

  lemma ShippedBelow(s: State, p: Path, i: nat, j: nat)
    requires (forall c <- s.sink :: ChunkFine(s.disk, c)) && OffsetFine(s, p)
    requires IsLine(ContentOf(s.disk, p), i, j) && j < OffsetOf(s.offsets, p)
    ensures LineShipped(s, p, i, j)
  {
    hide ChunkFine, IsLine, Lines;
    assert Covered(s.sink, p, i) by {
      LineIsForward(ContentOf(s.disk, p), i, j);
    }
    var c :| c in s.sink && Covers(c, p, i);
    LineInChunk(s.disk, c, i, j);
  }

  lemma LineIsForward(b: Bytes, i: nat, j: nat)
    requires IsLine(b, i, j)
    ensures i < j < |b|
  {
  }

  /**
    Main result: as long as the process runs, in every interleaving of the poll loop and the drain, an
    offset splits no line, and every complete non-empty line below it has been accepted by the sink.
  */
  lemma AtLeastOnce(trace: seq<Action>, s: State, p: Path, i: nat, j: nat)
    requires Runs(INIT, trace, s) && !s.exited
    ensures AtLine(ContentOf(s.disk, p), OffsetOf(s.offsets, p))
    ensures IsLine(ContentOf(s.disk, p), i, j) && j < OffsetOf(s.offsets, p) ==> LineShipped(s, p, i, j)
  {
    hide Lines, ChunkFine, IsLine;
    AlwaysSound(trace, s);
    assert OffsetFine(s, p);
    if IsLine(ContentOf(s.disk, p), i, j) && j < OffsetOf(s.offsets, p) {
      ShippedBelow(s, p, i, j);
    }
  }

  // ---- the commit of the final drain ----

  /** A chunk is unskewed exactly when no commit came between issuing its read and counting from it. */
  lemma SkewedBy(s: State, who: Who, ok: bool, bytes: nat)
    requires Can(s, Step(who, Read(ok, bytes)))
    ensures var tick, next := TickOf(s, who), TickOf(Do(s, Step(who, Read(ok, bytes))), who);
            next.batch != tick.batch ==>
              var c := next.batch[|next.batch| - 1];
              next.batch == tick.batch + [c] && (Unskewed(c) <==> OffsetOf(s.offsets, tick.path) == tick.at)
  {
    hide Lines, Complete, Slice;
  }

  /** So the offset the drain leaves behind for a file is sound when its chunks of that file are unskewed. */
  lemma DrainCommit(trace: seq<Action>, s: State, t: State, p: Path)
    requires Runs(INIT, trace, s) && !s.exited && s.drain.Pushing?
    requires Can(s, Step(Drain, Push(true, true))) && t == Do(s, Step(Drain, Push(true, true)))
    requires forall c <- s.drain.batch :: c.path == p ==> Unskewed(c)
    ensures OffsetFine(t, p)
  {
    hide ChunkFine, CommittedChunks, Covers;
    AlwaysSound(trace, s);
    assert OffsetFine(s, p);
    CommitFine(s, s.drain.batch, t, p);
  }

  // ---- a run whose last commit is beyond the end of the file ----

  const NAME: Path := "a.log"
  const TEXT: Bytes := [97, LF]

  lemma {:induction false} OneMore(s: State, trace: seq<Action>, t: State, a: Action)
    requires Runs(s, trace, t) && Can(t, a)
    ensures Runs(s, trace + [a], Do(t, a))
    decreases |trace|
  {
    hide Can, Do;
    if trace == [] {
      assert trace + [a] == [a] && [a][1..] == [];
    } else {
      assert (trace + [a])[1..] == trace[1..] + [a];
      OneMore(Do(s, trace[0]), trace[1..], t, a);
    }
  }

  lemma TextRead(length: nat)
    requires length == 2
    ensures Slice(TEXT, 0, length) == TEXT && TEXT[..Complete(TEXT)] == TEXT && Lines(TEXT) == [[97]]
    ensures IsLog(NAME)
  {
    assert LineLen(TEXT[1..]) == 1;
    assert LineLen(TEXT) == 2;
    assert TEXT[2..] == [];
    assert Complete([]) == 0 && Lines([]) == [];
    assert TEXT[..2][..1] == [97] && TEXT[0..0 + 2] == TEXT;
    assert NAME[1..] == ".log";
  }

  const LOGGED := map[NAME := TEXT]

  lemma OneStep(trace: seq<Action>, s: State, who: Who, act: Act) returns (longer: seq<Action>, t: State)
    requires Runs(INIT, trace, s) && Can(s, Step(who, act))
    ensures Runs(INIT, longer, t) && t == Do(s, Step(who, act))
  {
    hide Runs, Can, Do;
    OneMore(INIT, trace, s, Step(who, act));
    return trace + [Step(who, act)], Do(s, Step(who, act));
  }

  /** A tick that has listed the one file, looked at it and opened it. */
  lemma TickOpens(trace: seq<Action>, s: State, who: Who) returns (longer: seq<Action>, t: State)
    requires Runs(INIT, trace, s) && !s.exited && s.disk == LOGGED && (NAME in s.offsets ==> s.offsets == map[NAME := 0])
    requires NAME in s.offsets || s.offsets == map[]
    requires TickOf(s, who) == Asleep && (who.Poll? <==> s.running)
    ensures Runs(INIT, longer, t)
    ensures var next := Reading(NAME, 2, 0, [], []);
            t == (if who.Poll? then s.(poll := next, offsets := map[NAME := 0]) else s.(drain := next, offsets := map[NAME := 0]))
  {
    hide Runs, Complete, Lines, Slice, CommittedChunks;
    TextRead(2);
    assert [NAME][1..] == [];
    longer, t := OneStep(trace, s, who, Start([NAME]));
    longer, t := OneStep(longer, t, who, Look);
    longer, t := OneStep(longer, t, who, Stat(true, 2));
    assert t.offsets == map[NAME := 0];
    longer, t := OneStep(longer, t, who, Open(true));
  }

  /** Its read comes back whole, and it goes on to push. */
  lemma TickReads(trace: seq<Action>, s: State, who: Who) returns (longer: seq<Action>, t: State)
    requires Runs(INIT, trace, s) && !s.exited && s.disk == LOGGED
    requires TickOf(s, who) == Reading(NAME, 2, 0, [], [])
    ensures Runs(INIT, longer, t)
    ensures var next := Pushing([Chunk(NAME, 0, TEXT, OffsetOf(s.offsets, NAME) + 2)]);
            t == if who.Poll? then s.(poll := next) else s.(drain := next)
  {
    hide Runs, Complete, Lines, Slice, CommittedChunks;
    TextRead(2);
    var a, b := Step(who, Read(true, 2)), Step(who, Ship(true));
    OneMore(INIT, trace, s, a);
    var s1 := Do(s, a);
    var c := Chunk(NAME, 0, TEXT, OffsetOf(s.offsets, NAME) + 2);
    assert ContentOf(s.disk, NAME) == TEXT && |TEXT| == 2 && Lines(TEXT) != [];
    assert NextTick(s, who, a.act) == Listing([], [] + [c]);
    assert [] + [c] == [c];
    OneMore(INIT, trace + [a], s1, b);
    return trace + [a] + [b], Do(s1, b);
  }

  lemma TickPushes(trace: seq<Action>, s: State, who: Who, n: nat) returns (longer: seq<Action>, t: State)
    requires Runs(INIT, trace, s) && !s.exited && NAME in s.offsets
    requires TickOf(s, who) == Pushing([Chunk(NAME, 0, TEXT, n)])
    ensures Runs(INIT, longer, t)
    ensures var u := s.(sink := s.sink + [Chunk(NAME, 0, TEXT, n)], offsets := s.offsets[NAME := n]);
            t == if who.Poll? then u.(poll := Asleep) else u.(drain := Asleep, exited := true)
  {
    hide Runs;
    var a := Step(who, Push(true, true));
    OneMore(INIT, trace, s, a);
    var batch := [Chunk(NAME, 0, TEXT, n)];
    assert batch[1..] == [];
    assert batch[0].path == NAME && batch[0].newOffset == n;
    assert CommittedChunks(s.offsets, batch) == CommittedChunks(s.offsets[NAME := n], batch[1..]) == s.offsets[NAME := n];
    return trace + [a], Do(s, a);
  }

  /**
    The poll loop pushes a file; the drain has issued its read when that push is committed, and counts
    its own bytes from the new offset. It commits an offset beyond the end of the file.
  */
  lemma BeyondTheEnd() returns (trace: seq<Action>, s: State)
    ensures Runs(INIT, trace, s) && s.exited
    ensures ContentOf(s.disk, NAME) == TEXT && OffsetOf(s.offsets, NAME) == 4
    ensures !OffsetFine(s, NAME)
  {
    hide Runs, CommittedChunks;
    var a := Log(NAME, TEXT);
    assert Runs(INIT, [], INIT) by {
      NoSteps();
    }
    OneMore(INIT, [], INIT, a);
    trace, s := [] + [a], Do(INIT, a);
    assert [] + TEXT == TEXT && s.disk == LOGGED;
    trace, s := TickOpens(trace, s, Poll);
    trace, s := TickReads(trace, s, Poll);
    OneMore(INIT, trace, s, Signal);
    trace, s := trace + [Signal], Do(s, Signal);
    trace, s := TickOpens(trace, s, Drain);
    trace, s := TickPushes(trace, s, Poll, 2);
    trace, s := TickReads(trace, s, Drain);
    trace, s := TickPushes(trace, s, Drain, 4);
  }

  lemma NoSteps()
    ensures Runs(INIT, [], INIT)
  {
  }
}
