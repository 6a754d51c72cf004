/**
  The readers and writers of services/cache-ambassador/resp.go over a buffered connection. However the
  network cuts the bytes into reads, they come to what Resp says of the bytes alone.
*/
module RespReader {
  import opened Lists
  import opened Resp

  function Joined(chunks: seq<Bytes>): Bytes {
    if chunks == [] then [] else chunks[0] + Joined(chunks[1..])
  }

  lemma NothingJoined()
    ensures Joined([]) == []
  {
  }

  /** A line may start in one read and end in another. */
  lemma {:induction false} LineAcross(start: Bytes, later: Bytes)
    requires LF !in start
    ensures LineLen(start + later) == if LineLen(later) == 0 then 0 else |start| + LineLen(later)
  {
    if start == [] {
      assert start + later == later;
    } else {
      assert (start + later)[1..] == start[1..] + later;
      LineAcross(start[1..], later);
    }
  }

  /** A line that starts in line and ends in held. */
  lemma LineFound(line: Bytes, held: Bytes, later: Bytes)
    requires LF !in line && LineLen(held) > 0
    ensures var k, s := LineLen(held), line + (held + later);
            && LineLen(s) == |line| + k
            && s[..|line| + k] == line + held[..k] && s[|line| + k..] == held[k..] + later
  {
    hide LineLen;
    LineIsLocal(held, held + later);
    LineAcross(line, held + later);
  }

  lemma NoLineYet(line: Bytes, held: Bytes)
    requires LF !in line && LineLen(held) == 0
    ensures LF !in line + held && LineLen(line + held) == 0
    ensures line + held + [] == line + (held + []) == line + held && held + [] == held
  {
    hide LineLen;
    LineEndsAtLF(held);
    LineAcross(line, held);
  }

  lemma NextRead(line: Bytes, held: Bytes, incoming: seq<Bytes>)
    requires incoming != []
    ensures line + held + (incoming[0] + Joined(incoming[1..])) == line + (held + Joined(incoming))
  {
  }

  /**
    No reading ahead: going from one state of a reader to another, the connection was read only while
    bytes were missing, so after the last read less is held than that read brought.
  */
  ghost predicate Lazy(held0: Bytes, incoming0: seq<Bytes>, held: Bytes, incoming: seq<Bytes>) {
    && |incoming| <= |incoming0|
    && incoming == incoming0[|incoming0| - |incoming|..]
    && if |incoming| == |incoming0| then |held| <= |held0|
       else |held| < |incoming0[|incoming0| - |incoming| - 1]|
  }

  class Buffer {
    var data: Bytes

    constructor ()
      ensures data == []
    {
      data := [];
    }
  }

  /**
    A bufio.Reader: whom its connection leads to, the bytes it holds, and what the coming reads of the
    connection will yield.
  */
  class Reader {
    const peer: nat
    var held: Bytes
    var incoming: seq<Bytes>

    constructor (peer: nat, chunks: seq<Bytes>)
      ensures this.peer == peer && held == [] && incoming == chunks
    {
      this.peer, held, incoming := peer, [], chunks;
    }

    ghost function Rest(): Bytes
      reads this
    {
      held + Joined(incoming)
    }

    method Fill()
      requires incoming != []
      modifies this
      ensures Rest() == old(Rest())
      ensures incoming == old(incoming)[1..]
    {
      held, incoming := held + incoming[0], incoming[1..];
    }

    /** Reads on until a byte is held or the connection ends. */
    method Refill()
      modifies this
      ensures Rest() == old(Rest()) && (held == [] ==> incoming == [])
      ensures |incoming| <= |old(incoming)| && incoming == old(incoming)[|old(incoming)| - |incoming|..]
      ensures if |incoming| == |old(incoming)| then held == old(held)
              else |held| <= |old(incoming)[|old(incoming)| - |incoming| - 1]|
    {
      while held == [] && incoming != []
        invariant Rest() == old(Rest())
        invariant |incoming| <= |old(incoming)| && incoming == old(incoming)[|old(incoming)| - |incoming|..]
        invariant if |incoming| == |old(incoming)| then held == old(held)
                  else |held| <= |old(incoming)[|old(incoming)| - |incoming| - 1]|
        decreases |incoming|
      {
        Fill();
      }
    }

    method ReadByte() returns (r: Option<byte>)
      modifies this
      ensures var s := old(Rest());
              if s == [] then r.None? && Rest() == [] else r == Some(s[0]) && Rest() == s[1..]
      ensures r.Some? ==> Lazy(old(held), old(incoming), held, incoming)
    {
      hide Joined;
      Refill();
      if held == [] {
        assert Joined([]) == [] by {
          NothingJoined();
        }
        return None;
      }
      r := Some(held[0]);
      assert Rest()[1..] == held[1..] + Joined(incoming);
      held := held[1..];
    }

    method UnreadByte(b: byte)
      modifies this
      ensures Rest() == [b] + old(Rest())
      ensures |held| == |old(held)| + 1 && incoming == old(incoming)
    {
      assert [b] + Rest() == [b] + held + Joined(incoming);
      held := [b] + held;
    }

    /** ReadBytes('\n'): the line with its LF, or all there is when no LF comes. */
    method ReadLine() returns (ok: bool, line: Bytes)
      modifies this
      ensures var s := old(Rest());
              var k := LineLen(s);
              && ok == (k > 0)
              && if ok then line == s[..k] && Rest() == s[k..] else line == s && Rest() == []
      ensures ok ==> Lazy(old(held), old(incoming), held, incoming)
      ensures ok && |incoming| == |old(incoming)| ==> |held| < |old(held)|
    {
      hide LineLen, Joined;
      ghost var s := Rest();
      line := [];
      assert [] + s == s;
      while true
        invariant line + Rest() == s && LF !in line
        invariant |incoming| <= |old(incoming)| && incoming == old(incoming)[|old(incoming)| - |incoming|..]
        invariant if |incoming| == |old(incoming)| then held == old(held)
                  else held == old(incoming)[|old(incoming)| - |incoming| - 1]
        decreases |incoming|
      {
        var k := LineLen(held);
        if k > 0 {
          LineFound(line, held, Joined(incoming));
          line, held := line + held[..k], held[k..];
          return true, line;
        }
        NoLineYet(line, held);
        if incoming == [] {
          NothingJoined();
          line, held := line + held, [];
          return false, line;
        }
        NextRead(line, held, incoming);
        line, held, incoming := line + held, incoming[0], incoming[1..];
      }
    }

    /** io.ReadFull and io.CopyN. */
    method ReadFull(n: nat) returns (ok: bool, data: Bytes)
      modifies this
      ensures var s := old(Rest());
              ok == (n <= |s|) && (ok ==> data == s[..n] && Rest() == s[n..])
      ensures ok ==> Lazy(old(held), old(incoming), held, incoming)
    {
      while |held| < n && incoming != []
        invariant Rest() == old(Rest())
        invariant |incoming| <= |old(incoming)| && incoming == old(incoming)[|old(incoming)| - |incoming|..]
        invariant if |incoming| == |old(incoming)| then held == old(held)
                  else |held| < n + |old(incoming)[|old(incoming)| - |incoming| - 1]|
        decreases |incoming|
      {
        Fill();
      }
      if |held| < n {
        return false, [];
      }
      assert Rest()[..n] == held[..n] && Rest()[n..] == held[n..] + Joined(incoming);
      ok, data, held := true, held[..n], held[n..];
    }
  }

  /** Appends the raw bytes of exactly one reply to out. */
  method ReadReply(r: Reader, out: Buffer) returns (ok: bool)
    modifies r, out
    ensures var n := ReplyLen(old(r.Rest()));
            && ok == n.Some?
            && (ok ==> out.data == old(out.data) + old(r.Rest())[..n.value] && r.Rest() == old(r.Rest())[n.value..])
    decreases |r.Rest()|, 0
  {
    hide LineLen, HeadingOf, TrimCRLF, RepliesLen;
    ghost var s := r.Rest();
    var found, line := r.ReadLine();
    out.data := out.data + line;
    if !found {
      return false;
    }
    match HeadingOf(TrimCRLF(line)) {
      case Malformed => return false;
      case Whole => return true;
      case Payload(size) =>
        var got, data := r.ReadFull(size);
        if got {
          out.data := out.data + data;
        }
        return got;
      case Elements(count) =>
        ok := ReadReplies(r, out, count);
        return ok;
    }
  }

  lemma NextReply(n: nat, s: Bytes)
    requires n > 0
    ensures var first := ReplyLen(s);
            RepliesLen(n, s) == if first.None? then None else Shifted(first.value, RepliesLen(n - 1, s[first.value..]))
  {
    hide ReplyLen;
  }

  lemma NoReplies(s: Bytes)
    ensures RepliesLen(0, s) == Some(0)
  {
  }

  /** The loop over the elements of an array. */
  method ReadReplies(r: Reader, out: Buffer, count: nat) returns (ok: bool)
    modifies r, out
    ensures var n := RepliesLen(count, old(r.Rest()));
            && ok == n.Some?
            && (ok ==> out.data == old(out.data) + old(r.Rest())[..n.value] && r.Rest() == old(r.Rest())[n.value..])
    decreases |r.Rest()|, 1
  {
    hide ReplyLen, RepliesLen;
    ghost var s, start := r.Rest(), out.data;
    ghost var done := 0;
    var i := 0;
    while i < count
      invariant 0 <= i <= count && 0 <= done <= |s|
      invariant r.Rest() == s[done..] && out.data == start + s[..done]
      invariant RepliesLen(count, s) == Shifted(done, RepliesLen(count - i, s[done..]))
    {
      NextReply(count - i, s[done..]);
      ok := ReadReply(r, out);
      if !ok {
        return false;
      }
      ghost var n := ReplyLen(s[done..]).value;
      assert s[done..][n..] == s[done + n..] && s[..done] + s[done..][..n] == s[..done + n];
      done := done + n;
      i := i + 1;
    }
    NoReplies(s[done..]);
    return true;
  }

  ghost function Shifted(d: nat, n: Option<nat>): Option<nat> {
    if n.Some? then Some(d + n.value) else None
  }

  /** What a caller of readCommand sees; a panic takes the whole process down. */
  datatype Parsed = Command(args: seq<Bytes>) | Bad | Panic

  /** res is what readCommand owes a stream that began as s and has come to rest. */
  ghost predicate Answers(res: Parsed, read: CommandRead, s: Bytes, rest: Bytes)
    requires read.Got? ==> read.used <= |s|
  {
    match read
    case Got(args, used) => res == Command(args) && rest == s[used..]
    case Failed => res == Bad
    case Panicked => res == Panic
  }

  lemma Gives(args: seq<Bytes>, used: nat, s: Bytes, rest: Bytes)
    requires used <= |s| && rest == s[used..]
    ensures Answers(Command(args), Got(args, used), s, rest)
  {
  }

  lemma Fails(read: CommandRead, s: Bytes, rest: Bytes)
    requires !read.Got?
    ensures Answers(if read.Failed? then Bad else Panic, read, s, rest)
  {
  }

  /** What an answer says of the read. */
  lemma Means(res: Parsed, read: CommandRead, s: Bytes, rest: Bytes)
    requires (read.Got? ==> read.used <= |s|) && Answers(res, read, s, rest)
    ensures read.Got? ==> res == Command(read.args) && rest == s[read.used..]
    ensures !read.Got? ==> res == if read.Failed? then Bad else Panic
  {
  }

  lemma LazyThen(h0: Bytes, in0: seq<Bytes>, h1: Bytes, in1: seq<Bytes>, h2: Bytes, in2: seq<Bytes>)
    requires Lazy(h0, in0, h1, in1) && Lazy(h1, in1, h2, in2)
    ensures Lazy(h0, in0, h2, in2)
  {
  }

  /** Reads exactly one command. */
  method ReadCommand(r: Reader) returns (res: Parsed)
    modifies r
    ensures Answers(res, CommandAt(old(r.Rest())), old(r.Rest()), r.Rest())
    ensures res.Command? ==> Lazy(old(r.held), old(r.incoming), r.held, r.incoming)
  {
    hide Lazy, CommandAt;
    ghost var s, h0, in0 := r.Rest(), r.held, r.incoming;
    var prefix := r.ReadByte();
    if prefix.None? {
      NothingFails();
      return Bad;
    }
    ghost var h1, in1 := r.held, r.incoming;
    if prefix.value != STAR {
      r.UnreadByte(prefix.value);
      assert r.Rest() == s;
      res := ReadInline(r, h1);
    } else {
      assert s == [STAR] + r.Rest();
      res := ReadMultibulk(r);
    }
    if res.Command? {
      LazyThen(h0, in0, h1, in1, r.held, r.incoming);
    }
  }

  lemma NothingFails()
    ensures CommandAt([]) == Failed
  {
  }

  /** A plain line; h1 is what was held before the first byte was put back. */
  method ReadInline(r: Reader, ghost h1: Bytes) returns (res: Parsed)
    requires r.Rest() != [] && r.Rest()[0] != STAR && |r.held| == |h1| + 1
    modifies r
    ensures Answers(res, CommandAt(old(r.Rest())), old(r.Rest()), r.Rest())
    ensures res.Command? ==> Lazy(h1, old(r.incoming), r.held, r.incoming)
  {
    hide LineLen, Atoi, Fields, ArgsAt, TrimCRLF;
    var ok, line := r.ReadLine();
    if !ok {
      return Bad;
    }
    var words := Fields(TrimCRLF(line));
    return if |words| > MAX_ARGS then Panic else Command(words);
  }

  /** The frame behind a '*' that has been read. */
  method ReadMultibulk(r: Reader) returns (res: Parsed)
    modifies r
    ensures Answers(res, CommandAt([STAR] + old(r.Rest())), [STAR] + old(r.Rest()), r.Rest())
    ensures res.Command? ==> Lazy(old(r.held), old(r.incoming), r.held, r.incoming)
  {
    hide Lazy, CommandAt, LineLen, TrimCRLF, Atoi, ArgsAt, Answers, Joined;
    ghost var t, h0, in0 := r.Rest(), r.held, r.incoming;
    ghost var k := LineLen(t);
    AfterStar(t);
    var ok, line := r.ReadLine();
    if !ok {
      Fails(Failed, [STAR] + t, r.Rest());
      return Bad;
    }
    ghost var h1, in1 := r.held, r.incoming;
    var count := Atoi(TrimCRLF(line));
    if count.None? || count.value < 0 {
      Fails(Failed, [STAR] + t, r.Rest());
      return Bad;
    }
    if count.value > MAX_ARGS {
      Fails(Panicked, [STAR] + t, r.Rest());
      return Panic;
    }
    res := ReadArgs(r, count.value);
    MultibulkRead(t, k, ArgsAt(count.value, t[k..]), res, r.Rest());
    if res.Command? {
      LazyThen(h0, in0, h1, in1, r.held, r.incoming);
    }
  }

  lemma MultibulkRead(t: Bytes, k: nat, read: CommandRead, res: Parsed, rest: Bytes)
    requires k <= |t| && (read.Got? ==> read.used <= |t| - k) && Answers(res, read, t[k..], rest)
    ensures After([], k + 1, read).Got? ==> After([], k + 1, read).used <= |[STAR] + t|
    ensures Answers(res, After([], k + 1, read), [STAR] + t, rest)
  {
    if read.Got? {
      SkipStar(t, k, read.used);
      assert [] + read.args == read.args;
    }
  }

  lemma SkipStar(t: Bytes, k: nat, used: nat)
    requires k <= |t| && used <= |t| - k
    ensures t[k..][used..] == ([STAR] + t)[k + 1 + used..]
  {
  }

  lemma AfterStar(t: Bytes)
    ensures var k := LineLen(t);
            if k == 0 then CommandAt([STAR] + t) == Failed
            else
              var n := Atoi(TrimCRLF(t[..k]));
              if n.None? || n.value < 0 then CommandAt([STAR] + t) == Failed
              else if n.value > MAX_ARGS then CommandAt([STAR] + t) == Panicked
              else CommandAt([STAR] + t) == After([], k + 1, ArgsAt(n.value, t[k..]))
  {
    hide Atoi, ArgsAt, TrimCRLF;
    var s := [STAR] + t;
    assert s[1..] == t;
    var k := LineLen(t);
    if k > 0 {
      assert LineLen(s) == k + 1 && s[1..k + 1] == t[..k] && s[k + 1..] == t[k..];
      var n := Atoi(TrimCRLF(t[..k]));
      if n.Some? && 0 <= n.value <= MAX_ARGS {
        var later := ArgsAt(n.value, t[k..]);
        assert later.Got? ==> [] + later.args == later.args;
      }
    }
  }

  lemma OneByOne(n: nat, s: Bytes)
    requires n > 0
    ensures var one := ArgsAt(1, s);
            ArgsAt(n, s) == if one.Got? then After(one.args, one.used, ArgsAt(n - 1, s[one.used..])) else one
  {
    hide LineLen, TrimCRLF, ArgHeadingOf;
  }

  /** One argument, in full. */
  lemma OneArg(s: Bytes)
    ensures var k := LineLen(s);
            ArgsAt(1, s) ==
              if k == 0 then Failed
              else
                var heading := ArgHeadingOf(TrimCRLF(s[..k]));
                if heading.NoSize? then Failed
                else if heading.Oversized? then Panicked
                else if k + heading.len + 2 > |s| then Failed
                else Got([s[k..k + heading.len]], k + heading.len + 2)
  {
    hide LineLen, TrimCRLF, ArgHeadingOf, ArgsAt;
    NextArg(1, s);
    var k := LineLen(s);
    if k > 0 {
      var heading := ArgHeadingOf(TrimCRLF(s[..k]));
      if heading.Size? && k + heading.len + 2 <= |s| {
        var next := k + heading.len + 2;
        NoArgs(s[next..]);
        assert [s[k..k + heading.len]] + [] == [s[k..k + heading.len]];
      }
    }
  }

  lemma CutArg(s: Bytes, k: nat, n: nat)
    requires k + n + 2 <= |s|
    ensures s[k..][..n + 2][..n] == s[k..k + n] && s[k..][n + 2..] == s[k + n + 2..]
  {
    assert s[k..][..n + 2] == s[k..k + n + 2];
  }

  /** One turn of the argument loop. */
  method ReadArg(r: Reader) returns (res: Parsed)
    modifies r
    ensures Answers(res, ArgsAt(1, old(r.Rest())), old(r.Rest()), r.Rest())
    ensures res.Command? ==> Lazy(old(r.held), old(r.incoming), r.held, r.incoming)
  {
    hide LineLen, TrimCRLF, ArgHeadingOf, ArgsAt, Lazy;
    ghost var s, h0, in0 := r.Rest(), r.held, r.incoming;
    ghost var k := LineLen(s);
    OneArg(s);
    var ok, header := r.ReadLine();
    if !ok {
      return Bad;
    }
    ghost var h1, in1 := r.held, r.incoming;
    match ArgHeadingOf(TrimCRLF(header)) {
      case NoSize => return Bad;
      case Oversized => return Panic;
      case Size(n) =>
        var got, data := r.ReadFull(n + 2);
        if !got {
          return Bad;
        }
        CutArg(s, k, n);
        LazyThen(h0, in0, h1, in1, r.held, r.incoming);
        return Command([data[..n]]);
    }
  }

  /** One more turn, with args read up to done. */
  lemma NextTurn(s: Bytes, args: seq<Bytes>, done: nat, n: nat, one: seq<Bytes>, used: nat)
    requires n > 0 && done <= |s| && ArgsAt(1, s[done..]) == Got(one, used)
    ensures done + used <= |s| && s[done..][used..] == s[done + used..]
    ensures After(args, done, ArgsAt(n, s[done..])) == After(args + one, done + used, ArgsAt(n - 1, s[done + used..]))
  {
    hide ArgsAt;
    OneByOne(n, s[done..]);
    assert s[done..][used..] == s[done + used..];
    var later := ArgsAt(n - 1, s[done + used..]);
    if later.Got? {
      assert args + (one + later.args) == args + one + later.args;
    }
  }

  lemma NoTurnYet(n: nat, s: Bytes)
    ensures s[0..] == s && ArgsAt(n, s) == After([], 0, ArgsAt(n, s))
  {
    hide ArgsAt;
    var r := ArgsAt(n, s);
    if r.Got? {
      assert [] + r.args == r.args;
    }
  }

  lemma LastTurn(args: seq<Bytes>, done: nat, s: Bytes)
    requires done <= |s|
    ensures After(args, done, ArgsAt(0, s[done..])) == Got(args, done)
  {
    NoArgs(s[done..]);
    assert args + [] == args;
  }

  lemma FailedTurn(s: Bytes, args: seq<Bytes>, done: nat, n: nat)
    requires n > 0 && done <= |s| && !ArgsAt(1, s[done..]).Got?
    ensures After(args, done, ArgsAt(n, s[done..])) == ArgsAt(1, s[done..])
  {
    hide ArgsAt;
    OneByOne(n, s[done..]);
  }

  method ReadArgs(r: Reader, count: nat) returns (res: Parsed)
    modifies r
    ensures Answers(res, ArgsAt(count, old(r.Rest())), old(r.Rest()), r.Rest())
    ensures res.Command? ==> Lazy(old(r.held), old(r.incoming), r.held, r.incoming)
  {
    hide ArgsAt, After, Lazy, Joined, Answers;
    ghost var s, h0, in0 := r.Rest(), r.held, r.incoming;
    ghost var done := 0;
    var args: seq<Bytes> := [];
    var i := 0;
    NoTurnYet(count, s);
    NotYetRead(h0, in0);
    while i < count
      invariant 0 <= i <= count && 0 <= done <= |s|
      invariant r.Rest() == s[done..]
      invariant Lazy(h0, in0, r.held, r.incoming)
      invariant ArgsAt(count, s) == After(args, done, ArgsAt(count - i, s[done..]))
    {
      ghost var one, h1, in1 := ArgsAt(1, s[done..]), r.held, r.incoming;
      res := ReadArg(r);
      Means(res, one, s[done..], r.Rest());
      if !res.Command? {
        FailedTurn(s, args, done, count - i);
        Fails(one, s, r.Rest());
        return;
      }
      NextTurn(s, args, done, count - i, one.args, one.used);
      LazyThen(h0, in0, h1, in1, r.held, r.incoming);
      done := done + one.used;
      args := args + res.args;
      i := i + 1;
    }
    LastTurn(args, done, s);
    Gives(args, done, s, r.Rest());
    return Command(args);
  }

  lemma NotYetRead(held: Bytes, incoming: seq<Bytes>)
    ensures Lazy(held, incoming, held, incoming)
  {
  }

  ghost function After(args: seq<Bytes>, used: nat, later: CommandRead): CommandRead {
    if later.Got? then Got(args + later.args, used + later.used) else later
  }

  /** A RESP multibulk frame. */
  method WriteCommand(args: seq<Bytes>) returns (b: Bytes)
    ensures b == EncodeCommand(args)
  {
    b := [STAR] + Digits(|args|) + CRLF;
    assert args[0..] == args;
    for i := 0 to |args|
      invariant b + EncodeArgs(args[i..]) == EncodeCommand(args)
    {
      assert args[i..][0] == args[i] && args[i..][1..] == args[i + 1..];
      b := b + ([DOLLAR] + Digits(|args[i]|) + CRLF);
      b := b + args[i];
      b := b + CRLF;
    }
  }

  /** A single bulk-string reply. */
  method WriteBulk(v: Bytes) returns (b: Bytes)
    ensures b == Print(Bulk(v))
  {
    b := [DOLLAR] + Digits(|v|) + CRLF;
    b := b + v;
    b := b + CRLF;
  }
}
