/**
  A client connection of the cache ambassador (handleConn in services/cache-ambassador/main.go): the
  loop that reads, dispatches, and flushes once the client's batch is used up.
*/
module Connection {
  import opened Lists
  import opened Resp
  import opened RespReader
  import opened Sharding
  import opened Ambassador

  // ---- replies ----

  ghost predicate IsOneReply(b: Bytes) {
    ReplyLen(b) == Some(|b|)
  }

  predicate IsUnknown(name: Bytes) {
    name !in {PING, QUIT, HELLO, CLIENT} && !IsKeyed(name)
  }

  lemma PrintedIsOneReply(v: Reply)
    requires IsPrintable(v)
    ensures IsOneReply(Print(v))
  {
    PrintThenRead(v, []);
    assert Print(v) + [] == Print(v);
  }

  lemma ErrorIsOneReply(text: Bytes)
    ensures IsOneReply([MINUS] + text + CRLF) <==> LF !in text
  {
    if LF !in text {
      HeadingLine(MINUS, text);
      ReadLine(MINUS, text, []);
      assert [MINUS] + text + CRLF + [] == [MINUS] + text + CRLF;
    } else {
      hide HeadingOf, TrimCRLF;
      var s := [MINUS] + text + CRLF;
      LineEndsAtLF(s);
      var k := LineLen(s);
      var i :| 0 <= i < |text| && text[i] == LF;
      assert s[i + 1] == LF && (k == 0 || k - 1 <= i + 1);
      if k > 0 {
        MinusIsWhole(s[..k]);
      }
    }
  }

  lemma MinusIsWhole(line: Bytes)
    requires line != [] && line[0] == MINUS
    ensures HeadingOf(TrimCRLF(line)) == Whole
  {
    var text := TrimCRLF(line);
    assert text[0] == MINUS && text == [MINUS] + text[1..];
    HeadingLine(MINUS, text[1..]);
  }

  lemma PlainText(s: string)
    requires forall i :: 0 <= i < |s| ==> ' ' <= s[i] <= '~'
    ensures LF !in Ascii(s)
  {
  }

  lemma LocalReplyIsOne(args: seq<Bytes>)
    requires args != [] && IsSendable(args) && LocalReply(args).Some?
    ensures IsOneReply(LocalReply(args).value) <==> !(IsUnknown(Upper(args[0])) && LF in args[0])
  {
    hide Ascii, Upper, Lower, Print, ReplyLen, HeadingOf, IsOneReply;
    var name := Upper(args[0]);
    if name == PING {
      PrintedIsOneReply(if |args| >= 2 then Bulk(args[1]) else Simple(PONG));
    } else if name == QUIT || name == CLIENT {
      PrintedIsOneReply(Simple(OK));
    } else if name == HELLO {
      PlainText("ERR unknown command 'HELLO'");
      ErrorIsOneReply(Ascii("ERR unknown command 'HELLO'"));
    } else if IsKeyed(name) {
      PlainText("ERR wrong number of arguments for '");
      PlainText("' command");
      LowerIsText(name);
      ErrorIsOneReply(Ascii("ERR wrong number of arguments for '") + Lower(name) + Ascii("' command"));
    } else {
      PlainText("ERR unknown command '");
      PlainText("'");
      ErrorIsOneReply(Ascii("ERR unknown command '") + args[0] + Ascii("'"));
    }
  }

  lemma LowerIsText(name: Bytes)
    requires IsKeyed(name)
    ensures LF !in Lower(name)
  {
  }

  /**
    Main result: whatever happens on the way, the client gets exactly one reply per command, unless it
    named an unknown command with a line feed in it.
  */
  lemma OneReplyEach(hash: Hash, before: seq<Store>, args: seq<Bytes>, reply: Bytes, after: seq<Store>)
    requires before != [] && args != [] && IsSendable(args)
    requires (forall i :: 0 <= i < |before| ==> Fits(before[i])) && Handled(hash, before, args, reply, after)
    ensures IsOneReply(reply) <==> !(IsUnknown(Upper(args[0])) && LF in args[0])
  {
    hide Upper, Print, ReplyLen, HeadingOf, IsOneReply, Answer, Fits, Ascii;
    if LocalReply(args).Some? {
      LocalReplyIsOne(args);
    } else {
      var i := ShardOf(hash, |before|, args[1]);
      var first := Answer(before[i], args);
      AnswersAreReadable(before[i], args);
      AnswersAreReadable(first.store, args);
      PrintedIsOneReply(first.reply);
      PrintedIsOneReply(Answer(first.store, args).reply);
      PlainText("ERR ambassador: upstream shard unavailable");
      ErrorIsOneReply(Ascii("ERR ambassador: upstream shard unavailable"));
    }
  }

  // ---- the buffered writer ----

  const WRITER_SIZE := 4096

  /**
    How many bytes a buffer that holds some keeps when n more are written: the buffer goes out when it is
    full, and what would not fit into an empty one goes out at once.
  */
  function StillHeld(held: nat, n: nat): nat {
    if held + n <= WRITER_SIZE then held + n
    else if 0 < held && held + n <= 2 * WRITER_SIZE then held + n - WRITER_SIZE
    else 0
  }

  /** A bufio.Writer: what it still holds, and what has gone out. Its connection breaks after room bytes, if ever. */
  class Writer {
    const room: Option<nat>
    var pending: Bytes
    var sent: Bytes

    constructor (room: Option<nat>)
      ensures this.room == room && pending == [] && sent == [] && Valid()
    {
      this.room, pending, sent := room, [], [];
    }

    ghost predicate Valid()
      reads this
    {
      |pending| <= WRITER_SIZE && (room.Some? ==> |sent| <= room.value)
    }

    /** How many more bytes the connection takes of b. */
    function Taken(b: Bytes): (n: nat)
      requires room.Some? ==> |sent| <= room.value
      reads this
      ensures n <= |b| && (n == |b| <==> room.None? || |sent| + |b| <= room.value)
      ensures n < |b| ==> |sent| + n == room.value
    {
      if room.Some? && |sent| + |b| > room.value then room.value - |sent| else |b|
    }

    method Flush() returns (ok: bool)
      requires Valid()
      modifies this
      ensures Valid() && sent + pending == old(sent + pending)
      ensures ok <==> room.None? || |sent + pending| <= room.value
      ensures if ok then pending == [] else sent == old(sent + pending)[..room.value]
    {
      var n := Taken(pending);
      ok := n == |pending|;
      assert sent + pending == sent + pending[..n] + pending[n..];
      sent, pending := sent + pending[..n], pending[n..];
    }

    /** Fills the buffer, and writes it out whenever it is full. */
    method Write(b: Bytes) returns (ok: bool)
      requires Valid()
      modifies this
      ensures Valid()
      ensures ok ==> sent + pending == old(sent + pending) + b
      ensures !ok ==> Broke(old(sent + pending) + b)
      ensures ok ==> |pending| == StillHeld(|old(pending)|, |b|)
      ensures |old(pending)| + |b| <= WRITER_SIZE ==> ok && sent == old(sent) && pending == old(pending) + b
    {
      ghost var all := sent + pending + b;
      var left := b;
      while |left| > WRITER_SIZE - |pending|
        invariant Valid() && sent + pending + left == all
        invariant StillHeld(|pending|, |left|) == StillHeld(|old(pending)|, |b|)
        invariant |old(pending)| + |b| > WRITER_SIZE || (left == b && sent == old(sent) && pending == old(pending))
        decreases |left|, |pending|
      {
        if pending == [] {
          // A large write to an empty buffer goes out directly.
          var n := Taken(left);
          Parts(sent, left, n);
          sent, left := sent + left[..n], left[n..];
          if left != [] {
            assert sent <= all;
            return false;
          }
        } else {
          var n := WRITER_SIZE - |pending|;
          Parts(sent + pending, left, n);
          assert sent + (pending + left[..n]) == sent + pending + left[..n];
          pending, left := pending + left[..n], left[n..];
          ok := Flush();
          if !ok {
            assert sent <= sent + pending + left;
            return false;
          }
        }
      }
      assert sent + pending + left == sent + (pending + left);
      pending := pending + left;
      return true;
    }

    /** The connection has broken over all: it has taken what it had room for. */
    ghost predicate Broke(all: Bytes)
      reads this
    {
      room.Some? && |all| > room.value && sent == all[..room.value]
    }
  }

  lemma Parts(a: Bytes, b: Bytes, n: nat)
    requires n <= |b|
    ensures a + b == a + b[..n] + b[n..]
  {
  }

  // ---- the loop ----

  /** The commands that get a reply: empty ones do not, and nothing behind a QUIT does. */
  function Answerable(cmds: seq<seq<Bytes>>): seq<seq<Bytes>> {
    if cmds == [] then []
    else if cmds[0] == [] then Answerable(cmds[1..])
    else if IsQuit(cmds[0]) then [cmds[0]]
    else [cmds[0]] + Answerable(cmds[1..])
  }

  /** The commands asked, one after the other, with their replies and the shards in between. */
  ghost predicate IsTrace(hash: Hash, stores: seq<seq<Store>>, asked: seq<seq<Bytes>>, replies: seq<Bytes>) {
    && |replies| == |asked| && |stores| == |asked| + 1
    && forall i :: 0 <= i < |asked| ==>
         stores[i] != [] && asked[i] != [] && Handled(hash, stores[i], asked[i], replies[i], stores[i + 1])
  }

  /** The last command of s that is answered: none, a QUIT, or one with so many bytes behind it. */
  datatype Last = Nothing | Quit | Before(left: nat)

  function LastAnswered(s: Bytes): (last: Last)
    ensures last.Before? ==> last.left < |s|
    decreases |s|
  {
    match CommandAt(s)
    case Got(args, used) =>
      if args != [] && IsQuit(args) then Quit
      else
        var later := LastAnswered(s[used..]);
        if args == [] || !later.Nothing? then later else Before(|s| - used)
    case _ => Nothing
  }

  /** Some read of the connection, or what was held at first, ended n bytes before the end of the stream. */
  ghost predicate IsCut(incoming: seq<Bytes>, n: nat) {
    exists k :: 0 <= k <= |incoming| && |Joined(incoming[k..])| == n
  }

  /**
    Whether the loop ends up with a reply written but not flushed: the last command answered is no QUIT,
    and no read of the connection ended just where it ends. owed says the same of what was answered
    before.
  */
  ghost predicate Owing(held: Bytes, incoming: seq<Bytes>, owed: bool) {
    match LastAnswered(held + Joined(incoming))
    case Nothing => owed
    case Quit => false
    case Before(left) => !IsCut(incoming, left)
  }

  ghost predicate OwingAfter(args: seq<Bytes>, held: Bytes, incoming: seq<Bytes>, owed: bool) {
    if args == [] then Owing(held, incoming, owed)
    else if IsQuit(args) then false
    else Owing(held, incoming, held != [])
  }

  lemma LastNext(s: Bytes)
    ensures var r := CommandAt(s);
            LastAnswered(s) ==
              if !r.Got? then Nothing
              else if r.args != [] && IsQuit(r.args) then Quit
              else if r.args == [] || !LastAnswered(s[r.used..]).Nothing? then LastAnswered(s[r.used..])
              else Before(|s| - r.used)
  {
    hide CommandAt, IsQuit;
  }

  /** Main result: reading one command, the loop knows from the bytes still held whether it must flush. */
  lemma OwingReads(held: Bytes, incoming: seq<Bytes>, owed: bool, held1: Bytes, incoming1: seq<Bytes>)
    requires var s := held + Joined(incoming);
             var r := CommandAt(s);
             r.Got? && held1 + Joined(incoming1) == s[r.used..]
    requires Lazy(held, incoming, held1, incoming1)
    ensures Owing(held, incoming, owed) == OwingAfter(CommandAt(held + Joined(incoming)).args, held1, incoming1, owed)
  {
    hide CommandAt, IsQuit, LastAnswered, Joined, IsCut;
    var s := held + Joined(incoming);
    var left := held1 + Joined(incoming1);
    LastNext(s);
    var d := |incoming| - |incoming1|;
    if LastAnswered(left).Before? {
      SameCuts(incoming, d, held1, LastAnswered(left).left);
    } else {
      SameCuts(incoming, d, held1, |left|);
      CutWhenEmpty(held1, incoming1);
    }
  }

  lemma JoinedAt(incoming: seq<Bytes>, k: nat)
    requires k < |incoming|
    ensures Joined(incoming[k..]) == incoming[k] + Joined(incoming[k + 1..])
  {
    assert incoming[k..][1..] == incoming[k + 1..];
  }

  /** What reads bring. */
  lemma {:induction false} Pulled(incoming: seq<Bytes>, k: nat, d: nat)
    requires k < d <= |incoming|
    ensures |Joined(incoming[k..])| >= |incoming[d - 1]| + |Joined(incoming[d..])|
    decreases d - k
  {
    hide Joined;
    JoinedAt(incoming, k);
    if k + 1 < d {
      Pulled(incoming, k + 1, d);
    }
  }

  lemma IsCutAt(incoming: seq<Bytes>, k: nat)
    requires k <= |incoming|
    ensures IsCut(incoming, |Joined(incoming[k..])|)
  {
  }

  lemma Later(incoming: seq<Bytes>, d: nat, k: nat)
    requires d + k <= |incoming|
    ensures incoming[d..][k..] == incoming[d + k..]
  {
  }

  /** Lazily read bytes hold no end of an earlier read. */
  lemma SameCuts(incoming: seq<Bytes>, d: nat, held1: Bytes, n: nat)
    requires d <= |incoming| && (d > 0 ==> |held1| < |incoming[d - 1]|) && n <= |held1| + |Joined(incoming[d..])|
    ensures IsCut(incoming, n) <==> IsCut(incoming[d..], n)
  {
    hide Joined;
    if IsCut(incoming, n) {
      var k :| 0 <= k <= |incoming| && |Joined(incoming[k..])| == n;
      hide IsCut;
      if k < d {
        Pulled(incoming, k, d);
        assert false;
      }
      Later(incoming, d, k - d);
      IsCutAt(incoming[d..], k - d);
    }
    if IsCut(incoming[d..], n) {
      var k :| 0 <= k <= |incoming[d..]| && |Joined(incoming[d..][k..])| == n;
      hide IsCut;
      Later(incoming, d, k);
      IsCutAt(incoming, k + d);
    }
  }

  lemma NoCutBeyond(incoming: seq<Bytes>, n: nat)
    requires n > |Joined(incoming)|
    ensures !IsCut(incoming, n)
  {
    hide Joined;
    assert incoming[0..] == incoming;
    forall k | 0 <= k <= |incoming|
      ensures |Joined(incoming[k..])| != n
    {
      if k > 0 {
        Pulled(incoming, 0, k);
      }
    }
  }

  lemma CutWhenEmpty(held: Bytes, incoming: seq<Bytes>)
    ensures IsCut(incoming, |held| + |Joined(incoming)|) <==> held == []
  {
    hide Joined, IsCut;
    if held == [] {
      IsCutAt(incoming, 0);
      assert incoming[0..] == incoming;
    } else {
      NoCutBeyond(incoming, |held| + |Joined(incoming)|);
    }
  }

  lemma OwingEnds(held: Bytes, incoming: seq<Bytes>, owed: bool)
    requires !CommandAt(held + Joined(incoming)).Got?
    ensures Owing(held, incoming, owed) == owed
  {
    hide CommandAt, IsQuit, Joined;
  }

  // ---- sizes ----

  lemma {:induction false} ArgsFit(n: nat, s: Bytes)
    requires n <= MAX_ARGS && ArgsAt(n, s).Got?
    ensures IsSendable(ArgsAt(n, s).args)
    decreases n
  {
    hide LineLen, TrimCRLF, ArgHeadingOf;
    if n > 0 {
      var k := LineLen(s);
      var len := ArgHeadingOf(TrimCRLF(s[..k])).len;
      ArgsFit(n - 1, s[k + len + 2..]);
    }
  }

  lemma {:induction false} FieldsFit(s: Bytes)
    ensures |Fields(s)| <= |s| && forall f <- Fields(s) :: |f| <= |s|
    decreases |s|
  {
    if s != [] {
      FieldsFit(if IsSpace(s[0]) then s[1..] else s[WordLen(s)..]);
    }
  }

  lemma CommandFits(s: Bytes)
    requires |s| <= MAX_ARG && CommandAt(s).Got?
    ensures IsSendable(CommandAt(s).args)
  {
    hide LineLen, Fields, ArgsAt, DigitsValue;
    var k := LineLen(s);
    if s[0] == STAR {
      ArgsFit(Atoi(TrimCRLF(s[1..k])).value, s[k..]);
    } else {
      FieldsFit(TrimCRLF(s[..k]));
    }
  }

  lemma ReplyIsSome(hash: Hash, before: seq<Store>, args: seq<Bytes>, reply: Bytes, after: seq<Store>)
    requires before != [] && args != [] && Handled(hash, before, args, reply, after)
    ensures reply != []
  {
    hide Routed, RoutedReply, Upper, Ascii, Lower;
  }

  lemma {:induction false} JoinedMore(a: seq<Bytes>, b: Bytes)
    ensures Joined(a + [b]) == Joined(a) + b
  {
    if a == [] {
      assert a + [b] == [b];
    } else {
      assert (a + [b])[1..] == a[1..] + [b];
      JoinedMore(a[1..], b);
    }
  }

  lemma AnswerableNext(s: Bytes)
    ensures var r := CommandAt(s);
            Answerable(CommandsAt(s)) ==
              if !r.Got? then []
              else if r.args == [] then Answerable(CommandsAt(s[r.used..]))
              else if IsQuit(r.args) then [r.args]
              else [r.args] + Answerable(CommandsAt(s[r.used..]))
  {
    hide CommandAt, IsQuit;
    if CommandAt(s).Got? {
      var later := CommandsAt(s[CommandAt(s).used..]);
      assert CommandsAt(s)[1..] == later;
    }
  }

  lemma NotLinked(server: Server, br: Reader)
    requires server.Valid() && br.peer >= |server.shards|
    ensures br !in server.Links() && server.shards != []
  {
  }

  /** The commands that will get a reply. */
  ghost function Ahead(s: Bytes): seq<seq<Bytes>> {
    Answerable(CommandsAt(s))
  }

  /** Reads the next command, which leaves the server alone. */
  method ReadNext(server: Server, br: Reader, ghost owed: bool) returns (res: Parsed)
    requires server.Valid() && br !in server.Links() && |br.Rest()| <= MAX_ARG
    modifies br
    ensures server.Valid() && server.Links() == old(server.Links()) && server.Stores() == old(server.Stores())
    ensures !res.Command? ==> Ahead(old(br.Rest())) == [] && Owing(old(br.held), old(br.incoming), owed) == owed
    ensures res.Command? ==>
              && IsSendable(res.args) && |br.Rest()| < |old(br.Rest())|
              && Owing(old(br.held), old(br.incoming), owed) == OwingAfter(res.args, br.held, br.incoming, owed)
              && Ahead(old(br.Rest())) == if res.args == [] then Ahead(br.Rest())
                                          else if IsQuit(res.args) then [res.args]
                                          else [res.args] + Ahead(br.Rest())
  {
    hide CommandAt, Lazy, CommandsAt, Answerable, Owing, OwingAfter, IsQuit;
    ghost var s, held, incoming := br.Rest(), br.held, br.incoming;
    AnswerableNext(s);
    res := ReadCommand(br);
    if res.Command? {
      OwingReads(held, incoming, owed, br.held, br.incoming);
      CommandFits(s);
    } else {
      OwingEnds(held, incoming, owed);
    }
  }

  /** One more exchange at the end of a trace. */
  lemma TraceGrows(hash: Hash, stores: seq<seq<Store>>, asked: seq<seq<Bytes>>, replies: seq<Bytes>,
                   args: seq<Bytes>, reply: Bytes, after: seq<Store>)
    requires IsTrace(hash, stores, asked, replies)
    requires stores[|asked|] != [] && args != [] && Handled(hash, stores[|asked|], args, reply, after)
    ensures IsTrace(hash, stores + [after], asked + [args], replies + [reply])
    ensures Joined(replies + [reply]) == Joined(replies) + reply && reply != []
  {
    hide Handled;
    JoinedMore(replies, reply);
    ReplyIsSome(hash, stores[|asked|], args, reply, after);
  }

  /** Writes one reply, and flushes when asked to. */
  method Deliver(bw: Writer, reply: Bytes, flushing: bool) returns (ok: bool)
    requires bw.Valid()
    modifies bw
    ensures bw.Valid()
    ensures if ok then bw.sent + bw.pending == old(bw.sent + bw.pending) + reply
            else bw.Broke(old(bw.sent + bw.pending) + reply)
    ensures ok && flushing ==> bw.pending == []
    ensures ok && !flushing && |old(bw.pending)| + |reply| <= WRITER_SIZE ==> bw.pending == old(bw.pending) + reply
  {
    ok := bw.Write(reply);
    if ok && flushing {
      ok := bw.Flush();
    }
  }

  /** Answers one command; drained says that the client's batch is used up. */
  method Serve(server: Server, bw: Writer, args: seq<Bytes>, drained: bool, net: Net)
      returns (ok: bool, closing: bool, ghost reply: Bytes)
    requires server.Valid() && args != [] && IsSendable(args) && bw.Valid()
    modifies server.shards, server.Backends(), server.Links(), bw
    ensures server.Valid() && (forall l <- server.Links() :: l in old(server.Links()) || fresh(l))
    ensures Handled(server.hash, old(server.Stores()), args, reply, server.Stores())
    ensures IsLossless(net) ==> HandledOnce(server.hash, old(server.Stores()), args, reply, server.Stores())
    ensures closing == IsQuit(args)
    ensures bw.Valid()
    ensures if ok then bw.sent + bw.pending == old(bw.sent + bw.pending) + reply
            else bw.Broke(old(bw.sent + bw.pending) + reply)
    ensures ok && (closing || drained) ==> bw.pending == []
    ensures ok && !closing && !drained && |old(bw.pending)| + |reply| <= WRITER_SIZE ==>
              bw.pending == old(bw.pending) + reply
  {
    hide Handled, HandledOnce, IsQuit, IsLossless;
    var raw;
    raw, closing := server.Dispatch(args, net);
    reply := raw;
    ok := Deliver(bw, raw, closing || drained);
  }

  /** Every command was handled without a loss. */
  ghost predicate IsPlainTrace(hash: Hash, stores: seq<seq<Store>>, asked: seq<seq<Bytes>>, replies: seq<Bytes>) {
    && |replies| == |asked| && |stores| == |asked| + 1
    && forall i :: 0 <= i < |asked| ==>
         stores[i] != [] && asked[i] != [] && HandledOnce(hash, stores[i], asked[i], replies[i], stores[i + 1])
  }

  lemma PlainTraceGrows(hash: Hash, stores: seq<seq<Store>>, asked: seq<seq<Bytes>>, replies: seq<Bytes>,
                        args: seq<Bytes>, reply: Bytes, after: seq<Store>)
    requires IsPlainTrace(hash, stores, asked, replies)
    requires stores[|asked|] != [] && args != [] && HandledOnce(hash, stores[|asked|], args, reply, after)
    ensures IsPlainTrace(hash, stores + [after], asked + [args], replies + [reply])
  {
    hide HandledOnce;
  }

  /**
    Serves one client; nets says how the network treats each command, and the client's connection breaks
    after as many bytes as its writer has room for. What the client gets is always a prefix of the replies
    in the order of its commands, all that the connection takes if it breaks, and otherwise all of them
    unless the loop owes a flush. It breaks only over replies that it has no room for.
  */
  method HandleConn(server: Server, br: Reader, bw: Writer, nets: nat -> Net)
      returns (broken: bool, ghost asked: seq<seq<Bytes>>, ghost replies: seq<Bytes>, ghost stores: seq<seq<Store>>)
    requires server.Valid() && br.peer >= |server.shards| && |br.Rest()| <= MAX_ARG
    requires bw.pending == [] && bw.sent == []
    modifies server.shards, server.Backends(), server.Links(), br, bw
    ensures server.Valid()
    ensures IsTrace(server.hash, stores, asked, replies)
    ensures (forall n :: IsLossless(nets(n))) ==> IsPlainTrace(server.hash, stores, asked, replies)
    ensures stores[0] == old(server.Stores()) && stores[|asked|] == server.Stores()
    ensures asked <= Ahead(old(br.Rest()))
    ensures broken ==> bw.Broke(Joined(replies))
    ensures !broken ==>
              && asked == Ahead(old(br.Rest()))
              && bw.sent + bw.pending == Joined(replies)
              && (!Owing(old(br.held), old(br.incoming), false) ==> bw.sent == Joined(replies))
              && (Owing(old(br.held), old(br.incoming), false) && |Joined(replies)| <= WRITER_SIZE ==> bw.sent != Joined(replies))
  {
    hide Ahead, Handled, HandledOnce, IsQuit, Owing, IsTrace, IsPlainTrace, IsSendable, IsLossless, Joined,
      Server.Valid, Server.Stores, Server.Links;
    ghost var all := Ahead(br.Rest());
    ghost var owing := Owing(br.held, br.incoming, false);
    ghost var owed := false;
    ghost var lossless := forall n :: IsLossless(nets(n));
    var served: nat := 0;
    asked, replies, stores, broken := [], [], [server.Stores()], false;
    NotLinked(server, br);
    EmptyTrace(server.hash, stores);
    while true
      invariant server.Valid() && (forall l <- server.Links() :: l in old(server.Links()) || fresh(l))
      invariant br !in server.Links() && |br.Rest()| <= MAX_ARG
      invariant IsTrace(server.hash, stores, asked, replies) && |stores| == |asked| + 1
      invariant lossless ==> IsPlainTrace(server.hash, stores, asked, replies)
      invariant stores[0] == old(server.Stores()) && stores[|asked|] == server.Stores()
      invariant asked + Ahead(br.Rest()) == all
      invariant bw.Valid() && bw.sent + bw.pending == Joined(replies)
      invariant owing == Owing(br.held, br.incoming, owed)
      invariant !owed ==> bw.pending == []
      invariant owed && |Joined(replies)| <= WRITER_SIZE ==> bw.pending != []
      decreases |br.Rest()|
    {
      var command := ReadNext(server, br, owed);
      if !command.Command? {
        return;
      }
      var args := command.args;
      if args == [] {
        continue;
      }
      ghost var reply;
      var ok, closing;
      ok, closing, reply := Serve(server, bw, args, br.held == [], nets(served));
      served := served + 1;
      TraceGrows(server.hash, stores, asked, replies, args, reply, server.Stores());
      if lossless {
        PlainTraceGrows(server.hash, stores, asked, replies, args, reply, server.Stores());
      }
      AskedGrows(asked, args, if closing then [] else Ahead(br.Rest()));
      asked, replies, stores := asked + [args], replies + [reply], stores + [server.Stores()];
      if !ok {
        broken := true;
        return;
      }
      if closing {
        return;
      }
      owed := br.held != [];
    }
  }

  lemma AskedGrows(asked: seq<seq<Bytes>>, args: seq<Bytes>, later: seq<seq<Bytes>>)
    ensures asked + ([args] + later) == asked + [args] + later
    ensures asked + [args] + [] == asked + [args]
    ensures [args] + [] == [args]
  {
  }

  lemma EmptyTrace(hash: Hash, stores: seq<seq<Store>>)
    requires |stores| == 1
    ensures IsTrace(hash, stores, [], []) && IsPlainTrace(hash, stores, [], []) && Joined([]) == []
  {
  }
}
