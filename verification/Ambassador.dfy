/**
  The connection pools and the routing of the cache ambassador (services/cache-ambassador/pool.go and
  main.go) against shards that answer each command with one reply, over a network that may fail at any
  point of a round trip.
*/
module Ambassador {
  import opened Lists
  import opened Resp
  import opened RespReader
  import opened Sharding

  const MAX_IDLE := 16

  /** A cache shard: it reads the frame it is sent and answers the command it finds there. */
  class Shard {
    const index: nat
    var store: Store
    var ran: nat

    constructor (index: nat)
      ensures this.index == index && store == map[] && ran == 0
    {
      this.index, store, ran := index, map[], 0;
    }

    method Serve(cmd: Bytes, ghost args: seq<Bytes>) returns (answer: Bytes)
      requires args != [] && IsSendable(args) && cmd == EncodeCommand(args)
      modifies this
      ensures store == Answer(old(store), args).store && ran == old(ran) + 1
      ensures answer == Print(Answer(old(store), args).reply)
    {
      hide Answer, EncodeCommand, CommandAt;
      CommandRoundTrip(args, []);
      assert cmd + [] == cmd;
      var command := CommandAt(cmd).args;
      var a := Answer(store, command);
      store, ran := a.store, ran + 1;
      return Print(a.reply);
    }
  }

  /** Any way of cutting b into reads. */
  method AnyReads(b: Bytes) returns (pieces: seq<Bytes>)
    ensures Joined(pieces) == b
  {
    pieces := *;
    if Joined(pieces) != b {
      pieces := [b];
    }
  }

  /**
    How one round trip ends: whether the shard gets the command, whether the write succeeds, where the
    answer is cut off, if anywhere, and whether the deadline can be cleared again.
  */
  datatype Trip = Trip(reached: bool, written: bool, cut: Option<nat>, cleared: bool)

  predicate Completes(x: Trip, answer: Bytes) {
    x.reached && x.written && (x.cut.None? || x.cut.value >= |answer|) && x.cleared
  }

  /** What is brought back, what the shard then holds, and how often it ran the command. */
  datatype Sent = Sent(reply: Option<Bytes>, store: Store, runs: nat)

  function Carried(store: Store, args: seq<Bytes>, x: Trip): Sent
    requires args != []
  {
    var a := Answer(store, args);
    Sent(if Completes(x, Print(a.reply)) then Some(Print(a.reply)) else None,
         if x.reached then a.store else store, if x.reached then 1 else 0)
  }

  function Arriving(x: Trip, answer: Bytes): (n: nat)
    ensures n <= |answer|
  {
    if x.cut.Some? && x.cut.value < |answer| then x.cut.value else |answer|
  }

  /**
    One request and one reply on a connection held exclusively. The write may fail, before or after
    the shard got the command; the reply may be cut off anywhere, in any number of reads.
  */
  method Roundtrip(shard: Shard, br: Reader, cmd: Bytes, ghost args: seq<Bytes>, x: Trip) returns (reply: Option<Bytes>)
    requires args != [] && IsSendable(args) && cmd == EncodeCommand(args)
    requires Fits(shard.store) && br.Rest() == []
    modifies shard, br
    ensures Fits(shard.store)
    ensures var sent := Carried(old(shard.store), args, x);
            reply == sent.reply && shard.store == sent.store && shard.ran == old(shard.ran) + sent.runs
    ensures reply.Some? ==> br.Rest() == []
  {
    hide Answer, EncodeCommand, ReplyLen, Print, Fits;
    var answer: Bytes := [];
    if x.reached {
      AnswersAreReadable(shard.store, args);
      PrintThenRead(Answer(shard.store, args).reply, []);
      answer := shard.Serve(cmd, args);
    }
    if !x.written {
      return None;
    }
    var n := Arriving(x, answer);
    var pieces := AnyReads(answer[..n]);
    br.held, br.incoming := [], pieces;
    assert br.Rest() == answer[..n];
    var buf := new Buffer();
    var ok := ReadReply(br, buf);
    assert answer + [] == answer;
    if !x.reached {
      NothingRead();
    } else if n < |answer| {
      NoPrefixIsReply(answer, n);
    }
    assert answer[..|answer|] == answer;
    if !ok || !x.cleared {
      return None;
    }
    return Some(buf.data);
  }

  lemma NothingRead()
    ensures ReplyLen([]) == None
  {
  }

  class Pool {
    const shard: Shard
    var idle: seq<Reader>

    constructor (shard: Shard)
      ensures this.shard == shard && idle == []
    {
      this.shard, idle := shard, [];
    }

    /** Alignment: an idle connection owes nothing, and nothing on it is left to read. */
    ghost predicate Valid()
      reads this, shard, idle
    {
      && |idle| <= MAX_IDLE && Fits(shard.store)
      && (forall br <- idle :: br.peer == shard.index && br.Rest() == [])
      && (forall i, j :: 0 <= i < j < |idle| ==> idle[i] != idle[j])
    }

    /** A full pool drops the connection. */
    method Put(br: Reader)
      requires Valid() && br !in idle && br.peer == shard.index && br.Rest() == []
      modifies this
      ensures Valid() && idle == if |old(idle)| < MAX_IDLE then old(idle) + [br] else old(idle)
    {
      if |idle| < MAX_IDLE {
        idle := idle + [br];
      }
    }

    /** A connection of the pool, the one that has been there longest. */
    method Take() returns (br: Reader)
      requires Valid() && idle != []
      modifies this`idle
      ensures Valid() && Fits(shard.store) && br == old(idle)[0] && idle == old(idle)[1..]
      ensures br !in idle && br.peer == shard.index && br.Rest() == []
    {
      hide Fits;
      br := idle[0];
      idle := idle[1..];
    }

    lemma Sizes()
      requires Valid()
      ensures Fits(shard.store) && |idle| <= MAX_IDLE
    {
    }

    /** A round trip on a connection that has been taken leaves the idle ones alone. */
    twostate lemma OthersKept(br: Reader)
      requires old(Valid()) && idle == old(idle) && br !in idle && Fits(shard.store)
      requires forall r <- idle :: unchanged(r)
      ensures Valid()
    {
      hide Fits;
    }

    /** Runs one command: a reused connection gets one retry on a fresh one. */
    method Do(cmd: Bytes, ghost args: seq<Bytes>, net: Net) returns (reply: Option<Bytes>)
      requires Valid() && args != [] && IsSendable(args) && cmd == EncodeCommand(args)
      modifies this, shard, idle
      ensures Valid() && forall br <- idle :: br in old(idle) || fresh(br)
      ensures var sent := Relayed(old(shard.store), args, old(idle) != [], net);
              reply == sent.reply && shard.store == sent.store && shard.ran == old(shard.ran) + sent.runs
      ensures |idle| == |old(idle)| - (if old(idle) != [] then 1 else 0) + (if reply.Some? then 1 else 0)
      ensures forall br <- old(idle) :: br != old(idle)[0] ==> br in idle
    {
      hide Answer, EncodeCommand, Print, Fits, Completes, Carried, IsSendable, Valid;
      Sizes();
      if idle != [] {
        var br := Take();
        label Taken:
        reply := Roundtrip(shard, br, cmd, args, net.first);
        OthersKept@Taken(br);
        if reply.Some? {
          Put(br);
          return;
        }
      }
      if !net.dialled {
        return None;
      }
      var br := new Reader(shard.index, []);
      label Dialled:
      reply := Roundtrip(shard, br, cmd, args, net.second);
      OthersKept@Dialled(br);
      if reply.Some? {
        Put(br);
      }
    }
  }

  /** How the tries of one command end: on a reused connection, the dial, on the fresh connection. */
  datatype Net = Net(first: Trip, dialled: bool, second: Trip)

  function Relayed(store: Store, args: seq<Bytes>, reused: bool, net: Net): Sent
    requires args != []
  {
    var one := if reused then Carried(store, args, net.first) else Sent(None, store, 0);
    if one.reply.Some? || !net.dialled then one
    else
      var two := Carried(one.store, args, net.second);
      Sent(two.reply, two.store, one.runs + two.runs)
  }

  /**
    Main result: a complete exchange on a reused connection is the only one. Otherwise a reply is the
    answer of the last run, on the fresh connection, and there is none if and only if both ways failed.
    Either way the shard holds what it holds after one run, if it ran the command at all.
  */
  lemma RelayOutcome(store: Store, args: seq<Bytes>, reused: bool, net: Net)
    requires args != []
    ensures var sent := Relayed(store, args, reused, net);
            var first := Answer(store, args);
            var last := if reused && net.first.reached then Answer(first.store, args) else first;
            var kept := reused && Completes(net.first, Print(first.reply));
            var retried := net.dialled && Completes(net.second, Print(last.reply));
            && (kept ==> sent.reply == Some(Print(first.reply)) && sent.runs == 1)
            && (!kept && retried ==>
                  sent.reply == Some(Print(last.reply)) && sent.runs == if reused && net.first.reached then 2 else 1)
            && (sent.reply.None? <==> !kept && !retried)
            && sent.runs <= 2 && sent.store == if sent.runs == 0 then store else first.store
  {
    hide Answer, Print;
    TwiceIsOnce(store, args);
  }

  predicate IsLossless(net: Net) {
    var whole := Trip(true, true, None, true);
    net == Net(whole, true, whole)
  }

  /** Over a network that loses nothing every command runs once, whether or not a connection is reused. */
  lemma LosslessRunsOnce(store: Store, args: seq<Bytes>, reused: bool, net: Net)
    requires args != [] && IsLossless(net)
    ensures var a := Answer(store, args);
            Relayed(store, args, reused, net) == Sent(Some(Print(a.reply)), a.store, 1)
  {
    hide Answer, Print;
  }

  // ---- routing ----

  const PING: Bytes := [80, 73, 78, 71]
  const QUIT: Bytes := [81, 85, 73, 84]
  const HELLO: Bytes := [72, 69, 76, 76, 79]
  const CLIENT: Bytes := [67, 76, 73, 69, 78, 84]
  const PONG: Bytes := [80, 79, 78, 71]

  function Ascii(s: string): (b: Bytes)
    ensures |b| == |s|
  {
    seq(|s|, i requires 0 <= i < |s| => (s[i] as int % 256) as byte)
  }

  function Lower(s: Bytes): Bytes {
    seq(|s|, i requires 0 <= i < |s| => if 65 <= s[i] <= 90 then (s[i] + 32) as byte else s[i])
  }

  const UNAVAILABLE: Bytes := [MINUS] + Ascii("ERR ambassador: upstream shard unavailable") + CRLF

  /** The replies given without asking a shard. */
  function LocalReply(args: seq<Bytes>): Option<Bytes>
    requires args != []
  {
    var name := Upper(args[0]);
    if name == PING then Some(if |args| >= 2 then Print(Bulk(args[1])) else Print(Simple(PONG)))
    else if name == QUIT then Some(Print(Simple(OK)))
    else if name == HELLO then Some([MINUS] + Ascii("ERR unknown command 'HELLO'") + CRLF)
    else if name == CLIENT then Some(Print(Simple(OK)))
    else if IsKeyed(name) then
      if |args| >= 2 then None
      else Some([MINUS] + (Ascii("ERR wrong number of arguments for '") + Lower(name) + Ascii("' command")) + CRLF)
    else Some([MINUS] + (Ascii("ERR unknown command '") + args[0] + Ascii("'")) + CRLF)
  }

  lemma AsciiJoin(a: string, b: string)
    ensures Ascii(a + b) == Ascii(a) + Ascii(b)
  {
  }

  /** The texts, byte by byte. */
  lemma Texts()
    ensures PING == Ascii("PING") && QUIT == Ascii("QUIT") && HELLO == Ascii("HELLO") && CLIENT == Ascii("CLIENT")
    ensures GET == Ascii("GET") && SET == Ascii("SET") && SETEX == Ascii("SETEX") && DEL == Ascii("DEL")
    ensures CRLF == Ascii("\r\n") && [MINUS] == Ascii("-") && [DOLLAR] == Ascii("$")
    ensures [PLUS] + PONG + CRLF == Ascii("+PONG\r\n") && [PLUS] + OK + CRLF == Ascii("+OK\r\n")
  {
  }

  lemma HelloText()
    ensures "-" + "ERR unknown command 'HELLO'" == "-ERR unknown command 'HELLO'"
    ensures "-ERR unknown command 'HELLO'" + "\r\n" == "-ERR unknown command 'HELLO'\r\n"
  {
  }

  lemma ArityText()
    ensures "-" + "ERR wrong number of arguments for '" == "-ERR wrong number of arguments for '"
    ensures "' command" + "\r\n" == "' command\r\n"
  {
  }

  lemma UnknownText()
    ensures "-" + "ERR unknown command '" == "-ERR unknown command '"
    ensures "'" + "\r\n" == "'\r\n"
  {
  }

  /** Names count in upper and in lower case, letter by letter; bytes that are no letters are left alone. */
  lemma AnyCase(s: Bytes, i: nat)
    requires i < |s|
    ensures |Upper(s)| == |Lower(s)| == |s|
    ensures 'a' as int <= s[i] as int <= 'z' as int ==> Upper(s)[i] as int - 'A' as int == s[i] as int - 'a' as int
    ensures 'A' as int <= s[i] as int <= 'Z' as int ==> Lower(s)[i] as int - 'a' as int == s[i] as int - 'A' as int
    ensures !('a' as int <= s[i] as int <= 'z' as int) ==> Upper(s)[i] == s[i]
    ensures !('A' as int <= s[i] as int <= 'Z' as int) ==> Lower(s)[i] == s[i]
  {
  }

  /** Main result: what a client is told without a shard being asked, byte by byte. */
  lemma LocalReplies(args: seq<Bytes>)
    requires args != []
    ensures var name := Upper(args[0]);
            LocalReply(args) ==
              if name == Ascii("PING") then
                Some(if |args| == 1 then Ascii("+PONG\r\n")
                     else Ascii("$") + Digits(|args[1]|) + Ascii("\r\n") + (args[1] + Ascii("\r\n")))
              else if name == Ascii("QUIT") || name == Ascii("CLIENT") then Some(Ascii("+OK\r\n"))
              else if name == Ascii("HELLO") then Some(Ascii("-ERR unknown command 'HELLO'\r\n"))
              else if name in {Ascii("GET"), Ascii("SET"), Ascii("SETEX"), Ascii("DEL")} then
                if |args| == 1 then
                  Some(Ascii("-ERR wrong number of arguments for '") + Lower(name) + Ascii("' command\r\n"))
                else None
              else Some(Ascii("-ERR unknown command '") + args[0] + Ascii("'\r\n"))
  {
    hide Ascii, Upper, Lower, Digits;
    Texts();
    HelloText();
    ArityText();
    UnknownText();
    AsciiJoin("-", "ERR unknown command 'HELLO'");
    AsciiJoin("-ERR unknown command 'HELLO'", "\r\n");
    AsciiJoin("-", "ERR wrong number of arguments for '");
    AsciiJoin("' command", "\r\n");
    AsciiJoin("-", "ERR unknown command '");
    AsciiJoin("'", "\r\n");
    var name := Lower(Upper(args[0]));
    Between(Ascii("ERR wrong number of arguments for '"), name, Ascii("' command"));
    Between(Ascii("ERR unknown command '"), args[0], Ascii("'"));
  }

  lemma Between(before: Bytes, name: Bytes, after: Bytes)
    ensures [MINUS] + (before + name + after) + CRLF == [MINUS] + before + name + (after + CRLF)
  {
  }

  predicate IsQuit(args: seq<Bytes>)
    requires args != []
  {
    Upper(args[0]) == QUIT
  }

  /** What one command may do to the shards, and what the client may see of it. */
  ghost predicate Handled(hash: Hash, before: seq<Store>, args: seq<Bytes>, reply: Bytes, after: seq<Store>)
    requires before != [] && args != []
  {
    match LocalReply(args)
    case Some(b) => reply == b && after == before
    case None =>
      var once := Routed(hash, before, args);
      || (after == once && reply == Print(RoutedReply(hash, before, args)))
      || (after == once && reply == Print(RoutedReply(hash, once, args)))       // the first reply was lost
      || ((after == before || after == once) && reply == UNAVAILABLE)
  }

  /** What it does when nothing is lost on the way. */
  ghost predicate HandledOnce(hash: Hash, before: seq<Store>, args: seq<Bytes>, reply: Bytes, after: seq<Store>)
    requires before != [] && args != []
  {
    match LocalReply(args)
    case Some(b) => reply == b && after == before
    case None => after == Routed(hash, before, args) && reply == Print(RoutedReply(hash, before, args))
  }

  /** Relaying a command to its shard is one of the ways of handling it. */
  lemma RelayedIsHandled(hash: Hash, before: seq<Store>, args: seq<Bytes>, reused: bool, net: Net,
                         reply: Bytes, after: seq<Store>)
    requires before != [] && |args| >= 2 && LocalReply(args).None?
    requires var i := ShardOf(hash, |before|, args[1]);
             var sent := Relayed(before[i], args, reused, net);
             && reply == (if sent.reply.Some? then sent.reply.value else UNAVAILABLE)
             && after == before[i := sent.store]
    ensures Handled(hash, before, args, reply, after)
    ensures IsLossless(net) ==> HandledOnce(hash, before, args, reply, after)
  {
    hide Answer, Print, LocalReply, UNAVAILABLE, ShardOf, Relayed, Completes;
    var i := ShardOf(hash, |before|, args[1]);
    RelayOutcome(before[i], args, reused, net);
    assert before[i := before[i]] == before;
    if IsLossless(net) {
      LosslessRunsOnce(before[i], args, reused, net);
    }
  }

  /** Pools of different shards share no connection. */
  lemma Apart(p: Pool, q: Pool)
    requires p.Valid() && q.Valid() && p.shard.index != q.shard.index
    ensures p != q && p.shard != q.shard && forall br <- q.idle :: br !in p.idle
  {
  }

  class Server {
    const shards: seq<Pool>
    const hash: Hash

    ghost function Backends(): set<Shard>
    {
      set p | p in shards :: p.shard
    }

    /** The idle connections of all pools. */
    ghost function Links(): set<Reader>
      reads shards
    {
      set p, br | p in shards && br in p.idle :: br
    }

    /** Every shard has its own pool, and connections never lead to another shard. */
    ghost predicate Valid()
      reads shards, Backends(), Links()
    {
      && shards != []
      && (forall p <- shards :: p.shard in Backends() && (forall br <- p.idle :: br in Links()) && p.Valid())
      && forall i :: 0 <= i < |shards| ==> shards[i].shard.index == i
    }

    ghost function Stores(): (s: seq<Store>)
      reads Backends()
      ensures |s| == |shards|
    {
      seq(|shards|, i requires 0 <= i < |shards| reads if 0 <= i < |shards| then {shards[i].shard} else {} => shards[i].shard.store)
    }

    /** What one pool touches is its own. */
    lemma Separate(i: nat)
      requires Valid() && i < |shards|
      ensures var p := shards[i];
              && p.Valid() && p.shard in Backends() && (forall br <- p.idle :: br in Links())
              && (forall q <- shards :: q != p ==> q.shard != p.shard && forall br <- q.idle :: br !in p.idle)
              && forall j :: 0 <= j < |shards| && j != i ==> shards[j].shard != p.shard
    {
      hide Fits;
      var p := shards[i];
      forall q <- shards | q != p
        ensures q.shard != p.shard && forall br <- q.idle :: br !in p.idle
      {
        Apart(p, q);
      }
    }

    /** One pool has worked; the others have noticed nothing. */
    twostate lemma StillValid(p: Pool)
      requires old(Valid()) && p in shards && p.Valid() && forall br <- p.idle :: br in old(p.idle) || fresh(br)
      requires forall q <- shards :: q != p ==> unchanged(q) && unchanged(q.shard) && forall br <- q.idle :: unchanged(br)
      ensures Valid() && forall br <- Links() :: br in old(Links()) || fresh(br)
    {
      hide Fits;
      forall q <- shards
        ensures q.Valid() && q.shard in Backends()
        ensures forall br <- q.idle :: br in Links() && (br in old(Links()) || fresh(br))
      {
        assert forall br <- old(q.idle) :: br in old(Links());
        if q != p {
          assert q.idle == old(q.idle) && q.shard.store == old(q.shard.store);
        }
      }
    }

    twostate lemma OneStoreChanged(i: nat)
      requires i < |shards|
      requires forall j :: 0 <= j < |shards| && j != i ==> shards[j].shard.store == old(shards[j].shard.store)
      ensures Stores() == old(Stores())[i := shards[i].shard.store]
    {
    }

    lemma StoresAre(i: nat)
      requires i < |shards|
      ensures Stores()[i] == shards[i].shard.store
    {
    }

    /** One pool works; the others notice nothing. */
    method Run(i: nat, cmd: Bytes, ghost args: seq<Bytes>, net: Net) returns (reply: Option<Bytes>)
      requires Valid() && i < |shards| && args != [] && IsSendable(args) && cmd == EncodeCommand(args)
      modifies shards, Backends(), Links()
      ensures Valid() && (forall br <- Links() :: br in old(Links()) || fresh(br))
      ensures var sent := Relayed(old(Stores())[i], args, old(shards[i].idle) != [], net);
              && reply == sent.reply && Stores() == old(Stores())[i := sent.store]
              && shards[i].shard.ran == old(shards[i].shard.ran) + sent.runs
    {
      hide Answer, EncodeCommand, Print, Fits, Relayed, Stores, Valid, Pool.Valid, Links, Backends;
      var p := shards[i];
      StoresAre(i);
      Separate(i);
      reply := p.Do(cmd, args, net);
      StillValid(p);
      OneStoreChanged(i);
    }

    method Forward(key: Bytes, args: seq<Bytes>, net: Net) returns (reply: Bytes)
      requires Valid() && |args| >= 2 && key == args[1] && IsSendable(args) && LocalReply(args).None?
      modifies shards, Backends(), Links()
      ensures Valid() && (forall br <- Links() :: br in old(Links()) || fresh(br))
      ensures var i := ShardOf(hash, |shards|, key);
              var sent := Relayed(old(Stores())[i], args, old(shards[i].idle) != [], net);
              && reply == (if sent.reply.Some? then sent.reply.value else UNAVAILABLE)
              && Stores() == old(Stores())[i := sent.store]
              && shards[i].shard.ran == old(shards[i].shard.ran) + sent.runs
      ensures Handled(hash, old(Stores()), args, reply, Stores())
      ensures IsLossless(net) ==> HandledOnce(hash, old(Stores()), args, reply, Stores())
    {
      hide Answer, EncodeCommand, Print, LocalReply, UNAVAILABLE, Stores, Handled, HandledOnce, Relayed, ShardOf;
      ghost var before, i := Stores(), ShardOf(hash, |shards|, key);
      ghost var reused := shards[i].idle != [];
      var cmd := WriteCommand(args);
      var r := Run(ShardOf(hash, |shards|, key), cmd, args, net);
      reply := if r.Some? then r.value else UNAVAILABLE;
      RelayedIsHandled(hash, before, args, reused, net, reply, Stores());
    }

    method Dispatch(args: seq<Bytes>, net: Net) returns (reply: Bytes, closing: bool)
      requires Valid() && args != [] && IsSendable(args)
      modifies shards, Backends(), Links()
      ensures Valid() && (forall br <- Links() :: br in old(Links()) || fresh(br))
      ensures closing == IsQuit(args)
      ensures Handled(hash, old(Stores()), args, reply, Stores())
      ensures IsLossless(net) ==> HandledOnce(hash, old(Stores()), args, reply, Stores())
    {
      hide Ascii, Upper, Lower, Routed, RoutedReply, Print, Stores, UNAVAILABLE;
      var name := Upper(args[0]);
      closing := false;
      if name == PING {
        if |args| >= 2 {
          reply := WriteBulk(args[1]);
        } else {
          reply := Print(Simple(PONG));
        }
      } else if name == QUIT {
        reply, closing := Print(Simple(OK)), true;
      } else if name == HELLO {
        reply := [MINUS] + Ascii("ERR unknown command 'HELLO'") + CRLF;
      } else if name == CLIENT {
        reply := Print(Simple(OK));
      } else if IsKeyed(name) {
        if |args| < 2 {
          reply := [MINUS] + (Ascii("ERR wrong number of arguments for '") + Lower(name) + Ascii("' command")) + CRLF;
        } else {
          reply := Forward(args[1], args, net);
        }
      } else {
        reply := [MINUS] + (Ascii("ERR unknown command '") + args[0] + Ascii("'")) + CRLF;
      }
    }
  }
}
