/**
  What a client of the cache ambassador gets: the replies of one store, in order, one for each command,
  and flushed unless it lets a batch end in something that is not answered.
*/
module Client {
  import opened Lists
  import opened Resp
  import opened RespReader
  import opened Sharding
  import opened Ambassador
  import opened Connection

  // ---- one store behind the ambassador ----

  /** One command against a single store over the same unreliable network. */
  ghost predicate AnsweredByOne(before: Store, args: seq<Bytes>, reply: Bytes, after: Store)
    requires args != []
  {
    match LocalReply(args)
    case Some(b) => reply == b && after == before
    case None =>
      var once := Answer(before, args);
      || (after == once.store && reply == Print(once.reply))
      || (after == once.store && reply == Print(Answer(once.store, args).reply))
      || ((after == before || after == once.store) && reply == UNAVAILABLE)
  }

  /** The keys that a DEL names all belong to one shard. */
  predicate OneHome(hash: Hash, n: nat, args: seq<Bytes>)
    requires n > 0
  {
    |args| >= 2 && Upper(args[0]) == DEL ==>
      forall k <- args[1..] :: ShardOf(hash, n, k) == ShardOf(hash, n, args[1])
  }

  lemma HandledByOne(hash: Hash, before: seq<Store>, flat: Store, args: seq<Bytes>, reply: Bytes, after: seq<Store>)
      returns (flat1: Store)
    requires LooksLike(hash, before, flat) && args != []
    requires Handled(hash, before, args, reply, after) && OneHome(hash, |before|, args)
    ensures LooksLike(hash, after, flat1) && AnsweredByOne(flat, args, reply, flat1)
  {
    hide Upper, Answer, Print, Routed, RoutedReply, UNAVAILABLE;
    if LocalReply(args).Some? || (reply == UNAVAILABLE && after == before) {
      return flat;
    }
    var once := Answer(flat, args).store;
    RoutedSize(hash, before, args);
    ShardsAreOneStore(hash, before, flat, args);
    ShardsAreOneStore(hash, Routed(hash, before, args), once, args);
    return once;
  }

  lemma RoutedSize(hash: Hash, stores: seq<Store>, args: seq<Bytes>)
    requires stores != [] && |args| >= 2
    ensures |Routed(hash, stores, args)| == |stores|
  {
  }

  ghost predicate IsFlatTrace(flats: seq<Store>, asked: seq<seq<Bytes>>, replies: seq<Bytes>) {
    && |replies| == |asked| && |flats| == |asked| + 1
    && forall i :: 0 <= i < |asked| ==> asked[i] != [] && AnsweredByOne(flats[i], asked[i], replies[i], flats[i + 1])
  }

  /**
    Main result: whatever a connection asked of the shards, one store could have answered, command by
    command, and it would hold what the shards hold together.
  */
  lemma {:induction false} OneStoreBehind(hash: Hash, stores: seq<seq<Store>>, flat: Store,
                                          asked: seq<seq<Bytes>>, replies: seq<Bytes>)
      returns (flats: seq<Store>)
    requires IsTrace(hash, stores, asked, replies) && LooksLike(hash, stores[0], flat)
    requires forall args <- asked :: OneHome(hash, |stores[0]|, args)
    ensures IsFlatTrace(flats, asked, replies) && flats[0] == flat
    ensures LooksLike(hash, stores[|asked|], flats[|asked|]) && |stores[|asked|]| == |stores[0]|
    decreases |asked|
  {
    hide LooksLike, Handled, AnsweredByOne, OneHome;
    if asked == [] {
      return [flat];
    }
    var n := |asked| - 1;
    flats := OneStoreBehind(hash, stores[..|asked|], flat, asked[..n], replies[..n]);
    assert stores[..|asked|][n] == stores[n] && asked[n] in asked;
    HandledSize(hash, stores[n], asked[n], replies[n], stores[n + 1]);
    var last := HandledByOne(hash, stores[n], flats[n], asked[n], replies[n], stores[n + 1]);
    flats := flats + [last];
  }

  lemma HandledSize(hash: Hash, before: seq<Store>, args: seq<Bytes>, reply: Bytes, after: seq<Store>)
    requires before != [] && args != [] && Handled(hash, before, args, reply, after)
    ensures |after| == |before|
  {
    hide Upper, Answer, Print, UNAVAILABLE;
  }

  // ---- and nothing else, when nothing is lost ----

  /** The reply of one store to one command, and what it holds then. */
  function ByOne(flat: Store, args: seq<Bytes>): (Bytes, Store)
    requires args != []
  {
    match LocalReply(args)
    case Some(b) => (b, flat)
    case None => (Print(Answer(flat, args).reply), Answer(flat, args).store)
  }

  function StoreAfter(flat: Store, asked: seq<seq<Bytes>>): Store
    requires forall args <- asked :: args != []
    decreases |asked|
  {
    if asked == [] then flat
    else
      var last := |asked| - 1;
      assert asked[last] in asked && forall args <- asked[..last] :: args in asked;
      ByOne(StoreAfter(flat, asked[..last]), asked[last]).1
  }

  lemma OnceByOne(hash: Hash, before: seq<Store>, flat: Store, args: seq<Bytes>, reply: Bytes, after: seq<Store>)
    requires LooksLike(hash, before, flat) && args != []
    requires HandledOnce(hash, before, args, reply, after) && OneHome(hash, |before|, args)
    ensures reply == ByOne(flat, args).0 && LooksLike(hash, after, ByOne(flat, args).1)
  {
    hide Upper, Answer, Print, UNAVAILABLE;
    if LocalReply(args).None? {
      ShardsAreOneStore(hash, before, flat, args);
    }
  }

  /**
    Main result: over a network that loses nothing the ambassador and its shards are one store: each reply
    is the one that the store gives after the commands before it.
  */
  lemma {:induction false} LosslessIsOneStore(hash: Hash, stores: seq<seq<Store>>, flat: Store,
                                              asked: seq<seq<Bytes>>, replies: seq<Bytes>)
    requires IsPlainTrace(hash, stores, asked, replies) && LooksLike(hash, stores[0], flat)
    requires forall args <- asked :: args != [] && OneHome(hash, |stores[0]|, args)
    ensures LooksLike(hash, stores[|asked|], StoreAfter(flat, asked)) && |stores[|asked|]| == |stores[0]|
    ensures forall i :: 0 <= i < |asked| ==> replies[i] == ByOne(StoreAfter(flat, asked[..i]), asked[i]).0
    decreases |asked|
  {
    hide LooksLike, HandledOnce, ByOne, OneHome;
    if asked != [] {
      var n := |asked| - 1;
      LosslessIsOneStore(hash, stores[..|asked|], flat, asked[..n], replies[..n]);
      forall i | 0 <= i < n
        ensures replies[i] == ByOne(StoreAfter(flat, asked[..i]), asked[i]).0
      {
        assert asked[..n][..i] == asked[..i] && replies[..n][i] == replies[i];
      }
      assert asked[n] in asked;
      OnceSize(hash, stores[n], asked[n], replies[n], stores[n + 1]);
      OnceByOne(hash, stores[n], StoreAfter(flat, asked[..n]), asked[n], replies[n], stores[n + 1]);
    }
  }

  lemma OnceSize(hash: Hash, before: seq<Store>, args: seq<Bytes>, reply: Bytes, after: seq<Store>)
    requires before != [] && args != [] && HandledOnce(hash, before, args, reply, after)
    ensures |after| == |before|
  {
    hide Upper, Answer, Print, UNAVAILABLE;
  }

  // ---- one reply for each command ----

  /** Main result: single replies written one after the other are read back one after the other. */
  lemma {:induction false} RepliesLineUp(replies: seq<Bytes>, rest: Bytes)
    requires forall b <- replies :: IsOneReply(b)
    ensures RepliesLen(|replies|, Joined(replies) + rest) == Some(|Joined(replies)|)
    decreases |replies|
  {
    hide ReplyLen;
    if replies == [] {
      assert replies == [] && |replies| == 0 && Joined(replies) + rest == rest;
      assert RepliesLen(0, rest) == Some(0);
    } else {
      var first, later := replies[0], Joined(replies[1..]) + rest;
      assert first in replies && IsOneReply(first);
      assert Joined(replies) + rest == first + later;
      ReplyIsStable(first, later);
      assert (first + later)[|first|..] == later;
      RepliesLineUp(replies[1..], rest);
    }
  }

  // ---- flushing ----

  ghost predicate ArePlain(cmds: seq<seq<Bytes>>) {
    forall c <- cmds :: c != [] && IsSendable(c) && !IsQuit(c)
  }

  lemma FirstOf(cmds: seq<seq<Bytes>>, rest: Bytes)
    requires ArePlain(cmds) && cmds != []
    ensures CommandAt(EncodeAll(cmds) + rest) == Got(cmds[0], |EncodeCommand(cmds[0])|)
    ensures (EncodeAll(cmds) + rest)[|EncodeCommand(cmds[0])|..] == EncodeAll(cmds[1..]) + rest
    ensures ArePlain(cmds[1..])
  {
    hide CommandAt, EncodeCommand, IsSendable, IsQuit, EncodeAll;
    EncodeFirst(cmds, rest);
    assert cmds[0] in cmds && forall c <- cmds[1..] :: c in cmds;
    CommandRoundTrip(cmds[0], EncodeAll(cmds[1..]) + rest);
  }

  lemma PlainHead(cmds: seq<seq<Bytes>>)
    requires ArePlain(cmds) && cmds != []
    ensures cmds[0] != [] && !IsQuit(cmds[0])
  {
    assert cmds[0] in cmds;
  }

  lemma NothingAhead(s: Bytes)
    ensures Ahead(s) == [] <==> LastAnswered(s) == Nothing
    decreases |s|
  {
    hide CommandAt, IsQuit;
    AnswerableNext(s);
    if CommandAt(s).Got? {
      NothingAhead(s[CommandAt(s).used..]);
    }
  }

  /** Behind the commands of a batch comes what is not answered. */
  lemma {:induction false} LastOfBatch(cmds: seq<seq<Bytes>>, tail: Bytes)
    requires ArePlain(cmds) && cmds != [] && Ahead(tail) == []
    ensures LastAnswered(EncodeAll(cmds) + tail) == Before(|tail|)
    decreases |cmds|
  {
    hide CommandAt, IsQuit, EncodeCommand, Ahead, ArePlain, LastAnswered;
    var s := EncodeAll(cmds) + tail;
    FirstOf(cmds, tail);
    PlainHead(cmds);
    LastNext(s);
    if |cmds| == 1 {
      assert EncodeAll(cmds[1..]) + tail == tail;
      NothingAhead(tail);
    } else {
      LastOfBatch(cmds[1..], tail);
    }
  }

  /**
    Main result: when what follows a batch brings no command that is answered, the replies are held
    back if and only if no read ended where the batch ends.
  */
  lemma BatchHeldBack(cmds: seq<seq<Bytes>>, tail: Bytes, held: Bytes, incoming: seq<Bytes>, owed: bool)
    requires ArePlain(cmds) && cmds != [] && Ahead(tail) == []
    requires held + Joined(incoming) == EncodeAll(cmds) + tail
    ensures Owing(held, incoming, owed) <==> !IsCut(incoming, |tail|)
  {
    hide IsCut, Joined, EncodeAll, ArePlain, Ahead, LastAnswered;
    LastOfBatch(cmds, tail);
  }

  /** Main result: a client that sends whole commands gets every reply, however the bytes arrive. */
  lemma PlainClientIsServed(cmds: seq<seq<Bytes>>, held: Bytes, incoming: seq<Bytes>, owed: bool)
    requires ArePlain(cmds) && held + Joined(incoming) == EncodeAll(cmds)
    requires owed ==> cmds != []
    ensures !Owing(held, incoming, owed)
  {
    hide Owing, CommandAt, ArePlain, Ahead;
    if cmds == [] {
      NothingFails();
      OwingEnds(held, incoming, owed);
    } else {
      NothingAheadOfNothing();
      assert held + Joined(incoming) == EncodeAll(cmds) + [];
      BatchHeldBack(cmds, [], held, incoming, owed);
      assert incoming[|incoming|..] == [];
    }
  }

  lemma NothingAheadOfNothing()
    ensures Ahead([]) == []
  {
    hide CommandAt;
    NothingFails();
    AnswerableNext([]);
  }

  /** In one read, the replies are held back if and only if something does follow. */
  lemma TailHoldsBack(cmds: seq<seq<Bytes>>, tail: Bytes)
    requires ArePlain(cmds) && cmds != [] && Ahead(tail) == []
    ensures Owing([], [EncodeAll(cmds) + tail], false) <==> tail != []
  {
    hide Ahead, ArePlain, Owing, EncodeAll;
    var batch := EncodeAll(cmds) + tail;
    OneRead(batch);
    BatchHeldBack(cmds, tail, [], [batch], false);
    LastOfBatch(cmds, tail);
  }

  lemma OneRead(batch: Bytes)
    ensures [] + Joined([batch]) == batch
    ensures forall n :: IsCut([batch], n) <==> n == |batch| || n == 0
  {
    var chunks := [batch];
    assert chunks[0..] == chunks && chunks[1..] == [] && Joined(chunks) == batch + Joined([]);
    forall n
      ensures IsCut(chunks, n) <==> n == |batch| || n == 0
    {
      assert |Joined(chunks[0..])| == |batch| && |Joined(chunks[1..])| == 0;
    }
  }

  /** Such a client: a PING and an empty line in one segment; the PONG waits. */
  lemma BlankLineHoldsBack()
    ensures Owing([], [EncodeCommand([PING]) + CRLF], false)
  {
    hide Owing, EncodeCommand, Upper, CommandAt, Ahead;
    assert [[PING]][0] == [PING] && [[PING]][1..] == [];
    assert EncodeAll([[PING]]) == EncodeCommand([PING]) + [] == EncodeCommand([PING]);
    PingIsPlain();
    BlankLineIsEmpty();
    TailHoldsBack([[PING]], CRLF);
  }

  lemma PingIsPlain()
    ensures ArePlain([[PING]])
  {
    assert |Upper(PING)| == 4 && Upper(PING)[0] == 80;
  }

  lemma BlankLineIsEmpty()
    ensures Ahead(CRLF) == []
  {
    LineOf([], []);
    assert [] + CRLF + [] == CRLF && CRLF[..2] == CRLF && [] + CRLF == CRLF;
    assert CommandAt(CRLF) == Got([], 2);
    AnswerableNext(CRLF);
    AnswerableNext([]);
    NothingFails();
    assert CRLF[2..] == [];
  }
}
