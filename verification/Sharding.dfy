/**
  What the cache shards answer, and why a set of shards behind the ambassador looks like one store.
  The hash of a key is a parameter: all that matters is that it is the same at every call.
*/
module Sharding {
  import opened Lists
  import opened Resp

  type Store = map<Bytes, Bytes>
  type Hash = Bytes -> nat

  // Command names and replies, in ASCII.
  const GET: Bytes := [71, 69, 84]
  const SET: Bytes := [83, 69, 84]
  const SETEX: Bytes := [83, 69, 84, 69, 88]
  const DEL: Bytes := [68, 69, 76]
  const EX: Bytes := [69, 88]
  const OK: Bytes := [79, 75]
  const ERR: Bytes := [69, 82, 82]

  function Upper(s: Bytes): Bytes {
    seq(|s|, i requires 0 <= i < |s| => if 97 <= s[i] <= 122 then (s[i] - 32) as byte else s[i])
  }

  predicate IsKeyed(name: Bytes) {
    name in {GET, SET, SETEX, DEL}
  }

  // ---- one Redis ----

  datatype Answered = Answered(store: Store, reply: Reply)

  predicate IsExpiry(s: Bytes) {
    var n := Atoi(s);
    n.Some? && n.value > 0
  }

  /** DEL: the keys one after the other, and how many were there. */
  function Delete(store: Store, keys: seq<Bytes>): (Store, nat) {
    if keys == [] then (store, 0)
    else
      var (left, n) := Delete(store - {keys[0]}, keys[1..]);
      (left, if keys[0] in store then n + 1 else n)
  }

  function Stored(store: Store, key: Bytes, value: Bytes): Answered {
    Answered(store[key := value], Simple(OK))
  }

  /** A stock Redis on the commands that are forwarded; expiry itself is not modelled. */
  function Answer(store: Store, args: seq<Bytes>): Answered
    requires args != []
  {
    var name := Upper(args[0]);
    if name == GET && |args| == 2 then
      Answered(store, if args[1] in store then Bulk(store[args[1]]) else NullBulk)
    else if name == SET && (|args| == 3 || (|args| == 5 && Upper(args[3]) == EX && IsExpiry(args[4]))) then
      Stored(store, args[1], args[2])
    else if name == SETEX && |args| == 4 && IsExpiry(args[2]) then
      Stored(store, args[1], args[3])
    else if name == DEL && |args| >= 2 then
      var (left, n) := Delete(store, args[1..]);
      Answered(left, Integer(Digits(n)))
    else
      Answered(store, Error(ERR))
  }

  /** Main result: what was set last is what is read, until it is deleted; other keys are left alone. */
  lemma SetThenGet(store: Store, key: Bytes, value: Bytes)
    ensures var set1 := Answer(store, [SET, key, value]);
            && set1.reply == Simple(OK)
            && Answer(set1.store, [GET, key]) == Answered(set1.store, Bulk(value))
            && forall k :: k != key ==> Answer(set1.store, [GET, k]).reply == Answer(store, [GET, k]).reply
    ensures var gone := Answer(store, [DEL, key]);
            && gone.reply == Integer(Digits(if key in store then 1 else 0))
            && Answer(gone.store, [GET, key]) == Answered(gone.store, NullBulk)
            && forall k :: k != key ==> Answer(gone.store, [GET, k]).reply == Answer(store, [GET, k]).reply
  {
    hide Digits;
    Names();
    assert [DEL, key][1..] == [key] && [key][1..] == [];
    assert Delete(store - {key}, []) == (store - {key}, 0);
  }

  lemma Names()
    ensures Upper(GET) == GET && Upper(SET) == SET && Upper(SETEX) == SETEX && Upper(DEL) == DEL && Upper(EX) == EX
  {
  }

  /** Both ways of setting with an expiry set, if the expiry is a positive number. */
  lemma SetWithExpiry(store: Store, key: Bytes, value: Bytes, seconds: nat)
    requires 0 < seconds <= MAX_INT
    ensures Answer(store, [SETEX, key, Digits(seconds), value]) == Answer(store, [SET, key, value])
    ensures Answer(store, [SET, key, value, EX, Digits(seconds)]) == Answer(store, [SET, key, value])
    ensures Answer(store, [SETEX, key, Digits(0), value]) == Answered(store, Error(ERR))
  {
    hide Digits, Atoi;
    Names();
    AtoiDigits(seconds);
    AtoiDigits(0);
  }

  lemma {:induction false} DeleteLeaves(store: Store, keys: seq<Bytes>)
    ensures Delete(store, keys).0 == map k | k in store && k !in keys :: store[k]
  {
    if keys != [] {
      DeleteLeaves(store - {keys[0]}, keys[1..]);
      assert forall k :: k in keys <==> k == keys[0] || k in keys[1..];
    }
  }

  lemma {:induction false} DeleteNothing(store: Store, keys: seq<Bytes>)
    requires forall k :: k in keys ==> k !in store
    ensures Delete(store, keys) == (store, 0)
  {
    if keys != [] {
      assert store - {keys[0]} == store;
      DeleteNothing(store, keys[1..]);
    }
  }

  /** Main result: running a command a second time leaves the store as the first run left it. */
  lemma TwiceIsOnce(store: Store, args: seq<Bytes>)
    requires args != []
    ensures Answer(Answer(store, args).store, args).store == Answer(store, args).store
  {
    hide Delete, IsExpiry, Upper;
    if Upper(args[0]) == DEL && |args| >= 2 {
      DeleteLeaves(store, args[1..]);
      DeleteNothing(Delete(store, args[1..]).0, args[1..]);
    }
  }

  /** How many of the keys are there, counting a key once. */
  lemma {:induction false} DeleteCounts(store: Store, keys: seq<Bytes>)
    ensures Delete(store, keys).1 == |set k | k in keys && k in store|
  {
    var all := set k | k in keys && k in store;
    if keys == [] {
      assert all == {};
    } else {
      var less := set k | k in keys[1..] && k in store - {keys[0]};
      DeleteCounts(store - {keys[0]}, keys[1..]);
      assert forall k :: k in keys <==> k == keys[0] || k in keys[1..];
      if keys[0] in store {
        assert all == less + {keys[0]};
      } else {
        assert all == less;
      }
    }
  }

  lemma DigitsDiffer(m: nat, n: nat)
    requires Digits(m) == Digits(n)
    ensures m == n
  {
    DigitsAreValue(m);
    DigitsAreValue(n);
  }

  /** Main result: the reply to the second run differs exactly when a DEL had something to delete. */
  lemma SecondReply(store: Store, args: seq<Bytes>)
    requires args != []
    ensures Answer(Answer(store, args).store, args).reply != Answer(store, args).reply
            <==> Upper(args[0]) == DEL && exists k :: k in args[1..] && k in store
  {
    hide Delete, IsExpiry, Upper, Digits;
    if Upper(args[0]) == DEL && |args| >= 2 {
      var keys := args[1..];
      DeleteLeaves(store, keys);
      DeleteNothing(Delete(store, keys).0, keys);
      DeleteCounts(store, keys);
      var found := set k | k in keys && k in store;
      if Digits(|found|) == Digits(0) {
        DigitsDiffer(|found|, 0);
        assert found == {};
        assert forall k :: k in keys && k in store ==> k in found;
      } else {
        assert found != {};
        var k :| k in found;
      }
    }
  }

  // ---- many shards ----

  function ShardOf(hash: Hash, n: nat, key: Bytes): (i: nat)
    requires n > 0
    ensures i < n
  {
    hash(key) % n
  }

  /** Every key lives on its own shard only, where the one store has it. */
  ghost predicate LooksLike(hash: Hash, stores: seq<Store>, flat: Store) {
    && stores != []
    && forall i, k :: 0 <= i < |stores| ==>
         (k in stores[i] <==> k in flat && ShardOf(hash, |stores|, k) == i)
         && (k in stores[i] ==> stores[i][k] == flat[k])
  }

  /** The shard of its first key runs a command. */
  function Routed(hash: Hash, stores: seq<Store>, args: seq<Bytes>): seq<Store>
    requires stores != [] && |args| >= 2
  {
    var i := ShardOf(hash, |stores|, args[1]);
    stores[i := Answer(stores[i], args).store]
  }

  function RoutedReply(hash: Hash, stores: seq<Store>, args: seq<Bytes>): Reply
    requires stores != [] && |args| >= 2
  {
    Answer(stores[ShardOf(hash, |stores|, args[1])], args).reply
  }

  /** Every key a command names that is stored at all is on the shard of its first key. */
  predicate StaysHome(hash: Hash, n: nat, flat: Store, args: seq<Bytes>)
    requires n > 0 && |args| >= 2
  {
    Upper(args[0]) == DEL ==>
      forall k :: k in args[1..] && k in flat ==> ShardOf(hash, n, k) == ShardOf(hash, n, args[1])
  }

  /**
    Main result: on one store and on the shards a forwarded command gets the same reply, and the
    shards still look like that store, if and only if no key it deletes is on another shard.
  */
  lemma ShardsAreOneStore(hash: Hash, stores: seq<Store>, flat: Store, args: seq<Bytes>)
    requires LooksLike(hash, stores, flat) && |args| >= 2
    ensures StaysHome(hash, |stores|, flat, args) <==>
              && LooksLike(hash, Routed(hash, stores, args), Answer(flat, args).store)
              && RoutedReply(hash, stores, args) == Answer(flat, args).reply
    ensures StaysHome(hash, |stores|, flat, args) <==>
              RoutedReply(hash, stores, args) == Answer(flat, args).reply
  {
    hide Delete, IsExpiry, Upper, Digits, ShardOf;
    if Upper(args[0]) == DEL {
      DeletesAreOne(hash, stores, flat, args);
    }
  }

  lemma DeletesAreOne(hash: Hash, stores: seq<Store>, flat: Store, args: seq<Bytes>)
    requires LooksLike(hash, stores, flat) && |args| >= 2 && Upper(args[0]) == DEL
    ensures StaysHome(hash, |stores|, flat, args) ==> LooksLike(hash, Routed(hash, stores, args), Answer(flat, args).store)
    ensures StaysHome(hash, |stores|, flat, args) <==> RoutedReply(hash, stores, args) == Answer(flat, args).reply
  {
    hide Delete, IsExpiry, Upper, Digits, ShardOf;
    var keys := args[1..];
    var home := ShardOf(hash, |stores|, args[1]);
    DeleteLeaves(flat, keys);
    DeleteLeaves(stores[home], keys);
    DeleteCounts(flat, keys);
    DeleteCounts(stores[home], keys);
    var everywhere, here := set k | k in keys && k in flat, set k | k in keys && k in stores[home];
    assert here <= everywhere;
    if Digits(|here|) == Digits(|everywhere|) {
      DigitsDiffer(|here|, |everywhere|);
      SameSize(here, everywhere);
      assert forall k :: k in keys && k in flat ==> k in everywhere;
    } else {
      assert here != everywhere;
      var k :| k in everywhere && k !in here;
    }
  }

  lemma {:induction false} SameSize<T>(a: set<T>, b: set<T>)
    requires a <= b && |a| == |b|
    ensures a == b
  {
    if exists x :: x in b && x !in a {
      var x :| x in b && x !in a;
      assert a <= b - {x};
      SubsetSize(a, b - {x});
    }
  }

  // ---- replies that can be read back ----

  /** Values short enough that the size of their frame does not wrap. */
  ghost predicate Fits(store: Store) {
    forall k :: k in store ==> |store[k]| <= MAX_INT - 2
  }

  lemma AnswersAreReadable(store: Store, args: seq<Bytes>)
    requires args != [] && Fits(store) && IsSendable(args)
    ensures Fits(Answer(store, args).store) && IsPrintable(Answer(store, args).reply)
  {
    hide Delete, IsExpiry, Upper, Digits;
    if Upper(args[0]) == DEL && |args| >= 2 {
      DeleteLeaves(store, args[1..]);
      DigitsOneLine(Delete(store, args[1..]).1);
    }
  }
}
