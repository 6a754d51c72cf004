/**
  Many clients of the cache ambassador at once: each borrows a connection, sends its command, reads one
  reply and returns the connection, and the steps of different clients interleave in any order
  (services/cache-ambassador/pool.go). A connection is the bytes on it that nobody has read yet.
*/
module Sharing {
  import opened Lists
  import opened Resp
  import opened Sharding
  import opened Ambassador
  import opened Client

  type ClientId = nat

  datatype Phase =
    | Resting
    | Wanting(args: seq<Bytes>)
    | Dialling(args: seq<Bytes>, sends: nat)
    | Holding(args: seq<Bytes>, unread: Bytes, reused: bool, sends: nat)
    | Served(args: seq<Bytes>, unread: Bytes, reply: Bytes, sends: nat)
    | Refused(args: seq<Bytes>, sends: nat)

  /**
    log holds the commands the shards have run, in order; late those that were sent on connections given
    up since, and that a shard may still run.
  */
  datatype State = State(stores: seq<Store>, idle: seq<seq<Bytes>>, clients: map<ClientId, Phase>,
                         log: seq<seq<Bytes>>, late: seq<seq<Bytes>>)

  datatype Act =
    | Begin(args: seq<Bytes>)
    | Borrow
    | Dial(up: bool)
    | Exchange(reached: bool, arriving: nat, cleared: bool, lingers: bool)
    | Return
    | GiveUp

  /** A step of a client, or the late run of a request. */
  datatype Action = Step(client: ClientId, act: Act) | Late(k: nat)

  function PhaseOf(s: State, c: ClientId): Phase {
    if c in s.clients then s.clients[c] else Resting
  }

  ghost predicate ActCan(phase: Phase, act: Act) {
    match act
    case Begin(args) => phase.Resting? && |args| >= 2 && IsSendable(args)
    case Borrow => phase.Wanting?
    case Dial(_) => phase.Dialling?
    case Exchange(_, _, _, _) => phase.Holding?
    case Return => phase.Served?
    case GiveUp => phase.Refused?
  }

  ghost predicate Can(s: State, a: Action) {
    match a
    case Step(c, act) => ActCan(PhaseOf(s, c), act)
    case Late(k) => k < |s.late|
  }

  ghost predicate IsState(n: nat, s: State) {
    && n > 0 && |s.stores| == |s.idle| == n
    && (forall c <- s.clients :: !s.clients[c].Resting? ==> |s.clients[c].args| >= 2)
    && forall args <- s.late :: |args| >= 2
  }

  function HomeOf(hash: Hash, n: nat, args: seq<Bytes>): (i: nat)
    requires n > 0 && |args| >= 2
    ensures i < n
  {
    ShardOf(hash, n, args[1])
  }

  /** What the shard sends back, as far as it arrives, behind whatever was left on the connection. */
  function Received(hash: Hash, stores: seq<Store>, phase: Phase, x: Act): Bytes
    requires phase.Holding? && x.Exchange? && stores != [] && |phase.args| >= 2
  {
    var answer := if x.reached then Print(RoutedReply(hash, stores, phase.args)) else [];
    phase.unread + if x.arriving <= |answer| then answer[..x.arriving] else answer
  }

  function AfterExchange(hash: Hash, stores: seq<Store>, phase: Phase, x: Act): Phase
    requires phase.Holding? && x.Exchange? && stores != [] && |phase.args| >= 2
  {
    var sends := phase.sends + 1;
    var input := Received(hash, stores, phase, x);
    var n := ReplyLen(input);
    if n.Some? && x.cleared then Served(phase.args, input[n.value..], input[..n.value], sends)
    else if phase.reused then Dialling(phase.args, sends)
    else Refused(phase.args, sends)
  }

  function ActDo(hash: Hash, n: nat, s: State, c: ClientId, act: Act): State
    requires IsState(n, s) && ActCan(PhaseOf(s, c), act)
  {
    var phase := PhaseOf(s, c);
    match act
    case Begin(args) => s.(clients := s.clients[c := Wanting(args)])
    case Borrow =>
      var i := HomeOf(hash, n, phase.args);
      if s.idle[i] == [] then s.(clients := s.clients[c := Dialling(phase.args, 0)])
      else s.(idle := s.idle[i := s.idle[i][1..]], clients := s.clients[c := Holding(phase.args, s.idle[i][0], true, 0)])
    case Dial(up) =>
      s.(clients := s.clients[c := if up then Holding(phase.args, [], false, phase.sends) else Refused(phase.args, phase.sends)])
    case Exchange(reached, _, _, lingers) =>
      s.(clients := s.clients[c := AfterExchange(hash, s.stores, phase, act)],
         stores := if reached then Routed(hash, s.stores, phase.args) else s.stores,
         log := if reached then s.log + [phase.args] else s.log,
         late := if !reached && lingers then s.late + [phase.args] else s.late)
    case Return =>
      var i := HomeOf(hash, n, phase.args);
      s.(idle := if |s.idle[i]| < MAX_IDLE then s.idle[i := s.idle[i] + [phase.unread]] else s.idle,
         clients := s.clients[c := Resting])
    case GiveUp => s.(clients := s.clients[c := Resting])
  }

  function Do(hash: Hash, n: nat, s: State, a: Action): State
    requires IsState(n, s) && Can(s, a)
  {
    match a
    case Step(c, act) => ActDo(hash, n, s, c, act)
    case Late(k) =>
      s.(stores := Routed(hash, s.stores, s.late[k]), log := s.log + [s.late[k]], late := s.late[..k] + s.late[k + 1..])
  }

  /** Every action of the run is possible when it is taken. */
  ghost predicate Runs(hash: Hash, n: nat, s: State, trace: seq<Action>, t: State)
    requires IsState(n, s)
    decreases |trace|
  {
    if trace == [] then s == t
    else Can(s, trace[0]) && (StateKept(hash, n, s, trace[0]); Runs(hash, n, Do(hash, n, s, trace[0]), trace[1..], t))
  }

  lemma StateKept(hash: Hash, n: nat, s: State, a: Action)
    requires IsState(n, s) && Can(s, a)
    ensures IsState(n, Do(hash, n, s, a))
  {
    hide ReplyLen, HomeOf, Received, IsSendable, Routed, AfterExchange;
    if a.Late? {
      AllButOne(s.late, a.k);
      SameShards(hash, s.stores, s.late[a.k]);
    } else if a.act.Exchange? {
      SameShards(hash, s.stores, PhaseOf(s, a.client).args);
      SameAfter(hash, s.stores, PhaseOf(s, a.client), a.act);
    }
  }

  lemma SameShards(hash: Hash, stores: seq<Store>, args: seq<Bytes>)
    requires stores != [] && |args| >= 2
    ensures |Routed(hash, stores, args)| == |stores|
  {
    hide Answer;
  }

  lemma SameAfter(hash: Hash, stores: seq<Store>, phase: Phase, x: Act)
    requires phase.Holding? && x.Exchange? && stores != [] && |phase.args| >= 2
    ensures var after := AfterExchange(hash, stores, phase, x);
            !after.Resting? && after.args == phase.args
  {
    hide ReplyLen, Received;
  }

  lemma AllButOne(late: seq<seq<Bytes>>, k: nat)
    requires k < |late|
    ensures late[k] in late && forall args <- late[..k] + late[k + 1..] :: args in late
  {
  }

  function Init(n: nat): State {
    State(seq(n, _ => map[]), seq(n, _ => []), map[], [], [])
  }

  // ---- the invariant ----

  /** Nothing is left to read on a connection between two commands, and no command is sent thrice. */
  ghost predicate PhaseFine(phase: Phase) {
    match phase
    case Resting => true
    case Wanting(args) => IsSendable(args)
    case Dialling(args, sends) => IsSendable(args) && sends <= 1
    case Holding(args, unread, reused, sends) => IsSendable(args) && unread == [] && sends <= (if reused then 0 else 1)
    case Served(args, unread, reply, sends) => IsSendable(args) && unread == [] && 1 <= sends <= 2
    case Refused(args, sends) => IsSendable(args) && sends <= 2
  }

  ghost predicate Aligned(n: nat, s: State) {
    && IsState(n, s)
    && (forall i :: 0 <= i < n ==> Fits(s.stores[i]) && |s.idle[i]| <= MAX_IDLE)
    && (forall i, k :: 0 <= i < n && 0 <= k < |s.idle[i]| ==> s.idle[i][k] == [])
    && (forall c <- s.clients :: PhaseFine(s.clients[c]))
    && (forall args <- s.late :: IsSendable(args))
  }

  /** An aligned connection gives a command its own reply or an error, and stays aligned. */
  lemma ExchangeFine(hash: Hash, stores: seq<Store>, phase: Phase, x: Act)
    requires phase.Holding? && x.Exchange? && stores != [] && |phase.args| >= 2
    requires PhaseFine(phase) && forall i :: 0 <= i < |stores| ==> Fits(stores[i])
    ensures var after := AfterExchange(hash, stores, phase, x);
            PhaseFine(after) && (after.Served? ==> x.reached && after.reply == Print(RoutedReply(hash, stores, phase.args)))
    ensures forall i :: 0 <= i < |stores| ==> Fits(Routed(hash, stores, phase.args)[i])
  {
    hide ReplyLen, Print, Answer, Fits, IsSendable;
    var i := ShardOf(hash, |stores|, phase.args[1]);
    AnswersAreReadable(stores[i], phase.args);
    var answer := Print(RoutedReply(hash, stores, phase.args));
    PrintThenRead(RoutedReply(hash, stores, phase.args), []);
    assert answer + [] == answer;
    var input := Received(hash, stores, phase, x);
    if !x.reached {
      NothingRead();
      assert input == [];
    } else if x.arriving < |answer| {
      assert input == answer[..x.arriving];
      NoPrefixIsReply(answer, x.arriving);
    } else {
      assert input == answer;
    }
  }

  /** A client is served if and only if the shard got its command and the whole answer came back. */
  lemma ServedIff(hash: Hash, stores: seq<Store>, phase: Phase, x: Act)
    requires phase.Holding? && x.Exchange? && stores != [] && |phase.args| >= 2
    requires PhaseFine(phase) && forall i :: 0 <= i < |stores| ==> Fits(stores[i])
    ensures var answer := Print(RoutedReply(hash, stores, phase.args));
            var after := AfterExchange(hash, stores, phase, x);
            if x.reached && x.arriving >= |answer| && x.cleared then
              after == Served(phase.args, [], answer, phase.sends + 1)
            else if phase.reused then after == Dialling(phase.args, phase.sends + 1)
            else after == Refused(phase.args, phase.sends + 1)
  {
    hide ReplyLen, Print, Answer, Fits, IsSendable;
    var i := ShardOf(hash, |stores|, phase.args[1]);
    AnswersAreReadable(stores[i], phase.args);
    var answer := Print(RoutedReply(hash, stores, phase.args));
    PrintThenRead(RoutedReply(hash, stores, phase.args), []);
    assert answer + [] == answer;
    var input := Received(hash, stores, phase, x);
    if !x.reached {
      NothingRead();
      assert input == [];
    } else if x.arriving < |answer| {
      assert input == answer[..x.arriving];
      NoPrefixIsReply(answer, x.arriving);
    } else {
      assert input == answer && answer[|answer|..] == [] && answer[..|answer|] == answer;
    }
  }

  /** A connection given back to a pool with room is there for the next command of its shard. */
  lemma ReturnThenBorrow(hash: Hash, n: nat, s: State, c: ClientId, d: ClientId)
    requires IsState(n, s) && PhaseOf(s, c).Served? && PhaseOf(s, d).Wanting? && c != d
    requires HomeOf(hash, n, PhaseOf(s, c).args) == HomeOf(hash, n, PhaseOf(s, d).args)
    requires |s.idle[HomeOf(hash, n, PhaseOf(s, c).args)]| < MAX_IDLE
    ensures var t := ActDo(hash, n, s, c, Return);
            && IsState(n, t) && PhaseOf(t, c) == Resting && PhaseOf(t, d) == PhaseOf(s, d)
            && PhaseOf(ActDo(hash, n, t, d, Borrow), d).Holding? && PhaseOf(ActDo(hash, n, t, d, Borrow), d).reused
            && |ActDo(hash, n, t, d, Borrow).idle[HomeOf(hash, n, PhaseOf(s, c).args)]|
               == |s.idle[HomeOf(hash, n, PhaseOf(s, c).args)]|
  {
    hide HomeOf;
    StateKept(hash, n, s, Step(c, Return));
  }

  lemma AlignedStep(hash: Hash, n: nat, s: State, c: ClientId, act: Act)
    requires Aligned(n, s) && ActCan(PhaseOf(s, c), act) && !act.Exchange? && !act.Borrow? && !act.Return?
    ensures IsState(n, ActDo(hash, n, s, c, act)) ==> Aligned(n, ActDo(hash, n, s, c, act))
  {
    hide Fits, IsSendable, HomeOf;
  }

  /** Taking a connection from a pool, or giving one back. */
  lemma AlignedPool(hash: Hash, n: nat, s: State, c: ClientId, act: Act)
    requires Aligned(n, s) && ActCan(PhaseOf(s, c), act) && (act.Borrow? || act.Return?)
    ensures IsState(n, ActDo(hash, n, s, c, act)) ==> Aligned(n, ActDo(hash, n, s, c, act))
  {
    hide Fits, IsSendable, HomeOf;
  }

  lemma AlignedExchange(hash: Hash, n: nat, s: State, c: ClientId, act: Act)
    requires Aligned(n, s) && ActCan(PhaseOf(s, c), act) && act.Exchange?
    ensures IsState(n, ActDo(hash, n, s, c, act)) ==> Aligned(n, ActDo(hash, n, s, c, act))
  {
    hide AfterExchange, Fits, IsSendable, Routed;
    ExchangeFine(hash, s.stores, PhaseOf(s, c), act);
    RunFits(hash, s.stores, PhaseOf(s, c).args);
  }

  lemma AlignedLate(hash: Hash, n: nat, s: State, k: nat)
    requires Aligned(n, s) && k < |s.late|
    ensures IsState(n, Do(hash, n, s, Late(k))) ==> Aligned(n, Do(hash, n, s, Late(k)))
  {
    hide Fits, IsSendable, Routed;
    assert s.late[k] in s.late;
    RunFits(hash, s.stores, s.late[k]);
  }

  lemma AlignedKept(hash: Hash, n: nat, s: State, a: Action)
    requires Aligned(n, s) && Can(s, a)
    ensures Aligned(n, Do(hash, n, s, a))
  {
    AlignedState(n, s);
    StateKept(hash, n, s, a);
    hide Aligned, IsState, ActDo, ActCan;
    match a
    case Step(c, act) =>
      if act.Exchange? {
        AlignedExchange(hash, n, s, c, act);
      } else if act.Borrow? || act.Return? {
        AlignedPool(hash, n, s, c, act);
      } else {
        AlignedStep(hash, n, s, c, act);
      }
    case Late(k) => AlignedLate(hash, n, s, k);
  }

  lemma RunFits(hash: Hash, stores: seq<Store>, args: seq<Bytes>)
    requires stores != [] && |args| >= 2 && IsSendable(args) && forall i :: 0 <= i < |stores| ==> Fits(stores[i])
    ensures |Routed(hash, stores, args)| == |stores|
    ensures forall i :: 0 <= i < |stores| ==> Fits(Routed(hash, stores, args)[i])
  {
    hide Answer, Fits, IsSendable;
    AnswersAreReadable(stores[ShardOf(hash, |stores|, args[1])], args);
  }

  lemma {:induction false} AlwaysAlignedFrom(hash: Hash, n: nat, s: State, trace: seq<Action>, t: State)
    requires Aligned(n, s) && Runs(hash, n, s, trace, t)
    ensures Aligned(n, t)
    decreases |trace|
  {
    hide Aligned, Do, Can;
    if trace != [] {
      AlignedState(n, s);
      StateKept(hash, n, s, trace[0]);
      AlignedKept(hash, n, s, trace[0]);
      AlwaysAlignedFrom(hash, n, Do(hash, n, s, trace[0]), trace[1..], t);
    }
  }

  lemma AlignedState(n: nat, s: State)
    requires Aligned(n, s)
    ensures IsState(n, s)
  {
  }

  /** One more action in front of a run. */
  lemma RunsMore(hash: Hash, n: nat, s: State, a: Action, trace: seq<Action>, t: State)
    requires IsState(n, s) && Can(s, a)
    requires IsState(n, Do(hash, n, s, a)) && Runs(hash, n, Do(hash, n, s, a), trace, t)
    ensures Runs(hash, n, s, [a] + trace, t)
  {
    hide IsState, Can, Do;
    assert ([a] + trace)[1..] == trace;
  }

  /** A resting client asks and gets hold of a connection, a kept one or a new one. */
  lemma GetsHold(hash: Hash, n: nat, s: State, c: ClientId, args: seq<Bytes>) returns (trace: seq<Action>, t: State)
    requires Aligned(n, s) && PhaseOf(s, c).Resting? && |args| >= 2 && IsSendable(args)
    ensures Aligned(n, t) && Runs(hash, n, s, trace, t)
    ensures trace == if s.idle[HomeOf(hash, n, args)] == [] then [Step(c, Begin(args)), Step(c, Borrow), Step(c, Dial(true))]
                     else [Step(c, Begin(args)), Step(c, Borrow)]
    ensures PhaseOf(t, c) == Holding(args, [], s.idle[HomeOf(hash, n, args)] != [], 0)
    ensures t.stores == s.stores && t.log == s.log
  {
    hide Fits, IsSendable, HomeOf, Runs;
    var begin, borrow, dial := Step(c, Begin(args)), Step(c, Borrow), Step(c, Dial(true));
    AlignedKept(hash, n, s, begin);
    var s1 := Do(hash, n, s, begin);
    AlignedKept(hash, n, s1, borrow);
    var s2 := Do(hash, n, s1, borrow);
    if s.idle[HomeOf(hash, n, args)] == [] {
      AlignedKept(hash, n, s2, dial);
      t := Do(hash, n, s2, dial);
      RunsNone(hash, n, t);
      RunsMore(hash, n, s2, dial, [], t);
      RunsMore(hash, n, s1, borrow, [dial] + [], t);
      RunsMore(hash, n, s, begin, [borrow] + ([dial] + []), t);
      trace := [begin] + ([borrow] + ([dial] + []));
    } else {
      t := s2;
      RunsNone(hash, n, t);
      RunsMore(hash, n, s1, borrow, [], t);
      RunsMore(hash, n, s, begin, [borrow] + [], t);
      trace := [begin] + ([borrow] + []);
    }
  }

  lemma RunsNone(hash: Hash, n: nat, s: State)
    requires IsState(n, s)
    ensures Runs(hash, n, s, [], s)
  {
    hide IsState, Can, Do;
  }

  /** Main result: a command that nothing happens to is answered by its shard at the first try. */
  lemma LosslessServes(hash: Hash, n: nat, s: State, c: ClientId, args: seq<Bytes>, x: Act)
      returns (trace: seq<Action>, held: State, t: State)
    requires Aligned(n, s) && PhaseOf(s, c).Resting? && |args| >= 2 && IsSendable(args)
    requires x.Exchange? && x.reached && x.cleared && x.arriving >= |Print(RoutedReply(hash, s.stores, args))|
    ensures Aligned(n, held) && Runs(hash, n, s, trace, held) && |trace| <= 3
    ensures forall a <- trace :: a.Step? && a.client == c && !a.act.Exchange?
    ensures Can(held, Step(c, x)) && t == Do(hash, n, held, Step(c, x))
    ensures PhaseOf(t, c) == Served(args, [], Print(RoutedReply(hash, s.stores, args)), 1)
    ensures t.stores == Routed(hash, s.stores, args) && t.log == s.log + [args]
  {
    hide Fits, IsSendable, HomeOf, Runs, Print, ReplyLen, Answer, Routed, RoutedReply, AfterExchange;
    trace, held := GetsHold(hash, n, s, c, args);
    ServedIff(hash, held.stores, PhaseOf(held, c), x);
    t := Do(hash, n, held, Step(c, x));
  }

  /** What a client does next when nothing works any more. */
  function NextAct(phase: Phase): Act
    requires !phase.Resting?
  {
    match phase
    case Wanting(_) => Borrow
    case Dialling(_, _) => Dial(false)
    case Holding(_, _, _, _) => Exchange(false, 0, false, false)
    case Served(_, _, _, _) => Return
    case Refused(_, _) => GiveUp
  }

  /** How many of these steps are left at most. */
  function StepsLeft(phase: Phase): nat {
    match phase
    case Resting => 0
    case Wanting(_) => 4
    case Dialling(_, _) => 2
    case Holding(_, _, _, _) => 3
    case Served(_, _, _, _) => 1
    case Refused(_, _) => 1
  }

  lemma GetsOn(hash: Hash, n: nat, s: State, c: ClientId)
    requires IsState(n, s) && !PhaseOf(s, c).Resting?
    ensures var a := Step(c, NextAct(PhaseOf(s, c)));
            Can(s, a) && IsState(n, Do(hash, n, s, a)) && StepsLeft(PhaseOf(Do(hash, n, s, a), c)) < StepsLeft(PhaseOf(s, c))
  {
    hide ReplyLen, Print, Answer, HomeOf, Received, IsSendable;
    StateKept(hash, n, s, Step(c, NextAct(PhaseOf(s, c))));
  }

  /** Main result: even when nothing works any more, a client is through within four steps of its own. */
  lemma {:induction false} NeverStuck(hash: Hash, n: nat, s: State, c: ClientId) returns (trace: seq<Action>, t: State)
    requires IsState(n, s)
    ensures IsState(n, t) && Runs(hash, n, s, trace, t) && PhaseOf(t, c).Resting?
    ensures |trace| <= StepsLeft(PhaseOf(s, c)) <= 4
    ensures forall a <- trace ::
              a.Step? && a.client == c && (a.act.Exchange? ==> !a.act.reached) && (a.act.Dial? ==> !a.act.up)
    decreases StepsLeft(PhaseOf(s, c))
  {
    hide IsState, Can, Do, Runs;
    trace, t := [], s;
    if PhaseOf(s, c).Resting? {
      RunsNone(hash, n, s);
    } else {
      var a := Step(c, NextAct(PhaseOf(s, c)));
      GetsOn(hash, n, s, c);
      trace, t := NeverStuck(hash, n, Do(hash, n, s, a), c);
      RunsMore(hash, n, s, a, trace, t);
      trace := [a] + trace;
    }
  }

  /**
    Main result: in every run of any number of clients, every idle connection is empty, no pool keeps
    more than maxIdle of them, and no command is sent more than twice.
  */
  lemma AlwaysAligned(hash: Hash, n: nat, trace: seq<Action>, s: State)
    requires n > 0 && Runs(hash, n, Init(n), trace, s)
    ensures Aligned(n, s)
  {
    AlwaysAlignedFrom(hash, n, Init(n), trace, s);
  }

  // ---- each sending runs once ----

  /** The command that this step brings to a shard, to be run now or late. */
  function Brought(s: State, a: Action): multiset<seq<Bytes>> {
    if a.Step? && PhaseOf(s, a.client).Holding? && a.act.Exchange? && (a.act.reached || a.act.lingers)
    then multiset{PhaseOf(s, a.client).args} else multiset{}
  }

  ghost function AllBrought(hash: Hash, n: nat, s: State, trace: seq<Action>, t: State): multiset<seq<Bytes>>
    requires IsState(n, s) && Runs(hash, n, s, trace, t)
    decreases |trace|
  {
    if trace == [] then multiset{}
    else
      StateKept(hash, n, s, trace[0]);
      Brought(s, trace[0]) + AllBrought(hash, n, Do(hash, n, s, trace[0]), trace[1..], t)
  }

  lemma WithoutOne(late: seq<seq<Bytes>>, k: nat)
    requires k < |late|
    ensures multiset(late) == multiset(late[..k] + late[k + 1..]) + multiset{late[k]}
  {
    assert late == late[..k] + [late[k]] + late[k + 1..];
  }

  lemma OneMore(a: seq<seq<Bytes>>, b: seq<seq<Bytes>>, args: seq<Bytes>)
    ensures multiset(a + [args]) + multiset(b) == multiset(a) + multiset(b) + multiset{args}
    ensures multiset(b) + multiset(a + [args]) == multiset(b) + multiset(a) + multiset{args}
  {
    assert multiset(a + [args]) == multiset(a) + multiset{args};
  }

  /** A late run takes a request from one place to the other. */
  lemma MovedOver(log: seq<seq<Bytes>>, late: seq<seq<Bytes>>, k: nat)
    requires k < |late|
    ensures multiset(log + [late[k]]) + multiset(late[..k] + late[k + 1..]) == multiset(log) + multiset(late)
  {
    var rest := late[..k] + late[k + 1..];
    WithoutOne(late, k);
    OneMore(log, rest, late[k]);
    assert multiset(log) + multiset(rest) + multiset{late[k]} == multiset(log) + (multiset(rest) + multiset{late[k]});
  }

  lemma BroughtOnce(hash: Hash, n: nat, s: State, a: Action)
    requires IsState(n, s) && Can(s, a)
    ensures var t := Do(hash, n, s, a);
            multiset(t.log) + multiset(t.late) == multiset(s.log) + multiset(s.late) + Brought(s, a)
  {
    hide ActDo, Routed, IsState;
    var before := multiset(s.log) + multiset(s.late);
    assert before + multiset{} == before;
    match a
    case Step(c, act) =>
      AsksTheSame(hash, n, s, c, act);
      if act.Exchange? {
        if act.reached {
          OneMore(s.log, s.late, PhaseOf(s, c).args);
        } else if act.lingers {
          OneMore(s.late, s.log, PhaseOf(s, c).args);
        }
      }
    case Late(k) => MovedOver(s.log, s.late, k);
  }

  /**
    Main result: in every run, every command that a shard was brought has run exactly as often as it was
    brought, apart from the requests still to be run late.
  */
  lemma {:induction false} EachRunsOnce(hash: Hash, n: nat, s: State, trace: seq<Action>, t: State)
    requires IsState(n, s) && Runs(hash, n, s, trace, t)
    ensures multiset(t.log) + multiset(t.late) == multiset(s.log) + multiset(s.late) + AllBrought(hash, n, s, trace, t)
    decreases |trace|
  {
    hide IsState, Can, Do, Brought;
    if trace != [] {
      StateKept(hash, n, s, trace[0]);
      BroughtOnce(hash, n, s, trace[0]);
      EachRunsOnce(hash, n, Do(hash, n, s, trace[0]), trace[1..], t);
    }
  }

  // ---- one store for all clients ----

  function RunAll(store: Store, log: seq<seq<Bytes>>): Store
    requires forall args <- log :: args != []
  {
    if log == [] then store
    else
      var n := |log| - 1;
      assert log[n] in log && forall args <- log[..n] :: args in log;
      Answer(RunAll(store, log[..n]), log[n]).store
  }

  /** What the shards hold together is what one store holds after the same commands in the same order. */
  ghost predicate OneStore(hash: Hash, n: nat, s: State) {
    && IsState(n, s)
    && (forall args <- s.log :: args != []) && LooksLike(hash, s.stores, RunAll(map[], s.log))
    && (forall c <- s.clients :: !s.clients[c].Resting? ==> OneHome(hash, n, s.clients[c].args))
    && (forall args <- s.late :: OneHome(hash, n, args))
  }

  ghost predicate AtHome(hash: Hash, n: nat, a: Action)
    requires n > 0
  {
    a.Step? && a.act.Begin? ==> OneHome(hash, n, a.act.args)
  }

  /** The same stores and log, or one more command on both. */
  lemma StoresKept(hash: Hash, n: nat, s: State, t: State, args: seq<Bytes>, ran: bool)
    requires OneStore(hash, n, s) && |args| >= 2 && OneHome(hash, n, args)
    requires t.stores == (if ran then Routed(hash, s.stores, args) else s.stores)
    requires t.log == if ran then s.log + [args] else s.log
    ensures (forall x <- t.log :: x != []) && LooksLike(hash, t.stores, RunAll(map[], t.log))
  {
    hide LooksLike, Routed, RunAll, OneHome;
    RanOne(hash, s.stores, s.log, args);
  }

  /** A client keeps asking what it began with. */
  lemma AsksTheSame(hash: Hash, n: nat, s: State, c: ClientId, act: Act)
    requires IsState(n, s) && ActCan(PhaseOf(s, c), act)
    ensures var phase, next, t := PhaseOf(s, c), PhaseOf(ActDo(hash, n, s, c, act), c), ActDo(hash, n, s, c, act);
            && (!next.Resting? ==> next.args == if act.Begin? then act.args else phase.args)
            && (!act.Begin? ==> !phase.Resting?)
            && t.clients.Keys == s.clients.Keys + {c} && forall d <- s.clients :: d != c ==> t.clients[d] == s.clients[d]
    ensures var phase, t := PhaseOf(s, c), ActDo(hash, n, s, c, act);
            var ran := act.Exchange? && act.reached;
            && t.stores == (if ran then Routed(hash, s.stores, phase.args) else s.stores)
            && t.log == (if ran then s.log + [phase.args] else s.log)
            && (t.late == if act.Exchange? && !ran && act.lingers then s.late + [phase.args] else s.late)
  {
    hide ReplyLen, Received, Routed;
  }

  lemma OneStoreKept(hash: Hash, n: nat, s: State, a: Action)
    requires OneStore(hash, n, s) && Can(s, a) && AtHome(hash, n, a)
    ensures OneStore(hash, n, Do(hash, n, s, a))
  {
    hide IsState, LooksLike, RunAll, OneHome, Routed, ActDo, ActCan;
    StateKept(hash, n, s, a);
    var t := Do(hash, n, s, a);
    match a
    case Step(c, act) =>
      AsksTheSame(hash, n, s, c, act);
      if act.Exchange? {
        ClientsAsk(n, s, c);
        StoresKept(hash, n, s, t, PhaseOf(s, c).args, act.reached);
      }
    case Late(k) =>
      assert s.late[k] in s.late;
      LateAsk(n, s, k);
      StoresKept(hash, n, s, t, s.late[k], true);
  }

  lemma ClientsAsk(n: nat, s: State, c: ClientId)
    requires IsState(n, s) && !PhaseOf(s, c).Resting?
    ensures c in s.clients && |PhaseOf(s, c).args| >= 2
  {
  }

  lemma LateAsk(n: nat, s: State, k: nat)
    requires IsState(n, s) && k < |s.late|
    ensures |s.late[k]| >= 2
  {
    assert s.late[k] in s.late;
  }

  /** One more command on the shards is one more command on the one store, with the same reply. */
  lemma RanOne(hash: Hash, stores: seq<Store>, log: seq<seq<Bytes>>, args: seq<Bytes>)
    requires (forall x <- log :: x != []) && LooksLike(hash, stores, RunAll(map[], log))
    requires |args| >= 2 && OneHome(hash, |stores|, args)
    ensures forall x <- log + [args] :: x != []
    ensures LooksLike(hash, Routed(hash, stores, args), RunAll(map[], log + [args]))
    ensures RoutedReply(hash, stores, args) == Answer(RunAll(map[], log), args).reply
  {
    hide Upper, Answer, Routed, RoutedReply;
    assert (log + [args])[..|log|] == log;
    ShardsAreOneStore(hash, stores, RunAll(map[], log), args);
  }

  lemma {:induction false} OneStoreFrom(hash: Hash, n: nat, s: State, trace: seq<Action>, t: State)
    requires OneStore(hash, n, s) && Runs(hash, n, s, trace, t) && forall a <- trace :: AtHome(hash, n, a)
    ensures OneStore(hash, n, t)
    decreases |trace|
  {
    hide OneStore, Do, Can, AtHome;
    if trace != [] {
      assert trace[0] in trace && forall a <- trace[1..] :: a in trace;
      OneStoreState(hash, n, s);
      StateKept(hash, n, s, trace[0]);
      OneStoreKept(hash, n, s, trace[0]);
      OneStoreFrom(hash, n, Do(hash, n, s, trace[0]), trace[1..], t);
    }
  }

  lemma OneStoreState(hash: Hash, n: nat, s: State)
    requires OneStore(hash, n, s)
    ensures IsState(n, s)
  {
  }

  /**
    Main result: however the clients interleave, whatever the network does, a client that is served
    gets the reply that one store gives to its own command, at one place in one order of all commands.
  */
  lemma EachGetsItsOwn(hash: Hash, n: nat, trace: seq<Action>, s: State, c: ClientId, x: Act)
    requires n > 0 && Runs(hash, n, Init(n), trace, s) && forall a <- trace :: AtHome(hash, n, a)
    requires IsState(n, s) && x.Exchange? && Can(s, Step(c, x))
    ensures OneStore(hash, n, s)
    ensures var phase, t := PhaseOf(s, c), Do(hash, n, s, Step(c, x));
            PhaseOf(t, c).Served? ==>
              && t.log == s.log + [phase.args]
              && PhaseOf(t, c).reply == Print(Answer(RunAll(map[], s.log), phase.args).reply)
  {
    hide Fits, LooksLike, Answer, Print, ReplyLen, AfterExchange, Routed, RoutedReply, OneHome;
    InitIsOne(hash, n);
    OneStoreFrom(hash, n, Init(n), trace, s);
    AlwaysAligned(hash, n, trace, s);
    var phase := PhaseOf(s, c);
    ExchangeFine(hash, s.stores, phase, x);
    RanOne(hash, s.stores, s.log, phase.args);
  }

  lemma InitIsOne(hash: Hash, n: nat)
    requires n > 0
    ensures OneStore(hash, n, Init(n))
  {
  }
}
