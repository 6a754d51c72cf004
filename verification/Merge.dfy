/**
  The availability merge (services/inventory-merge/merge.py). Numbers have passed _as_int; prices are
  whole cents, so the final rounding has nothing to do.
*/
module Merge {
  import opened Lists

  type Sku = string

  datatype Line = Line(sku: Option<Sku>, available: int, price: int, eta: int)

  /** What one shard sent: its lines, or a failure envelope (or something malformed). */
  datatype Partial = Answer(warehouse: string, lines: seq<Line>) | Failure

  datatype Offer = Offer(available: int, price: int, eta: int, warehouse: string)

  datatype Item = Item(sku: Option<Sku>, qty: int)

  datatype Allocation = Allocation(sku: Option<Sku>, warehouse: string, qty: int, price: int, eta: int)

  datatype Decision = Decision(fulfillable: bool, allocation: seq<Allocation>, totalPrice: int, maxEta: int, partial: bool)

  // ---- what the shards offer ----

  function LineOffers(warehouse: string, lines: seq<Line>, sku: Sku): seq<Offer> {
    if lines == [] then []
    else
      var l := lines[0];
      (if l.sku == Some(sku) then [Offer(l.available, l.price, l.eta, warehouse)] else [])
      + LineOffers(warehouse, lines[1..], sku)
  }

  function OffersIn(p: Partial, sku: Sku): seq<Offer> {
    if p.Answer? then LineOffers(p.warehouse, p.lines, sku) else []
  }

  function AllOffers(ps: seq<Partial>, sku: Sku): seq<Offer> {
    if ps == [] then [] else OffersIn(ps[0], sku) + AllOffers(ps[1..], sku)
  }

  function OffersOf(offers: map<Sku, seq<Offer>>, sku: Sku): seq<Offer> {
    if sku in offers then offers[sku] else []
  }

  lemma OneMoreLine(offers: map<Sku, seq<Offer>>, warehouse: string, lines: seq<Line>, j: nat, sku: Sku)
    requires j < |lines|
    ensures var l := lines[j];
            var own := if l.sku == Some(sku) then [Offer(l.available, l.price, l.eta, warehouse)] else [];
            OffersOf(offers, sku) + LineOffers(warehouse, lines[j..], sku)
            == OffersOf(offers, sku) + own + LineOffers(warehouse, lines[j + 1..], sku)
  {
    var rest, later := lines[j..], LineOffers(warehouse, lines[j + 1..], sku);
    assert rest != [] && rest[0] == lines[j] && rest[1..] == lines[j + 1..];
    var own := if lines[j].sku == Some(sku) then [Offer(lines[j].available, lines[j].price, lines[j].eta, warehouse)] else [];
    assert LineOffers(warehouse, rest, sku) == own + later;
    Regrouped(OffersOf(offers, sku), own, later);
  }

  lemma Regrouped<T>(a: seq<T>, b: seq<T>, c: seq<T>)
    ensures a + (b + c) == a + b + c
  {
  }

  lemma {:induction false} LineOfferIff(warehouse: string, lines: seq<Line>, sku: Sku, o: Offer)
    ensures o in LineOffers(warehouse, lines, sku) <==>
            o.warehouse == warehouse
            && exists l <- lines :: l.sku == Some(sku) && o.available == l.available && o.price == l.price && o.eta == l.eta
  {
    if lines != [] {
      LineOfferIff(warehouse, lines[1..], sku, o);
      assert forall l <- lines :: l == lines[0] || l in lines[1..];
    }
  }

  /** Main result: the offers for a sku are the lines for it of the shards that answered. */
  lemma {:induction false} OfferIff(ps: seq<Partial>, sku: Sku, o: Offer)
    ensures o in AllOffers(ps, sku) <==>
            exists p <- ps :: p.Answer? && p.warehouse == o.warehouse
              && exists l <- p.lines :: l.sku == Some(sku) && o.available == l.available && o.price == l.price && o.eta == l.eta
  {
    hide LineOffers;
    if ps != [] {
      OfferIff(ps[1..], sku, o);
      assert forall p <- ps :: p == ps[0] || p in ps[1..];
      if ps[0].Answer? {
        LineOfferIff(ps[0].warehouse, ps[0].lines, sku, o);
      }
    }
  }

  method AddLines(before: map<Sku, seq<Offer>>, warehouse: string, lines: seq<Line>) returns (offers: map<Sku, seq<Offer>>)
    ensures forall sku: Sku :: OffersOf(offers, sku) == OffersOf(before, sku) + LineOffers(warehouse, lines, sku)
  {
    hide LineOffers;
    offers := before;
    assert lines[0..] == lines;
    for j := 0 to |lines|
      invariant forall sku: Sku :: OffersOf(offers, sku) + LineOffers(warehouse, lines[j..], sku)
                                   == OffersOf(before, sku) + LineOffers(warehouse, lines, sku)
    {
      forall sku: Sku {
        OneMoreLine(offers, warehouse, lines, j, sku);
      }
      var line := lines[j];
      if line.sku.None? {
        continue;
      }
      var s := line.sku.value;
      offers := offers[s := OffersOf(offers, s) + [Offer(line.available, line.price, line.eta, warehouse)]];
    }
    NoLines(warehouse, lines[|lines|..]);
  }

  lemma NoLines(warehouse: string, lines: seq<Line>)
    requires lines == []
    ensures forall sku: Sku :: LineOffers(warehouse, lines, sku) == []
  {
  }

  /** Gathers the offers of every shard that answered. */
  method CollectOffers(partials: seq<Partial>) returns (offers: map<Sku, seq<Offer>>, partial: bool)
    ensures forall sku: Sku :: OffersOf(offers, sku) == AllOffers(partials, sku)
    ensures partial <==> Failure in partials
  {
    hide LineOffers;
    offers, partial := map[], false;
    assert partials[0..] == partials;
    for i := 0 to |partials|
      invariant forall sku: Sku :: OffersOf(offers, sku) + AllOffers(partials[i..], sku) == AllOffers(partials, sku)
      invariant partial <==> Failure in partials[..i]
    {
      var p := partials[i];
      assert partials[i..][1..] == partials[i + 1..] && partials[..i + 1] == partials[..i] + [p];
      assert forall sku: Sku :: AllOffers(partials[i..], sku) == OffersIn(p, sku) + AllOffers(partials[i + 1..], sku);
      if p.Failure? {
        partial := true;
      } else {
        offers := AddLines(offers, p.warehouse, p.lines);
      }
    }
  }

  // ---- what is made of the offers ----

  function Positive(offers: seq<Offer>): seq<Offer> {
    if offers == [] then []
    else (if offers[0].available > 0 then [offers[0]] else []) + Positive(offers[1..])
  }

  function Sum(offers: seq<Offer>): int {
    if offers == [] then 0 else offers[0].available + Sum(offers[1..])
  }

  /** Faster first, then cheaper. */
  predicate Better(a: Offer, b: Offer) {
    a.eta < b.eta || (a.eta == b.eta && a.price < b.price)
  }

  /** The first offer that no other beats. */
  function Best(offers: seq<Offer>): Offer
    requires offers != []
  {
    if |offers| == 1 then offers[0]
    else
      var n := |offers| - 1;
      var best := Best(offers[..n]);
      if Better(offers[n], best) then offers[n] else best
  }

  function Candidates(ps: seq<Partial>, item: Item): seq<Offer> {
    if item.sku.None? then [] else Positive(AllOffers(ps, item.sku.value))
  }

  predicate Covered(ps: seq<Partial>, item: Item) {
    Sum(Candidates(ps, item)) >= item.qty
  }

  function Allocated(item: Item, best: Offer): Allocation {
    Allocation(item.sku, best.warehouse, item.qty, best.price, best.eta)
  }

  /** One allocation for every item that has candidates. */
  function Allocations(ps: seq<Partial>, items: seq<Item>): seq<Allocation> {
    if items == [] then []
    else
      var candidates := Candidates(ps, items[0]);
      (if candidates == [] then [] else [Allocated(items[0], Best(candidates))]) + Allocations(ps, items[1..])
  }

  function Cost(allocation: seq<Allocation>): int {
    if allocation == [] then 0 else allocation[0].price * allocation[0].qty + Cost(allocation[1..])
  }

  function Slowest(allocation: seq<Allocation>): int {
    if allocation == [] then 0
    else
      var later := Slowest(allocation[1..]);
      if allocation[0].eta > later then allocation[0].eta else later
  }

  /** The place of the best offer: nothing before it is as good, and nothing behind it is better. */
  lemma {:induction false} BestAt(offers: seq<Offer>) returns (k: nat)
    requires offers != []
    ensures k < |offers| && offers[k] == Best(offers)
    ensures forall j :: 0 <= j < k ==> Better(offers[k], offers[j])
    ensures forall j :: k <= j < |offers| ==> !Better(offers[j], offers[k])
    decreases |offers|
  {
    if |offers| == 1 {
      k := 0;
    } else {
      var n := |offers| - 1;
      k := BestAt(offers[..n]);
      assert forall j :: 0 <= j < n ==> offers[..n][j] == offers[j];
      if Better(offers[n], Best(offers[..n])) {
        k := n;
      }
    }
  }

  /**
    Main result: the best offer is one of the offers, none is faster, none as fast is cheaper, and of
    equally fast and cheap ones it is the first.
  */
  lemma BestIsBest(offers: seq<Offer>)
    requires offers != []
    ensures Best(offers) in offers
    ensures forall o <- offers :: Best(offers).eta <= o.eta && (o.eta == Best(offers).eta ==> Best(offers).price <= o.price)
    ensures exists k :: 0 <= k < |offers| && offers[k] == Best(offers)
              && forall j :: 0 <= j < k ==>
                   offers[j].eta > offers[k].eta || (offers[j].eta == offers[k].eta && offers[j].price > offers[k].price)
  {
    hide Best;
    var k := BestAt(offers);
  }

  lemma NextItem(ps: seq<Partial>, items: seq<Item>, i: nat)
    requires i < |items|
    ensures var candidates := Candidates(ps, items[i]);
            Allocations(ps, items[i..])
            == (if candidates == [] then [] else [Allocated(items[i], Best(candidates))]) + Allocations(ps, items[i + 1..])
  {
    assert items[i..][1..] == items[i + 1..];
  }

  /** Decides whether, from where, at what price and how fast an order can be filled. */
  method MergeAvailability(items: seq<Item>, partials: seq<Partial>) returns (d: Decision)
    ensures d.fulfillable <==> forall item <- items :: Covered(partials, item)
    ensures d.partial <==> Failure in partials
    ensures d.allocation == Allocations(partials, items)
    ensures d.totalPrice == Cost(d.allocation) && d.maxEta == Slowest(d.allocation)
  {
    hide Positive, Sum, Best, Allocations, AllOffers, Cost, Slowest, Allocated;
    var offers, partial := CollectOffers(partials);
    var fulfillable, allocation, totalPrice, maxEta := true, [], 0, 0;
    NoCost(partials);
    assert items[0..] == items;
    for i := 0 to |items|
      invariant fulfillable <==> forall item <- items[..i] :: Covered(partials, item)
      invariant allocation + Allocations(partials, items[i..]) == Allocations(partials, items)
      invariant totalPrice == Cost(allocation) && maxEta == Slowest(allocation)
    {
      var item := items[i];
      NextItem(partials, items, i);
      assert items[..i + 1] == items[..i] + [item] && item in items[..i + 1];
      assert forall x <- items[..i] :: x in items[..i + 1];
      assert forall x <- items[..i + 1] :: x in items[..i] || x == item;
      var candidates := if item.sku.None? then [] else Positive(OffersOf(offers, item.sku.value));
      assert candidates == Candidates(partials, item);
      if Sum(candidates) < item.qty {
        fulfillable := false;
      }
      if candidates == [] {
        assert [] + Allocations(partials, items[i + 1..]) == Allocations(partials, items[i + 1..]);
        continue;
      }
      var best := Best(candidates);
      var a := Allocation(item.sku, best.warehouse, item.qty, best.price, best.eta);
      IsAllocated(item, best);
      CostOfOneMore(allocation, a);
      assert allocation + ([a] + Allocations(partials, items[i + 1..])) == allocation + [a] + Allocations(partials, items[i + 1..]);
      allocation := allocation + [a];
      totalPrice := totalPrice + best.price * item.qty;
      maxEta := if maxEta >= best.eta then maxEta else best.eta;
    }
    assert items[|items|..] == [] && items[..|items|] == items;
    return Decision(fulfillable, allocation, totalPrice, maxEta, partial);
  }

  lemma NoCost(ps: seq<Partial>)
    ensures Cost([]) == 0 == Slowest([]) && Allocations(ps, []) == []
  {
  }

  lemma IsAllocated(item: Item, best: Offer)
    ensures Allocated(item, best) == Allocation(item.sku, best.warehouse, item.qty, best.price, best.eta)
  {
  }

  lemma {:induction false} CostOfOneMore(allocation: seq<Allocation>, a: Allocation)
    ensures Cost(allocation + [a]) == Cost(allocation) + a.price * a.qty
    ensures var slowest := Slowest(allocation);
            Slowest(allocation + [a]) == if slowest >= a.eta then slowest else a.eta
    ensures Slowest(allocation) >= 0
  {
    if allocation == [] {
      assert [a][1..] == [];
    } else {
      assert (allocation + [a])[1..] == allocation[1..] + [a];
      CostOfOneMore(allocation[1..], a);
    }
  }

  // ---- the order of the shards does not matter ----

  lemma {:induction false} OffersSplit(ps: seq<Partial>, k: nat, sku: Sku)
    requires k < |ps|
    ensures multiset(AllOffers(ps, sku)) == multiset(OffersIn(ps[k], sku)) + multiset(AllOffers(ps[..k] + ps[k + 1..], sku))
    decreases k
  {
    hide OffersIn;
    if k > 0 {
      assert (ps[..k] + ps[k + 1..])[1..] == ps[1..][..k - 1] + ps[1..][k..];
      OffersSplit(ps[1..], k - 1, sku);
    } else {
      assert ps[..k] + ps[k + 1..] == ps[1..];
    }
  }

  lemma Between<T>(x: seq<T>, y: T, z: seq<T>)
    ensures multiset(x + [y] + z) == multiset(x + z) + multiset{y}
  {
    assert multiset(x + [y] + z) == multiset(x) + multiset{y} + multiset(z);
    assert multiset(x + z) == multiset(x) + multiset(z);
  }

  lemma Cancelled<T>(a: multiset<T>, b: multiset<T>, x: T)
    requires a + multiset{x} == b + multiset{x}
    ensures a == b
  {
    assert a == (a + multiset{x}) - multiset{x} && b == (b + multiset{x}) - multiset{x};
  }

  /** The first element of one of two shuffled sequences, taken out of both. */
  lemma TakeOut<T>(a: seq<T>, b: seq<T>) returns (k: nat)
    requires a != [] && multiset(a) == multiset(b)
    ensures k < |b| && b[k] == a[0] && multiset(a[1..]) == multiset(b[..k] + b[k + 1..])
  {
    assert a[0] in multiset(b);
    k :| 0 <= k < |b| && b[k] == a[0];
    assert a == [] + [a[0]] + a[1..] && b == b[..k] + [b[k]] + b[k + 1..];
    Between([], a[0], a[1..]);
    Between(b[..k], b[k], b[k + 1..]);
    assert [] + a[1..] == a[1..];
    Cancelled(multiset(a[1..]), multiset(b[..k] + b[k + 1..]), a[0]);
  }

  lemma NoneLeft<T>(a: seq<T>, b: seq<T>)
    requires multiset(a) == multiset(b)
    ensures |a| == |b|
  {
    assert |a| == |multiset(a)| == |multiset(b)| == |b|;
  }

  lemma {:induction false} OffersPermute(ps: seq<Partial>, qs: seq<Partial>, sku: Sku)
    requires multiset(ps) == multiset(qs)
    ensures multiset(AllOffers(ps, sku)) == multiset(AllOffers(qs, sku))
    decreases |ps|
  {
    hide OffersIn;
    NoneLeft(ps, qs);
    if ps == [] {
      assert qs == [];
    } else {
      var k := TakeOut(ps, qs);
      OffersPermute(ps[1..], qs[..k] + qs[k + 1..], sku);
      OffersSplit(qs, k, sku);
    }
  }

  /** The stock that counts. */
  function Stock(offers: seq<Offer>): nat {
    if offers == [] then 0 else (if offers[0].available > 0 then offers[0].available else 0) + Stock(offers[1..])
  }

  lemma {:induction false} SumIsStock(offers: seq<Offer>)
    ensures Sum(Positive(offers)) == Stock(offers)
  {
    if offers != [] {
      var later := Positive(offers[1..]);
      assert ([offers[0]] + later)[1..] == later && [] + later == later;
      SumIsStock(offers[1..]);
    }
  }

  lemma {:induction false} StockSplit(a: seq<Offer>, k: nat)
    requires k < |a|
    ensures Stock(a) == Stock([a[k]]) + Stock(a[..k] + a[k + 1..])
    decreases k
  {
    assert [a[k]][1..] == [];
    if k > 0 {
      var less := a[..k] + a[k + 1..];
      assert less[1..] == a[1..][..k - 1] + a[1..][k..] && less[0] == a[0];
      StockSplit(a[1..], k - 1);
    } else {
      assert a[..k] + a[k + 1..] == a[1..];
    }
  }

  lemma {:induction false} StockPermutes(a: seq<Offer>, b: seq<Offer>)
    requires multiset(a) == multiset(b)
    ensures Stock(a) == Stock(b)
    decreases |a|
  {
    hide Stock;
    NoneLeft(a, b);
    if a == [] {
      assert b == [];
    } else {
      var k := TakeOut(a, b);
      StockPermutes(a[1..], b[..k] + b[k + 1..]);
      StockSplit(b, k);
      StockSplit(a, 0);
      assert a[..0] + a[0 + 1..] == a[1..];
    }
  }

  lemma {:induction false} PositiveOnes(offers: seq<Offer>, o: Offer)
    ensures o in Positive(offers) <==> o in offers && o.available > 0
  {
    if offers != [] {
      PositiveOnes(offers[1..], o);
    }
  }

  /** The same offers in another order have equally fast and equally cheap best ones. */
  lemma BestPermutes(a: seq<Offer>, b: seq<Offer>)
    requires multiset(a) == multiset(b)
    ensures Positive(a) == [] <==> Positive(b) == []
    ensures Positive(a) != [] ==> Best(Positive(a)).eta == Best(Positive(b)).eta && Best(Positive(a)).price == Best(Positive(b)).price
  {
    hide Best, Positive;
    forall o: Offer
      ensures o in Positive(a) <==> o in Positive(b)
    {
      PositiveOnes(a, o);
      PositiveOnes(b, o);
      assert o in a <==> o in multiset(a);
      assert o in b <==> o in multiset(b);
    }
    assert Positive(a) != [] ==> Positive(a)[0] in Positive(b);
    assert Positive(b) != [] ==> Positive(b)[0] in Positive(a);
    if Positive(a) != [] {
      BestIsBest(Positive(a));
      BestIsBest(Positive(b));
    }
  }

  lemma CandidatesPermute(ps: seq<Partial>, qs: seq<Partial>, item: Item)
    requires multiset(ps) == multiset(qs)
    ensures var a, b := Candidates(ps, item), Candidates(qs, item);
            && Sum(a) == Sum(b) && (a == [] <==> b == [])
            && (a != [] ==> Best(a).eta == Best(b).eta && Best(a).price == Best(b).price)
  {
    hide AllOffers, Positive, Sum, Best, Stock;
    if item.sku.Some? {
      var a, b := AllOffers(ps, item.sku.value), AllOffers(qs, item.sku.value);
      OffersPermute(ps, qs, item.sku.value);
      StockPermutes(a, b);
      SumIsStock(a);
      SumIsStock(b);
      BestPermutes(a, b);
    }
  }

  lemma CostInFront(a: Allocation, later: seq<Allocation>)
    ensures Cost([a] + later) == a.price * a.qty + Cost(later)
    ensures Slowest([a] + later) == if a.eta > Slowest(later) then a.eta else Slowest(later)
  {
    assert ([a] + later)[1..] == later;
  }

  lemma {:induction false} AllocationsPermute(ps: seq<Partial>, qs: seq<Partial>, items: seq<Item>)
    requires multiset(ps) == multiset(qs)
    ensures Cost(Allocations(ps, items)) == Cost(Allocations(qs, items))
    ensures Slowest(Allocations(ps, items)) == Slowest(Allocations(qs, items))
    decreases |items|
  {
    hide Candidates, Best, Cost, Slowest;
    if items != [] {
      AllocationsPermute(ps, qs, items[1..]);
      CandidatesPermute(ps, qs, items[0]);
      var a, b := Candidates(ps, items[0]), Candidates(qs, items[0]);
      if a != [] {
        CostInFront(Allocated(items[0], Best(a)), Allocations(ps, items[1..]));
        CostInFront(Allocated(items[0], Best(b)), Allocations(qs, items[1..]));
        assert Allocations(ps, items) == [Allocated(items[0], Best(a))] + Allocations(ps, items[1..]);
        assert Allocations(qs, items) == [Allocated(items[0], Best(b))] + Allocations(qs, items[1..]);
      } else {
        assert Allocations(ps, items) == Allocations(ps, items[1..]);
        assert Allocations(qs, items) == Allocations(qs, items[1..]);
      }
    }
  }

  /** Main result: shuffling the shards' answers changes neither the decision nor price nor speed. */
  lemma OrderIndependent(ps: seq<Partial>, qs: seq<Partial>, items: seq<Item>)
    requires multiset(ps) == multiset(qs)
    ensures forall item: Item :: Covered(ps, item) <==> Covered(qs, item)
    ensures Failure in ps <==> Failure in qs
    ensures Cost(Allocations(ps, items)) == Cost(Allocations(qs, items))
    ensures Slowest(Allocations(ps, items)) == Slowest(Allocations(qs, items))
  {
    hide Candidates, Sum, Allocations, Cost, Slowest;
    AllocationsPermute(ps, qs, items);
    assert Failure in ps <==> Failure in multiset(ps);
    assert Failure in qs <==> Failure in multiset(qs);
    forall item: Item
      ensures Covered(ps, item) <==> Covered(qs, item)
    {
      CandidatesPermute(ps, qs, item);
    }
  }

  // ---- losing a shard is conservative ----

  lemma {:induction false} StockOfBoth(a: seq<Offer>, b: seq<Offer>)
    ensures Stock(a + b) == Stock(a) + Stock(b)
  {
    if a == [] {
      assert a + b == b;
    } else {
      assert (a + b)[1..] == a[1..] + b;
      StockOfBoth(a[1..], b);
    }
  }

  lemma {:induction false} LosingLowers(ps: seq<Partial>, k: nat, sku: Sku)
    requires k < |ps|
    ensures Stock(AllOffers(ps[k := Failure], sku)) <= Stock(AllOffers(ps, sku))
    decreases k
  {
    hide Stock, LineOffers;
    var qs := ps[k := Failure];
    StockOfBoth(OffersIn(ps[0], sku), AllOffers(ps[1..], sku));
    StockOfBoth(OffersIn(qs[0], sku), AllOffers(qs[1..], sku));
    if k > 0 {
      assert qs[1..] == ps[1..][k - 1 := Failure];
      LosingLowers(ps[1..], k - 1, sku);
    } else {
      assert qs[1..] == ps[1..];
      FailureOffersNothing(sku);
    }
  }

  lemma FailureOffersNothing(sku: Sku)
    ensures Stock(OffersIn(Failure, sku)) == 0
  {
  }

  /** Main result: a shard that fails instead of answering never makes an order fulfillable. */
  lemma FailureIsConservative(ps: seq<Partial>, k: nat, item: Item)
    requires k < |ps| && Covered(ps[k := Failure], item)
    ensures Covered(ps, item)
  {
    hide Sum, Positive, AllOffers, Stock;
    if item.sku.Some? {
      LosingLowers(ps, k, item.sku.value);
      SumIsStock(AllOffers(ps, item.sku.value));
      SumIsStock(AllOffers(ps[k := Failure], item.sku.value));
    }
  }

  // ---- what the interface promises ----

  /** What the items ask for of one sku, together. */
  function Requested(items: seq<Item>, sku: Sku): int {
    if items == [] then 0 else (if items[0].sku == Some(sku) then items[0].qty else 0) + Requested(items[1..], sku)
  }

  /** The interface's wording: summed available stock meets what is requested, for every sku. */
  ghost predicate Promised(ps: seq<Partial>, items: seq<Item>) {
    forall item <- items :: item.sku.Some? ==> Sum(AllOffers(ps, item.sku.value)) >= Requested(items, item.sku.value)
  }

  /** What the merge reports as fulfillable. */
  ghost predicate Fulfillable(ps: seq<Partial>, items: seq<Item>) {
    forall item <- items :: Covered(ps, item)
  }

  ghost predicate NonNegative(ps: seq<Partial>) {
    forall p <- ps :: p.Answer? ==> forall l <- p.lines :: l.available >= 0
  }

  /** The most that one item asks for of a sku, or 0. */
  function Largest(items: seq<Item>, sku: Sku): nat {
    if items == [] then 0
    else
      var later := Largest(items[1..], sku);
      if items[0].sku == Some(sku) && items[0].qty > later then items[0].qty else later
  }

  function Floored(n: int): nat {
    if n > 0 then n else 0
  }

  /**
    Whether a query is one on which the merge keeps the promise: no item without a sku asks for
    anything, and no sku's items together ask for more, or less, than the largest of them.
  */
  ghost predicate IsFine(items: seq<Item>) {
    forall item <- items ::
      if item.sku.None? then item.qty <= 0
      else Largest(items, item.sku.value) == Floored(Requested(items, item.sku.value))
  }

  lemma {:induction false} LargestCovers(items: seq<Item>, sku: Sku, stock: nat)
    ensures stock >= Largest(items, sku) <==> forall item <- items :: item.sku == Some(sku) ==> stock >= item.qty
  {
    if items != [] {
      LargestCovers(items[1..], sku, stock);
      assert forall item <- items :: item == items[0] || item in items[1..];
    }
  }

  lemma {:induction false} SumOfNonNegative(offers: seq<Offer>)
    requires forall o <- offers :: o.available >= 0
    ensures Sum(offers) == Stock(offers)
  {
    if offers != [] {
      SumOfNonNegative(offers[1..]);
    }
  }

  lemma {:induction false} LineOffersFrom(warehouse: string, lines: seq<Line>, sku: Sku)
    requires forall l <- lines :: l.available >= 0
    ensures forall o <- LineOffers(warehouse, lines, sku) :: o.available >= 0
  {
    if lines != [] {
      LineOffersFrom(warehouse, lines[1..], sku);
    }
  }

  lemma {:induction false} StockIsSum(ps: seq<Partial>, sku: Sku)
    requires NonNegative(ps)
    ensures Sum(AllOffers(ps, sku)) == Stock(AllOffers(ps, sku))
    ensures forall o <- AllOffers(ps, sku) :: o.available >= 0
  {
    hide LineOffers;
    if ps != [] {
      assert ps[0] in ps && forall p <- ps[1..] :: p in ps;
      StockIsSum(ps[1..], sku);
      if ps[0].Answer? {
        LineOffersFrom(ps[0].warehouse, ps[0].lines, sku);
      }
      SumOfNonNegative(AllOffers(ps, sku));
    }
  }

  /** With no negative stock, both sides compare the same stock with a number of the query. */
  lemma BothByStock(ps: seq<Partial>, items: seq<Item>)
    requires NonNegative(ps)
    ensures Fulfillable(ps, items) <==> forall item <- items ::
              if item.sku.None? then item.qty <= 0
              else Stock(AllOffers(ps, item.sku.value)) >= Largest(items, item.sku.value)
    ensures Promised(ps, items) <==> forall item <- items :: item.sku.Some? ==>
              Stock(AllOffers(ps, item.sku.value)) >= Floored(Requested(items, item.sku.value))
  {
    hide AllOffers, Stock, Largest, Requested;
    forall item <- items
      ensures item.sku.Some? ==> Sum(AllOffers(ps, item.sku.value)) == Stock(AllOffers(ps, item.sku.value))
      ensures Covered(ps, item) <==>
                if item.sku.None? then item.qty <= 0 else Stock(AllOffers(ps, item.sku.value)) >= item.qty
      ensures item.sku.Some? ==>
                (Stock(AllOffers(ps, item.sku.value)) >= Largest(items, item.sku.value) <==>
                   forall i <- items :: i.sku == item.sku ==> Stock(AllOffers(ps, item.sku.value)) >= i.qty)
    {
      if item.sku.Some? {
        StockIsSum(ps, item.sku.value);
        SumIsStock(AllOffers(ps, item.sku.value));
        LargestCovers(items, item.sku.value, Stock(AllOffers(ps, item.sku.value)));
      }
    }
  }

  // ---- warehouses that tell the two apart ----

  /** b of every sku that the items name, but of none of the one set apart. */
  function Shelf(items: seq<Item>, apart: Option<Sku>, b: nat): seq<Line> {
    if items == [] then []
    else
      var later := Shelf(items[1..], apart, b);
      if items[0].sku.None? || items[0].sku == apart then later else [Line(items[0].sku, b, 0, 0)] + later
  }

  lemma {:induction false} ShelfHas(items: seq<Item>, apart: Option<Sku>, b: nat, sku: Sku)
    ensures forall l <- Shelf(items, apart, b) :: l.available == b
    ensures apart == Some(sku) ==> LineOffers("all", Shelf(items, apart, b), sku) == []
    ensures apart != Some(sku) && (exists item <- items :: item.sku == Some(sku)) ==>
              Stock(LineOffers("all", Shelf(items, apart, b), sku)) >= b
  {
    if items != [] {
      var later := Shelf(items[1..], apart, b);
      ShelfHas(items[1..], apart, b, sku);
      if items[0].sku.Some? && items[0].sku != apart {
        assert ([Line(items[0].sku, b, 0, 0)] + later)[1..] == later;
        var own := if items[0].sku == Some(sku) then [Offer(b, 0, 0, "all")] else [];
        assert LineOffers("all", Shelf(items, apart, b), sku) == own + LineOffers("all", later, sku);
        StockOfBoth(own, LineOffers("all", later, sku));
        OneOfferStock(b);
      }
    }
  }

  lemma OneOfferStock(b: nat)
    ensures Stock([Offer(b, 0, 0, "all")]) == b && Stock([]) == 0
  {
    assert [Offer(b, 0, 0, "all")][1..] == [];
  }

  /** One warehouse with plenty of everything named, and just n of the sku set apart. */
  function Warehouse(items: seq<Item>, apart: Option<Sku>, n: nat, b: nat): seq<Partial> {
    [Answer("all", (if apart.Some? then [Line(apart, n, 0, 0)] else []) + Shelf(items, apart, b))]
  }

  lemma WarehouseHas(items: seq<Item>, apart: Option<Sku>, n: nat, b: nat, sku: Sku)
    ensures NonNegative(Warehouse(items, apart, n, b))
    ensures apart == Some(sku) ==> Stock(AllOffers(Warehouse(items, apart, n, b), sku)) == n
    ensures apart != Some(sku) && (exists item <- items :: item.sku == Some(sku)) ==>
              Stock(AllOffers(Warehouse(items, apart, n, b), sku)) >= b
  {
    hide Shelf;
    ShelfHas(items, apart, b, sku);
    var ps, shelf := Warehouse(items, apart, n, b), Shelf(items, apart, b);
    var lines, theirs := ps[0].lines, LineOffers("all", shelf, sku);
    assert ps[1..] == [] && AllOffers(ps, sku) == LineOffers("all", lines, sku) + [] == LineOffers("all", lines, sku);
    OneOfferStock(n);
    if apart.Some? {
      assert lines[1..] == shelf;
      var own := if apart == Some(sku) then [Offer(n, 0, 0, "all")] else [];
      assert LineOffers("all", lines, sku) == own + theirs;
      assert [Offer(n, 0, 0, "all")] + [] == [Offer(n, 0, 0, "all")] && [] + theirs == theirs;
    } else {
      assert lines == [] + shelf == shelf;
    }
  }

  /** More than enough of everything. */
  function Plenty(items: seq<Item>): nat {
    if items == [] then 0 else Floored(items[0].qty) + Plenty(items[1..])
  }

  lemma {:induction false} PlentyIsEnough(items: seq<Item>, sku: Sku)
    ensures Largest(items, sku) <= Plenty(items) && Requested(items, sku) <= Plenty(items)
  {
    if items != [] {
      PlentyIsEnough(items[1..], sku);
    }
  }

  /** A query that is not fine has stock, none of it negative, on which the merge breaks the promise. */
  lemma NotFineIsBroken(items: seq<Item>) returns (ps: seq<Partial>)
    requires !IsFine(items)
    ensures NonNegative(ps) && !(Fulfillable(ps, items) <==> Promised(ps, items))
  {
    hide Largest, Requested, Warehouse, AllOffers, Stock;
    var b := Plenty(items);
    forall sku ensures Largest(items, sku) <= b && Requested(items, sku) <= b {
      PlentyIsEnough(items, sku);
    }
    if item :| item in items && item.sku.None? && item.qty > 0 {
      ps := Warehouse(items, None, 0, b);
      Plentiful(ps, items, None, 0, b);
    } else {
      var item :| item in items && item.sku.Some?
                  && Largest(items, item.sku.value) != Floored(Requested(items, item.sku.value));
      var most, together := Largest(items, item.sku.value), Floored(Requested(items, item.sku.value));
      var n := if most < together then most else together;
      ps := Warehouse(items, item.sku, n, b);
      Plentiful(ps, items, item.sku, n, b);
    }
  }

  lemma Plentiful(ps: seq<Partial>, items: seq<Item>, apart: Option<Sku>, n: nat, b: nat)
    requires ps == Warehouse(items, apart, n, b)
    ensures NonNegative(ps)
    ensures forall item <- items :: item.sku.Some? ==>
              if item.sku == apart then Stock(AllOffers(ps, item.sku.value)) == n
              else Stock(AllOffers(ps, item.sku.value)) >= b
    ensures Fulfillable(ps, items) <==> forall item <- items ::
              if item.sku.None? then item.qty <= 0
              else Stock(AllOffers(ps, item.sku.value)) >= Largest(items, item.sku.value)
    ensures Promised(ps, items) <==> forall item <- items :: item.sku.Some? ==>
              Stock(AllOffers(ps, item.sku.value)) >= Floored(Requested(items, item.sku.value))
  {
    hide Warehouse, AllOffers, Stock, Largest, Requested;
    WarehouseHas(items, apart, n, b, "");
    forall item <- items | item.sku.Some?
      ensures if item.sku == apart then Stock(AllOffers(ps, item.sku.value)) == n
              else Stock(AllOffers(ps, item.sku.value)) >= b
    {
      WarehouseHas(items, apart, n, b, item.sku.value);
    }
    BothByStock(ps, items);
  }

  /**
    Main result: the merge keeps the interface's promise on all non-negative stock if and only if the
    query is fine.
  */
  lemma PromiseKeptIff(items: seq<Item>)
    ensures (forall ps: seq<Partial> | NonNegative(ps) :: Fulfillable(ps, items) <==> Promised(ps, items))
            <==> IsFine(items)
  {
    hide Largest, Requested, AllOffers, Stock, Fulfillable, Promised;
    if IsFine(items) {
      forall ps: seq<Partial> | NonNegative(ps)
        ensures Fulfillable(ps, items) <==> Promised(ps, items)
      {
        BothByStock(ps, items);
      }
    } else {
      var ps := NotFineIsBroken(items);
    }
  }

  // ---- queries that name every sku once ----

  ghost predicate NamesSkusOnce(items: seq<Item>) {
    && (forall item <- items :: item.sku.Some?)
    && forall i, j :: 0 <= i < j < |items| ==> items[i].sku != items[j].sku
  }

  lemma {:induction false} RequestedOnce(items: seq<Item>, item: Item)
    requires NamesSkusOnce(items) && item in items
    ensures Requested(items, item.sku.value) == item.qty && Largest(items, item.sku.value) == Floored(item.qty)
  {
    if items[0] != item {
      assert items[1..] != [] && item in items[1..];
      RequestedOnce(items[1..], item);
    } else {
      RequestedNot(items[1..], item.sku.value);
    }
  }

  lemma {:induction false} RequestedNot(items: seq<Item>, sku: Sku)
    requires forall i <- items :: i.sku != Some(sku)
    ensures Requested(items, sku) == 0 == Largest(items, sku)
  {
    if items != [] {
      RequestedNot(items[1..], sku);
    }
  }

  /** So the promise is kept on non-negative stock for queries that name no sku twice. */
  lemma PromiseKept(ps: seq<Partial>, items: seq<Item>)
    requires NamesSkusOnce(items) && NonNegative(ps)
    ensures Fulfillable(ps, items) <==> Promised(ps, items)
  {
    hide Largest, Requested, Fulfillable, Promised;
    forall item <- items
      ensures Largest(items, item.sku.value) == Floored(Requested(items, item.sku.value))
    {
      RequestedOnce(items, item);
    }
    PromiseKeptIff(items);
  }

  /** A sku named twice is checked against the whole stock twice. */
  lemma PromiseBroken() returns (ps: seq<Partial>, items: seq<Item>)
    ensures NonNegative(ps) && Fulfillable(ps, items) && !Promised(ps, items)
  {
    var line := Line(Some("A1"), 1, 100, 1);
    var item := Item(Some("A1"), 1);
    ps, items := [Answer("one", [line])], [item, item];
    OneOffer(line);
    AskedTwice(item, "A1");
    assert item in items;
  }

  lemma AskedTwice(item: Item, sku: Sku)
    requires item.sku == Some(sku)
    ensures Requested([item, item], sku) == 2 * item.qty
  {
    assert [item, item][1..] == [item] && [item][1..] == [];
    assert Requested([item], sku) == item.qty;
  }

  lemma OneOffer(line: Line)
    requires line.sku.Some? && line.available > 0
    ensures var ps := [Answer("one", [line])];
            Sum(AllOffers(ps, line.sku.value)) == line.available == Sum(Candidates(ps, Item(line.sku, 1)))
  {
    var sku := line.sku.value;
    var p := Answer("one", [line]);
    var offer := Offer(line.available, line.price, line.eta, "one");
    assert [line][1..] == [] && [p][1..] == [] && [offer][1..] == [];
    assert LineOffers("one", [line], sku) == [offer] + LineOffers("one", [], sku) == [offer];
    assert AllOffers([p], sku) == OffersIn(p, sku) + AllOffers([], sku) == [offer];
    assert Positive([offer]) == [offer] + Positive([]) == [offer];
    assert Sum([offer]) == line.available + Sum([]);
  }

  // ---- negative stock ----

  /** Stock of -n beside enough of everything else and plenty of this sku. */
  function InDebt(items: seq<Item>, sku: Sku, n: int, b: nat): seq<Partial> {
    [Answer("debt", [Line(Some(sku), -n, 0, 0)])] + Warehouse(items, None, 0, b)
  }

  /** For every query that names a sku there is stock, some of it negative, on which the two differ. */
  lemma NegativeStockBreaks(items: seq<Item>, item: Item) returns (ps: seq<Partial>)
    requires item in items && item.sku.Some?
    ensures !NonNegative(ps) && !(Fulfillable(ps, items) <==> Promised(ps, items))
  {
    hide Largest, Requested, Warehouse, Stock, Sum, Positive, AllOffers;
    var sku, b := item.sku.value, Plenty(items) + 1;
    var all := Warehouse(items, None, 0, b);
    Plentiful(all, items, None, 0, b);
    forall x ensures Largest(items, x) < b && Requested(items, x) < b {
      PlentyIsEnough(items, x);
    }
    StockIsSum(all, sku);
    // One unit of debt breaks nothing; enough of it breaks the promise.
    var asks := exists i :: i in items && i.sku.None? && i.qty > 0;
    var n := if asks then 1 else Stock(AllOffers(all, sku)) + Floored(-Requested(items, sku)) + 1;
    ps := InDebt(items, sku, n, b);
    IsInDebt(items, sku, n, b);
    forall i <- items
      ensures Covered(ps, i) <==> Covered(all, i)
      ensures i.sku.Some? ==>
                Sum(AllOffers(ps, i.sku.value)) == Sum(AllOffers(all, i.sku.value)) - (if i.sku == Some(sku) then n else 0)
      ensures i.sku.Some? ==> Sum(AllOffers(all, i.sku.value)) == Stock(AllOffers(all, i.sku.value))
    {
      if i.sku.Some? {
        DebtLowers(all, sku, n, i.sku.value);
        StockIsSum(all, i.sku.value);
      }
    }
    if !asks {
      assert Sum(AllOffers(ps, sku)) < Requested(items, sku);
    }
  }

  lemma IsInDebt(items: seq<Item>, sku: Sku, n: int, b: nat)
    requires n > 0
    ensures !NonNegative(InDebt(items, sku, n, b))
  {
    var line := Line(Some(sku), -n, 0, 0);
    var ps := InDebt(items, sku, n, b);
    assert ps[0] in ps && line in ps[0].lines;
  }

  /**
    Main result: on all stock, negative included, the merge keeps the promise only for queries that name
    no sku and ask for nothing.
  */
  lemma AnyStockIff(items: seq<Item>)
    ensures (forall ps: seq<Partial> :: Fulfillable(ps, items) <==> Promised(ps, items))
            <==> forall item <- items :: item.sku.None? && item.qty <= 0
  {
    hide Largest, Requested, AllOffers;
    if item :| item in items && item.sku.Some? {
      var ps := NegativeStockBreaks(items, item);
    } else if item :| item in items && item.qty > 0 {
      assert !Covered([], item) && Promised([], items);
    } else {
      assert forall ps: seq<Partial> :: Fulfillable(ps, items) && Promised(ps, items);
    }
  }

  lemma DebtLowers(all: seq<Partial>, sku: Sku, n: int, x: Sku)
    requires n > 0
    ensures var ps := [Answer("debt", [Line(Some(sku), -n, 0, 0)])] + all;
            && Positive(AllOffers(ps, x)) == Positive(AllOffers(all, x))
            && Sum(AllOffers(ps, x)) == Sum(AllOffers(all, x)) - (if x == sku then n else 0)
  {
    var line := Line(Some(sku), -n, 0, 0);
    var ps := [Answer("debt", [line])] + all;
    assert ps[1..] == all && [line][1..] == [];
    var own := if x == sku then [Offer(-n, 0, 0, "debt")] else [];
    assert LineOffers("debt", [line], x) == own + [] == own;
    var offers := own + AllOffers(all, x);
    assert AllOffers(ps, x) == offers;
    assert x == sku ==> offers[1..] == AllOffers(all, x);
    assert x != sku ==> offers == AllOffers(all, x);
    assert [] + Positive(AllOffers(all, x)) == Positive(AllOffers(all, x));
  }
}
