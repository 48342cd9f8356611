/** What single operations leave in the book, told without the functions that compute it. */
module BookEffects {
  import opened Orders
  import opened FlatMatching
  import opened BookSpec

  // ----- adding -----

  /** `q'` is `q` with x put in somewhere, and otherwise unchanged. */
  ghost predicate Joined(q': seq<Order>, q: seq<Order>, x: Order) {
    exists k :: 0 <= k < |q'| && q'[k] == x && q'[..k] + q'[k+1..] == q
  }

  lemma InsertJoins(side: Side, q: seq<Order>, x: Order)
    ensures Joined(Insert(side, q, x), q, x)
  {
    var k := Slot(side, q, x.price);
    var q' := Insert(side, q, x);
    assert q'[k] == x && q'[..k] == q[..k] && q'[k+1..] == q[k..];
  }

  /** What comes to rest of a limit order for more than crosses it. */
  lemma ResidueIs(b: Book, o: Order)
    requires WellFormed(b) && o.kind == Limit && o.filled >= 0
    requires o.quantity - o.filled > CrossingLiquidity(o, b.Queue(o.side.Opposite()))
    ensures var r := MatchIncoming(b, o).1;
      var fill := o.filled + CrossingLiquidity(o, b.Queue(o.side.Opposite()));
      Stays(r) && Rested(r) == o.(filled := fill, status := if fill > 0 then Partial else New)
  {
    var q := b.Queue(o.side.Opposite());
    StaysIff(b, o);
    CrossingLiquidityNonNegative(o, q);
    FilledQuantity(o, q, b.nextTrade);
    GreedyFills(o, q, b.nextTrade);
    hide Greedy, CrossingLiquidity, WellFormed;
  }

  /** A limit order for more than crosses it rests for the remainder: as it came, with the
      liquidity it took as additional fill. The other orders of its side stay as they were,
      in their order. */
  lemma AddRests(b: Book, o: Order)
    requires WellFormed(b) && o.kind == Limit && o.filled >= 0
    requires o.quantity - o.filled > CrossingLiquidity(o, b.Queue(o.side.Opposite()))
    ensures var fill := o.filled + CrossingLiquidity(o, b.Queue(o.side.Opposite()));
      Joined(Submit(b, o).0.Queue(o.side), b.Queue(o.side),
             o.(filled := fill, status := if fill > 0 then Partial else New))
  {
    hide MatchIncoming, CrossingLiquidity, WellFormed, Insert;
    var r := MatchIncoming(b, o).1;
    ResidueIs(b, o);
    ResidueDoesNotCross(b, o);
    assert r.side == Rested(r).side == o.side;
    InsertJoins(o.side, b.Queue(o.side), Rested(r));
  }

  /** A new limit order that does not cross rests as it came. */
  lemma SubmitRests(b: Book, o: Order)
    requires Stops(o, b.Queue(o.side.Opposite()))
    requires o.filled == 0 && o.quantity > 0 && o.kind == Limit && o.status == New
    ensures Submit(b, o) == (b.WithQueue(o.side, Insert(o.side, b.Queue(o.side), o)), o)
  {
    hide Insert;
    assert b.pending + [] == b.pending;
    assert Rested(o) == o;
  }

  // ----- market orders -----

  lemma {:induction false} AllCross(o: Order, q: seq<Order>)
    requires o.kind == Market
    ensures CrossingLiquidity(o, q) == Liquidity(q)
  {
    if q != [] {
      AllCross(o, q[1..]);
    }
  }

  /** A market order, whatever its price and kind fields say, is filled with the smaller of
      what it wants and the whole opposite side, and never comes to rest. */
  lemma MarketTakes(b: Book, o: Order)
    requires WellFormed(b) && o.quantity >= o.filled
    ensures var (b', r) := SubmitMarket(b, o);
      && r.id == o.id && r.side == o.side
      && r.filled == o.filled + Min(o.quantity - o.filled, Liquidity(b.Queue(o.side.Opposite())))
      && b'.Queue(o.side) == b.Queue(o.side)
      && (o.filled == 0 && o.status == New && o.quantity > 0 ==>
            r.status == if r.filled == o.quantity then Filled else if r.filled > 0 then Partial else New)
  {
    var o', q := o.(kind := Market, price := 0.0), b.Queue(o.side.Opposite());
    AllCross(o', q);
    GreedyFills(o', q, b.nextTrade);
    FilledQuantity(o', q, b.nextTrade);
  }

  // ----- removing -----

  /** Filtering keeps what it keeps in order. */
  lemma {:induction false} FilterInOrder(q: seq<Order>, cut: Cut, i: nat, j: nat) returns (a: nat, b: nat)
    requires i < j < |Filter(q, cut)|
    ensures a < b < |q| && q[a] == Filter(q, cut)[i] && q[b] == Filter(q, cut)[j]
  {
    var rest := Filter(q[1..], cut);
    if cut.Drops(q[0]) {
      a, b := FilterInOrder(q[1..], cut, i, j);
      a, b := a + 1, b + 1;
    } else if i > 0 {
      a, b := FilterInOrder(q[1..], cut, i - 1, j - 1);
      a, b := a + 1, b + 1;
    } else {
      FilterContents(q[1..], cut);
      assert rest[j-1] in q[1..];
      var k :| 0 <= k < |q[1..]| && q[1..][k] == rest[j-1];
      a, b := 0, k + 1;
    }
  }

  /** `r` is what is left of `q` without the dropped orders: no more, no less, in order. */
  ghost predicate Remains(r: seq<Order>, q: seq<Order>, dropped: Order -> bool) {
    && (forall o :: o in r <==> o in q && !dropped(o))
    && (forall i, j :: 0 <= i < j < |r| ==> exists a, b :: 0 <= a < b < |q| && q[a] == r[i] && q[b] == r[j])
  }

  function IdIs(id: int): Order -> bool {
    (o: Order) => o.id == id
  }

  function PriceIs(price: real): Order -> bool {
    (o: Order) => o.price == price
  }

  lemma FilterRemains(q: seq<Order>, cut: Cut, dropped: Order -> bool)
    requires forall o :: dropped(o) <==> cut.Drops(o)
    ensures Remains(Filter(q, cut), q, dropped)
  {
    var r := Filter(q, cut);
    FilterContents(q, cut);
    forall i, j | 0 <= i < j < |r| ensures exists a, b :: 0 <= a < b < |q| && q[a] == r[i] && q[b] == r[j] {
      var a, b := FilterInOrder(q, cut, i, j);
    }
  }

  /** A level update of size zero takes away exactly the orders at that price on that side;
      any other size changes nothing. */
  lemma LevelGoes(b: Book, side: Side, price: real, size: int)
    ensures var b' := UpdateLevel(b, side, price, size);
      && (size == 0 ==> Remains(b'.Queue(side), b.Queue(side), PriceIs(price)))
      && (size == 0 ==> b'.Queue(side.Opposite()) == b.Queue(side.Opposite()))
      && (size != 0 ==> b' == b)
      && b'.pending == b.pending && b'.nextTrade == b.nextTrade
  {
    FilterRemains(b.Queue(side), AtPrice(price), PriceIs(price));
  }

  /** A cancel takes away exactly the orders of that id. */
  lemma CancelTakes(b: Book, id: int)
    ensures var b' := CancelId(b, id);
      && Remains(b'.bids, b.bids, IdIs(id))
      && Remains(b'.asks, b.asks, IdIs(id))
      && b'.pending == b.pending && b'.nextTrade == b.nextTrade
  {
    FilterRemains(b.bids, ById(id), IdIs(id));
    FilterRemains(b.asks, ById(id), IdIs(id));
  }

  // ----- modifying -----

  /** Modifying an order to a price that does not cross leaves it on its side with the new
      price and quantity and a clean fill; nothing trades, the other side does not change, and
      the orders beside it are those that were. */
  lemma ModifyRests(b: Book, x: Order, price: real, qty: int)
    requires WellFormed(b) && (x in b.bids || x in b.asks) && qty > 0
    requires var other := b.Queue(x.side.Opposite());
      other != [] ==> if x.side == Buy then price < other[0].price else price > other[0].price
    ensures var (b', r) := Modify(b, x.id, price, qty);
      && r == x.(price := price, quantity := qty, filled := 0, status := New)
      && b'.pending == b.pending && b'.Queue(x.side.Opposite()) == b.Queue(x.side.Opposite())
      && exists rest :: Joined(b'.Queue(x.side), rest, r) && Remains(rest, b.Queue(x.side), IdIs(x.id))
  {
    var o, b1 := x.(price := price, quantity := qty, filled := 0, status := New), CancelId(b, x.id);
    SideOf(b, x);
    FindIs(b, x);
    CancelTakes(b, x.id);
    NothingToDrop(b.Queue(x.side.Opposite()), x.id);
    hide WellFormed, Insert, Submit, Filter, Remains, Joined, Find;
    SubmitRests(b1, o);
    InsertJoins(x.side, b1.Queue(x.side), o);
    assert Modify(b, x.id, price, qty) == Submit(b1, o);
    assert Remains(b1.Queue(x.side), b.Queue(x.side), IdIs(x.id));
  }

  lemma SideOf(b: Book, x: Order)
    requires WellFormed(b) && (x in b.bids || x in b.asks)
    ensures x in b.Queue(x.side) && x.kind == Limit && !HasId(b.Queue(x.side.Opposite()), x.id)
  {
    if x in b.bids {
      var i :| 0 <= i < |b.bids| && b.bids[i] == x;
      assert Fits(Buy, b.bids[i]);
    } else {
      var i :| 0 <= i < |b.asks| && b.asks[i] == x;
      assert Fits(Sell, b.asks[i]);
    }
  }

  lemma {:induction false} NothingToDrop(q: seq<Order>, id: int)
    requires !HasId(q, id)
    ensures Filter(q, ById(id)) == q
  {
    if q != [] {
      assert q[0].id != id;
      assert HasId(q[1..], id) ==> HasId(q, id);
      NothingToDrop(q[1..], id);
    }
  }

  /** Modifying an unknown id changes nothing and is answered with a rejection. */
  lemma ModifyUnknown(b: Book, id: int, price: real, qty: int)
    requires !b.Rests(id)
    ensures Modify(b, id, price, qty).0 == b
    ensures Modify(b, id, price, qty).1.status == Rejected && Modify(b, id, price, qty).1.id == -1
  {
  }

  // ----- prices -----

  /** The best bid is the highest, the best ask the lowest price of its side. */
  lemma BestPriceIsBest(b: Book, side: Side)
    requires WellFormed(b)
    ensures b.Queue(side) == [] ==> BestPrice(b, side) == 0.0
    ensures forall o :: o in b.Queue(side) ==>
      if side == Buy then o.price <= BestPrice(b, side) else BestPrice(b, side) <= o.price
    ensures b.Queue(side) != [] ==> exists o :: o in b.Queue(side) && o.price == BestPrice(b, side)
  {
    var q := b.Queue(side);
    if q != [] {
      assert q[0] in q;
      forall o | o in q ensures if side == Buy then o.price <= q[0].price else q[0].price <= o.price {
        var i :| 0 <= i < |q| && q[i] == o;
      }
    }
  }
}
