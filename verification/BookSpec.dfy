/** The order book as a value: two queues in (price, arrival) order and a trade log,
    with every operation of the book as a function on that value. */
module BookSpec {
  import opened Orders
  import opened FlatMatching

  datatype Book = Book(bids: seq<Order>, asks: seq<Order>, pending: seq<Trade>, nextTrade: int) {
    function Queue(side: Side): seq<Order> {
      if side == Buy then bids else asks
    }

    function WithQueue(side: Side, q: seq<Order>): Book {
      if side == Buy then this.(bids := q) else this.(asks := q)
    }

    ghost predicate Rests(id: int) {
      HasId(bids, id) || HasId(asks, id)
    }
  }

  const EMPTY_BOOK := Book([], [], [], 1)

  // ----- well-formed books -----

  predicate Fits(side: Side, o: Order) {
    o.side == side && o.kind == Limit && o.Remaining() > 0
  }

  ghost predicate SideOk(side: Side, q: seq<Order>) {
    Sorted(side, q) && DistinctIds(q) && forall i :: 0 <= i < |q| ==> Fits(side, q[i])
  }

  /** Neither crossed nor locked. */
  predicate Uncrossed(b: Book) {
    b.bids != [] && b.asks != [] ==> b.bids[0].price < b.asks[0].price
  }

  ghost predicate IdsApart(p: seq<Order>, q: seq<Order>) {
    forall i, j :: 0 <= i < |p| && 0 <= j < |q| ==> p[i].id != q[j].id
  }

  ghost predicate WellFormed(b: Book) {
    && SideOk(Buy, b.bids)
    && SideOk(Sell, b.asks)
    && IdsApart(b.bids, b.asks)
    && Uncrossed(b)
  }

  // ----- operations -----

  /** Status of an incoming order once matching is over. */
  function Settle(o: Order): Order {
    if o.IsFilled() then o.(status := Filled)
    else if o.filled > 0 then o.(status := Partial)
    else o
  }

  /** The copy of an order that the book keeps. */
  function Rested(o: Order): Order {
    o.(status := if o.filled > 0 then Partial else New)
  }

  /** Where a new order of the given price queues: behind every order at least as good. */
  function Slot(side: Side, q: seq<Order>, price: real): (k: nat)
    ensures k <= |q|
    ensures forall i :: 0 <= i < k ==> !Better(side, price, q[i].price)
    ensures k < |q| ==> Better(side, price, q[k].price)
  {
    if q == [] || Better(side, price, q[0].price) then 0 else 1 + Slot(side, q[1..], price)
  }

  function Insert(side: Side, q: seq<Order>, o: Order): seq<Order> {
    var k := Slot(side, q, o.price);
    q[..k] + [o] + q[k..]
  }

  datatype Cut = ById(id: int) | AtPrice(price: real) {
    predicate Drops(o: Order) {
      match this
      case ById(id) => o.id == id
      case AtPrice(price) => o.price == price
    }
  }

  function Filter(q: seq<Order>, cut: Cut): seq<Order> {
    if q == [] then []
    else (if cut.Drops(q[0]) then [] else [q[0]]) + Filter(q[1..], cut)
  }

  function Find(q: seq<Order>, id: int): (r: seq<Order>)
    ensures |r| <= 1
    ensures r == [] <==> !HasId(q, id)
    ensures r != [] ==> r[0] in q && r[0].id == id
  {
    if q == [] then [] else if q[0].id == id then [q[0]]
    else
      assert HasId(q, id) ==> HasId(q[1..], id) by {
        if HasId(q, id) {
          var i :| 0 <= i < |q| && q[i].id == id;
          assert q[1..][i-1].id == id;
        }
      }
      Find(q[1..], id)
  }

  function MatchIncoming(b: Book, o: Order): (Book, Order) {
    var opp := o.side.Opposite();
    var m := Greedy(o, b.Queue(opp), b.nextTrade);
    (b.WithQueue(opp, m.queue).(pending := b.pending + m.trades, nextTrade := b.nextTrade + |m.trades|),
     Settle(m.order))
  }

  predicate Stays(o: Order) {
    !o.IsFilled() && o.kind == Limit
  }

  function Submit(b: Book, o: Order): (Book, Order) {
    var (b', r) := MatchIncoming(b, o);
    if Stays(r) then (b'.WithQueue(r.side, Insert(r.side, b'.Queue(r.side), Rested(r))), r)
    else (b', r)
  }

  function SubmitMarket(b: Book, o: Order): (Book, Order) {
    MatchIncoming(b, o.(kind := Market, price := 0.0))
  }

  function CancelId(b: Book, id: int): Book {
    b.(bids := Filter(b.bids, ById(id)), asks := Filter(b.asks, ById(id)))
  }

  /** What modify_order re-submits: the same order with a clean fill record. */
  function Reissue(o: Order, price: real, qty: int): Order {
    o.(price := price, quantity := qty, filled := 0, status := New)
  }

  function Modify(b: Book, id: int, price: real, qty: int): (Book, Order) {
    var found := Find(b.bids, id) + Find(b.asks, id);
    if found == [] then (b, EMPTY_ORDER.(status := Rejected))
    else Submit(CancelId(b, id), Reissue(found[0], price, qty))
  }

  function UpdateLevel(b: Book, side: Side, price: real, size: int): Book {
    if size == 0 then b.WithQueue(side, Filter(b.Queue(side), AtPrice(price))) else b
  }

  function Drain(b: Book): (Book, seq<Trade>) {
    (b.(pending := []), b.pending)
  }

  // ----- every operation keeps the book well formed -----

  lemma {:induction false} FilterContents(q: seq<Order>, cut: Cut)
    ensures forall o :: o in Filter(q, cut) <==> o in q && !cut.Drops(o)
  {
    if q != [] {
      FilterContents(q[1..], cut);
      assert q == [q[0]] + q[1..];
    }
  }

  lemma {:induction false} FilterKeeps(side: Side, q: seq<Order>, cut: Cut)
    requires SideOk(side, q)
    ensures SideOk(side, Filter(q, cut))
  {
    if q != [] {
      var rest := Filter(q[1..], cut);
      FilterKeeps(side, q[1..], cut);
      FilterContents(q[1..], cut);
      forall j | 0 <= j < |rest|
        ensures !Better(side, rest[j].price, q[0].price) && rest[j].id != q[0].id
      {
        assert rest[j] in q[1..];
      }
    }
  }

  /** Removing orders can only widen the spread. */
  lemma FilterFront(side: Side, q: seq<Order>, cut: Cut)
    requires SideOk(side, q)
    ensures Filter(q, cut) != [] ==> q != [] && !Better(side, Filter(q, cut)[0].price, q[0].price)
  {
    FilterContents(q, cut);
    if Filter(q, cut) != [] {
      assert Filter(q, cut)[0] in q;
    }
  }

  lemma FilterApart(p: seq<Order>, q: seq<Order>, cut: Cut)
    requires IdsApart(p, q)
    ensures IdsApart(Filter(p, cut), q) && IdsApart(p, Filter(q, cut))
  {
    FilterContents(p, cut);
    FilterContents(q, cut);
    forall i, j | 0 <= i < |Filter(p, cut)| && 0 <= j < |q| ensures Filter(p, cut)[i].id != q[j].id {
      assert Filter(p, cut)[i] in p;
    }
    forall i, j | 0 <= i < |p| && 0 <= j < |Filter(q, cut)| ensures p[i].id != Filter(q, cut)[j].id {
      assert Filter(q, cut)[j] in q;
    }
  }

  lemma CutKeeps(b: Book, side: Side, cut: Cut)
    requires WellFormed(b)
    ensures WellFormed(b.WithQueue(side, Filter(b.Queue(side), cut)))
  {
    FilterKeeps(side, b.Queue(side), cut);
    FilterFront(side, b.Queue(side), cut);
    FilterApart(b.bids, b.asks, cut);
  }

  lemma FilterDropsId(q: seq<Order>, id: int)
    ensures !HasId(Filter(q, ById(id)), id)
  {
    FilterContents(q, ById(id));
    var r := Filter(q, ById(id));
    forall i | 0 <= i < |r| ensures r[i].id != id {
      assert r[i] in r;
    }
  }

  /** Cancelling keeps the book well formed and leaves no order of that id. */
  lemma CancelKeeps(b: Book, id: int)
    requires WellFormed(b)
    ensures WellFormed(CancelId(b, id)) && !CancelId(b, id).Rests(id)
  {
    var b' := b.WithQueue(Buy, Filter(b.bids, ById(id)));
    CutKeeps(b, Buy, ById(id));
    CutKeeps(b', Sell, ById(id));
    assert CancelId(b, id) == b'.WithQueue(Sell, Filter(b.asks, ById(id)));
    FilterDropsId(b.bids, id);
    FilterDropsId(b.asks, id);
  }

  /** `r` is a tail of `q`, up to fills. */
  ghost predicate TailOf(side: Side, r: seq<Order>, q: seq<Order>) {
    && |r| <= |q|
    && forall i :: 0 <= i < |r| ==>
         var x := q[|q| - |r| + i];
         r[i].id == x.id && r[i].price == x.price && Fits(side, r[i])
  }

  lemma GreedyLeavesTail(side: Side, o: Order, q: seq<Order>, tradeId: int)
    requires Live(q) && forall i :: 0 <= i < |q| ==> Fits(side, q[i])
    ensures TailOf(side, Greedy(o, q, tradeId).queue, q)
  {
    GreedyInTurn(o, q, tradeId);
    GreedyResidue(o, q, tradeId);
  }

  /** What matching leaves of a queue is still a proper queue, with no better front
      and no new ids. */
  lemma TailKeeps(side: Side, r: seq<Order>, q: seq<Order>)
    requires SideOk(side, q) && TailOf(side, r, q)
    ensures SideOk(side, r)
    ensures forall id :: HasId(r, id) ==> HasId(q, id)
    ensures r != [] ==> q != [] && !Better(side, r[0].price, q[0].price)
  {
    var skip := |q| - |r|;
    forall i, j | 0 <= i < j < |r| ensures !Better(side, r[j].price, r[i].price) && r[i].id != r[j].id {
      assert q[skip + i].id != q[skip + j].id && !Better(side, q[skip + j].price, q[skip + i].price);
    }
    forall id | HasId(r, id) ensures HasId(q, id) {
      var i :| 0 <= i < |r| && r[i].id == id;
      assert q[skip + i].id == id;
    }
  }

  lemma MatchKeeps(b: Book, o: Order)
    requires WellFormed(b)
    ensures WellFormed(MatchIncoming(b, o).0)
    ensures forall id :: MatchIncoming(b, o).0.Rests(id) ==> b.Rests(id)
  {
    var opp := o.side.Opposite();
    GreedyLeavesTail(opp, o, b.Queue(opp), b.nextTrade);
    var r := Greedy(o, b.Queue(opp), b.nextTrade).queue;
    TailKeeps(opp, r, b.Queue(opp));
    assert forall i :: 0 <= i < |r| ==> HasId(r, r[i].id);
  }

  lemma InsertKeeps(side: Side, q: seq<Order>, o: Order)
    requires SideOk(side, q) && Fits(side, o) && !HasId(q, o.id)
    ensures SideOk(side, Insert(side, q, o))
    ensures Insert(side, q, o)[0] == o || (q != [] && Insert(side, q, o)[0] == q[0])
  {
    var k := Slot(side, q, o.price);
    var r := Insert(side, q, o);
    assert forall i :: 0 <= i < |r| ==> r[i] == if i < k then q[i] else if i == k then o else q[i-1];
    forall i, j | 0 <= i < j < |r| ensures !Better(side, r[j].price, r[i].price) {
      if i == k && j > k + 1 {
        assert !Better(side, q[j-1].price, q[k].price);
      }
    }
    forall i, j | 0 <= i < j < |r| ensures r[i].id != r[j].id {}
  }

  lemma InsertContents(side: Side, q: seq<Order>, o: Order, x: Order)
    ensures x in Insert(side, q, o) <==> x == o || x in q
  {
    var k := Slot(side, q, o.price);
    assert q == q[..k] + q[k..];
  }

  /** A residual limit order no longer crosses the other side. */
  lemma ResidueDoesNotCross(b: Book, o: Order)
    requires WellFormed(b)
    ensures var (b', r) := MatchIncoming(b, o);
      Stays(r) ==>
        && Fits(o.side, Rested(r))
        && r.id == o.id && r.price == o.price
        && (b'.Queue(o.side.Opposite()) != [] ==> !Crosses(o, b'.Queue(o.side.Opposite())[0].price))
        && b'.Queue(o.side) == b.Queue(o.side)
  {
    var opp := o.side.Opposite();
    GreedyStops(o, b.Queue(opp), b.nextTrade);
    GreedyFills(o, b.Queue(opp), b.nextTrade);
  }

  /** Matching changes nothing of the incoming order but its fill. */
  lemma {:induction false} GreedyFills(o: Order, q: seq<Order>, tradeId: int)
    ensures var m := Greedy(o, q, tradeId); m.order == Fill(o, Volume(m.trades))
    decreases |q|
  {
    if !Stops(o, q) {
      var qty := Min(o.Remaining(), q[0].Remaining());
      var m := Greedy(o, q, tradeId);
      if qty == q[0].Remaining() {
        GreedyFills(Fill(o, qty), q[1..], tradeId + 1);
        assert m.trades[1..] == Greedy(Fill(o, qty), q[1..], tradeId + 1).trades;
      } else {
        assert m.trades[1..] == [];
      }
    }
  }

  lemma VolumeNonNegative(o: Order, q: seq<Order>, tradeId: int)
    requires Live(q)
    ensures Volume(Greedy(o, q, tradeId).trades) >= 0
    ensures o.Remaining() <= 0 ==> Greedy(o, q, tradeId).trades == []
  {
    GreedyInTurn(o, q, tradeId);
    PositiveVolume(o, q, tradeId, Greedy(o, q, tradeId).trades);
  }

  lemma {:induction false} PositiveVolume(o: Order, q: seq<Order>, tradeId: int, ts: seq<Trade>)
    requires InTurn(o, q, tradeId, ts)
    ensures Volume(ts) >= 0
    decreases |ts|
  {
    if ts != [] {
      assert TradeWith(o, q[0], tradeId, ts[0]);
      forall i | 0 <= i < |ts| - 1 ensures TradeWith(o, q[1..][i], tradeId + 1 + i, ts[1..][i]) {
        assert TradeWith(o, q[i+1], tradeId + (i + 1), ts[i+1]);
      }
      PositiveVolume(o, q[1..], tradeId + 1, ts[1..]);
    }
  }

  /** Putting a residual order into its own side of a matched book. */
  lemma RestKeeps(b: Book, o: Order)
    requires WellFormed(b) && Fits(o.side, o) && !b.Rests(o.id)
    requires b.Queue(o.side.Opposite()) != [] ==> !Crosses(o, b.Queue(o.side.Opposite())[0].price)
    ensures WellFormed(b.WithQueue(o.side, Insert(o.side, b.Queue(o.side), o)))
  {
    var q := b.Queue(o.side);
    var other := b.Queue(o.side.Opposite());
    InsertKeeps(o.side, q, o);
    var q' := Insert(o.side, q, o);
    forall i, j | 0 <= i < |q'| && 0 <= j < |other| ensures q'[i].id != other[j].id {
      InsertContents(o.side, q, o, q'[i]);
    }
  }

  lemma RestBreaks(b: Book, o: Order)
    requires b.Rests(o.id)
    ensures !WellFormed(b.WithQueue(o.side, Insert(o.side, b.Queue(o.side), o)))
  {
    var q := b.Queue(o.side);
    var q' := Insert(o.side, q, o);
    var k := Slot(o.side, q, o.price);
    assert q'[k].id == o.id;
    if HasId(q, o.id) {
      var i :| 0 <= i < |q| && q[i].id == o.id;
      assert q'[if i < k then i else i + 1].id == o.id;
    }
  }

  /** An order comes to rest exactly when it is a limit order for more than crosses it. */
  lemma StaysIff(b: Book, o: Order)
    requires WellFormed(b)
    ensures var q := b.Queue(o.side.Opposite());
      Stays(MatchIncoming(b, o).1) <==> o.kind == Limit && o.Remaining() > CrossingLiquidity(o, q)
  {
    var q := b.Queue(o.side.Opposite());
    CrossingLiquidityNonNegative(o, q);
    GreedyFills(o, q, b.nextTrade);
    if o.Remaining() >= 0 {
      FilledQuantity(o, q, b.nextTrade);
    }
  }

  /** An order of that id that the incoming order cannot reach. */
  ghost predicate OutOfReach(o: Order, q: seq<Order>, id: int) {
    exists i :: 0 <= i < |q| && q[i].id == id && !Crosses(o, q[i].price)
  }

  /** If the incoming order still wants more, it has taken all it can reach. */
  lemma TakesAllInReach(o: Order, q: seq<Order>, tradeId: int)
    requires Live(q) && Sorted(o.side.Opposite(), q) && Greedy(o, q, tradeId).order.Remaining() > 0
    ensures var m := Greedy(o, q, tradeId); var n := |m.trades|;
      && n <= |q| && m.queue == q[n..]
      && forall i :: 0 <= i < |q| ==> (Crosses(o, q[i].price) <==> i < n)
  {
    var m := Greedy(o, q, tradeId);
    var n := |m.trades|;
    GreedyInTurn(o, q, tradeId);
    GreedyResidue(o, q, tradeId);
    GreedyStops(o, q, tradeId);
    GreedyFills(o, q, tradeId);
    forall i | 0 <= i < |q| ensures Crosses(o, q[i].price) <==> i < n {
      if i < n {
        assert TradeWith(o, q[i], tradeId + i, m.trades[i]);
      } else if Crosses(o, q[i].price) {
        CrossingIsPrefix(o, q, n, i);
      }
    }
  }

  lemma LeftoverIsOutOfReach(o: Order, q: seq<Order>, tradeId: int, id: int)
    requires Live(q) && Sorted(o.side.Opposite(), q) && Greedy(o, q, tradeId).order.Remaining() > 0
    ensures HasId(Greedy(o, q, tradeId).queue, id) <==> OutOfReach(o, q, id)
  {
    TakesAllInReach(o, q, tradeId);
    hide Greedy;
    var m := Greedy(o, q, tradeId);
    var n := |m.trades|;
    if i :| 0 <= i < |q| && q[i].id == id && !Crosses(o, q[i].price) {
      assert m.queue[i - n].id == id;
    }
    if j :| 0 <= j < |m.queue| && m.queue[j].id == id {
      assert q[n + j].id == id;
    }
  }

  /** Adding an order breaks the book exactly when it would come to rest beside an order of
      the same id: on its own side, or on the other side out of its reach. */
  lemma SubmitKeepsIff(b: Book, o: Order)
    requires WellFormed(b)
    ensures var q := b.Queue(o.side.Opposite());
      WellFormed(Submit(b, o).0) <==>
        !(&& o.kind == Limit && o.Remaining() > CrossingLiquidity(o, q)
          && (HasId(b.Queue(o.side), o.id) || OutOfReach(o, q, o.id)))
  {
    var (b', r) := MatchIncoming(b, o);
    StaysIff(b, o);
    MatchKeeps(b, o);
    ResidueDoesNotCross(b, o);
    if Stays(r) {
      LeftoverIsOutOfReach(o, b.Queue(o.side.Opposite()), b.nextTrade, o.id);
      if b'.Rests(o.id) {
        RestBreaks(b', Rested(r));
      } else {
        RestKeeps(b', Rested(r));
      }
    }
  }

  lemma SubmitKeeps(b: Book, o: Order)
    requires WellFormed(b) && !b.Rests(o.id)
    ensures WellFormed(Submit(b, o).0)
  {
    SubmitKeepsIff(b, o);
  }

  /** In a well-formed book, the search by id finds the one order that has it. */
  lemma FindIs(b: Book, x: Order)
    requires WellFormed(b) && (x in b.bids || x in b.asks)
    ensures Find(b.bids, x.id) + Find(b.asks, x.id) == [x]
  {
    var side := if x in b.bids then Buy else Sell;
    var q, other := b.Queue(side), b.Queue(side.Opposite());
    var i :| 0 <= i < |q| && q[i] == x;
    assert HasId(q, x.id) && !HasId(other, x.id);
    var j :| 0 <= j < |q| && q[j] == Find(q, x.id)[0];
  }

  lemma ModifyKeeps(b: Book, id: int, price: real, qty: int)
    requires WellFormed(b)
    ensures WellFormed(Modify(b, id, price, qty).0)
  {
    var found := Find(b.bids, id) + Find(b.asks, id);
    if found != [] {
      CancelKeeps(b, id);
      SubmitKeeps(CancelId(b, id), Reissue(found[0], price, qty));
    }
  }

  // ----- statuses -----

  /** What the returned status says about a freshly submitted order. */
  lemma ResultStatus(b: Book, o: Order)
    requires WellFormed(b) && o.filled == 0 && o.quantity > 0 && o.status == New
    ensures var r := Submit(b, o).1;
      && 0 <= r.filled <= r.quantity == o.quantity
      && (r.status == Filled <==> r.filled == r.quantity)
      && (r.status == Partial <==> 0 < r.filled < r.quantity)
      && (r.status == New <==> r.filled == 0)
  {
    var q := b.Queue(o.side.Opposite());
    GreedyFills(o, q, b.nextTrade);
    GreedyStops(o, q, b.nextTrade);
    VolumeNonNegative(o, q, b.nextTrade);
  }

  /** A resting order is partial exactly when something of it has been filled. */
  predicate StatusOk(o: Order) {
    o.filled >= 0 && o.status == if o.filled > 0 then Partial else New
  }

  ghost predicate StatusesOk(b: Book) {
    forall o :: o in b.bids || o in b.asks ==> StatusOk(o)
  }

  lemma MatchStatuses(b: Book, o: Order)
    requires WellFormed(b) && StatusesOk(b)
    ensures StatusesOk(MatchIncoming(b, o).0)
  {
    var q := b.Queue(o.side.Opposite());
    var m := Greedy(o, q, b.nextTrade);
    GreedyInTurn(o, q, b.nextTrade);
    GreedyResidue(o, q, b.nextTrade);
    forall i | 0 <= i < |m.queue| ensures StatusOk(m.queue[i]) {
      var x := q[|q| - |m.queue| + i];
      assert x in q && StatusOk(x);
    }
  }

  lemma SubmitStatuses(b: Book, o: Order)
    requires WellFormed(b) && StatusesOk(b) && o.filled >= 0
    ensures StatusesOk(Submit(b, o).0)
  {
    var (b', r) := MatchIncoming(b, o);
    MatchStatuses(b, o);
    GreedyFills(o, b.Queue(o.side.Opposite()), b.nextTrade);
    VolumeNonNegative(o, b.Queue(o.side.Opposite()), b.nextTrade);
    if Stays(r) {
      forall x | x in Insert(r.side, b'.Queue(r.side), Rested(r)) ensures StatusOk(x) {
        InsertContents(r.side, b'.Queue(r.side), Rested(r), x);
      }
    }
  }

  lemma CutStatuses(b: Book, side: Side, cut: Cut)
    requires StatusesOk(b)
    ensures StatusesOk(b.WithQueue(side, Filter(b.Queue(side), cut)))
  {
    FilterContents(b.Queue(side), cut);
  }

  // ----- the middle of the market -----

  function BestPrice(b: Book, side: Side): real {
    if b.Queue(side) == [] then 0.0 else b.Queue(side)[0].price
  }

  function MidPrice(b: Book): real {
    var bid, ask := BestPrice(b, Buy), BestPrice(b, Sell);
    if bid == 0.0 || ask == 0.0 then 0.0 else (bid + ask) / 2.0
  }

  /** Zero doubles as "no price", so the mid is between the best prices of a two-sided
      book, as far from one as from the other, exactly when neither of them is zero. */
  lemma MidIsBetweenIff(b: Book)
    requires WellFormed(b) && b.bids != [] && b.asks != []
    ensures (BestPrice(b, Buy) < MidPrice(b) < BestPrice(b, Sell))
      <==> (BestPrice(b, Buy) != 0.0 && BestPrice(b, Sell) != 0.0)
    ensures if BestPrice(b, Buy) != 0.0 && BestPrice(b, Sell) != 0.0
      then MidPrice(b) - BestPrice(b, Buy) == BestPrice(b, Sell) - MidPrice(b)
      else MidPrice(b) == 0.0
  {
  }
}
