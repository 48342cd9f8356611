/** The matching rule as a greedy walk over one side of the book, flattened to a
    single queue in (price, arrival) order, and what that rule achieves. */
module FlatMatching {
  import opened Orders

  datatype Match = Match(order: Order, queue: seq<Order>, trades: seq<Trade>)

  /** No order in the queue has better price priority than one before it. */
  ghost predicate Sorted(side: Side, q: seq<Order>) {
    forall i, j :: 0 <= i < j < |q| ==> !Better(side, q[j].price, q[i].price)
  }

  ghost predicate Live(q: seq<Order>) {
    forall i :: 0 <= i < |q| ==> q[i].Remaining() > 0
  }

  ghost predicate DistinctIds(q: seq<Order>) {
    forall i, j :: 0 <= i < j < |q| ==> q[i].id != q[j].id
  }

  ghost predicate HasId(q: seq<Order>, id: int) {
    exists i :: 0 <= i < |q| && q[i].id == id
  }

  function Fill(o: Order, qty: int): Order {
    o.(filled := o.filled + qty)
  }

  /** A resting order after a fill that did not complete it. */
  function Dent(o: Order, qty: int): Order {
    Fill(o, qty).(status := Partial)
  }

  function MakeTrade(id: int, incoming: Order, resting: Order, qty: int, price: real): Trade {
    if incoming.side == Buy then Trade(id, incoming.id, resting.id, price, qty)
    else Trade(id, resting.id, incoming.id, price, qty)
  }

  predicate Stops(o: Order, q: seq<Order>) {
    q == [] || o.Remaining() <= 0 || !Crosses(o, q[0].price)
  }

  /** Consume the queue from its front until quantity, price or liquidity stops the order. */
  function Greedy(o: Order, q: seq<Order>, tradeId: int): Match
    decreases |q|
  {
    if Stops(o, q) then Match(o, q, [])
    else
      var qty := Min(o.Remaining(), q[0].Remaining());
      var t := MakeTrade(tradeId, o, q[0], qty, q[0].price);
      if qty == q[0].Remaining() then
        var m := Greedy(Fill(o, qty), q[1..], tradeId + 1);
        m.(trades := [t] + m.trades)
      else
        Match(Fill(o, qty), [Dent(q[0], qty)] + q[1..], [t])
  }

  /** The quantity the i-th order of the queue gives up. */
  function Taken(m: Match, i: nat): int {
    if i < |m.trades| then m.trades[i].quantity else 0
  }

  // ----- shape of the result -----

  /** Trade i is with queue order i, at its price, and all but possibly the last trade
      complete their resting order. */
  ghost predicate InTurn(o: Order, q: seq<Order>, tradeId: int, ts: seq<Trade>) {
    && |ts| <= |q|
    && (forall i :: 0 <= i < |ts| ==> TradeWith(o, q[i], tradeId + i, ts[i]))
    && (forall i :: 0 <= i < |ts| - 1 ==> ts[i].quantity == q[i].Remaining())
  }

  predicate TradeWith(o: Order, resting: Order, tradeId: int, t: Trade) {
    && t == MakeTrade(tradeId, o, resting, t.quantity, resting.price)
    && 0 < t.quantity <= resting.Remaining()
    && Crosses(o, resting.price)
  }

  /** The untouched tail is kept as it was, behind the partly filled order if there is one. */
  ghost predicate Residue(q: seq<Order>, m: Match) {
    var n := |m.trades|;
    && n <= |q|
    && (if n > 0 && m.trades[n-1].quantity < q[n-1].Remaining()
        then m.queue == [Dent(q[n-1], m.trades[n-1].quantity)] + q[n..] && m.order.Remaining() == 0
        else m.queue == q[n..])
  }

  lemma {:induction false} GreedyInTurn(o: Order, q: seq<Order>, tradeId: int)
    requires Live(q)
    ensures InTurn(o, q, tradeId, Greedy(o, q, tradeId).trades)
    decreases |q|
  {
    if !Stops(o, q) {
      var qty := Min(o.Remaining(), q[0].Remaining());
      if qty == q[0].Remaining() {
        var ts := Greedy(o, q, tradeId).trades;
        var rest := Greedy(Fill(o, qty), q[1..], tradeId + 1).trades;
        GreedyInTurn(Fill(o, qty), q[1..], tradeId + 1);
        assert ts[1..] == rest;
        forall i | 0 <= i < |ts| ensures TradeWith(o, q[i], tradeId + i, ts[i]) {
          if i > 0 {
            assert TradeWith(Fill(o, qty), q[1..][i-1], tradeId + 1 + (i - 1), rest[i-1]);
          }
        }
        forall i | 0 <= i < |ts| - 1 ensures ts[i].quantity == q[i].Remaining() {
          if i > 0 {
            assert rest[i-1].quantity == q[1..][i-1].Remaining();
          }
        }
      }
    }
  }

  lemma {:induction false} GreedyResidue(o: Order, q: seq<Order>, tradeId: int)
    requires Live(q)
    ensures Residue(q, Greedy(o, q, tradeId))
    decreases |q|
  {
    if !Stops(o, q) {
      var qty := Min(o.Remaining(), q[0].Remaining());
      if qty == q[0].Remaining() {
        var r := Greedy(Fill(o, qty), q[1..], tradeId + 1);
        var n := |r.trades|;
        GreedyResidue(Fill(o, qty), q[1..], tradeId + 1);
        assert q[1..][n..] == q[n+1..];
        if n > 0 {
          assert q[1..][n-1] == q[n];
          assert Greedy(o, q, tradeId).trades[n] == r.trades[n-1];
        }
      }
    }
  }

  /** What trade i records: buyer and seller by the sides of the two orders, the price of the
      resting order, which is within the limit of the incoming one, and the next id. */
  lemma TradeFields(o: Order, q: seq<Order>, tradeId: int, i: nat)
    requires Live(q) && i < |Greedy(o, q, tradeId).trades|
    ensures i < |q|
    ensures var t := Greedy(o, q, tradeId).trades[i];
      && (o.side == Buy ==> t.buyId == o.id && t.sellId == q[i].id)
      && (o.side == Sell ==> t.buyId == q[i].id && t.sellId == o.id)
      && t.id == tradeId + i && t.price == q[i].price && 0 < t.quantity <= q[i].quantity - q[i].filled
      && (o.kind == Limit && o.side == Buy ==> t.price <= o.price)
      && (o.kind == Limit && o.side == Sell ==> t.price >= o.price)
  {
    hide Greedy;
    GreedyInTurn(o, q, tradeId);
    assert TradeWith(o, q[i], tradeId + i, Greedy(o, q, tradeId).trades[i]);
  }

  /** The walk ends only when quantity, queue or price is exhausted. */
  lemma {:induction false} GreedyStops(o: Order, q: seq<Order>, tradeId: int)
    requires Live(q)
    ensures var m := Greedy(o, q, tradeId); Stops(m.order, m.queue)
    ensures o.Remaining() > 0 ==> Greedy(o, q, tradeId).order.Remaining() >= 0
    decreases |q|
  {
    if !Stops(o, q) {
      var qty := Min(o.Remaining(), q[0].Remaining());
      if qty == q[0].Remaining() {
        GreedyStops(Fill(o, qty), q[1..], tradeId + 1);
      }
    }
  }

  // ----- conservation -----

  /** New trade volume = incoming fill = open quantity lost by the queue. */
  lemma {:induction false} GreedyConserves(o: Order, q: seq<Order>, tradeId: int)
    ensures var m := Greedy(o, q, tradeId);
      && Volume(m.trades) == m.order.filled - o.filled
      && Volume(m.trades) == Liquidity(q) - Liquidity(m.queue)
    decreases |q|
  {
    if !Stops(o, q) {
      var qty := Min(o.Remaining(), q[0].Remaining());
      var m := Greedy(o, q, tradeId);
      if qty == q[0].Remaining() {
        GreedyConserves(Fill(o, qty), q[1..], tradeId + 1);
        assert m.trades[1..] == Greedy(Fill(o, qty), q[1..], tradeId + 1).trades;
      } else {
        assert m.trades[1..] == [] && m.queue[1..] == q[1..];
      }
    }
  }

  // ----- closed form: the waterfall -----

  /** What the i-th queue order gives up, as a formula over the original queue alone. */
  function Waterfall(o: Order, q: seq<Order>, i: nat): int
    requires i < |q|
  {
    var left := o.Remaining() - Liquidity(q[..i]);
    if left <= 0 || !Crosses(o, q[i].price) then 0 else Min(left, q[i].Remaining())
  }

  lemma {:induction false} LiquidityNonNegative(q: seq<Order>)
    requires Live(q)
    ensures Liquidity(q) >= 0
    ensures q != [] ==> Liquidity(q) > 0
  {
    if q != [] {
      LiquidityNonNegative(q[1..]);
    }
  }

  /** In a sorted queue the orders that cross form a prefix. */
  lemma CrossingIsPrefix(o: Order, q: seq<Order>, i: nat, j: nat)
    requires Sorted(o.side.Opposite(), q) && i <= j < |q| && Crosses(o, q[j].price)
    ensures Crosses(o, q[i].price)
  {
    assert i < j ==> !Better(o.side.Opposite(), q[j].price, q[i].price);
  }

  lemma {:induction false} GreedyIsWaterfall(o: Order, q: seq<Order>, tradeId: int, i: nat)
    requires Live(q) && Sorted(o.side.Opposite(), q) && i < |q|
    ensures Taken(Greedy(o, q, tradeId), i) == Waterfall(o, q, i)
    decreases |q|
  {
    LiquidityNonNegative(q[..i]);
    if Stops(o, q) {
      if Crosses(o, q[i].price) {
        CrossingIsPrefix(o, q, 0, i);
      }
    } else if i > 0 {
      assert q[..i][1..] == q[1..][..i-1];
      LiquidityNonNegative(q[1..][..i-1]);
      var qty := Min(o.Remaining(), q[0].Remaining());
      if qty == q[0].Remaining() {
        GreedyIsWaterfall(Fill(o, qty), q[1..], tradeId + 1, i - 1);
        assert q[i] == q[1..][i-1];
      }
    } else {
      assert q[..0] == [];
    }
  }

  // ----- best execution -----

  /** Open quantity of the orders the incoming order may trade with. */
  function CrossingLiquidity(o: Order, q: seq<Order>): int {
    if q == [] then 0
    else (if Crosses(o, q[0].price) then q[0].Remaining() else 0) + CrossingLiquidity(o, q[1..])
  }

  /** One way of spreading an execution over the queue. */
  ghost predicate Feasible(o: Order, q: seq<Order>, a: seq<int>) {
    && |a| == |q|
    && forall i :: 0 <= i < |q| ==>
         && 0 <= a[i] <= q[i].Remaining()
         && (a[i] > 0 ==> Crosses(o, q[i].price))
  }

  function Sum(a: seq<int>): int {
    if a == [] then 0 else a[0] + Sum(a[1..])
  }

  /** Price seen by the incoming side: what a buyer pays, what a seller gives up. */
  function Paid(side: Side, p: real): real {
    if side == Buy then p else -p
  }

  function Prices(side: Side, q: seq<Order>): seq<real> {
    if q == [] then [] else [Paid(side, q[0].price)] + Prices(side, q[1..])
  }

  function Dot(ps: seq<real>, a: seq<int>): real
    requires |a| == |ps|
  {
    if ps == [] then 0.0 else a[0] as real * ps[0] + Dot(ps[1..], a[1..])
  }

  lemma {:induction false} NoneCross(o: Order, q: seq<Order>)
    requires Sorted(o.side.Opposite(), q) && q != [] && !Crosses(o, q[0].price)
    ensures forall i :: 0 <= i < |q| ==> !Crosses(o, q[i].price)
    ensures CrossingLiquidity(o, q) == 0
  {
    forall i | 0 <= i < |q| ensures !Crosses(o, q[i].price) {
      if Crosses(o, q[i].price) { CrossingIsPrefix(o, q, 0, i); }
    }
    if |q| > 1 {
      NoneCross(o, q[1..]);
    }
  }

  lemma {:induction false} CrossingLiquidityNonNegative(o: Order, q: seq<Order>)
    requires Live(q)
    ensures CrossingLiquidity(o, q) >= 0
  {
    if q != [] {
      CrossingLiquidityNonNegative(o, q[1..]);
    }
  }

  lemma {:induction false} FillDoesNotMoveLimit(o: Order, q: seq<Order>, qty: int)
    ensures CrossingLiquidity(Fill(o, qty), q) == CrossingLiquidity(o, q)
  {
    if q != [] {
      FillDoesNotMoveLimit(o, q[1..], qty);
    }
  }

  /** The filled quantity is everything wanted or everything on offer, whichever is less. */
  lemma {:induction false} FilledQuantity(o: Order, q: seq<Order>, tradeId: int)
    requires Live(q) && Sorted(o.side.Opposite(), q) && o.Remaining() >= 0
    ensures Volume(Greedy(o, q, tradeId).trades) == Min(o.Remaining(), CrossingLiquidity(o, q))
    decreases |q|
  {
    CrossingLiquidityNonNegative(o, q);
    if Stops(o, q) {
      if q != [] && !Crosses(o, q[0].price) { NoneCross(o, q); }
    } else {
      CrossingLiquidityNonNegative(o, q[1..]);
      var qty := Min(o.Remaining(), q[0].Remaining());
      var m := Greedy(o, q, tradeId);
      if qty == q[0].Remaining() {
        FilledQuantity(Fill(o, qty), q[1..], tradeId + 1);
        FillDoesNotMoveLimit(o, q[1..], qty);
        assert m.trades[1..] == Greedy(Fill(o, qty), q[1..], tradeId + 1).trades;
      } else {
        assert m.trades[1..] == [];
      }
    }
  }

  /** No feasible allocation takes more than the crossing liquidity. */
  lemma {:induction false} FeasibleIsBounded(o: Order, q: seq<Order>, a: seq<int>)
    requires Live(q) && Feasible(o, q, a)
    ensures 0 <= Sum(a) <= CrossingLiquidity(o, q)
  {
    if q != [] {
      FeasibleIsBounded(o, q[1..], a[1..]);
    }
  }

  // The exchange argument, over any ascending price list.

  ghost predicate Ascending(ps: seq<real>) {
    forall i, j :: 0 <= i < j < |ps| ==> ps[i] <= ps[j]
  }

  /** Starting `slack` ahead, `g` never falls behind `a`, and both end level. */
  ghost predicate Dominates(g: seq<int>, a: seq<int>, slack: int)
    requires |g| == |a|
  {
    if g == [] then slack == 0
    else slack + g[0] - a[0] >= 0 && Dominates(g[1..], a[1..], slack + g[0] - a[0])
  }

  lemma ScaleMonotone(k: real, x: real, y: real)
    requires k >= 0.0 && x <= y
    ensures k * x <= k * y
  {
  }

  /** One step: `slack` units owed at price `p`, of which one side takes `g` and the
      other `a`, leave the difference owed at the next price. */
  lemma ExchangeStep(p: real, next: real, g: real, a: real, slack: real, rest: real, rival: real)
    requires slack + g - a >= 0.0 && p <= next
    requires rest + (slack + g - a) * next <= rival
    ensures g * p + rest + slack * p <= a * p + rival
  {
    ScaleMonotone(slack + g - a, p, next);
    assert (slack + g - a) * p == slack * p + g * p - a * p;
  }

  /** Taking earlier never costs more when prices ascend. */
  lemma {:induction false} Exchange(ps: seq<real>, g: seq<int>, a: seq<int>, slack: int)
    requires |g| == |a| == |ps| && Ascending(ps) && Dominates(g, a, slack) && slack >= 0
    ensures Dot(ps, g) + (if ps == [] then 0.0 else slack as real * ps[0]) <= Dot(ps, a)
  {
    if ps != [] {
      var slack' := slack + g[0] - a[0];
      Exchange(ps[1..], g[1..], a[1..], slack');
      var next := if |ps| == 1 then ps[0] else ps[1];
      assert slack' as real == slack as real + g[0] as real - a[0] as real;
      ExchangeStep(ps[0], next, g[0] as real, a[0] as real, slack as real,
        Dot(ps[1..], g[1..]), Dot(ps[1..], a[1..]));
    }
  }

  /** The allocation made by the greedy walk. */
  function Allocation(m: Match, n: nat): seq<int> {
    seq(n, i requires 0 <= i => Taken(m, i))
  }

  lemma AllocationStep(o: Order, q: seq<Order>, tradeId: int)
    requires !Stops(o, q)
    ensures var m := Greedy(o, q, tradeId);
      var qty := Min(o.Remaining(), q[0].Remaining());
      && Allocation(m, |q|)[0] == qty
      && m.trades[0] == MakeTrade(tradeId, o, q[0], qty, q[0].price)
      && if qty == q[0].Remaining() then
           var rest := Greedy(Fill(o, qty), q[1..], tradeId + 1);
           m.trades[1..] == rest.trades && Allocation(m, |q|)[1..] == Allocation(rest, |q| - 1)
         else m.trades[1..] == [] && Allocation(m, |q|)[1..] == seq(|q| - 1, _ => 0)
  {
    var m := Greedy(o, q, tradeId);
    var qty := Min(o.Remaining(), q[0].Remaining());
    if qty == q[0].Remaining() {
      var rest := Greedy(Fill(o, qty), q[1..], tradeId + 1);
      assert forall i: nat :: Taken(m, i + 1) == Taken(rest, i);
    }
  }

  lemma {:induction false} ZeroDominates(a: seq<int>, slack: int)
    requires slack == Sum(a) && forall i :: 0 <= i < |a| ==> a[i] >= 0
    ensures slack >= 0 && Dominates(seq(|a|, _ => 0), a, slack)
  {
    if a != [] {
      ZeroDominates(a[1..], slack - a[0]);
      assert seq(|a|, _ => 0)[1..] == seq(|a| - 1, _ => 0);
    }
  }

  /** The walk is never behind a rival that ends up `slack` ahead of it. */
  lemma {:induction false} GreedyDominates(o: Order, q: seq<Order>, tradeId: int, a: seq<int>, slack: int)
    requires Live(q) && Feasible(o, q, a) && o.Remaining() >= 0 && slack >= 0
    requires Sorted(o.side.Opposite(), q)
    requires Sum(a) == Volume(Greedy(o, q, tradeId).trades) + slack
    ensures Dominates(Allocation(Greedy(o, q, tradeId), |q|), a, slack)
    decreases |q|
  {
    var g := Allocation(Greedy(o, q, tradeId), |q|);
    if Stops(o, q) {
      ZeroDominates(a, slack);
      assert g == seq(|a|, _ => 0);
    } else {
      AllocationStep(o, q, tradeId);
      FeasibleIsBounded(o, q[1..], a[1..]);
      var qty := Min(o.Remaining(), q[0].Remaining());
      if qty == q[0].Remaining() {
        GreedyConserves(Fill(o, qty), q[1..], tradeId + 1);
        assert Feasible(Fill(o, qty), q[1..], a[1..]);
        GreedyDominates(Fill(o, qty), q[1..], tradeId + 1, a[1..], slack + qty - a[0]);
      } else {
        ZeroDominates(a[1..], slack + qty - a[0]);
      }
    }
  }

  lemma {:induction false} ZeroDot(ps: seq<real>, g: seq<int>)
    requires |g| == |ps| && forall i :: 0 <= i < |g| ==> g[i] == 0
    ensures Dot(ps, g) == 0.0
  {
    if ps != [] {
      ZeroDot(ps[1..], g[1..]);
    }
  }

  lemma {:induction false} PricesLength(side: Side, q: seq<Order>)
    ensures |Prices(side, q)| == |q|
    ensures forall i :: 0 <= i < |q| ==> Prices(side, q)[i] == Paid(side, q[i].price)
  {
    if q != [] {
      PricesLength(side, q[1..]);
    }
  }

  /** Pricing the walk's allocation gives the money its trades exchange. */
  lemma {:induction false} DotIsNotional(o: Order, q: seq<Order>, tradeId: int)
    ensures |Prices(o.side, q)| == |q|
    ensures var m := Greedy(o, q, tradeId);
      Dot(Prices(o.side, q), Allocation(m, |q|)) == Paid(o.side, Notional(m.trades))
    decreases |q|
  {
    PricesLength(o.side, q);
    if Stops(o, q) {
      ZeroDot(Prices(o.side, q), Allocation(Greedy(o, q, tradeId), |q|));
    } else {
      AllocationStep(o, q, tradeId);
      PricesLength(o.side, q[1..]);
      var qty := Min(o.Remaining(), q[0].Remaining());
      if qty == q[0].Remaining() {
        DotIsNotional(Fill(o, qty), q[1..], tradeId + 1);
      } else {
        ZeroDot(Prices(o.side, q[1..]), Allocation(Greedy(o, q, tradeId), |q|)[1..]);
      }
    }
  }

  /** Best execution. Nothing feasible executes more than the walk does, and nothing
      feasible of the same size costs a buyer less or earns a seller more. */
  lemma BestExecution(o: Order, q: seq<Order>, tradeId: int, a: seq<int>)
    requires Live(q) && Sorted(o.side.Opposite(), q) && o.Remaining() >= 0
    requires Feasible(o, q, a) && Sum(a) <= o.Remaining()
    ensures |Prices(o.side, q)| == |q|
    ensures var m := Greedy(o, q, tradeId);
      && Sum(a) <= Volume(m.trades) == Min(o.Remaining(), CrossingLiquidity(o, q))
      && (Sum(a) == Volume(m.trades) ==> Paid(o.side, Notional(m.trades)) <= Dot(Prices(o.side, q), a))
  {
    FilledQuantity(o, q, tradeId);
    FeasibleIsBounded(o, q, a);
    PricesLength(o.side, q);
    var ps := Prices(o.side, q);
    if Sum(a) == Volume(Greedy(o, q, tradeId).trades) {
      GreedyDominates(o, q, tradeId, a, 0);
      assert Ascending(ps) by {
        forall i, j | 0 <= i < j < |ps| ensures ps[i] <= ps[j] {
          assert !Better(o.side.Opposite(), q[j].price, q[i].price);
        }
      }
      Exchange(ps, Allocation(Greedy(o, q, tradeId), |q|), a, 0);
      DotIsNotional(o, q, tradeId);
    }
  }
}
