/** What the pipeline does with orders at non-positive prices: they skip the notional check and
    are booked at the mid of the book. */
module NonPositivePrices {
  import opened Orders
  import opened FlatMatching
  import opened BookSpec
  import opened BookEffects
  import opened RiskSpec
  import opened PipelineSpec

  // ----- one order on any book -----

  /** A buy at a non-positive price trades only if the best ask is there too, and then the
      middle of an uncrossed book is not positive either. */
  lemma CheapBuyLowMid(b: Book, o: Order)
    requires WellFormed(b) && o.side == Buy && o.kind == Limit && o.price <= 0.0
    requires Submit(b, o).1.filled > o.filled
    ensures MidPrice(b) <= 0.0
  {
    assert !Stops(o, b.asks);
  }

  lemma BookedAtMid(mid: real, fill: int)
    requires mid <= 0.0 && fill >= 0
    ensures Value(mid, fill) <= 0.0
  {
  }

  /** Handling a buy leaves the symbol's notional within its limit at any price. */
  lemma BuyKeepsNotional(env: Environment, p: Pipe, o: Order)
    requires Exact(env.rnd) && Within(p.risk) && WellFormed(p.book) && p.book.pending == []
    requires o.side == Buy && o.kind == Limit && o.filled == 0 && o.price <= 0.0
    ensures Handle(env, p, o).risk.At(o.symbol).notional <= p.risk.limits.maxNotional
  {
    hide Accept, Emit, MidPrice, Submit, WellFormed, Value, Passes;
    var mid := MidPrice(p.book);
    var (risk, ok) := Validate(env.rnd, p.risk, o, mid, env.clock(p.stats.created));
    var p' := p.(stats := p.stats.(created := p.stats.created + 1));
    if ok {
      AcceptRisk(env, p', risk, o, mid);
      FillIsVolume(p.book, o);
      var fill := Submit(p.book, o).1.filled;
      if fill > 0 {
        CheapBuyLowMid(p.book, o);
        BookedAtMid(mid, fill);
      }
    } else {
      EmitCounts(env, p'.(risk := risk, stats := p'.stats.(rejected := p'.stats.rejected + 1)));
    }
  }

  /** A bid that a cheap sell takes, far above the limit. */
  function TrapBook(limit: real, id: int): Book {
    Book([Order(id + 1, 1, limit + 1.0, 1, 0, 0, Buy, Limit, New, "")],
         [Order(id + 2, 1, limit + 2.0, 1, 0, 0, Sell, Limit, New, "")], [], 1)
  }

  lemma TrapFill(limit: real, o: Order)
    requires limit >= 0.0 && o.side == Sell && o.kind == Limit && o.price <= 0.0 && o.filled == 0 && o.quantity > 0
    ensures var b := TrapBook(limit, o.id);
      && WellFormed(b) && b.pending == [] && !b.Rests(o.id)
      && MidPrice(b) == limit + 1.5 && Submit(b, o).1.filled == 1
  {
    var b := TrapBook(limit, o.id);
    assert !Stops(o, b.bids);
    assert b.bids[1..] == [];
    assert Greedy(o, b.bids, b.nextTrade).order == Fill(o, 1);
  }

  lemma SellBreaksNotional(env: Environment, p: Pipe, o: Order)
    requires Exact(env.rnd) && Within(p.risk) && Validate(env.rnd, p.risk, o, 0.0, env.clock(p.stats.created)).1
    requires o.side == Sell && o.kind == Limit && o.filled == 0 && o.quantity > 0 && o.price <= 0.0
    ensures var p' := p.(book := TrapBook(p.risk.limits.maxNotional, o.id));
      Handle(env, p', o).risk.At(o.symbol).notional > p.risk.limits.maxNotional
  {
    hide Accept, Emit, MidPrice, Submit, WellFormed, Value, TrapBook;
    TrapFill(p.risk.limits.maxNotional, o);
    var p1 := p.(book := TrapBook(p.risk.limits.maxNotional, o.id), stats := p.stats.(created := p.stats.created + 1));
    var mid := MidPrice(p1.book);
    var (risk, ok) := Validate(env.rnd, p.risk, o, mid, env.clock(p.stats.created));
    assert ok;
    AcceptRisk(env, p1, risk, o, mid);
    OneUnit(mid);
  }

  lemma OneUnit(price: real)
    ensures Value(price, 1) == price
  {
  }

  /** A limit order that passes the checks when the book is empty, and what handling it does to
      the notional record of its symbol: whatever the book, the record stays within its limit
      exactly when the order has a positive price or buys. Other orders skip the check and are
      booked at the mid of the book. (Rounding is left aside.) */
  lemma NotionalSafeIff(env: Environment, p: Pipe, o: Order)
    requires Exact(env.rnd) && Within(p.risk) && o.kind == Limit && o.filled == 0 && o.quantity > 0
    requires Validate(env.rnd, p.risk, o, 0.0, env.clock(p.stats.created)).1
    ensures o.price > 0.0 || o.side == Buy <==>
      forall b: Book :: WellFormed(b) && b.pending == [] && !b.Rests(o.id) ==>
        Handle(env, p.(book := b), o).risk.At(o.symbol).notional <= p.risk.limits.maxNotional
  {
    hide Handle, WellFormed, TrapBook, Validate;
    if o.price > 0.0 {
      forall b: Book | WellFormed(b) && b.pending == [] && !b.Rests(o.id)
        ensures Handle(env, p.(book := b), o).risk.At(o.symbol).notional <= p.risk.limits.maxNotional
      {
        HandleWithin(env, p.(book := b), o);
      }
    } else if o.side == Buy {
      forall b: Book | WellFormed(b) && b.pending == [] && !b.Rests(o.id)
        ensures Handle(env, p.(book := b), o).risk.At(o.symbol).notional <= p.risk.limits.maxNotional
      {
        BuyKeepsNotional(env, p.(book := b), o);
      }
    } else {
      SellBreaksNotional(env, p, o);
      TrapFill(p.risk.limits.maxNotional, o);
      var b := TrapBook(p.risk.limits.maxNotional, o.id);
      assert Handle(env, p.(book := b), o).risk.At(o.symbol).notional > p.risk.limits.maxNotional;
    }
  }

  // ----- a run that breaks the limit -----

  const SYMBOL := "ASPR"
  const TIGHT := Limits(1000, 10000, 10000, 1100.0, 10.0, 0, true)
  const CALM := Environment(_ => true, _ => 0, x => x)
  const UP := Message(8.0, 12.0, 0, SYMBOL)
  const DOWN := Message(-12.0, -8.0, 0, SYMBOL)

  /** A queue of untouched orders for 100 at the given prices. */
  ghost predicate Quotes(q: seq<Order>, prices: seq<real>) {
    |q| == |prices| && forall i :: 0 <= i < |q| ==> q[i].price == prices[i] && q[i].quantity == 100 && q[i].filled == 0
  }

  /** What the run below looks at. */
  ghost predicate Stage(p: Pipe, bids: seq<real>, asks: seq<real>, position: Position) {
    && Quotes(p.book.bids, bids) && Quotes(p.book.asks, asks) && p.book.pending == []
    && p.risk.limits == TIGHT && !p.risk.killed && p.risk.At(SYMBOL) == position
  }

  predicate Plain(o: Order) {
    o.quantity == 100 && o.filled == 0 && o.kind == Limit && o.status == New && o.symbol == SYMBOL
  }

  /** What the checks ask of an order here. */
  predicate Admits(position: Position, price: real, side: Side, mid: real) {
    && Magnitude(if side == Buy then position.net + 100 else position.net - 100) <= 10000
    && position.gross + 100 <= 10000
    && (price <= 0.0 || (position.notional + price * 100.0 <= 1100.0
                         && (mid <= 0.0 || 0.9 * mid <= price <= 1.1 * mid)))
  }

  lemma StageAdmits(p: Pipe, o: Order, bids: seq<real>, asks: seq<real>, position: Position, mid: real)
    requires Stage(p, bids, asks, position) && Admits(position, o.price, o.side, mid)
    requires Plain(o)
    ensures var (risk, ok) := Validate(CALM.rnd, p.risk, o, mid, 0);
      ok && risk.limits == TIGHT && !risk.killed && risk.positions == p.risk.positions
  {
    assert Value(o.price, 100) == o.price * 100.0;
    if mid > 0.0 && o.price > 0.0 {
      PriceBandMeans(p.risk, o, mid);
    }
  }

  function SidePrices(side: Side, bids: seq<real>, asks: seq<real>): seq<real> {
    if side == Buy then bids else asks
  }

  function Mid(bids: seq<real>, asks: seq<real>): real {
    if bids == [] || asks == [] || bids[0] == 0.0 || asks[0] == 0.0 then 0.0 else (bids[0] + asks[0]) / 2.0
  }

  lemma GoesLast(side: Side, q: seq<Order>, o: Order, prices: seq<real>)
    requires Quotes(q, prices) && forall i :: 0 <= i < |prices| ==> !Better(side, o.price, prices[i])
    ensures Insert(side, q, o) == q + [o]
  {
    assert forall i :: 0 <= i < |q| ==> !Better(side, o.price, q[i].price);
    assert Slot(side, q, o.price) == |q|;
  }

  /** An order that does not cross queues up behind the others. */
  lemma QuoteRests(p: Pipe, o: Order, bids: seq<real>, asks: seq<real>, position: Position)
    requires Stage(p, bids, asks, position) && Plain(o) && Admits(position, o.price, o.side, Mid(bids, asks))
    requires var other := SidePrices(o.side.Opposite(), bids, asks); other == [] || !Crosses(o, other[0])
    requires var own := SidePrices(o.side, bids, asks); forall i :: 0 <= i < |own| ==> !Better(o.side, o.price, own[i])
    ensures Stage(Handle(CALM, p, o), if o.side == Buy then bids + [o.price] else bids,
                  if o.side == Sell then asks + [o.price] else asks, position)
  {
    hide Submit, Insert, Accept, Validate, Admits;
    StageAdmits(p, o, bids, asks, position, Mid(bids, asks));
    assert MidPrice(p.book) == Mid(bids, asks);
    GoesLast(o.side, p.book.Queue(o.side), o, SidePrices(o.side, bids, asks));
    SubmitRests(p.book, o);
    var risk := Validate(CALM.rnd, p.risk, o, Mid(bids, asks), 0).0;
    AcceptOutcome(CALM, p.(stats := p.stats.(created := p.stats.created + 1)), risk, o, Mid(bids, asks));
  }

  lemma SubmitTakes(b: Book, o: Order)
    requires o.side == Sell && o.filled == 0 && o.quantity == 100
    requires !Stops(o, b.bids) && b.bids[0].Remaining() == 100
    ensures var (b', r) := Submit(b, o);
      b'.bids == b.bids[1..] && b'.asks == b.asks && r == Fill(o, 100).(status := Filled)
  {
    var rest := Greedy(Fill(o, 100), b.bids[1..], b.nextTrade + 1);
    assert rest == Match(Fill(o, 100), b.bids[1..], []);
    assert Min(o.Remaining(), b.bids[0].Remaining()) == 100;
  }

  /** A sell at a non-positive price takes an equal bid off the book and is booked at the mid. */
  lemma QuoteTakes(p: Pipe, o: Order, bids: seq<real>, asks: seq<real>, position: Position)
    requires Stage(p, bids, asks, position) && Plain(o) && Admits(position, o.price, Sell, Mid(bids, asks))
    requires o.side == Sell && o.price <= 0.0 && bids != [] && Crosses(o, bids[0])
    ensures Stage(Handle(CALM, p, o), bids[1..], asks,
                  Position(position.net - 100, position.gross + 100, position.notional + Mid(bids, asks) * 100.0))
  {
    hide Submit, Accept, Validate, Admits;
    StageAdmits(p, o, bids, asks, position, Mid(bids, asks));
    assert MidPrice(p.book) == Mid(bids, asks);
    SubmitTakes(p.book, o);
    var risk := Validate(CALM.rnd, p.risk, o, Mid(bids, asks), 0).0;
    AcceptOutcome(CALM, p.(stats := p.stats.(created := p.stats.created + 1)), risk, o, Mid(bids, asks));
    assert Value(Mid(bids, asks), 100) == Mid(bids, asks) * 100.0;
  }

  /** One message whose two quotes rest. */
  lemma BothRest(p: Pipe, bids: seq<real>, asks: seq<real>)
    requires Stage(p, bids, asks, FLAT) && |bids| == |asks|
    requires forall i :: 0 <= i < |bids| ==> bids[i] == 9.6 && asks[i] == 10.4
    ensures Stage(Process(CALM, p, UP), bids + [9.6], asks + [10.4], FLAT)
  {
    hide Stage, Handle;
    var p0 := p.(stats := p.stats.(messages := p.stats.messages + 1), nextId := p.nextId + 2);
    SameStage(p, p0, bids, asks, FLAT);
    var buy, sell := NewOrder(CALM.rnd, UP, Buy, p.nextId), NewOrder(CALM.rnd, UP, Sell, p.nextId + 1);
    assert buy.price == 9.6 && sell.price == 10.4;
    QuoteRests(p0, buy, bids, asks, FLAT);
    QuoteRests(Handle(CALM, p0, buy), sell, bids + [9.6], asks, FLAT);
  }

  /** One message whose buy rests and whose sell takes the best bid. */
  lemma SellTakes(p: Pipe, bids: seq<real>, asks: seq<real>, position: Position)
    requires Stage(p, bids, asks, position) && bids != [] && asks != [] && bids[0] == 9.6 && asks[0] == 10.4
    requires -200 <= position.net <= 200 && 0 <= position.gross <= 200
    requires forall i :: 0 <= i < |bids| ==> bids[i] >= -10.4
    ensures Stage(Process(CALM, p, DOWN), bids[1..] + [-10.4], asks,
                  Position(position.net - 100, position.gross + 100, position.notional + 1000.0))
  {
    hide Stage, Handle;
    var p0 := p.(stats := p.stats.(messages := p.stats.messages + 1), nextId := p.nextId + 2);
    SameStage(p, p0, bids, asks, position);
    var buy, sell := NewOrder(CALM.rnd, DOWN, Buy, p.nextId), NewOrder(CALM.rnd, DOWN, Sell, p.nextId + 1);
    assert buy.price == -10.4 && sell.price == -9.6;
    QuoteRests(p0, buy, bids, asks, position);
    QuoteTakes(Handle(CALM, p0, buy), sell, bids + [-10.4], asks, position);
    assert (bids + [-10.4])[1..] == bids[1..] + [-10.4];
  }

  lemma SameStage(p: Pipe, p': Pipe, bids: seq<real>, asks: seq<real>, position: Position)
    requires Stage(p, bids, asks, position) && p'.book == p.book && p'.risk == p.risk
    ensures Stage(p', bids, asks, position)
  {
  }

  /** Two messages around 10 and two around -10: the sells of the latter take the bids of the
      former at -9.6, unchecked, and each is booked at the mid of 10. So the limits of a run
      do depend on positive market prices. */
  lemma NegativePricesBreakLimit()
    ensures Monotone(CALM.rnd) && Within(Init(TIGHT).risk) && Accounts(Init(TIGHT))
    ensures var last := Run(CALM, Init(TIGHT), [UP, UP, DOWN, DOWN]);
      last.risk.At(SYMBOL) == Position(-200, 200, 2000.0) && !Within(last.risk)
  {
    hide Process;
    InitAccounts(TIGHT);
    var p0 := Init(TIGHT);
    var p1 := Process(CALM, p0, UP);
    var p2 := Process(CALM, p1, UP);
    var p3 := Process(CALM, p2, DOWN);
    var p4 := Process(CALM, p3, DOWN);
    BothRest(p0, [], []);
    BothRest(p1, [9.6], [10.4]);
    SellTakes(p2, [9.6, 9.6], [10.4, 10.4], FLAT);
    SellTakes(p3, [9.6, -10.4], [10.4, 10.4], Position(-100, 100, 1000.0));
    FourMessages(p0, UP, UP, DOWN, DOWN);
  }

  lemma FourMessages(p: Pipe, a: Message, b: Message, c: Message, d: Message)
    ensures Run(CALM, p, [a, b, c, d]) == Process(CALM, Process(CALM, Process(CALM, Process(CALM, p, a), b), c), d)
  {
    hide Process;
    assert [a, b, c, d][1..] == [b, c, d] && [b, c, d][1..] == [c, d] && [c, d][1..] == [d] && [d][1..] == [];
    var p1 := Process(CALM, p, a);
    var p2 := Process(CALM, p1, b);
    assert Run(CALM, p, [a, b, c, d]) == Run(CALM, p1, [b, c, d]);
    assert Run(CALM, p1, [b, c, d]) == Run(CALM, p2, [c, d]);
    assert Run(CALM, p2, [c, d]) == Run(CALM, Process(CALM, p2, c), [d]);
  }
}
