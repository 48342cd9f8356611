/** Who trades with whom, and at what price: over every run of the book, each trade names as
    buyer an order that was submitted to buy and as seller one that was submitted to sell, and
    its price respects the limits of both. */
module TradeParties {
  import opened Orders
  import opened FlatMatching
  import opened BookSpec
  import opened BookRuns

  /** The order can be the buyer of the trade. */
  predicate Buys(o: Order, t: Trade) {
    o.side == Buy && o.id == t.buyId && (o.kind == Limit ==> t.price <= o.price)
  }

  predicate Sells(o: Order, t: Trade) {
    o.side == Sell && o.id == t.sellId && (o.kind == Limit ==> o.price <= t.price)
  }

  /** Both parties of the trade are among the submitted orders. */
  ghost predicate Backed(t: Trade, entries: set<Order>) {
    && (exists o :: o in entries && Buys(o, t))
    && (exists o :: o in entries && Sells(o, t))
  }

  /** The resting order came from a submitted one, on the same side at the same price. */
  ghost predicate Standing(x: Order, entries: set<Order>) {
    exists o :: o in entries && o.id == x.id && o.side == x.side && o.price == x.price && o.kind == Limit
  }

  ghost predicate AllStanding(side: Side, q: seq<Order>, entries: set<Order>) {
    forall i :: 0 <= i < |q| ==> q[i].side == side && Standing(q[i], entries)
  }

  ghost predicate AllBacked(ts: seq<Trade>, entries: set<Order>) {
    forall i :: 0 <= i < |ts| ==> Backed(ts[i], entries)
  }

  ghost predicate Traceable(w: World, entries: set<Order>) {
    && AllBacked(w.History(), entries)
    && AllStanding(Buy, w.book.bids, entries)
    && AllStanding(Sell, w.book.asks, entries)
  }

  /** The order that an operation submits, as it goes into matching. */
  ghost function Entry(b: Book, op: Op): set<Order> {
    match op
    case Add(o) => {o}
    case AddMarket(o) => {o.(kind := Market, price := 0.0)}
    case Amend(_, _, _) => set o | o in Submitted(b, op)
    case _ => {}
  }

  /** All orders submitted in a run. */
  ghost function Entries(w: World, ops: seq<Op>): set<Order>
    decreases |ops|
  {
    if ops == [] then {} else Entry(w.book, ops[0]) + Entries(Step(w, ops[0]), ops[1..])
  }

  // ----- one match -----

  lemma MoreEntries(w: World, entries: set<Order>, more: set<Order>)
    requires Traceable(w, entries) && entries <= more
    ensures Traceable(w, more)
  {
  }

  lemma MatchBacked(o: Order, q: seq<Order>, tradeId: int, entries: set<Order>)
    requires Live(q) && AllStanding(o.side.Opposite(), q, entries) && Sorted(o.side.Opposite(), q) && o in entries
    ensures AllBacked(Greedy(o, q, tradeId).trades, entries)
  {
    hide Greedy;
    var ts := Greedy(o, q, tradeId).trades;
    forall i | 0 <= i < |ts| ensures Backed(ts[i], entries) {
      TradeFields(o, q, tradeId, i);
      assert Standing(q[i], entries);
    }
  }

  lemma TailStanding(side: Side, r: seq<Order>, q: seq<Order>, entries: set<Order>)
    requires TailOf(side, r, q) && AllStanding(side, q, entries)
    ensures AllStanding(side, r, entries)
  {
    forall i | 0 <= i < |r| ensures r[i].side == side && Standing(r[i], entries) {
      assert Standing(q[|q| - |r| + i], entries);
    }
  }

  lemma MatchTraceable(w: World, o: Order, entries: set<Order>)
    requires Inv(w) && Traceable(w, entries) && o in entries
    ensures Traceable(MatchStep(w, o), entries)
  {
    var opp := o.side.Opposite();
    var q := w.book.Queue(opp);
    MatchStepHistory(w, o);
    MatchBacked(o, q, w.book.nextTrade, entries);
    GreedyLeavesTail(opp, o, q, w.book.nextTrade);
    TailStanding(opp, Greedy(o, q, w.book.nextTrade).queue, q, entries);
  }

  lemma InsertStanding(side: Side, q: seq<Order>, x: Order, entries: set<Order>)
    requires AllStanding(side, q, entries) && x.side == side && Standing(x, entries)
    ensures AllStanding(side, Insert(side, q, x), entries)
  {
    var q' := Insert(side, q, x);
    forall i | 0 <= i < |q'| ensures q'[i].side == side && Standing(q'[i], entries) {
      InsertContents(side, q, x, q'[i]);
    }
  }

  lemma FilterStanding(side: Side, q: seq<Order>, cut: Cut, entries: set<Order>)
    requires AllStanding(side, q, entries)
    ensures AllStanding(side, Filter(q, cut), entries)
  {
    FilterContents(q, cut);
    var r := Filter(q, cut);
    forall i | 0 <= i < |r| ensures r[i].side == side && Standing(r[i], entries) {
      assert r[i] in q;
    }
  }

  // ----- one operation -----

  lemma SubmitTraceable(w: World, o: Order, entries: set<Order>)
    requires Inv(w) && Traceable(w, entries) && o in entries
    ensures Traceable(SubmitStep(w, o), entries)
  {
    hide Inv, AllBacked, AllStanding, Insert, Greedy;
    var (b', r) := MatchIncoming(w.book, o);
    MatchTraceable(w, o, entries);
    SubmitHistory(w, o);
    InvWellFormed(w);
    ResidueDoesNotCross(w.book, o);
    if Stays(r) {
      SideStays(w.book, o);
      assert Standing(Rested(r), entries);
      InsertStanding(o.side, b'.Queue(o.side), Rested(r), entries);
    }
  }

  lemma InvWellFormed(w: World)
    requires Inv(w)
    ensures WellFormed(w.book)
  {
  }

  lemma SideStays(b: Book, o: Order)
    ensures MatchIncoming(b, o).1.side == o.side && MatchIncoming(b, o).1.kind == o.kind
  {
    GreedyFills(o, b.Queue(o.side.Opposite()), b.nextTrade);
  }

  lemma CancelTraceable(w: World, id: int, entries: set<Order>)
    requires Traceable(w, entries)
    ensures Traceable(w.(book := CancelId(w.book, id)), entries)
  {
    FilterStanding(Buy, w.book.bids, ById(id), entries);
    FilterStanding(Sell, w.book.asks, ById(id), entries);
    assert w.(book := CancelId(w.book, id)).History() == w.History();
  }

  lemma AmendTraceable(w: World, op: Op, entries: set<Order>)
    requires Inv(w) && op.Amend? && Traceable(w, entries) && Entry(w.book, op) <= entries
    ensures Traceable(Move(w, op), entries)
  {
    hide Traceable, Inv;
    var found := Find(w.book.bids, op.id) + Find(w.book.asks, op.id);
    if found != [] {
      var w1, o := w.(book := CancelId(w.book, op.id)), Reissue(found[0], op.price, op.quantity);
      assert o in Submitted(w.book, op);
      CancelStepKeeps(w, op.id);
      CancelTraceable(w, op.id, entries);
      SubmitTraceable(w1, o, entries);
      assert Move(w, op) == SubmitStep(w1, o);
    }
  }

  lemma MoveTraceable(w: World, op: Op, entries: set<Order>)
    requires Inv(w) && Traceable(w, entries) && Entry(w.book, op) <= entries
    ensures Traceable(Move(w, op), entries)
  {
    match op
    case Add(o) => SubmitTraceable(w, o, entries);
    case AddMarket(o) => MatchTraceable(w, o.(kind := Market, price := 0.0), entries);
    case Cancel(id) => CancelTraceable(w, id, entries);
    case Amend(_, _, _) => AmendTraceable(w, op, entries);
    case SetLevel(side, p, n) => FilterStanding(side, w.book.Queue(side), AtPrice(p), entries);
    case TakeTrades =>
      assert Move(w, op).History() == w.History();
  }

  // ----- every run -----

  lemma {:induction false} RunTraceable(w: World, ops: seq<Op>, entries: set<Order>)
    requires Inv(w) && AdmissibleRun(w, ops) && Traceable(w, entries)
    ensures Traceable(Run(w, ops), entries + Entries(w, ops))
    decreases |ops|
  {
    hide Inv, Move, Entry;
    if ops == [] {
      MoreEntries(w, entries, entries + Entries(w, ops));
    } else {
      var now := entries + Entry(w.book, ops[0]);
      MoreEntries(w, entries, now);
      MoveTraceable(w, ops[0], now);
      StepKeeps(w, ops[0]);
      SameTraceable(Move(w, ops[0]), Step(w, ops[0]), now);
      RunTraceable(Step(w, ops[0]), ops[1..], now);
      assert now + Entries(Step(w, ops[0]), ops[1..]) == entries + Entries(w, ops);
    }
  }

  lemma SameTraceable(w: World, w': World, entries: set<Order>)
    requires Traceable(w, entries) && w'.book == w.book && w'.drained == w.drained
    ensures Traceable(w', entries)
  {
  }

  /** Over every run from an empty book: each trade's buyer was submitted to buy and its
      seller to sell, and its price is within the limits of both. */
  lemma EveryTradeIsBacked(ops: seq<Op>)
    requires AdmissibleRun(START, ops)
    ensures forall t :: t in Run(START, ops).History() ==>
      && (exists o :: o in Entries(START, ops) && Buys(o, t))
      && (exists o :: o in Entries(START, ops) && Sells(o, t))
  {
    hide Inv, Run;
    StartOk();
    assert START.History() == [];
    RunTraceable(START, ops, {});
    assert {} + Entries(START, ops) == Entries(START, ops);
    var h := Run(START, ops).History();
    forall t | t in h ensures Backed(t, Entries(START, ops)) {
      var i :| 0 <= i < |h| && h[i] == t;
    }
  }
}
