/** The order book as an object: ladders of price levels, the node store behind them, the
    id index and the double-buffered trade log, all updated in place. Every method is tied
    to the corresponding function on the flat book. */
module MatchingEngine {
  import opened Orders
  import opened FlatMatching
  import opened BookSpec
  import opened BookRuns
  import opened Ladder

  /** Having made the trades `done`, the walk goes on as the walk of `o` over `q`. */
  ghost predicate Resumes(o0: Order, q0: seq<Order>, id0: int, done: seq<Trade>, o: Order, q: seq<Order>) {
    var m := Greedy(o, q, id0 + |done|);
    Greedy(o0, q0, id0) == m.(trades := done + m.trades)
  }

  lemma ResumeStep(o0: Order, q0: seq<Order>, id0: int, done: seq<Trade>, o: Order, q: seq<Order>)
    requires Resumes(o0, q0, id0, done, o, q) && !Stops(o, q)
    ensures var qty := Min(o.Remaining(), q[0].Remaining());
      var t := MakeTrade(id0 + |done|, o, q[0], qty, q[0].price);
      if qty == q[0].Remaining() then Resumes(o0, q0, id0, done + [t], Fill(o, qty), q[1..])
      else Resumes(o0, q0, id0, done + [t], Fill(o, qty), [Dent(q[0], qty)] + q[1..])
  {
    var qty := Min(o.Remaining(), q[0].Remaining());
    var t := MakeTrade(id0 + |done|, o, q[0], qty, q[0].price);
    if qty == q[0].Remaining() {
      var m := Greedy(Fill(o, qty), q[1..], id0 + |done| + 1);
      assert (done + [t]) + m.trades == done + ([t] + m.trades);
    } else {
      assert (done + [t]) + [] == done + [t];
    }
  }

  lemma ResumeEnd(o0: Order, q0: seq<Order>, id0: int, done: seq<Trade>, o: Order, q: seq<Order>)
    requires Resumes(o0, q0, id0, done, o, q) && Stops(o, q)
    ensures Greedy(o0, q0, id0) == Match(o, q, done)
  {
    assert done + [] == done;
  }

  /** A matching call, as it was entered. */
  datatype Entry = Entry(order: Order, queue: seq<Order>, other: seq<Order>, tradeId: int)

  /** In the middle of a matching call: the linked structure is sound, the order's own
      side is untouched, and what is left to do is the rest of the flat walk. */
  ghost predicate Midway(
    e: Entry, side: Side, levels: seq<Level>, other: seq<Level>, nodes: Nodes, index: map<int, Handle>,
    done: seq<Trade>, r: Order)
  {
    && Linked(side, levels, other, nodes, index)
    && Flat(other, nodes) == e.other
    && Resumes(e.order, e.queue, e.tradeId, done, r, Flat(levels, nodes))
  }

  /** One pass of the inner loop, on the first entry of the first level. */
  lemma PairStep(
    e: Entry, side: Side, levels: seq<Level>, other: seq<Level>, nodes: Nodes, index: map<int, Handle>,
    done: seq<Trade>, r: Order)
    requires Midway(e, side, levels, other, nodes, index, done, r)
    requires levels != [] && levels[0].entries != [] && r.Remaining() > 0 && Crosses(r, levels[0].price)
    ensures var h := levels[0].entries[0];
      && h in nodes
      && var qty := Min(r.Remaining(), nodes[h].Remaining());
         var done' := done + [MakeTrade(e.tradeId + |done|, r, nodes[h], qty, levels[0].price)];
         if qty >= nodes[h].Remaining() then
           Midway(e, side, PopFront(levels), other, nodes - {h}, index - {nodes[h].id}, done', Fill(r, qty))
         else
           Midway(e, side, levels, other, nodes[h := Dent(nodes[h], qty)], index, done', Fill(r, qty))
  {
    hide Linked, Greedy, Flat;
    var h := levels[0].entries[0];
    EraseFront(side, levels, other, nodes, index);
    ResumeStep(e.order, e.queue, e.tradeId, done, r, Flat(levels, nodes));
    var qty := Min(r.Remaining(), nodes[h].Remaining());
    if qty < nodes[h].Remaining() {
      DentFront(side, levels, other, nodes, index, qty);
    }
  }

  lemma MidwayStarts(
    e: Entry, side: Side, levels: seq<Level>, other: seq<Level>, nodes: Nodes, index: map<int, Handle>)
    requires Linked(side, levels, other, nodes, index)
    requires e.queue == Flat(levels, nodes) && e.other == Flat(other, nodes)
    ensures Midway(e, side, levels, other, nodes, index, [], e.order)
  {
    var m := Greedy(e.order, e.queue, e.tradeId);
    assert [] + m.trades == m.trades;
  }

  lemma MidwayDrops(
    e: Entry, side: Side, levels: seq<Level>, other: seq<Level>, nodes: Nodes, index: map<int, Handle>,
    done: seq<Trade>, r: Order)
    requires Midway(e, side, levels, other, nodes, index, done, r) && levels != [] && levels[0].entries == []
    ensures Midway(e, side, levels[1..], other, nodes, index, done, r)
  {
    hide Linked, Greedy, Flat;
    DropFrontLevel(side, levels, other, nodes, index);
  }

  lemma MatchNumbers(b: Book, o: Order, past: seq<Trade>)
    requires WellFormed(b) && Numbered(past + b.pending, b.nextTrade)
    ensures var b' := MatchIncoming(b, o).0; Numbered(past + b'.pending, b'.nextTrade)
  {
    var q := b.Queue(o.side.Opposite());
    var ts := Greedy(o, q, b.nextTrade).trades;
    GreedyNumbers(o, q, b.nextTrade);
    NumberedAppends(past + b.pending, ts, b.nextTrade);
    assert past + (b.pending + ts) == (past + b.pending) + ts;
  }

  /** Leaving the outer loop: quantity, levels or price has run out. */
  lemma MidwayEnds(
    e: Entry, side: Side, levels: seq<Level>, other: seq<Level>, nodes: Nodes, index: map<int, Handle>,
    done: seq<Trade>, r: Order)
    requires Midway(e, side, levels, other, nodes, index, done, r) && NoEmptyLevel(levels)
    requires r.Remaining() <= 0 || levels == [] || !Crosses(r, levels[0].price)
    ensures Greedy(e.order, e.queue, e.tradeId) == Match(r, Flat(levels, nodes), done)
    ensures Linked(side, levels, other, nodes, index) && Flat(other, nodes) == e.other
  {
    if levels != [] {
      EraseFront(side, levels, other, nodes, index);
    }
    ResumeEnd(e.order, e.queue, e.tradeId, done, r, Flat(levels, nodes));
  }

  lemma EmptyBookOk()
    ensures Linked(Buy, [], [], map[], map[]) && WellFormed(EMPTY_BOOK) && Numbered([], 1)
    ensures Flat([], map[]) == []
  {
  }

  lemma IndexedNode(bids: seq<Level>, asks: seq<Level>, nodes: Nodes, index: map<int, Handle>, id: int)
    requires Linked(Buy, bids, asks, nodes, index) && id in index
    ensures var h := index[id];
      && h in nodes && nodes[h].id == id
      && nodes[h] in Flat(if nodes[h].side == Buy then bids else asks, nodes)
  {
    LinkedFlips(Buy, bids, asks, nodes, index);
    if nodes[index[id]].side == Buy {
      NodeListed(Buy, bids, asks, nodes, index, id);
    } else {
      NodeListed(Sell, asks, bids, nodes, index, id);
    }
  }

  lemma CancelAbsent(b: Book, id: int)
    requires !b.Rests(id)
    ensures CancelId(b, id) == b
  {
    FilterNone(b.bids, ById(id));
    FilterNone(b.asks, ById(id));
  }

  lemma NoLevelNoCut(
    side: Side, levels: seq<Level>, other: seq<Level>, nodes: Nodes, index: map<int, Handle>, price: real)
    requires Linked(side, levels, other, nodes, index) && FindLevel(levels, price) == |levels|
    ensures Filter(Flat(levels, nodes), AtPrice(price)) == Flat(levels, nodes)
  {
    HandlesPriced(side, levels, nodes);
    FilterNone(Flat(levels, nodes), AtPrice(price));
  }

  class OrderBook {
    const symbol: string
    var bids: seq<Level>
    var asks: seq<Level>
    var nodes: Nodes
    var nextNode: Handle
    var index: map<int, Handle>
    var bufferA: seq<Trade>
    var bufferB: seq<Trade>
    var activeIsA: bool
    var nextTradeId: int
    ghost var drained: seq<Trade>

    ghost function Active(): seq<Trade>
      reads this
    {
      if activeIsA then bufferA else bufferB
    }

    /** The flat book this object stands for. */
    ghost function Abs(): Book
      reads this
    {
      Book(Flat(bids, nodes), Flat(asks, nodes), Active(), nextTradeId)
    }

    ghost predicate Valid()
      reads this
    {
      && Linked(Buy, bids, asks, nodes, index)
      && NoEmptyLevel(bids) && NoEmptyLevel(asks)
      && (forall h :: h in nodes ==> h < nextNode)
      && (if activeIsA then bufferB else bufferA) == []
      && Numbered(drained + Active(), nextTradeId)
      && WellFormed(Abs())
    }

    constructor (symbol: string)
      ensures Valid() && Abs() == EMPTY_BOOK && drained == []
    {
      hide Linked, WellFormed, Numbered;
      EmptyBookOk();
      this.symbol := symbol;
      bids, asks, nodes, nextNode, index := [], [], map[], 0, map[];
      bufferA, bufferB, activeIsA, nextTradeId := [], [], true, 1;
      drained := [];
      new;
      assert drained + Active() == [];
    }

    method GenerateTrade(buy: Order, sell: Order, qty: int, price: real)
      modifies this`bufferA, this`bufferB, this`nextTradeId
      ensures Active() == old(Active()) + [Trade(old(nextTradeId), buy.id, sell.id, price, qty)]
      ensures nextTradeId == old(nextTradeId) + 1
      ensures if activeIsA then bufferB == old(bufferB) else bufferA == old(bufferA)
    {
      var t := Trade(nextTradeId, buy.id, sell.id, price, qty);
      nextTradeId := nextTradeId + 1;
      if activeIsA {
        bufferA := bufferA + [t];
      } else {
        bufferB := bufferB + [t];
      }
    }

    /** One pairing of the incoming order with a resting node: both fills, the trade, and
        either the removal of the filled node from store and index or its partial status. */
    method Pair(order: Order, h: Handle, price: real) returns (order': Order, filled: bool)
      requires h in nodes
      modifies this`nodes, this`index, this`bufferA, this`bufferB, this`nextTradeId
      ensures var qty := Min(order.Remaining(), old(nodes)[h].Remaining());
        && order' == Fill(order, qty)
        && filled == (qty >= old(nodes)[h].Remaining())
        && nodes == (if filled then old(nodes) - {h} else old(nodes)[h := Dent(old(nodes)[h], qty)])
        && index == (if filled then old(index) - {old(nodes)[h].id} else old(index))
        && Active() == old(Active()) + [MakeTrade(old(nextTradeId), order, old(nodes)[h], qty, price)]
        && nextTradeId == old(nextTradeId) + 1
      ensures if activeIsA then bufferB == old(bufferB) else bufferA == old(bufferA)
    {
      var qty := Min(order.Remaining(), nodes[h].Remaining());
      nodes := nodes[h := Fill(nodes[h], qty)];
      order' := Fill(order, qty);
      if order.side == Buy {
        GenerateTrade(order', nodes[h], qty, price);
      } else {
        GenerateTrade(nodes[h], order', qty, price);
      }
      filled := nodes[h].IsFilled();
      if filled {
        index := index - {nodes[h].id};
        nodes := nodes - {h};
      } else {
        nodes := nodes[h := nodes[h].(status := Partial)];
      }
    }

    /** The trade log and node store during a matching call. */
    ghost predicate InCall(log: seq<Trade>, done: seq<Trade>, tradeId: int)
      reads this
    {
      && Active() == log + done && nextTradeId == tradeId + |done|
      && (if activeIsA then bufferB else bufferA) == []
      && forall h :: h in nodes ==> h < nextNode
    }

    /** The inner loop: consume the list of the first level. */
    method MatchLevel(
      side: Side, levels: seq<Level>, o: Order,
      ghost e: Entry, ghost other: seq<Level>, ghost log: seq<Trade>, ghost done: seq<Trade>)
      returns (entries: seq<Handle>, r: Order, ghost done': seq<Trade>)
      requires levels != [] && o.Remaining() > 0 && Crosses(o, levels[0].price)
      requires Midway(e, side, levels, other, nodes, index, done, o)
      requires InCall(log, done, e.tradeId)
      modifies this`nodes, this`index, this`bufferA, this`bufferB, this`nextTradeId
      ensures Midway(e, side, [Level(levels[0].price, entries)] + levels[1..], other, nodes, index, done', r)
      ensures InCall(log, done', e.tradeId)
      ensures entries == [] || r.Remaining() <= 0
      ensures index.Keys <= old(index.Keys)
    {
      hide Midway;
      entries, r, done' := levels[0].entries, o, done;
      var price := levels[0].price;
      assert [Level(price, entries)] + levels[1..] == levels;
      var j := 0;
      while j < |entries| && r.Remaining() > 0
        invariant j <= |entries| && (j > 0 ==> r.Remaining() <= 0)
        invariant Crosses(r, price)
        invariant Midway(e, side, [Level(price, entries)] + levels[1..], other, nodes, index, done', r)
        invariant InCall(log, done', e.tradeId) && index.Keys <= old(index.Keys)
        decreases |entries| - j
      {
        var h := entries[j];
        ghost var now := [Level(price, entries)] + levels[1..];
        PairStep(e, side, now, other, nodes, index, done', r);
        ghost var t := MakeTrade(e.tradeId + |done'|, r, nodes[h], Min(r.Remaining(), nodes[h].Remaining()), price);
        assert log + (done' + [t]) == (log + done') + [t];
        done' := done' + [t];
        var filled;
        r, filled := Pair(r, h, price);
        if filled {
          ghost var es := entries;
          entries := entries[..j] + entries[j+1..];
          assert now[0] == Level(price, es) && now[1..] == levels[1..] && entries == es[1..];
        } else {
          j := j + 1;
        }
      }
    }

    /** The outer loop: consume the opposite ladder level by level. */
    method MatchLadder(side: Side, ladder: seq<Level>, o: Order, ghost e: Entry, ghost other: seq<Level>)
      returns (levels: seq<Level>, r: Order, ghost done: seq<Trade>)
      requires o.side == side.Opposite() && NoEmptyLevel(ladder)
      requires Midway(e, side, ladder, other, nodes, index, [], o) && InCall(Active(), [], e.tradeId)
      modifies this`nodes, this`index, this`bufferA, this`bufferB, this`nextTradeId
      ensures Linked(side, levels, other, nodes, index) && NoEmptyLevel(levels) && Flat(other, nodes) == e.other
      ensures Greedy(e.order, e.queue, e.tradeId) == Match(r, Flat(levels, nodes), done)
      ensures InCall(old(Active()), done, e.tradeId) && index.Keys <= old(index.Keys)
    {
      hide Midway, Linked, Greedy, Flat;
      levels, r, done := ladder, o, [];
      var i := 0;
      while i < |levels| && r.Remaining() > 0
        invariant i <= |levels| && (i > 0 ==> r.Remaining() <= 0)
        invariant Midway(e, side, levels, other, nodes, index, done, r) && NoEmptyLevel(levels)
        invariant InCall(old(Active()), done, e.tradeId) && index.Keys <= old(index.Keys)
        decreases |levels| - i
      {
        var price := levels[i].price;
        if r.kind == Limit && (if r.side == Buy then r.price < price else r.price > price) {
          break;
        }
        var entries;
        entries, r, done := MatchLevel(side, levels, r, e, other, old(Active()), done);
        ghost var now := [Level(price, entries)] + levels[1..];
        if entries == [] {
          MidwayDrops(e, side, now, other, nodes, index, done, r);
          assert now[1..] == levels[..i] + levels[i+1..];
          levels := levels[..i] + levels[i+1..];
        } else {
          assert now == levels[..i] + [Level(price, entries)] + levels[i+1..];
          levels := levels[..i] + [Level(price, entries)] + levels[i+1..];
          i := i + 1;
        }
      }
      MidwayEnds(e, side, levels, other, nodes, index, done, r);
    }

    method MatchLimitOrder(o: Order) returns (r: Order)
      requires Valid()
      modifies this
      ensures Valid()
      ensures (Abs(), r) == MatchIncoming(old(Abs()), o)
      ensures drained == old(drained) && index.Keys <= old(index.Keys)
    {
      hide Midway, Linked, WellFormed, Numbered, Greedy, Flat, NoEmptyLevel;
      LinkedFlips(Buy, bids, asks, nodes, index);
      MatchKeeps(Abs(), o);
      MatchNumbers(Abs(), o, drained);
      var opp := o.side.Opposite();
      var levels := if opp == Buy then bids else asks;
      ghost var other := if opp == Buy then asks else bids;
      ghost var e := Entry(o, Flat(levels, nodes), Flat(other, nodes), nextTradeId);
      ghost var done;
      MidwayStarts(e, opp, levels, other, nodes, index);
      levels, r, done := MatchLadder(opp, levels, o, e, other);
      LinkedFlips(opp, levels, other, nodes, index);
      if opp == Buy {
        bids := levels;
      } else {
        asks := levels;
      }
      r := Settle(r);
    }

    /** Order ids are unique: the id must not be resting already. */
    method AddOrder(o: Order) returns (r: Order)
      requires Valid() && !Abs().Rests(o.id)
      modifies this
      ensures Valid()
      ensures (Abs(), r) == Submit(old(Abs()), o)
      ensures drained == old(drained)
    {
      hide Linked, WellFormed, Numbered, MatchIncoming, Flat, Place, Insert, NoEmptyLevel;
      IndexAgrees(bids, asks, nodes, index, o.id);
      SubmitKeeps(Abs(), o);
      ResidueDoesNotCross(Abs(), o);
      r := MatchLimitOrder(o);
      if !r.IsFilled() && r.kind == Limit {
        var stored := r.(status := if r.filled > 0 then Partial else New);
        var h := nextNode;
        LinkedFlips(Buy, bids, asks, nodes, index);
        var levels := if r.side == Buy then bids else asks;
        ghost var other := if r.side == Buy then asks else bids;
        PlaceLinked(r.side, levels, other, nodes, index, h, stored);
        levels := Place(r.side, levels, r.price, h);
        if r.side == Buy {
          bids := levels;
        } else {
          asks := levels;
        }
        nodes, nextNode := nodes[h := stored], nextNode + 1;
        index := index[r.id := h];
        LinkedFlips(r.side, levels, other, nodes, index);
      }
    }

    method AddMarketOrder(o: Order) returns (r: Order)
      requires Valid()
      modifies this
      ensures Valid()
      ensures (Abs(), r) == SubmitMarket(old(Abs()), o)
      ensures drained == old(drained)
    {
      hide Linked, WellFormed, Numbered, MatchIncoming, Flat;
      r := MatchLimitOrder(o.(kind := Market, price := 0.0));
    }

    method CancelOrder(id: int) returns (found: bool)
      requires Valid()
      modifies this
      ensures Valid()
      ensures found == old(Abs().Rests(id))
      ensures Abs() == CancelId(old(Abs()), id)
      ensures drained == old(drained) && id !in index
    {
      hide Linked, WellFormed, Numbered, Filter, Flat, Unlink, NoEmptyLevel;
      IndexAgrees(bids, asks, nodes, index, id);
      CancelKeeps(Abs(), id);
      if id !in index {
        CancelAbsent(Abs(), id);
        return false;
      }
      var h := index[id];
      IndexedNode(bids, asks, nodes, index, id);
      LinkedFlips(Buy, bids, asks, nodes, index);
      var price, side := nodes[h].price, nodes[h].side;
      var levels := if side == Buy then bids else asks;
      ghost var other := if side == Buy then asks else bids;
      UnlinkLinked(side, levels, other, nodes, index, id);
      levels := Unlink(levels, FindLevel(levels, price), h);
      if side == Buy {
        bids := levels;
      } else {
        asks := levels;
      }
      nodes := nodes - {h};
      index := index - {id};
      LinkedFlips(side, levels, other, nodes, index);
      return true;
    }

    method ModifyOrder(id: int, price: real, qty: int) returns (r: Order)
      requires Valid()
      modifies this
      ensures Valid()
      ensures (Abs(), r) == Modify(old(Abs()), id, price, qty)
      ensures drained == old(drained)
    {
      hide Linked, WellFormed, Numbered, Submit, Flat, Find, CancelId;
      IndexAgrees(bids, asks, nodes, index, id);
      if id !in index {
        return EMPTY_ORDER.(status := Rejected);
      }
      IndexedNode(bids, asks, nodes, index, id);
      var modified := nodes[index[id]];
      FindIs(Abs(), modified);
      CancelKeeps(Abs(), id);
      var _ := CancelOrder(id);
      modified := modified.(price := price, quantity := qty, filled := 0, status := New);
      r := AddOrder(modified);
    }

    method UpdateLevel(side: Side, price: real, size: int)
      requires Valid()
      modifies this
      ensures Valid()
      ensures Abs() == BookSpec.UpdateLevel(old(Abs()), side, price, size)
      ensures drained == old(drained)
    {
      hide Linked, WellFormed, Numbered, Filter, Flat, Indexed, Dropped, Unindexed, NoEmptyLevel;
      if size == 0 {
        CutKeeps(Abs(), side, AtPrice(price));
        LinkedFlips(Buy, bids, asks, nodes, index);
        var levels := if side == Buy then bids else asks;
        ghost var other := if side == Buy then asks else bids;
        var k := FindLevel(levels, price);
        if k < |levels| {
          DropLinked(side, levels, other, nodes, index, k);
          UnindexAll(levels[k].entries);
          nodes := Without(nodes, levels[k].entries);
          levels := Dropped(levels, k);
          if side == Buy {
            bids := levels;
          } else {
            asks := levels;
          }
          LinkedFlips(side, levels, other, nodes, index);
        } else {
          NoLevelNoCut(side, levels, other, nodes, index, price);
        }
      }
    }

    /** Forget the ids of a list of nodes. */
    method UnindexAll(entries: seq<Handle>)
      requires Indexed(nodes, index) && forall h :: h in entries ==> h in nodes
      modifies this`index
      ensures index == Unindexed(old(index), entries)
    {
      var i := 0;
      while i < |entries|
        invariant i <= |entries|
        invariant index == Unindexed(old(index), entries[..i])
      {
        UnindexStep(nodes, old(index), entries[..i], entries[i]);
        assert entries[..i+1] == entries[..i] + [entries[i]];
        index := index - {nodes[entries[i]].id};
        i := i + 1;
      }
      assert entries[..i] == entries;
    }

    method DrainTrades() returns (ts: seq<Trade>)
      requires Valid()
      modifies this
      ensures Valid()
      ensures (Abs(), ts) == Drain(old(Abs()))
      ensures drained == old(drained) + ts
    {
      hide Linked, Numbered, Flat;
      activeIsA := !activeIsA;
      if activeIsA {
        bufferA, ts, bufferB := [], bufferB, [];
      } else {
        bufferB, ts, bufferA := [], bufferA, [];
      }
      drained := drained + ts;
      assert drained + [] == drained;
    }

    method GetMidPrice() returns (mid: real)
      requires Valid()
      ensures mid == MidPrice(Abs())
    {
      FrontPrice(Buy, bids, nodes);
      FrontPrice(Sell, asks, nodes);
      var bid := if bids == [] then 0.0 else bids[0].price;
      var ask := if asks == [] then 0.0 else asks[0].price;
      mid := if bid == 0.0 || ask == 0.0 then 0.0 else (bid + ask) / 2.0;
    }

    /** An id is indexed exactly when an order with it rests, and its handle leads to that
        order, in the list of the level that its side and price name. */
    lemma IndexAgreement(id: int)
      requires Valid()
      ensures id in index <==> Abs().Rests(id)
      ensures id in index ==>
        var h := index[id];
        && h in nodes && nodes[h].id == id && nodes[h].Remaining() > 0
        && var levels := if nodes[h].side == Buy then bids else asks;
           var k := FindLevel(levels, nodes[h].price);
           k < |levels| && h in levels[k].entries
    {
      IndexAgrees(bids, asks, nodes, index, id);
      if id in index {
        var h := index[id];
        var levels := if nodes[h].side == Buy then bids else asks;
        HandleAtItsLevel(nodes[h].side, levels, nodes, h);
        HandleLevel(nodes[h].side, levels, nodes, h);
      }
    }

    /** Any run of operations, on the object. */
    method Execute(ops: seq<Op>, ghost w: World) returns (ghost w': World)
      requires Valid() && w.book == Abs() && w.drained == drained && AdmissibleRun(w, ops)
      modifies this
      ensures Valid() && w' == Run(w, ops) && w'.book == Abs() && w'.drained == drained
      decreases |ops|
    {
      w' := w;
      if ops != [] {
        Perform(ops[0]);
        w' := Execute(ops[1..], Step(w, ops[0]));
      }
    }

    method Perform(op: Op)
      requires Valid() && Admissible(Abs(), op)
      modifies this
      ensures Valid()
      ensures Abs() == Apply(old(Abs()), op)
      ensures drained == old(drained) + (if op.TakeTrades? then Drain(old(Abs())).1 else [])
    {
      hide Linked, WellFormed, Numbered, Flat, Submit, SubmitMarket, CancelId, Modify, BookSpec.UpdateLevel;
      assert drained + [] == drained;
      match op
      case Add(o) => var _ := AddOrder(o);
      case AddMarket(o) => var _ := AddMarketOrder(o);
      case Cancel(id) => var _ := CancelOrder(id);
      case Amend(id, p, q) => var _ := ModifyOrder(id, p, q);
      case SetLevel(side, p, n) => UpdateLevel(side, p, n);
      case TakeTrades => var _ := DrainTrades();
    }
  }
}
