/** Whole runs of the order book: every sequence of operations, with the full trade
    history and, per order incarnation, where in the history it began, what it asked for
    and how it ended. */
module BookRuns {
  import opened Orders
  import opened FlatMatching
  import opened BookSpec

  datatype Op =
    | Add(order: Order)
    | AddMarket(order: Order)
    | Cancel(id: int)
    | Amend(id: int, price: real, quantity: int)
    | SetLevel(side: Side, price: real, size: int)
    | TakeTrades

  /** Since when an order has been in play, for how much, and with what fill already on it. */
  datatype Birth = Birth(since: nat, base: int, quantity: int)

  /** Where an order has got to: in the book, filled completely, taken out by a cancel or a
      level update, or turned away with a residue that does not rest. */
  datatype Fate = Resting | Completed | Withdrawn | Lapsed

  datatype World = World(book: Book, drained: seq<Trade>, births: map<int, Birth>, fates: map<int, Fate>) {
    function History(): seq<Trade> {
      drained + book.pending
    }

    function Born(o: Order): World {
      this.(births := births[o.id := Birth(|History()|, o.filled, o.quantity)])
    }

    /** Initial fill and all volume traded in the order's name since it was submitted. */
    ghost function Life(id: int): int
      requires id in births && births[id].since <= |History()|
    {
      births[id].base + VolumeOf(History()[births[id].since..], id)
    }
  }

  const START := World(EMPTY_BOOK, [], map[], map[])

  function Apply(b: Book, op: Op): Book {
    match op
    case Add(o) => Submit(b, o).0
    case AddMarket(o) => SubmitMarket(b, o).0
    case Cancel(id) => CancelId(b, id)
    case Amend(id, p, q) => Modify(b, id, p, q).0
    case SetLevel(side, p, n) => UpdateLevel(b, side, p, n)
    case TakeTrades => Drain(b).0
  }

  /** The orders that an operation submits: one, or none if there is nothing to amend. */
  function Submitted(b: Book, op: Op): (os: seq<Order>)
    ensures |os| <= 1
  {
    match op
    case Add(o) => [o]
    case AddMarket(o) => [o]
    case Amend(id, p, q) =>
      var found := Find(b.bids, id) + Find(b.asks, id);
      if found == [] then [] else [Reissue(found[0], p, q)]
    case _ => []
  }

  /** What the operation returns to the caller. */
  function Returned(b: Book, op: Op): Order {
    match op
    case Add(o) => Submit(b, o).1
    case AddMarket(o) => SubmitMarket(b, o).1
    case Amend(id, p, q) => Modify(b, id, p, q).1
    case _ => EMPTY_ORDER
  }

  predicate Submits(b: Book, op: Op, id: int) {
    Submitted(b, op) != [] && Submitted(b, op)[0].id == id
  }

  /** Book, history and births after an operation. */
  function Move(w: World, op: Op): World {
    var w' := w.(book := Apply(w.book, op));
    if op.TakeTrades? then w'.(drained := w.drained + Drain(w.book).1)
    else if Submitted(w.book, op) != [] then w.Born(Submitted(w.book, op)[0]).(book := w'.book)
    else w'
  }

  /** An order the operation submits rests, is returned filled, or lapses; one that was
      resting is withdrawn by a cancel or a level update, or else taken by a match; the fate
      of every other order stands. */
  ghost function FateAfter(w: World, op: Op, id: int): Fate
    requires id in w.fates || Submits(w.book, op, id)
  {
    if Apply(w.book, op).Rests(id) then Resting
    else if Submits(w.book, op, id) then
      if Returned(w.book, op).IsFilled() then Completed else Lapsed
    else if w.book.Rests(id) then
      if op.Cancel? || op.SetLevel? then Withdrawn else Completed
    else w.fates[id]
  }

  ghost function Step(w: World, op: Op): World {
    Move(w, op).(fates := map id | id in w.fates.Keys + SubmittedIds(w.book, op) :: FateAfter(w, op, id))
  }

  ghost function SubmittedIds(b: Book, op: Op): set<int> {
    set o | o in Submitted(b, op) :: o.id
  }

  /** Callers hand out order ids that are not in use. */
  ghost predicate Admissible(b: Book, op: Op) {
    op.Add? || op.AddMarket? ==> !b.Rests(op.order.id)
  }

  ghost predicate AdmissibleRun(w: World, ops: seq<Op>)
    decreases |ops|
  {
    ops == [] || (Admissible(w.book, ops[0]) && AdmissibleRun(Step(w, ops[0]), ops[1..]))
  }

  ghost function Run(w: World, ops: seq<Op>): World
    decreases |ops|
  {
    if ops == [] then w else Run(Step(w, ops[0]), ops[1..])
  }

  // ----- the invariant -----

  /** Ids 1, 2, 3, ... in order: none lost, duplicated or reordered. */
  ghost predicate Numbered(h: seq<Trade>, next: int) {
    next == |h| + 1 && NumberedFrom(h, 1)
  }

  ghost predicate NumberedFrom(ts: seq<Trade>, first: int) {
    forall i :: 0 <= i < |ts| ==> ts[i].id == first + i
  }

  /** The order's fill is exactly what the history traded in its name since its birth. */
  ghost predicate Accounted(w: World, o: Order) {
    && o.id in w.births
    && w.births[o.id].since <= |w.History()|
    && o.quantity == w.births[o.id].quantity
    && o.filled == w.Life(o.id)
  }

  ghost predicate QueueAccounted(w: World, q: seq<Order>) {
    forall i :: 0 <= i < |q| ==> Accounted(w, q[i])
  }

  /** The book and what it holds. */
  ghost predicate Inv(w: World) {
    && WellFormed(w.book)
    && Numbered(w.History(), w.book.nextTrade)
    && QueueAccounted(w, w.book.bids)
    && QueueAccounted(w, w.book.asks)
  }

  /** One incarnation, whether or not it still rests: it never trades beyond its quantity,
      and reaches it exactly if it was filled completely. (One that came in overfilled counts
      as filled and never trades.) */
  ghost predicate Settled(w: World, id: int)
    requires id in w.births && id in w.fates
  {
    && w.births[id].since <= |w.History()|
    && (w.fates[id] == Resting <==> w.book.Rests(id))
    && var b, life := w.births[id], w.Life(id);
       if b.base <= b.quantity then life <= b.quantity && (life == b.quantity <==> w.fates[id] == Completed)
       else life == b.base && w.fates[id] == Completed
  }

  ghost predicate Ledger(w: World) {
    w.births.Keys == w.fates.Keys && forall id :: id in w.births ==> Settled(w, id)
  }

  // ----- volume of one order in one match -----

  lemma {:induction false} InTurnVolumes(o: Order, q: seq<Order>, tradeId: int, ts: seq<Trade>, id: int)
    requires InTurn(o, q, tradeId, ts) && DistinctIds(q) && !HasId(q, o.id)
    ensures VolumeOf(ts, o.id) == Volume(ts)
    ensures id != o.id && !HasId(q, id) ==> VolumeOf(ts, id) == 0
    ensures forall k :: 0 <= k < |q| && q[k].id == id ==>
      VolumeOf(ts, id) == if k < |ts| then ts[k].quantity else 0
    decreases |ts|
  {
    if ts != [] {
      assert TradeWith(o, q[0], tradeId, ts[0]);
      InTurnTail(o, q, tradeId, ts);
      assert HasId(q[1..], o.id) ==> HasId(q, o.id);
      assert HasId(q[1..], id) ==> HasId(q, id);
      InTurnVolumes(o, q[1..], tradeId + 1, ts[1..], id);
      forall k | 0 <= k < |q| && q[k].id == id
        ensures VolumeOf(ts, id) == if k < |ts| then ts[k].quantity else 0
      {
        if k > 0 {
          assert q[1..][k-1].id == id;
        } else {
          assert !HasId(q[1..], id);
        }
      }
    }
  }

  lemma InTurnTail(o: Order, q: seq<Order>, tradeId: int, ts: seq<Trade>)
    requires InTurn(o, q, tradeId, ts) && ts != []
    ensures InTurn(o, q[1..], tradeId + 1, ts[1..])
  {
    forall i | 0 <= i < |ts[1..]| ensures TradeWith(o, q[1..][i], tradeId + 1 + i, ts[1..][i]) {
      assert TradeWith(o, q[i+1], tradeId + (i + 1), ts[i+1]);
    }
  }

  /** The i-th order left in the queue is one that was there, and gained exactly the
      volume traded in its name. */
  lemma Survivor(o: Order, q: seq<Order>, tradeId: int, i: nat) returns (k: nat)
    requires Live(q) && DistinctIds(q) && !HasId(q, o.id)
    requires i < |Greedy(o, q, tradeId).queue|
    ensures var m := Greedy(o, q, tradeId);
      && k < |q| && q[k].id == m.queue[i].id
      && m.queue[i].filled == q[k].filled + VolumeOf(m.trades, q[k].id)
      && m.queue[i].quantity == q[k].quantity
  {
    var m := Greedy(o, q, tradeId);
    GreedyInTurn(o, q, tradeId);
    GreedyResidue(o, q, tradeId);
    k := |q| - |m.queue| + i;
    InTurnVolumes(o, q, tradeId, m.trades, q[k].id);
  }

  lemma TailSurvives(o: Order, q: seq<Order>, tradeId: int, k: nat)
    requires Live(q) && k < |q|
    ensures k >= |q| - |Greedy(o, q, tradeId).queue| ==> HasId(Greedy(o, q, tradeId).queue, q[k].id)
  {
    var m := Greedy(o, q, tradeId);
    GreedyResidue(o, q, tradeId);
    if k >= |q| - |m.queue| {
      assert m.queue[k - (|q| - |m.queue|)].id == q[k].id;
    }
  }

  /** An order that matching removes from the queue had exactly its open quantity traded,
      so its lifetime volume is its quantity. */
  lemma Vanished(o: Order, q: seq<Order>, tradeId: int, k: nat)
    requires Live(q) && DistinctIds(q) && !HasId(q, o.id)
    requires k < |q| && !HasId(Greedy(o, q, tradeId).queue, q[k].id)
    ensures VolumeOf(Greedy(o, q, tradeId).trades, q[k].id) == q[k].Remaining()
  {
    var m := Greedy(o, q, tradeId);
    GreedyInTurn(o, q, tradeId);
    GreedyResidue(o, q, tradeId);
    TailSurvives(o, q, tradeId, k);
    InTurnVolumes(o, q, tradeId, m.trades, q[k].id);
  }

  /** The incoming order's fill is the volume in its name, and nobody outside the
      opposite queue is named. */
  lemma IncomingVolume(o: Order, q: seq<Order>, tradeId: int, id: int)
    requires Live(q) && DistinctIds(q) && !HasId(q, o.id)
    ensures var m := Greedy(o, q, tradeId);
      && m.order == Fill(o, VolumeOf(m.trades, o.id))
      && (id != o.id && !HasId(q, id) ==> VolumeOf(m.trades, id) == 0)
  {
    GreedyInTurn(o, q, tradeId);
    GreedyFills(o, q, tradeId);
    InTurnVolumes(o, q, tradeId, Greedy(o, q, tradeId).trades, id);
  }

  // ----- one step -----

  /** Appending trades that do not change an order's fill leaves it accounted for. */
  lemma AccountedExtends(w: World, w': World, o: Order, o': Order, ts: seq<Trade>)
    requires Accounted(w, o) && o'.id == o.id
    requires w'.History() == w.History() + ts && o.id in w'.births && w'.births[o.id] == w.births[o.id]
    requires o'.filled == o.filled + VolumeOf(ts, o.id) && o'.quantity == o.quantity
    ensures Accounted(w', o')
  {
    LifeExtends(w, w', o.id, ts);
  }

  lemma LifeExtends(w: World, w': World, id: int, ts: seq<Trade>)
    requires id in w.births && id in w'.births && w'.births[id] == w.births[id]
    requires w.births[id].since <= |w.History()| && w'.History() == w.History() + ts
    ensures w'.Life(id) == w.Life(id) + VolumeOf(ts, id)
  {
    var s := w.births[id].since;
    assert w'.History()[s..] == w.History()[s..] + ts;
    VolumeOfConcat(w.History()[s..], ts, id);
  }

  /** Matching an incoming order with an unused id, seen as a step of the world. */
  function MatchStep(w: World, o: Order): World {
    w.Born(o).(book := MatchIncoming(w.book, o).0)
  }

  lemma MatchStepHistory(w: World, o: Order)
    requires Inv(w)
    ensures var w' := MatchStep(w, o);
      var ts := Greedy(o, w.book.Queue(o.side.Opposite()), w.book.nextTrade).trades;
      w'.History() == w.History() + ts && Numbered(w'.History(), w'.book.nextTrade)
  {
    var q := w.book.Queue(o.side.Opposite());
    var ts := Greedy(o, q, w.book.nextTrade).trades;
    assert w.drained + (w.book.pending + ts) == (w.drained + w.book.pending) + ts;
    GreedyNumbers(o, q, w.book.nextTrade);
    NumberedAppends(w.History(), ts, w.book.nextTrade);
  }

  lemma GreedyNumbers(o: Order, q: seq<Order>, tradeId: int)
    requires Live(q)
    ensures NumberedFrom(Greedy(o, q, tradeId).trades, tradeId)
  {
    GreedyInTurn(o, q, tradeId);
    var ts := Greedy(o, q, tradeId).trades;
    forall i | 0 <= i < |ts| ensures ts[i].id == tradeId + i {
      assert TradeWith(o, q[i], tradeId + i, ts[i]);
    }
  }

  lemma NumberedAppends(h: seq<Trade>, ts: seq<Trade>, next: int)
    requires Numbered(h, next) && NumberedFrom(ts, next)
    ensures Numbered(h + ts, next + |ts|)
  {
  }

  lemma MatchStepKeeps(w: World, o: Order)
    requires Inv(w) && !w.book.Rests(o.id)
    ensures Inv(MatchStep(w, o))
    ensures Accounted(MatchStep(w, o), MatchIncoming(w.book, o).1)
  {
    MatchKeeps(w.book, o);
    MatchStepHistory(w, o);
    MatchedSide(w, o);
    UntouchedSide(w, o);
  }

  lemma MatchedSide(w: World, o: Order)
    requires Inv(w) && !w.book.Rests(o.id)
    ensures QueueAccounted(MatchStep(w, o), MatchStep(w, o).book.Queue(o.side.Opposite()))
    ensures Accounted(MatchStep(w, o), MatchIncoming(w.book, o).1)
  {
    var q := w.book.Queue(o.side.Opposite());
    var m := Greedy(o, q, w.book.nextTrade);
    var w' := MatchStep(w, o);
    MatchStepHistory(w, o);
    IncomingVolume(o, q, w.book.nextTrade, o.id);
    assert w'.History()[|w.History()|..] == m.trades;
    forall i | 0 <= i < |m.queue| ensures Accounted(w', m.queue[i]) {
      var k := Survivor(o, q, w.book.nextTrade, i);
      AccountedExtends(w, w', q[k], m.queue[i], m.trades);
    }
  }

  /** The incoming order's own side is not named by any of the new trades. */
  lemma UntouchedSide(w: World, o: Order)
    requires Inv(w) && !w.book.Rests(o.id)
    ensures QueueAccounted(MatchStep(w, o), MatchStep(w, o).book.Queue(o.side))
  {
    var own, q := w.book.Queue(o.side), w.book.Queue(o.side.Opposite());
    var ts := Greedy(o, q, w.book.nextTrade).trades;
    MatchStepHistory(w, o);
    forall i | 0 <= i < |own| ensures Accounted(MatchStep(w, o), own[i]) {
      assert own[i].id != o.id && !HasId(q, own[i].id);
      IncomingVolume(o, q, w.book.nextTrade, own[i].id);
      AccountedExtends(w, MatchStep(w, o), own[i], own[i], ts);
    }
  }

  function SubmitStep(w: World, o: Order): World {
    w.Born(o).(book := Submit(w.book, o).0)
  }

  lemma SubmitHistory(w: World, o: Order)
    ensures SubmitStep(w, o).History() == MatchStep(w, o).History()
    ensures SubmitStep(w, o).book.nextTrade == MatchStep(w, o).book.nextTrade
  {
  }

  lemma InsertAccounted(w: World, w': World, q: seq<Order>, side: Side, r: Order)
    requires QueueAccounted(w, q) && Accounted(w, r)
    requires w'.History() == w.History() && w'.births == w.births
    ensures QueueAccounted(w', Insert(side, q, Rested(r)))
  {
    var q' := Insert(side, q, Rested(r));
    assert Accounted(w, Rested(r));
    forall i | 0 <= i < |q'| ensures Accounted(w', q'[i]) {
      InsertContents(side, q, Rested(r), q'[i]);
      assert Accounted(w, q'[i]);
    }
  }

  lemma SubmitStepKeeps(w: World, o: Order)
    requires Inv(w) && !w.book.Rests(o.id)
    ensures Inv(SubmitStep(w, o))
    ensures Accounted(SubmitStep(w, o), Submit(w.book, o).1)
  {
    hide WellFormed, Accounted, Numbered, Insert, QueueAccounted;
    var w1, w2 := MatchStep(w, o), SubmitStep(w, o);
    var r := MatchIncoming(w.book, o).1;
    MatchStepKeeps(w, o);
    SubmitKeeps(w.book, o);
    SubmitHistory(w, o);
    SameAccounts(w1, w2, w1.book.bids, r);
    SameAccounts(w1, w2, w1.book.asks, r);
    if Stays(r) {
      ResidueDoesNotCross(w.book, o);
      InsertAccounted(w1, w2, w1.book.Queue(o.side), o.side, r);
    }
  }

  /** Accounting looks at nothing but the history and the births. */
  lemma SameAccounts(w: World, w': World, q: seq<Order>, r: Order)
    requires QueueAccounted(w, q) && Accounted(w, r) && w'.History() == w.History() && w'.births == w.births
    ensures QueueAccounted(w', q) && Accounted(w', r)
  {
  }

  /** Dropping orders, and moving trades from the log to the drained history. */
  lemma FilterAccounted(w: World, w': World, q: seq<Order>, cut: Cut)
    requires QueueAccounted(w, q) && w'.History() == w.History() && w'.births == w.births
    ensures QueueAccounted(w', q) && QueueAccounted(w', Filter(q, cut))
  {
    FilterContents(q, cut);
    forall i | 0 <= i < |Filter(q, cut)| ensures Accounted(w', Filter(q, cut)[i]) {
      assert Filter(q, cut)[i] in q;
    }
  }

  lemma CancelStepKeeps(w: World, id: int)
    requires Inv(w)
    ensures Inv(w.(book := CancelId(w.book, id)))
  {
    var w' := w.(book := CancelId(w.book, id));
    CancelKeeps(w.book, id);
    FilterAccounted(w, w', w.book.bids, ById(id));
    FilterAccounted(w, w', w.book.asks, ById(id));
  }

  /** A modify is a cancel followed by a fresh submission under the same id. */
  lemma AmendStepKeeps(w: World, id: int, p: real, qty: int)
    requires Inv(w)
    ensures Inv(Move(w, Amend(id, p, qty)))
    ensures w.History() <= Move(w, Amend(id, p, qty)).History()
    ensures w.book.Rests(id) ==> Accounted(Move(w, Amend(id, p, qty)), Returned(w.book, Amend(id, p, qty)))
  {
    var found := Find(w.book.bids, id) + Find(w.book.asks, id);
    if found != [] {
      var w1, o := w.(book := CancelId(w.book, id)), Reissue(found[0], p, qty);
      CancelStepKeeps(w, id);
      CancelKeeps(w.book, id);
      SubmitStepKeeps(w1, o);
      MatchStepHistory(w1, o);
      SubmitHistory(w1, o);
      assert Move(w, Amend(id, p, qty)) == SubmitStep(w1, o);
    }
  }

  lemma MoveKeeps(w: World, op: Op)
    requires Inv(w) && Admissible(w.book, op)
    ensures Inv(Move(w, op))
    ensures Submitted(w.book, op) != [] ==> Accounted(Move(w, op), Returned(w.book, op))
  {
    match op
    case Add(o) => SubmitStepKeeps(w, o);
    case AddMarket(o) =>
      var o' := o.(kind := Market, price := 0.0);
      MatchStepKeeps(w, o');
    case Cancel(id) => CancelStepKeeps(w, id);
    case Amend(id, p, q) => AmendStepKeeps(w, id, p, q);
    case SetLevel(side, p, n) =>
      if n == 0 {
        CutKeeps(w.book, side, AtPrice(p));
        FilterAccounted(w, Move(w, op), w.book.bids, AtPrice(p));
        FilterAccounted(w, Move(w, op), w.book.asks, AtPrice(p));
      }
    case TakeTrades =>
      assert Move(w, op).History() == w.History();
      FilterAccounted(w, Move(w, op), w.book.bids, AtPrice(0.0));
      FilterAccounted(w, Move(w, op), w.book.asks, AtPrice(0.0));
  }

  /** Every operation keeps the book and the resting ledgers, and the order it returns, at
      rest or not, is filled with exactly what was traded in its name. */
  lemma StepKeeps(w: World, op: Op)
    requires Inv(w) && Admissible(w.book, op)
    ensures Inv(Step(w, op))
    ensures Submitted(w.book, op) != [] ==> Accounted(Step(w, op), Returned(w.book, op))
  {
    hide Apply, WellFormed, Numbered, Submitted, Returned;
    MoveKeeps(w, op);
    assert Step(w, op).History() == Move(w, op).History();
  }

  // ----- the ledger of every incarnation -----

  /** A match leaves the lifetime volume of orders outside the book alone, and brings that
      of an order it takes off the book to the order's quantity. */
  lemma MatchLives(w: World, o: Order, id: int)
    requires Inv(w) && !w.book.Rests(o.id)
    requires id in w.births && id != o.id && w.births[id].since <= |w.History()|
    ensures var w' := MatchStep(w, o);
      && w.births[id].since <= |w'.History()|
      && (!w.book.Rests(id) ==> !w'.book.Rests(id) && w'.Life(id) == w.Life(id))
      && (w.book.Rests(id) && !w'.book.Rests(id) ==> w'.Life(id) == w.births[id].quantity)
  {
    MatchKeeps(w.book, o);
    var q, own := w.book.Queue(o.side.Opposite()), w.book.Queue(o.side);
    var w', ts := MatchStep(w, o), Greedy(o, q, w.book.nextTrade).trades;
    MatchStepHistory(w, o);
    LifeExtends(w, w', id, ts);
    IncomingVolume(o, q, w.book.nextTrade, id);
    if w.book.Rests(id) && !w'.book.Rests(id) {
      assert HasId(own, id) ==> w'.book.Rests(id);
      var k :| 0 <= k < |q| && q[k].id == id;
      Vanished(o, q, w.book.nextTrade, k);
      assert Accounted(w, q[k]);
    }
  }

  /** Coming to rest adds no id but the order's own. */
  lemma SubmitRests(b: Book, o: Order, id: int)
    requires WellFormed(b) && id != o.id
    ensures Submit(b, o).0.Rests(id) <==> MatchIncoming(b, o).0.Rests(id)
  {
    var (b', r) := MatchIncoming(b, o);
    ResidueDoesNotCross(b, o);
    if Stays(r) {
      GreedyFills(o, b.Queue(o.side.Opposite()), b.nextTrade);
      InsertIds(o.side, b'.Queue(o.side), Rested(r), id);
    }
  }

  lemma InsertIds(side: Side, q: seq<Order>, o: Order, id: int)
    requires id != o.id
    ensures HasId(Insert(side, q, o), id) <==> HasId(q, id)
  {
    var q' := Insert(side, q, o);
    if i :| 0 <= i < |q| && q[i].id == id {
      InsertContents(side, q, o, q[i]);
      var j :| 0 <= j < |q'| && q'[j] == q[i];
    }
    if i :| 0 <= i < |q'| && q'[i].id == id {
      InsertContents(side, q, o, q'[i]);
      var j :| 0 <= j < |q| && q[j] == q'[i];
    }
  }

  lemma FilterIds(q: seq<Order>, cut: int, id: int)
    requires id != cut
    ensures HasId(Filter(q, ById(cut)), id) <==> HasId(q, id)
  {
    var q' := Filter(q, ById(cut));
    FilterContents(q, ById(cut));
    if i :| 0 <= i < |q| && q[i].id == id {
      assert q[i] in q';
    }
    if i :| 0 <= i < |q'| && q'[i].id == id {
      assert q'[i] in q;
    }
  }

  /** What an operation does to an order that it does not submit. */
  ghost predicate Lives(w: World, op: Op, w': World, id: int) {
    && id in w.births && id in w'.births && w'.births[id] == w.births[id]
    && w.births[id].since <= |w.History()| && w.births[id].since <= |w'.History()|
    && (!w.book.Rests(id) ==> !w'.book.Rests(id) && w'.Life(id) == w.Life(id))
    && (w.book.Rests(id) && !w'.book.Rests(id) ==>
          w'.Life(id) == if op.Cancel? || op.SetLevel? then w.Life(id) else w.births[id].quantity)
  }

  lemma AddLives(w: World, o: Order, id: int)
    requires Inv(w) && !w.book.Rests(o.id)
    requires id in w.births && id != o.id && w.births[id].since <= |w.History()|
    ensures Lives(w, Add(o), SubmitStep(w, o), id)
  {
    MatchLives(w, o, id);
    SubmitRests(w.book, o, id);
    SubmitHistory(w, o);
  }

  lemma AmendLives(w: World, op: Op, id: int)
    requires Inv(w) && op.Amend? && Submitted(w.book, op) != [] && op.id != id
    requires id in w.births && w.births[id].since <= |w.History()|
    ensures Lives(w, op, Move(w, op), id)
  {
    hide Numbered, QueueAccounted, WellFormed;
    var w1, o := w.(book := CancelId(w.book, op.id)), Submitted(w.book, op)[0];
    CancelStepKeeps(w, op.id);
    CancelKeeps(w.book, op.id);
    FilterIds(w.book.bids, op.id, id);
    FilterIds(w.book.asks, op.id, id);
    AddLives(w1, o, id);
    assert Move(w, op) == SubmitStep(w1, o) && w1.History() == w.History();
  }

  lemma CutLives(w: World, op: Op, id: int)
    requires op.Cancel? || op.SetLevel? || op.TakeTrades? || (op.Amend? && Submitted(w.book, op) == [])
    requires id in w.births && w.births[id].since <= |w.History()|
    ensures Lives(w, op, Move(w, op), id)
  {
    assert Move(w, op).History() == w.History();
    if op.Cancel? {
      if op.id != id {
        FilterIds(w.book.bids, op.id, id);
        FilterIds(w.book.asks, op.id, id);
      } else {
        FilterDropsId(w.book.bids, id);
        FilterDropsId(w.book.asks, id);
      }
    } else if op.SetLevel? {
      FilterNoNewId(w.book.Queue(op.side), AtPrice(op.price), id);
    }
  }

  lemma FilterNoNewId(q: seq<Order>, cut: Cut, id: int)
    ensures HasId(Filter(q, cut), id) ==> HasId(q, id)
  {
    FilterContents(q, cut);
    if i :| 0 <= i < |Filter(q, cut)| && Filter(q, cut)[i].id == id {
      assert Filter(q, cut)[i] in q;
    }
  }

  lemma MoveLives(w: World, op: Op, id: int)
    requires Inv(w) && Admissible(w.book, op)
    requires id in w.births && !Submits(w.book, op, id) && w.births[id].since <= |w.History()|
    ensures Lives(w, op, Move(w, op), id)
  {
    if op.Add? {
      AddLives(w, op.order, id);
    } else if op.AddMarket? {
      MatchLives(w, op.order.(kind := Market, price := 0.0), id);
    } else if op.Amend? && Submitted(w.book, op) != [] {
      AmendLives(w, op, id);
    } else {
      CutLives(w, op, id);
    }
  }

  /** What is returned for a submitted order: never filled beyond its quantity, unless it
      came in that way. */
  lemma ReturnedFill(b: Book, op: Op)
    requires WellFormed(b) && Submitted(b, op) != []
    ensures var o, r := Submitted(b, op)[0], Returned(b, op);
      r.id == o.id && r.filled >= o.filled && (r.filled <= r.quantity || r.filled == o.filled)
  {
    hide WellFormed, MatchIncoming, CancelId;
    var o := Submitted(b, op)[0];
    if op.Amend? {
      CancelKeeps(b, op.id);
      MatchedFill(CancelId(b, op.id), o);
    } else {
      MatchedFill(b, if op.Add? then o else o.(kind := Market, price := 0.0));
    }
  }

  lemma MatchedFill(b: Book, o: Order)
    requires WellFormed(b)
    ensures var r := MatchIncoming(b, o).1;
      r.id == o.id && r.filled >= o.filled && (r.filled <= r.quantity || r.filled == o.filled)
  {
    var q := b.Queue(o.side.Opposite());
    GreedyFills(o, q, b.nextTrade);
    GreedyStops(o, q, b.nextTrade);
    VolumeNonNegative(o, q, b.nextTrade);
  }

  /** A resting order is accounted for by the ledger of its id. */
  lemma RestingLife(w: World, id: int)
    requires Inv(w) && w.book.Rests(id)
    ensures id in w.births && w.births[id].since <= |w.History()| && w.Life(id) < w.births[id].quantity
  {
    var side := if HasId(w.book.bids, id) then Buy else Sell;
    var q := w.book.Queue(side);
    var i :| 0 <= i < |q| && q[i].id == id;
    assert Accounted(w, q[i]) && Fits(side, q[i]);
  }

  lemma SubmittedBirth(w: World, op: Op, id: int)
    requires Submits(w.book, op, id)
    ensures var w', o := Step(w, op), Submitted(w.book, op)[0];
      id in w'.births && w'.births[id] == Birth(|w.History()|, o.filled, o.quantity) && id in w'.fates
  {
    hide Find, Apply;
    assert !op.TakeTrades?;
    assert Submitted(w.book, op)[0] in Submitted(w.book, op);
  }

  lemma SubmittedSettles(w: World, op: Op, id: int)
    requires Inv(w) && Admissible(w.book, op) && Submits(w.book, op, id)
    ensures var w' := Step(w, op); id in w'.births && id in w'.fates && Settled(w', id)
  {
    hide WellFormed, Numbered, QueueAccounted, Apply, Returned, Submitted, SubmittedIds;
    var w' := Step(w, op);
    SubmittedBirth(w, op, id);
    StepKeeps(w, op);
    ReturnedFill(w.book, op);
    if w'.book.Rests(id) {
      RestingLife(w', id);
    }
  }

  lemma OtherSettles(w: World, op: Op, id: int)
    requires Inv(w) && Ledger(w) && Admissible(w.book, op) && id in w.births && !Submits(w.book, op, id)
    ensures var w' := Step(w, op); id in w'.births && id in w'.fates && Settled(w', id)
  {
    hide WellFormed, Numbered, QueueAccounted, Apply, Returned, Submitted, SubmittedIds;
    var w' := Step(w, op);
    assert Settled(w, id) && w'.History() == Move(w, op).History();
    StepKeeps(w, op);
    MoveLives(w, op, id);
    if w.book.Rests(id) {
      RestingLife(w, id);
    }
    if w'.book.Rests(id) {
      RestingLife(w', id);
    }
  }

  lemma FatesHaveBirths(w: World, op: Op, id: int)
    requires w.fates.Keys == w.births.Keys && id in Step(w, op).fates
    ensures id in Step(w, op).births
  {
  }

  lemma StepLedger(w: World, op: Op)
    requires Inv(w) && Ledger(w) && Admissible(w.book, op)
    ensures Ledger(Step(w, op))
  {
    hide Settled, FateAfter, Apply, Submitted;
    forall id | id in Step(w, op).births ensures id in Step(w, op).fates && Settled(Step(w, op), id) {
      if Submits(w.book, op, id) {
        SubmittedSettles(w, op, id);
      } else {
        OtherSettles(w, op, id);
      }
    }
    forall id | id in Step(w, op).fates ensures id in Step(w, op).births {
      FatesHaveBirths(w, op, id);
    }
  }

  predicate Reuses(op: Op, id: int) {
    (op.Add? || op.AddMarket?) && op.order.id == id
  }

  /** Amending an id that does not rest submits nothing. */
  lemma OnlyReuseSubmits(b: Book, op: Op, id: int)
    requires !b.Rests(id) && !Reuses(op, id)
    ensures !Submits(b, op, id)
  {
  }

  /** The id is out of the book in both worlds, with the same ledger. */
  ghost predicate Frozen(w: World, w': World, id: int)
    requires id in w.births && id in w.fates && w.births[id].since <= |w.History()|
  {
    && id in w'.births && id in w'.fates && !w'.book.Rests(id)
    && w'.births[id] == w.births[id] && w'.fates[id] == w.fates[id]
    && w.births[id].since <= |w'.History()| && w'.Life(id) == w.Life(id)
  }

  /** Once an order has left the book, nothing but a new submission of its id changes its
      ledger: not its birth, its lifetime volume or its fate. */
  lemma StepFreezes(w: World, op: Op, id: int)
    requires Inv(w) && Ledger(w) && Admissible(w.book, op)
    requires id in w.births && !w.book.Rests(id) && !Reuses(op, id)
    ensures Frozen(w, Step(w, op), id)
  {
    hide WellFormed, Numbered, QueueAccounted, Apply, Returned, Submitted, SubmittedIds;
    var w' := Step(w, op);
    OnlyReuseSubmits(w.book, op, id);
    OtherSettles(w, op, id);
    MoveLives(w, op, id);
    assert w'.History() == Move(w, op).History();
  }

  // ----- every run -----

  lemma {:induction false} RunKeeps(w: World, ops: seq<Op>)
    requires Inv(w) && AdmissibleRun(w, ops)
    ensures Inv(Run(w, ops))
    ensures Ledger(w) ==> Ledger(Run(w, ops))
    decreases |ops|
  {
    if ops != [] {
      StepKeeps(w, ops[0]);
      if Ledger(w) {
        StepLedger(w, ops[0]);
      }
      RunKeeps(Step(w, ops[0]), ops[1..]);
    }
  }

  lemma {:induction false} RunFreezes(w: World, ops: seq<Op>, id: int)
    requires Inv(w) && Ledger(w) && AdmissibleRun(w, ops)
    requires id in w.births && !w.book.Rests(id) && forall i :: 0 <= i < |ops| ==> !Reuses(ops[i], id)
    ensures Frozen(w, Run(w, ops), id)
    decreases |ops|
  {
    hide Inv;
    assert Settled(w, id);
    if ops != [] {
      StepKeeps(w, ops[0]);
      StepLedger(w, ops[0]);
      StepFreezes(w, ops[0], id);
      RunFreezes(Step(w, ops[0]), ops[1..], id);
    }
  }

  ghost predicate CleanFill(op: Op) {
    op.Add? ==> op.order.filled >= 0
  }

  lemma ApplyStatuses(b: Book, op: Op)
    requires WellFormed(b) && StatusesOk(b) && CleanFill(op)
    ensures StatusesOk(Apply(b, op))
  {
    match op
    case Add(o) => SubmitStatuses(b, o);
    case AddMarket(o) => MatchStatuses(b, o.(kind := Market, price := 0.0));
    case Cancel(id) => CancelStatuses(b, id);
    case Amend(id, p, q) =>
      var found := Find(b.bids, id) + Find(b.asks, id);
      if found != [] {
        CancelStatuses(b, id);
        CancelKeeps(b, id);
        SubmitStatuses(CancelId(b, id), Reissue(found[0], p, q));
      }
    case SetLevel(side, p, n) => CutStatuses(b, side, AtPrice(p));
    case TakeTrades =>
  }

  lemma CancelStatuses(b: Book, id: int)
    requires StatusesOk(b)
    ensures StatusesOk(CancelId(b, id))
  {
    FilterContents(b.bids, ById(id));
    FilterContents(b.asks, ById(id));
  }

  /** Throughout a run, resting orders show Partial exactly when they have been filled in part. */
  lemma {:induction false} RunStatuses(w: World, ops: seq<Op>)
    requires Inv(w) && AdmissibleRun(w, ops) && StatusesOk(w.book)
    requires forall i :: 0 <= i < |ops| ==> CleanFill(ops[i])
    ensures StatusesOk(Run(w, ops).book)
    decreases |ops|
  {
    if ops != [] {
      StepKeeps(w, ops[0]);
      ApplyStatuses(w.book, ops[0]);
      RunStatuses(Step(w, ops[0]), ops[1..]);
    }
  }

  /** The trade history only ever grows at its end. */
  lemma {:induction false} HistoryGrows(w: World, ops: seq<Op>)
    requires Inv(w) && AdmissibleRun(w, ops)
    ensures w.History() <= Run(w, ops).History()
    decreases |ops|
  {
    if ops != [] {
      StepKeeps(w, ops[0]);
      StepAppends(w, ops[0]);
      HistoryGrows(Step(w, ops[0]), ops[1..]);
    }
  }

  lemma StepAppends(w: World, op: Op)
    requires Inv(w)
    ensures w.History() <= Step(w, op).History()
  {
    assert Step(w, op).History() == Move(w, op).History();
    match op
    case Add(o) =>
      MatchStepHistory(w, o);
      SubmitHistory(w, o);
    case AddMarket(o) => MatchStepHistory(w, o.(kind := Market, price := 0.0));
    case Amend(id, p, q) => AmendStepKeeps(w, id, p, q);
    case _ =>
      assert Move(w, op).History() == w.History();
  }

  /** No crossed or locked book, no lost, repeated or reordered trade, no fill that is not a
      trade, and no order, past or present, that traded more than its quantity: lifetime
      volume and quantity agree exactly for the orders that were filled completely. */
  ghost predicate Sound(w: World) {
    && WellFormed(w.book)
    && Numbered(w.History(), w.book.nextTrade)
    && (forall o :: o in w.book.bids || o in w.book.asks ==> Accounted(w, o) && o.filled < o.quantity)
    && Ledger(w)
  }

  /** Every admissible run from an empty book is sound. */
  lemma EveryRun(ops: seq<Op>)
    requires AdmissibleRun(START, ops)
    ensures Sound(Run(START, ops))
  {
    StartOk();
    RunKeeps(START, ops);
    InvIsSound(Run(START, ops));
  }

  lemma {:induction false} RunConcat(w: World, ops: seq<Op>, more: seq<Op>)
    requires AdmissibleRun(w, ops + more)
    ensures AdmissibleRun(w, ops) && AdmissibleRun(Run(w, ops), more)
    ensures Run(w, ops + more) == Run(Run(w, ops), more)
    decreases |ops|
  {
    hide Step, Admissible;
    if ops == [] {
      assert ops + more == more;
    } else {
      assert (ops + more)[0] == ops[0] && (ops + more)[1..] == ops[1..] + more;
      RunConcat(Step(w, ops[0]), ops[1..], more);
    }
  }

  /** In every run from an empty book, the ledger of an order that has left the book is
      final until its id is used again. */
  lemma GoneForGood(ops: seq<Op>, more: seq<Op>, id: int)
    requires AdmissibleRun(START, ops + more) && forall i :: 0 <= i < |more| ==> !Reuses(more[i], id)
    requires var w := Run(START, ops); id in w.births && !w.book.Rests(id)
    ensures var w := Run(START, ops); Sound(w) && Frozen(w, Run(START, ops + more), id)
  {
    hide Inv;
    RunConcat(START, ops, more);
    StartOk();
    RunKeeps(START, ops);
    EveryRun(ops);
    RunFreezes(Run(START, ops), more, id);
  }

  lemma StartOk()
    ensures Inv(START) && Ledger(START)
  {
    hide Settled, Accounted, HasId;
    assert START.book == EMPTY_BOOK && START.History() == [];
  }

  lemma InvIsSound(w: World)
    requires Inv(w) && Ledger(w)
    ensures Sound(w)
  {
    forall o | o in w.book.bids || o in w.book.asks ensures Accounted(w, o) && o.filled < o.quantity {
      assert Fits(if o in w.book.bids then Buy else Sell, o);
    }
  }
}
