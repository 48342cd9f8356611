/** The hot path: two orders per market data message, each validated, matched and booked.
    What the hot path cannot know is an input: whether a free event is available at each
    attempt, and the clock second of each validation. */
module PipelineSpec {
  import opened Orders
  import opened FlatMatching
  import opened BookSpec
  import opened RiskSpec

  datatype Message = Message(bid: real, ask: real, timestamp: nat, symbol: string)

  datatype Environment = Environment(freeEvent: nat -> bool, clock: nat -> nat, rnd: Rounding)

  datatype Stats = Stats(messages: nat, created: nat, accepted: nat, rejected: nat, trades: nat, dropped: nat)

  /** A drained trade, with symbol and side of the order that caused it. */
  datatype Print = Print(symbol: string, side: Side, trade: Trade)

  /** Book, risk engine and counters; `pushed` counts the events handed to the I/O thread, and
      `tape` lists the drained trades. */
  datatype Pipe = Pipe(book: Book, risk: Engine, stats: Stats, nextId: int, pushed: nat, tape: seq<Print>)

  function Init(limits: Limits): Pipe {
    Pipe(EMPTY_BOOK, Engine(limits, map[], 0, 0, false), Stats(0, 0, 0, 0, 0, 0), 1, 0, [])
  }

  // ----- the strategy -----

  function Scale(x: real, factor: real): real {
    x * factor
  }

  /** A tenth of the spread below or above the mid, every operation rounded. */
  function Quote(rnd: Rounding, m: Message, side: Side): real {
    var mid, away := rnd(rnd(m.bid + m.ask) / 2.0), rnd(Scale(rnd(m.ask - m.bid), rnd(0.1)));
    if side == Buy then rnd(mid - away) else rnd(mid + away)
  }

  function NewOrder(rnd: Rounding, m: Message, side: Side, id: int): Order {
    Order(id, 1, Quote(rnd, m, side), 100, 0, m.timestamp, side, Limit, New, m.symbol)
  }

  // ----- handling one order -----

  /** One attempt to hand an event to the I/O thread. */
  function Emit(env: Environment, p: Pipe): Pipe {
    if env.freeEvent(p.pushed + p.stats.dropped) then p.(pushed := p.pushed + 1)
    else p.(stats := p.stats.(dropped := p.stats.dropped + 1))
  }

  function EmitTrades(env: Environment, p: Pipe, n: nat): Pipe {
    if n == 0 then p else
      var q := EmitTrades(env, p, n - 1);
      Emit(env, q.(stats := q.stats.(trades := q.stats.trades + 1)))
  }

  function Prints(symbol: string, side: Side, ts: seq<Trade>): seq<Print> {
    seq(|ts|, i requires 0 <= i < |ts| => Print(symbol, side, ts[i]))
  }

  function Reject(env: Environment, p: Pipe, risk: Engine): Pipe {
    Emit(env, p.(risk := risk, stats := p.stats.(rejected := p.stats.rejected + 1)))
  }

  function Accept(env: Environment, p: Pipe, risk: Engine, o: Order, mid: real): Pipe {
    var (book, r) := Submit(p.book, o);
    var (book', ts) := Drain(book);
    var p1 := Emit(env, p.(book := book', risk := risk, stats := p.stats.(accepted := p.stats.accepted + 1)));
    var p2 := EmitTrades(env, p1, |ts|).(tape := p.tape + Prints(o.symbol, o.side, ts));
    if r.filled > 0
    then p2.(risk := Executed(env.rnd, risk, r, r.filled, if r.price > 0.0 then r.price else mid))
    else p2
  }

  lemma AcceptSetsRisk(env: Environment, p: Pipe, before: Engine, risk: Engine, o: Order, mid: real)
    ensures Accept(env, p.(risk := before), risk, o, mid) == Accept(env, p, risk, o, mid)
  {
  }

  function Handle(env: Environment, p: Pipe, o: Order): Pipe {
    var mid := MidPrice(p.book);
    var (risk, ok) := Validate(env.rnd, p.risk, o, mid, env.clock(p.stats.created));
    var p' := p.(stats := p.stats.(created := p.stats.created + 1));
    if ok then Accept(env, p', risk, o, mid) else Reject(env, p', risk)
  }

  function Process(env: Environment, p: Pipe, m: Message): Pipe {
    var p0 := p.(stats := p.stats.(messages := p.stats.messages + 1), nextId := p.nextId + 2);
    Handle(env, Handle(env, p0, NewOrder(env.rnd, m, Buy, p.nextId)), NewOrder(env.rnd, m, Sell, p.nextId + 1))
  }

  function Run(env: Environment, p: Pipe, ms: seq<Message>): Pipe
    decreases |ms|
  {
    if ms == [] then p else Run(env, Process(env, p, ms[0]), ms[1..])
  }

  // ----- accounting -----

  /** Traded quantity on the tape for one symbol. */
  function Traded(tape: seq<Print>, symbol: string): int {
    if tape == [] then 0
    else (if tape[0].symbol == symbol then tape[0].trade.quantity else 0) + Traded(tape[1..], symbol)
  }

  /** The same, with what sellers caused counted against what buyers caused. */
  function NetTraded(tape: seq<Print>, symbol: string): int {
    if tape == [] then 0
    else
      (if tape[0].symbol != symbol then 0
       else if tape[0].side == Buy then tape[0].trade.quantity else -tape[0].trade.quantity)
      + NetTraded(tape[1..], symbol)
  }

  ghost predicate IdsBelow(b: Book, id: int) {
    && (forall i :: 0 <= i < |b.bids| ==> b.bids[i].id < id)
    && (forall i :: 0 <= i < |b.asks| ==> b.asks[i].id < id)
  }

  ghost predicate Balanced(p: Pipe) {
    && p.stats.created == p.stats.accepted + p.stats.rejected
    && p.pushed + p.stats.dropped == p.stats.accepted + p.stats.rejected + p.stats.trades
    && |p.tape| == p.stats.trades
    && forall s :: p.risk.At(s).gross == Traded(p.tape, s) && p.risk.At(s).net == NetTraded(p.tape, s)
  }

  ghost predicate BookReady(p: Pipe, id: int) {
    WellFormed(p.book) && p.book.pending == [] && IdsBelow(p.book, id)
  }

  lemma EmitCounts(env: Environment, p: Pipe)
    ensures var q := Emit(env, p);
      && q.pushed + q.stats.dropped == p.pushed + p.stats.dropped + 1
      && q == p.(pushed := q.pushed, stats := p.stats.(dropped := q.stats.dropped))
  {
  }

  lemma {:induction false} EmitTradesCounts(env: Environment, p: Pipe, n: nat)
    ensures var q := EmitTrades(env, p, n);
      && q.pushed + q.stats.dropped == p.pushed + p.stats.dropped + n
      && q == p.(pushed := q.pushed, stats := p.stats.(dropped := q.stats.dropped, trades := p.stats.trades + n))
  {
    if n > 0 {
      EmitTradesCounts(env, p, n - 1);
    }
  }

  lemma {:induction false} TradedConcat(a: seq<Print>, b: seq<Print>, s: string)
    ensures Traded(a + b, s) == Traded(a, s) + Traded(b, s)
    ensures NetTraded(a + b, s) == NetTraded(a, s) + NetTraded(b, s)
  {
    if a == [] {
      assert a + b == b;
    } else {
      assert (a + b)[1..] == a[1..] + b;
      TradedConcat(a[1..], b, s);
    }
  }

  lemma {:induction false} PrintsVolume(symbol: string, side: Side, ts: seq<Trade>, s: string)
    ensures Traded(Prints(symbol, side, ts), s) == if s == symbol then Volume(ts) else 0
    ensures NetTraded(Prints(symbol, side, ts), s)
      == if s != symbol then 0 else if side == Buy then Volume(ts) else -Volume(ts)
  {
    if ts != [] {
      assert Prints(symbol, side, ts)[1..] == Prints(symbol, side, ts[1..]);
      PrintsVolume(symbol, side, ts[1..], s);
    }
  }

  /** What a fresh order was filled with is what its call traded. */
  lemma FillIsVolume(b: Book, o: Order)
    requires WellFormed(b) && b.pending == [] && o.filled == 0
    ensures var (b', r) := Submit(b, o);
      && r.filled == Volume(b'.pending) && r.symbol == o.symbol && r.side == o.side
      && r.quantity == o.quantity && r.price == o.price
      && 0 <= r.filled && (o.quantity >= 0 ==> r.filled <= o.quantity)
  {
    var q := b.Queue(o.side.Opposite());
    GreedyFills(o, q, b.nextTrade);
    GreedyStops(o, q, b.nextTrade);
    VolumeNonNegative(o, q, b.nextTrade);
    assert [] + Greedy(o, q, b.nextTrade).trades == Greedy(o, q, b.nextTrade).trades;
  }

  /** Submitting under the next id keeps the book well formed and all ids below the next. */
  lemma SubmitReady(b: Book, o: Order)
    requires WellFormed(b) && IdsBelow(b, o.id)
    ensures WellFormed(Submit(b, o).0) && IdsBelow(Submit(b, o).0, o.id + 1)
  {
    SubmitKeeps(b, o);
    MatchKeeps(b, o);
    var (b', r) := MatchIncoming(b, o);
    forall id | b'.Rests(id) ensures id < o.id {
      assert b.Rests(id);
    }
    MatchedIdsBelow(b', o.id);
    if Stays(r) {
      ResidueDoesNotCross(b, o);
      var q' := Submit(b, o).0.Queue(o.side);
      forall i | 0 <= i < |q'| ensures q'[i].id < o.id + 1 {
        InsertContents(o.side, b'.Queue(o.side), Rested(r), q'[i]);
      }
    }
  }

  lemma MatchedIdsBelow(b: Book, id: int)
    requires forall x :: b.Rests(x) ==> x < id
    ensures IdsBelow(b, id)
  {
    forall i | 0 <= i < |b.bids| ensures b.bids[i].id < id {
      assert b.Rests(b.bids[i].id);
    }
    forall i | 0 <= i < |b.asks| ensures b.asks[i].id < id {
      assert b.Rests(b.asks[i].id);
    }
  }

  lemma DrainReady(b: Book, id: int)
    requires WellFormed(b) && IdsBelow(b, id)
    ensures WellFormed(Drain(b).0) && IdsBelow(Drain(b).0, id)
  {
  }

  lemma AcceptKeeps(env: Environment, p: Pipe, risk: Engine, o: Order, mid: real)
    requires BookReady(p, o.id) && o.filled == 0
    requires p.stats.created == p.stats.accepted + p.stats.rejected + 1
    requires p.pushed + p.stats.dropped == p.stats.accepted + p.stats.rejected + p.stats.trades
    requires |p.tape| == p.stats.trades
    requires risk.positions == p.risk.positions
    requires forall s :: p.risk.At(s).gross == Traded(p.tape, s) && p.risk.At(s).net == NetTraded(p.tape, s)
    ensures Balanced(Accept(env, p, risk, o, mid)) && BookReady(Accept(env, p, risk, o, mid), o.id + 1)
  {
    hide Submit, WellFormed, Traded, NetTraded, Emit, EmitTrades, IdsBelow;
    var (book, r) := Submit(p.book, o);
    var (book', ts) := Drain(book);
    SubmitReady(p.book, o);
    DrainReady(book, o.id + 1);
    FillIsVolume(p.book, o);
    var p0 := p.(book := book', risk := risk, stats := p.stats.(accepted := p.stats.accepted + 1));
    EmitCounts(env, p0);
    EmitTradesCounts(env, Emit(env, p0), |ts|);
    var last := Accept(env, p, risk, o, mid);
    forall s ensures last.risk.At(s).gross == Traded(last.tape, s) && last.risk.At(s).net == NetTraded(last.tape, s) {
      TradedConcat(p.tape, Prints(o.symbol, o.side, ts), s);
      PrintsVolume(o.symbol, o.side, ts, s);
    }
  }

  lemma HandleKeeps(env: Environment, p: Pipe, o: Order)
    requires Balanced(p) && BookReady(p, o.id) && o.filled == 0
    ensures Balanced(Handle(env, p, o)) && BookReady(Handle(env, p, o), o.id + 1)
    ensures Handle(env, p, o).stats.created == p.stats.created + 1
    ensures Handle(env, p, o).stats.messages == p.stats.messages && Handle(env, p, o).nextId == p.nextId
  {
    hide Accept, Passes, Emit, MidPrice, Traded, NetTraded, WellFormed;
    var mid := MidPrice(p.book);
    var (risk, ok) := Validate(env.rnd, p.risk, o, mid, env.clock(p.stats.created));
    var p' := p.(stats := p.stats.(created := p.stats.created + 1));
    if ok {
      AcceptKeeps(env, p', risk, o, mid);
      AcceptFrame(env, p', risk, o, mid);
    } else {
      EmitCounts(env, p'.(risk := risk, stats := p'.stats.(rejected := p'.stats.rejected + 1)));
    }
  }

  lemma AcceptFrame(env: Environment, p: Pipe, risk: Engine, o: Order, mid: real)
    ensures var q := Accept(env, p, risk, o, mid);
      && q.stats.created == p.stats.created && q.stats.messages == p.stats.messages && q.nextId == p.nextId
  {
    var (book, r) := Submit(p.book, o);
    var p0 := p.(book := Drain(book).0, risk := risk, stats := p.stats.(accepted := p.stats.accepted + 1));
    EmitCounts(env, p0);
    EmitTradesCounts(env, Emit(env, p0), |Drain(book).1|);
  }

  ghost predicate Accounts(p: Pipe) {
    Balanced(p) && BookReady(p, p.nextId) && p.stats.created == 2 * p.stats.messages
  }

  lemma ProcessKeeps(env: Environment, p: Pipe, m: Message)
    requires Accounts(p)
    ensures Accounts(Process(env, p, m))
  {
    hide Handle, WellFormed, Traded, NetTraded;
    var p0 := p.(stats := p.stats.(messages := p.stats.messages + 1), nextId := p.nextId + 2);
    HandleKeeps(env, p0, NewOrder(env.rnd, m, Buy, p.nextId));
    HandleKeeps(env, Handle(env, p0, NewOrder(env.rnd, m, Buy, p.nextId)), NewOrder(env.rnd, m, Sell, p.nextId + 1));
  }

  lemma InitAccounts(limits: Limits)
    ensures Accounts(Init(limits))
  {
  }

  lemma {:induction false} RunKeeps(env: Environment, p: Pipe, ms: seq<Message>)
    requires Accounts(p)
    ensures Accounts(Run(env, p, ms))
    decreases |ms|
  {
    if ms != [] {
      ProcessKeeps(env, p, ms[0]);
      RunKeeps(env, Process(env, p, ms[0]), ms[1..]);
    }
  }

  /** Over any messages, clock and event supply: every message makes two orders, each accepted
      or rejected; every order and trade is pushed to the I/O thread or counted as dropped; and
      the exposure and position booked for a symbol are the gross and the signed quantity of
      all trades its orders caused. */
  lemma EveryRun(env: Environment, limits: Limits, ms: seq<Message>, symbol: string)
    ensures var p := Run(env, Init(limits), ms);
      && p.stats.created == 2 * p.stats.messages == p.stats.accepted + p.stats.rejected
      && p.pushed + p.stats.dropped == p.stats.accepted + p.stats.rejected + p.stats.trades
      && |p.tape| == p.stats.trades
      && p.risk.At(symbol).gross == Traded(p.tape, symbol)
      && p.risk.At(symbol).net == NetTraded(p.tape, symbol)
  {
    InitAccounts(limits);
    RunKeeps(env, Init(limits), ms);
  }

  // ----- limits -----

  /** Without rounding, the two orders of a message, a buy and a sell for 100 each, lie inside
      the spread, a tenth of it below and above the mid. */
  lemma QuotesInsideSpread(rnd: Rounding, m: Message, id: int)
    requires Exact(rnd) && m.bid < m.ask
    ensures var buy, sell := NewOrder(rnd, m, Buy, id), NewOrder(rnd, m, Sell, id + 1);
      && buy.side == Buy && sell.side == Sell && buy.quantity == sell.quantity == 100
      && buy.kind == sell.kind == Limit && buy.filled == sell.filled == 0
      && m.bid < buy.price < (m.bid + m.ask) / 2.0 < sell.price < m.ask
      && (m.bid + m.ask) / 2.0 - buy.price == (m.ask - m.bid) / 10.0 == sell.price - (m.bid + m.ask) / 2.0
  {
  }

  lemma ProductOfSigns(x: real, y: real)
    requires x >= 0.0 && y >= 0.0
    ensures Scale(x, y) >= 0.0
  {
  }

  lemma RoundUp(rnd: Rounding, x: real)
    requires Monotone(rnd) && x >= 0.0
    ensures rnd(x) >= 0.0
  {
    assert rnd(0.0) <= rnd(x);
  }

  /** Under any monotone rounding, the two quotes of a market that is not crossed are not
      crossed either. */
  lemma QuotesNotCrossed(rnd: Rounding, m: Message)
    requires Monotone(rnd) && m.bid <= m.ask
    ensures Quote(rnd, m, Buy) <= Quote(rnd, m, Sell)
  {
    hide Scale, Monotone;
    var step := Scale(rnd(m.ask - m.bid), rnd(0.1));
    RoundUp(rnd, m.ask - m.bid);
    RoundUp(rnd, 0.1);
    ProductOfSigns(rnd(m.ask - m.bid), rnd(0.1));
    RoundUp(rnd, step);
    RoundLater(rnd, rnd(rnd(m.bid + m.ask) / 2.0), rnd(step));
  }

  lemma RoundLater(rnd: Rounding, mid: real, away: real)
    requires Monotone(rnd) && away >= 0.0
    ensures rnd(mid - away) <= rnd(mid + away)
  {
  }

  lemma ScaledBetween(x: real, t: real, bound: real)
    requires 0.0 <= t <= 0.101 && -bound <= x <= bound
    ensures -0.101 * bound <= Scale(x, t) <= 0.101 * bound
  {
    ProductOfSigns(bound - x, t);
    ProductOfSigns(bound + x, t);
    ProductOfSigns(bound, 0.101 - t);
  }

  /** One rounding, in linear terms. */
  lemma RoundNear(rnd: Rounding, x: real, bound: real)
    requires Accurate(rnd) && -bound <= x <= bound
    ensures -1.01 * bound <= rnd(x) <= 1.01 * bound
    ensures x > 0.0 ==> rnd(x) >= 0.99 * x > 0.0
  {
  }

  /** Positive market prices give positive quotes if the rounding is accurate. */
  lemma QuotePositive(rnd: Rounding, m: Message, side: Side)
    requires Accurate(rnd) && m.bid > 0.0 && m.ask > 0.0
    ensures Quote(rnd, m, side) > 0.0
  {
    hide Accurate, Scale;
    var sum, spread, tenth := m.bid + m.ask, rnd(m.ask - m.bid), rnd(0.1);
    RoundNear(rnd, sum, sum);
    RoundNear(rnd, rnd(sum) / 2.0, rnd(sum) / 2.0);
    RoundNear(rnd, m.ask - m.bid, sum);
    RoundNear(rnd, 0.1, 0.1);
    ScaledBetween(spread, tenth, 1.01 * sum);
    var step := Scale(spread, tenth);
    RoundNear(rnd, step, 0.11 * sum);
    var mid, away := rnd(rnd(sum) / 2.0), rnd(step);
    RoundNear(rnd, mid - away, 2.0 * sum);
    RoundNear(rnd, mid + away, 2.0 * sum);
  }

  lemma HandleWithin(env: Environment, p: Pipe, o: Order)
    requires Monotone(env.rnd) && Within(p.risk) && WellFormed(p.book) && p.book.pending == []
    requires o.filled == 0 && o.price > 0.0
    ensures Within(Handle(env, p, o).risk) && Handle(env, p, o).risk.limits == p.risk.limits
  {
    hide Accept, Emit, MidPrice, Submit, WellFormed;
    var mid := MidPrice(p.book);
    var now := env.clock(p.stats.created);
    var (risk, ok) := Validate(env.rnd, p.risk, o, mid, now);
    var p' := p.(stats := p.stats.(created := p.stats.created + 1));
    if ok {
      FillIsVolume(p.book, o);
      var (book, r) := Submit(p.book, o);
      AcceptRisk(env, p', risk, o, mid);
      ApplyKeepsLimits(env.rnd, p.risk, Check(o, mid, now, r.filled, o.price));
    } else {
      EmitCounts(env, p'.(risk := risk, stats := p'.stats.(rejected := p'.stats.rejected + 1)));
    }
  }

  lemma AcceptRisk(env: Environment, p: Pipe, risk: Engine, o: Order, mid: real)
    requires WellFormed(p.book) && p.book.pending == [] && o.filled == 0
    ensures var r := Submit(p.book, o).1;
      Accept(env, p, risk, o, mid).risk
        == if r.filled > 0 then Executed(env.rnd, risk, o, r.filled, if o.price > 0.0 then o.price else mid) else risk
  {
    hide Submit, WellFormed, Accept;
    FillIsVolume(p.book, o);
    AcceptOutcome(env, p, risk, o, mid);
  }

  /** Reporting touches neither book nor risk engine. */
  lemma AcceptOutcome(env: Environment, p: Pipe, risk: Engine, o: Order, mid: real)
    ensures var (book, r) := Submit(p.book, o); var p' := Accept(env, p, risk, o, mid);
      && p'.book == Drain(book).0
      && p'.risk == if r.filled > 0 then Executed(env.rnd, risk, r, r.filled, if r.price > 0.0 then r.price else mid)
                    else risk
  {
    hide Submit, Emit, EmitTrades;
    var (book, r) := Submit(p.book, o);
    var p0 := p.(book := Drain(book).0, risk := risk, stats := p.stats.(accepted := p.stats.accepted + 1));
    EmitCounts(env, p0);
    EmitTradesCounts(env, Emit(env, p0), |Drain(book).1|);
  }

  lemma ProcessWithin(env: Environment, p: Pipe, m: Message)
    requires Monotone(env.rnd) && Within(p.risk) && Accounts(p)
    requires Quote(env.rnd, m, Buy) > 0.0 && Quote(env.rnd, m, Sell) > 0.0
    ensures Within(Process(env, p, m).risk) && Process(env, p, m).risk.limits == p.risk.limits
  {
    hide Handle, WellFormed, Traded, NetTraded, Within, Quote;
    var p0 := p.(stats := p.stats.(messages := p.stats.messages + 1), nextId := p.nextId + 2);
    var buy, sell := NewOrder(env.rnd, m, Buy, p.nextId), NewOrder(env.rnd, m, Sell, p.nextId + 1);
    HandleWithin(env, p0, buy);
    HandleKeeps(env, p0, buy);
    HandleWithin(env, Handle(env, p0, buy), sell);
  }

  predicate PositivePrices(ms: seq<Message>) {
    forall i :: 0 <= i < |ms| ==> ms[i].bid > 0.0 && ms[i].ask > 0.0
  }

  predicate PositiveQuotes(rnd: Rounding, ms: seq<Message>) {
    forall i :: 0 <= i < |ms| ==> Quote(rnd, ms[i], Buy) > 0.0 && Quote(rnd, ms[i], Sell) > 0.0
  }

  lemma PricesGiveQuotes(rnd: Rounding, ms: seq<Message>)
    requires Accurate(rnd) && PositivePrices(ms)
    ensures PositiveQuotes(rnd, ms)
  {
    forall i | 0 <= i < |ms| ensures Quote(rnd, ms[i], Buy) > 0.0 && Quote(rnd, ms[i], Sell) > 0.0 {
      QuotePositive(rnd, ms[i], Buy);
      QuotePositive(rnd, ms[i], Sell);
    }
  }

  /** With positive quotes, every run of the pipeline keeps every risk limit. */
  lemma {:induction false} LimitsHold(env: Environment, p: Pipe, ms: seq<Message>)
    requires Monotone(env.rnd) && Within(p.risk) && Accounts(p)
    requires PositiveQuotes(env.rnd, ms)
    ensures Within(Run(env, p, ms).risk) && Run(env, p, ms).risk.limits == p.risk.limits
    decreases |ms|
  {
    if ms != [] {
      ProcessWithin(env, p, ms[0]);
      ProcessKeeps(env, p, ms[0]);
      LimitsHold(env, Process(env, p, ms[0]), ms[1..]);
    }
  }

  /** Positive market prices are enough if the rounding is accurate. */
  lemma PositiveMarketsKeepLimits(env: Environment, p: Pipe, ms: seq<Message>)
    requires Monotone(env.rnd) && Accurate(env.rnd) && Within(p.risk) && Accounts(p) && PositivePrices(ms)
    ensures Within(Run(env, p, ms).risk) && Run(env, p, ms).risk.limits == p.risk.limits
  {
    PricesGiveQuotes(env.rnd, ms);
    LimitsHold(env, p, ms);
  }

  /** At both orders of every message, the 32-bit sums of the checks and of the booking fit. */
  ghost predicate SumsFitThroughout(env: Environment, p: Pipe, ms: seq<Message>)
    decreases |ms|
  {
    ms == [] ||
    var p0 := p.(stats := p.stats.(messages := p.stats.messages + 1), nextId := p.nextId + 2);
    var buy, sell := NewOrder(env.rnd, ms[0], Buy, p.nextId), NewOrder(env.rnd, ms[0], Sell, p.nextId + 1);
    var p1 := Handle(env, p0, buy);
    && OrderSumsFit(p0.risk, buy, Submit(p0.book, buy).1.filled)
    && OrderSumsFit(p1.risk, sell, Submit(p1.book, sell).1.filled)
    && SumsFitThroughout(env, Process(env, p, ms[0]), ms[1..])
  }

  /** With limits that leave room for one order, no 32-bit sum of any run overflows. */
  lemma {:induction false} NeverOverflows(env: Environment, p: Pipe, ms: seq<Message>)
    requires Monotone(env.rnd) && Within(p.risk) && Accounts(p) && RoomInInt32(p.risk.limits)
    requires PositiveQuotes(env.rnd, ms)
    ensures SumsFitThroughout(env, p, ms)
    decreases |ms|
  {
    hide Handle, WellFormed, Traded, NetTraded, Within, Quote, Submit, OrderSumsFit;
    if ms != [] {
      var p0 := p.(stats := p.stats.(messages := p.stats.messages + 1), nextId := p.nextId + 2);
      var buy, sell := NewOrder(env.rnd, ms[0], Buy, p.nextId), NewOrder(env.rnd, ms[0], Sell, p.nextId + 1);
      HandleWithin(env, p0, buy);
      HandleKeeps(env, p0, buy);
      var p1 := Handle(env, p0, buy);
      FillIsVolume(p0.book, buy);
      NoOverflow(p0.risk, buy, Submit(p0.book, buy).1.filled);
      FillIsVolume(p1.book, sell);
      NoOverflow(p1.risk, sell, Submit(p1.book, sell).1.filled);
      ProcessWithin(env, p, ms[0]);
      ProcessKeeps(env, p, ms[0]);
      NeverOverflows(env, Process(env, p, ms[0]), ms[1..]);
    }
  }
}

/** The hot path as an object, driving the order book and the risk engine. */
module HotPath {
  import opened Orders
  import opened BookSpec
  import opened RiskSpec
  import opened PipelineSpec
  import opened MatchingEngine
  import opened RiskControl

  class EventPipeline {
    const env: Environment
    const book: OrderBook
    const risk: RiskEngine
    var stats: Stats
    var nextOrderId: int
    var pushed: nat
    ghost var tape: seq<Print>

    ghost predicate Valid()
      reads this, book, risk
    {
      book.Valid() && risk.rnd == env.rnd && IdsBelow(book.Abs(), nextOrderId)
    }

    ghost function Abs(): Pipe
      reads this, book, risk
    {
      Pipe(book.Abs(), risk.Abs(), stats, nextOrderId, pushed, tape)
    }

    constructor (env: Environment, symbol: string, limits: Limits)
      ensures Valid() && fresh(book) && fresh(risk)
      ensures Abs() == PipelineSpec.Init(limits)
    {
      this.env := env;
      book := new OrderBook(symbol);
      risk := new RiskEngine(env.rnd, limits);
      stats, nextOrderId, pushed, tape := Stats(0, 0, 0, 0, 0, 0), 1, 0, [];
    }

    /** Two quotes around the mid, written into the caller's array. */
    method StrategyOnMarketData(m: Message, orders: array<Order>) returns (count: nat)
      requires orders.Length == 2
      modifies this`nextOrderId, orders
      ensures count == 2 && nextOrderId == old(nextOrderId) + 2
      ensures orders[0] == NewOrder(env.rnd, m, Buy, old(nextOrderId))
      ensures orders[1] == NewOrder(env.rnd, m, Sell, old(nextOrderId) + 1)
    {
      hide Scale;
      var mid, spread := env.rnd(env.rnd(m.bid + m.ask) / 2.0), env.rnd(m.ask - m.bid);
      var away := env.rnd(Scale(spread, env.rnd(0.1)));
      var bid, ask := env.rnd(mid - away), env.rnd(mid + away);
      assert bid == Quote(env.rnd, m, Buy) && ask == Quote(env.rnd, m, Sell);
      orders[0] := Order(nextOrderId, 1, bid, 100, 0, m.timestamp, Buy, Limit, New, m.symbol);
      nextOrderId := nextOrderId + 1;
      orders[1] := Order(nextOrderId, 1, ask, 100, 0, m.timestamp, Sell, Limit, New, m.symbol);
      nextOrderId := nextOrderId + 1;
      count := 2;
    }

    /** Take a free event, fill it and hand it on; without one, count the loss. */
    method EmitEvent()
      modifies this`pushed, this`stats
      ensures Abs() == Emit(env, old(Abs()))
    {
      if env.freeEvent(pushed + stats.dropped) {
        pushed := pushed + 1;
      } else {
        stats := stats.(dropped := stats.dropped + 1);
      }
    }

    method EmitTradeEvents(trades: seq<Trade>)
      modifies this`pushed, this`stats
      ensures Abs() == EmitTrades(env, old(Abs()), |trades|)
    {
      hide Emit, OrderBook.Abs, RiskEngine.Abs;
      var i := 0;
      while i < |trades|
        invariant i <= |trades|
        invariant Abs() == EmitTrades(env, old(Abs()), i)
      {
        stats := stats.(trades := stats.trades + 1);
        EmitEvent();
        i := i + 1;
      }
    }

    /** Validate, match, report and book one order. */
    method HandleOrder(o: Order)
      requires book.Valid() && risk.rnd == env.rnd && IdsBelow(book.Abs(), o.id)
      requires book.Abs().pending == []
      modifies this`stats, this`pushed, this`tape, book, risk
      ensures book.Valid() && book.Abs().pending == [] && IdsBelow(book.Abs(), o.id + 1)
      ensures Abs() == Handle(env, old(Abs()), o)
    {
      hide IdsBelow, Passes, MidPrice, Accept, WellFormed;
      hide OrderBook.Valid, OrderBook.Abs, RiskEngine.Abs;
      var now := env.clock(stats.created);
      stats := stats.(created := stats.created + 1);
      var mid := book.GetMidPrice();
      var ok := risk.Validate(o, mid, now);
      if !ok {
        stats := stats.(rejected := stats.rejected + 1);
        EmitEvent();
        IdsBelowWeaken(book.Abs(), o.id);
        return;
      }
      AcceptSetsRisk(env, Abs(), old(risk.Abs()), risk.Abs(), o, mid);
      AcceptOrder(o, mid);
    }

    method AcceptOrder(o: Order, mid: real)
      requires book.Valid() && risk.rnd == env.rnd && IdsBelow(book.Abs(), o.id) && book.Abs().pending == []
      modifies this`stats, this`pushed, this`tape, book, risk
      ensures book.Valid() && book.Abs().pending == [] && IdsBelow(book.Abs(), o.id + 1)
      ensures Abs() == Accept(env, old(Abs()), old(risk.Abs()), o, mid)
    {
      hide IdsBelow, Submit, Executed, EmitTrades, WellFormed, OrderBook.Valid, OrderBook.Abs, RiskEngine.Abs;
      stats := stats.(accepted := stats.accepted + 1);
      BookWellFormed(book);
      FreshId(book.Abs(), o.id);
      SubmitReady(book.Abs(), o);
      var r := book.AddOrder(o);
      EmitEvent();
      BookWellFormed(book);
      DrainReady(book.Abs(), o.id + 1);
      var trades := book.DrainTrades();
      EmitTradeEvents(trades);
      tape := tape + Prints(o.symbol, o.side, trades);
      if r.filled > 0 {
        risk.OnOrderExecuted(r, r.filled, if r.price > 0.0 then r.price else mid);
      }
    }

    method ProcessMarketData(m: Message)
      requires Valid() && book.Abs().pending == []
      modifies this`stats, this`nextOrderId, this`pushed, this`tape, book, risk
      ensures Valid() && book.Abs().pending == []
      ensures Abs() == Process(env, old(Abs()), m)
    {
      hide Handle, IdsBelow, OrderBook.Valid, OrderBook.Abs, RiskEngine.Abs;
      stats := stats.(messages := stats.messages + 1);
      var orders := new Order[2](_ => EMPTY_ORDER);
      ghost var first := nextOrderId;
      var count := StrategyOnMarketData(m, orders);
      ghost var p0 := Abs();
      var buy, sell := NewOrder(env.rnd, m, Buy, first), NewOrder(env.rnd, m, Sell, first + 1);
      var i := 0;
      while i < count
        invariant 0 <= i <= 2 && orders[0] == buy && orders[1] == sell
        invariant nextOrderId == first + 2
        invariant book.Valid() && book.Abs().pending == [] && IdsBelow(book.Abs(), first + i)
        invariant Abs() == if i == 0 then p0 else if i == 1 then Handle(env, p0, buy)
                           else Handle(env, Handle(env, p0, buy), sell)
      {
        HandleOrder(orders[i]);
        i := i + 1;
      }
    }

    /** A whole session on the object, with the accounting it keeps and, for positive quotes,
        the limits. */
    method ProcessAll(ms: seq<Message>)
      requires Valid() && Accounts(Abs())
      modifies this`stats, this`nextOrderId, this`pushed, this`tape, book, risk
      ensures Valid() && Accounts(Abs())
      ensures Abs() == PipelineSpec.Run(env, old(Abs()), ms)
      ensures Monotone(env.rnd) && Within(old(Abs()).risk) && PositiveQuotes(env.rnd, ms) ==> Within(Abs().risk)
    {
      hide Process, Balanced, WellFormed, Within, Monotone, OrderBook.Valid, OrderBook.Abs, RiskEngine.Abs;
      if Monotone(env.rnd) && Within(Abs().risk) && PositiveQuotes(env.rnd, ms) {
        LimitsHold(env, Abs(), ms);
      }
      var i := 0;
      while i < |ms|
        invariant i <= |ms| && Valid() && Accounts(Abs())
        invariant PipelineSpec.Run(env, old(Abs()), ms) == PipelineSpec.Run(env, Abs(), ms[i..])
      {
        ProcessKeeps(env, Abs(), ms[i]);
        assert ms[i..][1..] == ms[i+1..];
        ProcessMarketData(ms[i]);
        i := i + 1;
      }
      assert ms[|ms|..] == [];
    }
  }

  lemma BookWellFormed(book: OrderBook)
    requires book.Valid()
    ensures WellFormed(book.Abs())
  {
  }

  lemma IdsBelowWeaken(b: Book, id: int)
    requires IdsBelow(b, id)
    ensures IdsBelow(b, id + 1)
  {
  }

  lemma FreshId(b: Book, id: int)
    requires IdsBelow(b, id)
    ensures !b.Rests(id)
  {
  }
}
