/** What happens to each order of a pipeline run, and what the counters and records make of it. */
module PipelineLaws {
  import opened Orders
  import opened BookSpec
  import opened RiskSpec
  import opened RiskLaws
  import opened PipelineSpec

  /** One handled order: the mid it was checked against, the decision, and its fill. */
  datatype Outcome = Outcome(order: Order, mid: real, accepted: bool, fill: int)

  function OutcomeOf(env: Environment, p: Pipe, o: Order): Outcome {
    var mid := MidPrice(p.book);
    var ok := Validate(env.rnd, p.risk, o, mid, env.clock(p.stats.created)).1;
    Outcome(o, mid, ok, if ok then Submit(p.book, o).1.filled else 0)
  }

  /** Both orders of every message, in turn. */
  function Outcomes(env: Environment, p: Pipe, ms: seq<Message>): seq<Outcome>
    decreases |ms|
  {
    if ms == [] then []
    else
      var p0 := p.(stats := p.stats.(messages := p.stats.messages + 1), nextId := p.nextId + 2);
      var buy, sell := NewOrder(env.rnd, ms[0], Buy, p.nextId), NewOrder(env.rnd, ms[0], Sell, p.nextId + 1);
      [OutcomeOf(env, p0, buy), OutcomeOf(env, Handle(env, p0, buy), sell)]
      + Outcomes(env, Process(env, p, ms[0]), ms[1..])
  }

  function AcceptedIn(os: seq<Outcome>): nat {
    if os == [] then 0 else (if os[0].accepted then 1 else 0) + AcceptedIn(os[1..])
  }

  /** Limit price times filled quantity, over the accepted orders of one symbol. */
  function ValueIn(os: seq<Outcome>, symbol: string): real {
    if os == [] then 0.0
    else
      (if os[0].accepted && os[0].order.symbol == symbol then os[0].order.price * os[0].fill as real else 0.0)
      + ValueIn(os[1..], symbol)
  }

  lemma {:induction false} CountConcat(a: seq<Outcome>, b: seq<Outcome>, symbol: string)
    ensures AcceptedIn(a + b) == AcceptedIn(a) + AcceptedIn(b)
    ensures ValueIn(a + b, symbol) == ValueIn(a, symbol) + ValueIn(b, symbol)
  {
    if a == [] {
      assert a + b == b;
    } else {
      assert (a + b)[1..] == a[1..] + b;
      CountConcat(a[1..], b, symbol);
    }
  }

  // ----- one order -----

  /** An order that passes is counted as accepted; one that does not is counted as rejected and
      leaves book, positions and tape alone. */
  lemma HandleDecides(env: Environment, p: Pipe, o: Order)
    requires BookReady(p, o.id) && o.filled == 0
    ensures var p' := Handle(env, p, o); var outcome := OutcomeOf(env, p, o);
      && p'.stats.created == p.stats.created + 1
      && p'.stats.accepted == p.stats.accepted + (if outcome.accepted then 1 else 0)
      && p'.stats.rejected == p.stats.rejected + (if outcome.accepted then 0 else 1)
      && (!outcome.accepted ==>
            p'.book == p.book && p'.risk.positions == p.risk.positions && p'.tape == p.tape
            && p'.stats.trades == p.stats.trades)
  {
    hide Passes, MidPrice, Emit, EmitTrades, Submit, WellFormed;
    var mid := MidPrice(p.book);
    var (risk, ok) := Validate(env.rnd, p.risk, o, mid, env.clock(p.stats.created));
    var p' := p.(stats := p.stats.(created := p.stats.created + 1));
    if ok {
      var book := Submit(p.book, o).0;
      var p0 := p'.(book := Drain(book).0, risk := risk, stats := p'.stats.(accepted := p'.stats.accepted + 1));
      EmitCounts(env, p0);
      EmitTradesCounts(env, Emit(env, p0), |Drain(book).1|);
    } else {
      EmitCounts(env, p'.(risk := risk, stats := p'.stats.(rejected := p'.stats.rejected + 1)));
    }
  }

  /** Without rounding, handling an order at a positive price adds its price times its fill to
      the notional record of its symbol, and nothing to any other. */
  lemma HandleBooks(env: Environment, p: Pipe, o: Order, symbol: string)
    requires Exact(env.rnd) && BookReady(p, o.id) && o.filled == 0 && o.price > 0.0
    ensures Handle(env, p, o).risk.At(symbol).notional
      == p.risk.At(symbol).notional + ValueIn([OutcomeOf(env, p, o)], symbol)
  {
    hide Passes, MidPrice, Emit, Accept, Submit, WellFormed;
    var mid := MidPrice(p.book);
    var (risk, ok) := Validate(env.rnd, p.risk, o, mid, env.clock(p.stats.created));
    var p' := p.(stats := p.stats.(created := p.stats.created + 1));
    var fill := Submit(p.book, o).1.filled;
    assert [OutcomeOf(env, p, o)][1..] == [];
    assert risk.At(symbol) == p.risk.At(symbol);
    ValueIs(o.price, fill);
    hide Value;
    if ok {
      FillIsVolume(p.book, o);
      AcceptRisk(env, p', risk, o, mid);
    } else {
      EmitCounts(env, p'.(risk := risk, stats := p'.stats.(rejected := p'.stats.rejected + 1)));
    }
  }

  lemma ReadyLater(env: Environment, p: Pipe, o: Order)
    requires Balanced(p) && BookReady(p, o.id) && o.filled == 0
    ensures Balanced(Handle(env, p, o)) && BookReady(Handle(env, p, o), o.id + 1)
  {
    HandleKeeps(env, p, o);
  }

  // ----- one message -----

  lemma ProcessDecides(env: Environment, p: Pipe, m: Message)
    requires Accounts(p)
    ensures var p' := Process(env, p, m); var os := Outcomes(env, p, [m]);
      && |os| == 2
      && p'.stats.accepted == p.stats.accepted + AcceptedIn(os)
      && p'.stats.rejected == p.stats.rejected + 2 - AcceptedIn(os)
  {
    hide Handle, WellFormed, Traded, NetTraded, OutcomeOf, Quote;
    var p0 := p.(stats := p.stats.(messages := p.stats.messages + 1), nextId := p.nextId + 2);
    var buy, sell := NewOrder(env.rnd, m, Buy, p.nextId), NewOrder(env.rnd, m, Sell, p.nextId + 1);
    HandleDecides(env, p0, buy);
    ReadyLater(env, p0, buy);
    HandleDecides(env, Handle(env, p0, buy), sell);
    TwoOutcomes(env, p, m);
    CountConcat([OutcomeOf(env, p0, buy)], [OutcomeOf(env, Handle(env, p0, buy), sell)], "");
    assert [OutcomeOf(env, p0, buy)][1..] == [] && [OutcomeOf(env, Handle(env, p0, buy), sell)][1..] == [];
  }

  lemma TwoOutcomes(env: Environment, p: Pipe, m: Message)
    ensures
      var p0 := p.(stats := p.stats.(messages := p.stats.messages + 1), nextId := p.nextId + 2);
      var buy, sell := NewOrder(env.rnd, m, Buy, p.nextId), NewOrder(env.rnd, m, Sell, p.nextId + 1);
      Outcomes(env, p, [m]) == [OutcomeOf(env, p0, buy)] + [OutcomeOf(env, Handle(env, p0, buy), sell)]
  {
    hide Handle, OutcomeOf, NewOrder, Process;
    assert [m][1..] == [];
    assert Outcomes(env, Process(env, p, m), []) == [];
  }

  lemma ProcessBooks(env: Environment, p: Pipe, m: Message, symbol: string)
    requires Exact(env.rnd) && Accounts(p) && Quote(env.rnd, m, Buy) > 0.0 && Quote(env.rnd, m, Sell) > 0.0
    ensures Process(env, p, m).risk.At(symbol).notional
      == p.risk.At(symbol).notional + ValueIn(Outcomes(env, p, [m]), symbol)
  {
    hide Handle, WellFormed, Traded, NetTraded, OutcomeOf, Quote, ValueIn;
    var p0 := p.(stats := p.stats.(messages := p.stats.messages + 1), nextId := p.nextId + 2);
    var buy, sell := NewOrder(env.rnd, m, Buy, p.nextId), NewOrder(env.rnd, m, Sell, p.nextId + 1);
    HandleBooks(env, p0, buy, symbol);
    ReadyLater(env, p0, buy);
    HandleBooks(env, Handle(env, p0, buy), sell, symbol);
    TwoOutcomes(env, p, m);
    CountConcat([OutcomeOf(env, p0, buy)], [OutcomeOf(env, Handle(env, p0, buy), sell)], symbol);
  }

  lemma OutcomesStep(env: Environment, p: Pipe, ms: seq<Message>)
    requires ms != []
    ensures Outcomes(env, p, ms) == Outcomes(env, p, [ms[0]]) + Outcomes(env, Process(env, p, ms[0]), ms[1..])
  {
    hide Handle, OutcomeOf, NewOrder, Process;
    assert [ms[0]][1..] == [];
    assert Outcomes(env, Process(env, p, ms[0]), []) == [];
  }

  // ----- every run -----

  /** Over every run, the accepted counter counts exactly the orders that passed the checks in
      the state they met, and the rejected counter all others. */
  lemma {:induction false} RunDecides(env: Environment, p: Pipe, ms: seq<Message>)
    requires Accounts(p)
    ensures var p' := Run(env, p, ms); var os := Outcomes(env, p, ms);
      && |os| == 2 * |ms|
      && p'.stats.accepted == p.stats.accepted + AcceptedIn(os)
      && p'.stats.rejected == p.stats.rejected + 2 * |ms| - AcceptedIn(os)
    decreases |ms|
  {
    hide Process, Accounts;
    if ms != [] {
      ProcessKeeps(env, p, ms[0]);
      ProcessDecides(env, p, ms[0]);
      OutcomesStep(env, p, ms);
      CountConcat(Outcomes(env, p, [ms[0]]), Outcomes(env, Process(env, p, ms[0]), ms[1..]), "");
      RunDecides(env, Process(env, p, ms[0]), ms[1..]);
    }
  }

  /** Over every run with positive quotes, without rounding, the notional record of a symbol
      is the sum of limit price times filled quantity over its accepted orders of both sides. */
  lemma {:induction false} RunBooks(env: Environment, p: Pipe, ms: seq<Message>, symbol: string)
    requires Exact(env.rnd) && Accounts(p) && PositiveQuotes(env.rnd, ms)
    ensures Run(env, p, ms).risk.At(symbol).notional
      == p.risk.At(symbol).notional + ValueIn(Outcomes(env, p, ms), symbol)
    decreases |ms|
  {
    hide Process, Accounts, Quote;
    if ms != [] {
      ProcessKeeps(env, p, ms[0]);
      ProcessBooks(env, p, ms[0], symbol);
      OutcomesStep(env, p, ms);
      CountConcat(Outcomes(env, p, [ms[0]]), Outcomes(env, Process(env, p, ms[0]), ms[1..]), symbol);
      RunBooks(env, Process(env, p, ms[0]), ms[1..], symbol);
    }
  }

  // ----- the risk engine's view -----

  /** A handled order as a call of the risk engine. */
  function CallOf(env: Environment, p: Pipe, o: Order): Call {
    var mid := MidPrice(p.book);
    Check(o, mid, env.clock(p.stats.created), Submit(p.book, o).1.filled, if o.price > 0.0 then o.price else mid)
  }

  function Calls(env: Environment, p: Pipe, ms: seq<Message>): seq<Call>
    decreases |ms|
  {
    if ms == [] then []
    else
      var p0 := p.(stats := p.stats.(messages := p.stats.messages + 1), nextId := p.nextId + 2);
      var buy, sell := NewOrder(env.rnd, ms[0], Buy, p.nextId), NewOrder(env.rnd, ms[0], Sell, p.nextId + 1);
      [CallOf(env, p0, buy)] + ([CallOf(env, Handle(env, p0, buy), sell)] + Calls(env, Process(env, p, ms[0]), ms[1..]))
  }

  lemma HandleIsCall(env: Environment, p: Pipe, o: Order)
    requires BookReady(p, o.id) && o.filled == 0
    ensures Handle(env, p, o).risk == Apply(env.rnd, p.risk, CallOf(env, p, o)).0
    ensures Handle(env, p, o).stats.created == p.stats.created + 1
  {
    hide Passes, MidPrice, Emit, Accept, Submit, WellFormed, Executed;
    var mid := MidPrice(p.book);
    var (risk, ok) := Validate(env.rnd, p.risk, o, mid, env.clock(p.stats.created));
    var p' := p.(stats := p.stats.(created := p.stats.created + 1));
    if ok {
      AcceptRisk(env, p', risk, o, mid);
      AcceptFrame(env, p', risk, o, mid);
    } else {
      EmitCounts(env, p'.(risk := risk, stats := p'.stats.(rejected := p'.stats.rejected + 1)));
    }
  }

  lemma RunAllStep(rnd: Rounding, e: Engine, c: Call, cs: seq<Call>)
    ensures RunAll(rnd, e, [c] + cs) == RunAll(rnd, Apply(rnd, e, c).0, cs)
  {
    hide Apply;
    assert ([c] + cs)[1..] == cs;
  }

  /** A run of the pipeline is, for its risk engine, a run of validations and bookings, so that
      every law of those runs is a law of the pipeline. */
  lemma {:induction false} RunIsCalls(env: Environment, p: Pipe, ms: seq<Message>)
    requires Accounts(p)
    ensures Run(env, p, ms).risk == RunAll(env.rnd, p.risk, Calls(env, p, ms))
    decreases |ms|
  {
    hide Handle, WellFormed, Traded, NetTraded, CallOf, Quote, Apply;
    if ms != [] {
      var p0 := p.(stats := p.stats.(messages := p.stats.messages + 1), nextId := p.nextId + 2);
      var buy, sell := NewOrder(env.rnd, ms[0], Buy, p.nextId), NewOrder(env.rnd, ms[0], Sell, p.nextId + 1);
      var p1 := Handle(env, p0, buy);
      var rest := Calls(env, Process(env, p, ms[0]), ms[1..]);
      HandleIsCall(env, p0, buy);
      ReadyLater(env, p0, buy);
      HandleIsCall(env, p1, sell);
      ProcessKeeps(env, p, ms[0]);
      RunIsCalls(env, Process(env, p, ms[0]), ms[1..]);
      RunAllStep(env.rnd, p0.risk, CallOf(env, p0, buy), [CallOf(env, p1, sell)] + rest);
      RunAllStep(env.rnd, p1.risk, CallOf(env, p1, sell), rest);
    }
  }

  /** The clock does not run backwards. */
  ghost predicate Forward(clock: nat -> nat) {
    forall i: nat, j: nat :: i <= j ==> clock(i) <= clock(j)
  }

  lemma {:induction false} CallsInTime(env: Environment, p: Pipe, ms: seq<Message>, start: nat)
    requires Accounts(p) && Forward(env.clock) && start <= env.clock(p.stats.created)
    ensures ClockFrom(start, Calls(env, p, ms))
    decreases |ms|
  {
    hide Handle, WellFormed, Traded, NetTraded, Quote, Submit, MidPrice;
    if ms != [] {
      var p0 := p.(stats := p.stats.(messages := p.stats.messages + 1), nextId := p.nextId + 2);
      var buy, sell := NewOrder(env.rnd, ms[0], Buy, p.nextId), NewOrder(env.rnd, ms[0], Sell, p.nextId + 1);
      var p1 := Handle(env, p0, buy);
      var rest := Calls(env, Process(env, p, ms[0]), ms[1..]);
      HandleIsCall(env, p0, buy);
      ReadyLater(env, p0, buy);
      HandleIsCall(env, p1, sell);
      ProcessKeeps(env, p, ms[0]);
      CallsInTime(env, Process(env, p, ms[0]), ms[1..], env.clock(p1.stats.created));
      ClockStep(env.clock(p0.stats.created), CallOf(env, p1, sell), rest);
      ClockStep(start, CallOf(env, p0, buy), [CallOf(env, p1, sell)] + rest);
    }
  }

  lemma ClockStep(start: nat, c: Call, cs: seq<Call>)
    requires c.Check? && start <= c.now && ClockFrom(c.now, cs)
    ensures ClockFrom(start, [c] + cs)
  {
    assert ([c] + cs)[1..] == cs;
  }

  /** With a clock that does not run backwards, the pipeline accepts at most k times the limit
      in any k consecutive seconds, whatever the market sends. */
  lemma RateHolds(env: Environment, p: Pipe, ms: seq<Message>, from: nat, k: nat)
    requires Accounts(p) && RateReady(p.risk) && Forward(env.clock) && p.risk.window <= env.clock(p.stats.created)
    ensures Accepted(env.rnd, p.risk, Calls(env, p, ms), from, from + k) <= k * p.risk.limits.maxOrdersPerSec
  {
    CallsInTime(env, p, ms, p.risk.window);
    RateLimited(env.rnd, p.risk, Calls(env, p, ms), from, k);
  }

  // ----- events -----

  /** How many of the first n attempts find a free event. */
  function FreeIn(env: Environment, n: nat): nat {
    if n == 0 then 0 else FreeIn(env, n - 1) + if env.freeEvent(n - 1) then 1 else 0
  }

  /** Pushed are exactly the attempts that found a free event. */
  ghost predicate Supplied(env: Environment, p: Pipe) {
    p.pushed == FreeIn(env, p.pushed + p.stats.dropped)
  }

  lemma EmitSupplied(env: Environment, p: Pipe)
    requires Supplied(env, p)
    ensures Supplied(env, Emit(env, p))
  {
  }

  lemma {:induction false} EmitTradesSupplied(env: Environment, p: Pipe, n: nat)
    requires Supplied(env, p)
    ensures Supplied(env, EmitTrades(env, p, n))
  {
    hide Emit;
    if n > 0 {
      EmitTradesSupplied(env, p, n - 1);
      var q := EmitTrades(env, p, n - 1);
      EmitSupplied(env, q.(stats := q.stats.(trades := q.stats.trades + 1)));
    }
  }

  lemma HandleSupplied(env: Environment, p: Pipe, o: Order)
    requires Supplied(env, p)
    ensures Supplied(env, Handle(env, p, o))
  {
    hide Passes, MidPrice, Emit, EmitTrades, Submit, FreeIn, Executed;
    var mid := MidPrice(p.book);
    var (risk, ok) := Validate(env.rnd, p.risk, o, mid, env.clock(p.stats.created));
    var p' := p.(stats := p.stats.(created := p.stats.created + 1));
    if ok {
      var book := Submit(p.book, o).0;
      var p0 := p'.(book := Drain(book).0, risk := risk, stats := p'.stats.(accepted := p'.stats.accepted + 1));
      EmitSupplied(env, p0);
      EmitTradesSupplied(env, Emit(env, p0), |Drain(book).1|);
    } else {
      EmitSupplied(env, p'.(risk := risk, stats := p'.stats.(rejected := p'.stats.rejected + 1)));
    }
  }

  /** Over every run, an event is pushed exactly at the attempts that find a free one, and the
      others are counted as dropped. */
  lemma {:induction false} RunSupplied(env: Environment, p: Pipe, ms: seq<Message>)
    requires Supplied(env, p)
    ensures Supplied(env, Run(env, p, ms))
    decreases |ms|
  {
    hide Handle, Supplied, Quote;
    if ms != [] {
      var p0 := p.(stats := p.stats.(messages := p.stats.messages + 1), nextId := p.nextId + 2);
      var buy, sell := NewOrder(env.rnd, ms[0], Buy, p.nextId), NewOrder(env.rnd, ms[0], Sell, p.nextId + 1);
      SameSupply(env, p, p0);
      HandleSupplied(env, p0, buy);
      HandleSupplied(env, Handle(env, p0, buy), sell);
      RunSupplied(env, Process(env, p, ms[0]), ms[1..]);
    }
  }

  lemma SameSupply(env: Environment, p: Pipe, p': Pipe)
    requires Supplied(env, p) && p'.pushed == p.pushed && p'.stats.dropped == p.stats.dropped
    ensures Supplied(env, p')
  {
  }

  // ----- accepted prices -----

  /** A priced order that was accepted lies in the band around the mid it met. */
  predicate InBand(outcome: Outcome, pct: real) {
    outcome.accepted && outcome.mid > 0.0 && outcome.order.price > 0.0 ==>
      && 100.0 * outcome.order.price <= outcome.mid * (100.0 + pct)
      && 100.0 * outcome.order.price >= outcome.mid * (100.0 - pct)
  }

  lemma OutcomeInBand(env: Environment, p: Pipe, o: Order)
    requires Exact(env.rnd) && p.risk.limits.enabled && o.kind == Limit
    ensures InBand(OutcomeOf(env, p, o), p.risk.limits.priceBandPct)
  {
    hide Submit;
    if o.price > 0.0 && !p.risk.killed {
      DecisionExact(env.rnd, p.risk, o, MidPrice(p.book), env.clock(p.stats.created));
    }
  }

  lemma HandleLimits(env: Environment, p: Pipe, o: Order)
    ensures Handle(env, p, o).risk.limits == p.risk.limits
  {
    hide Passes, MidPrice, Emit, Accept, Submit;
    var mid := MidPrice(p.book);
    var risk := Validate(env.rnd, p.risk, o, mid, env.clock(p.stats.created)).0;
    var p' := p.(stats := p.stats.(created := p.stats.created + 1));
    AcceptOutcome(env, p', risk, o, mid);
    EmitCounts(env, p'.(risk := risk, stats := p'.stats.(rejected := p'.stats.rejected + 1)));
  }

  /** Over every run without rounding, no order is accepted outside the price band around the
      mid of the book that it met. */
  lemma {:induction false} RunInBand(env: Environment, p: Pipe, ms: seq<Message>)
    requires Exact(env.rnd) && p.risk.limits.enabled
    ensures forall i :: 0 <= i < |Outcomes(env, p, ms)| ==>
      InBand(Outcomes(env, p, ms)[i], p.risk.limits.priceBandPct)
    decreases |ms|
  {
    hide Handle, OutcomeOf, InBand, Quote;
    if ms != [] {
      var p0 := p.(stats := p.stats.(messages := p.stats.messages + 1), nextId := p.nextId + 2);
      var buy, sell := NewOrder(env.rnd, ms[0], Buy, p.nextId), NewOrder(env.rnd, ms[0], Sell, p.nextId + 1);
      HandleLimits(env, p0, buy);
      HandleLimits(env, Handle(env, p0, buy), sell);
      OutcomeInBand(env, p0, buy);
      OutcomeInBand(env, Handle(env, p0, buy), sell);
      RunInBand(env, Process(env, p, ms[0]), ms[1..]);
    }
  }
}
