/** Pre-trade risk checks and position keeping. Floating-point results go through a rounding
    function of which only monotonicity and exactness at zero are assumed, as section 4.3 of
    IEEE 754-2019 gives for every rounding direction. */
module RiskSpec {
  import opened Orders

  type Rounding = real -> real

  ghost predicate Monotone(rnd: Rounding) {
    && rnd(0.0) == 0.0
    && forall x, y :: x <= y ==> rnd(x) <= rnd(y)
  }

  ghost predicate Exact(rnd: Rounding) {
    forall x :: rnd(x) == x
  }

  /** The relative error is at most one percent: far more than binary64 needs outside
      underflow and overflow. */
  ghost predicate Accurate(rnd: Rounding) {
    forall x :: if x >= 0.0 then 0.99 * x <= rnd(x) <= 1.01 * x else 1.01 * x <= rnd(x) <= 0.99 * x
  }

  datatype Limits = Limits(
    maxOrderQty: int, maxPosition: int, maxExposure: int, maxNotional: real, priceBandPct: real,
    maxOrdersPerSec: int, enabled: bool)

  datatype Position = Position(net: int, gross: int, notional: real)

  const FLAT := Position(0, 0, 0.0)

  /** The engine's state: limits, positions by symbol, the rate window and the kill switch. */
  datatype Engine = Engine(limits: Limits, positions: map<string, Position>, count: int, window: nat, killed: bool) {
    function At(symbol: string): Position {
      if symbol in positions then positions[symbol] else FLAT
    }
  }

  /** Money value of a quantity at a price, before rounding. */
  function Value(price: real, qty: int): real {
    price * qty as real
  }

  function Magnitude(x: int): int {
    if x < 0 then -x else x
  }

  // ----- the checks -----

  predicate SizeOk(e: Engine, o: Order) {
    0 < o.quantity <= e.limits.maxOrderQty
  }

  function NewPosition(e: Engine, o: Order): int {
    if o.side == Buy then e.At(o.symbol).net + o.quantity else e.At(o.symbol).net - o.quantity
  }

  predicate PositionOk(e: Engine, o: Order) {
    Magnitude(NewPosition(e, o)) <= e.limits.maxPosition
  }

  predicate ExposureOk(e: Engine, o: Order) {
    e.At(o.symbol).gross + o.quantity <= e.limits.maxExposure
  }

  predicate NotionalOk(rnd: Rounding, e: Engine, o: Order) {
    (o.price <= 0.0 && o.kind == Limit)
    || var price := if o.price > 0.0 then o.price else 1.0;
       rnd(e.At(o.symbol).notional + rnd(Value(price, o.quantity))) <= e.limits.maxNotional
  }

  predicate PriceOk(rnd: Rounding, e: Engine, o: Order, mid: real) {
    || mid <= 0.0 || o.price <= 0.0 || o.kind == Market
    || var d := rnd(o.price - mid);
       rnd(rnd((if d < 0.0 then -d else d) / mid) * 100.0) <= e.limits.priceBandPct
  }

  predicate RateOk(e: Engine) {
    e.limits.maxOrdersPerSec <= 0 || e.count < e.limits.maxOrdersPerSec
  }

  /** All six checks, on an engine whose rate window is current. */
  predicate Passes(rnd: Rounding, e: Engine, o: Order, mid: real) {
    && RateOk(e) && SizeOk(e, o) && PositionOk(e, o) && ExposureOk(e, o)
    && NotionalOk(rnd, e, o) && PriceOk(rnd, e, o, mid)
  }

  // ----- the operations -----

  function Refresh(e: Engine, now: nat): Engine {
    if now != e.window then e.(window := now, count := 0) else e
  }

  function Validate(rnd: Rounding, e: Engine, o: Order, mid: real, now: nat): (Engine, bool) {
    if e.killed then (e, false)
    else if !e.limits.enabled then (e, true)
    else
      var e' := Refresh(e, now);
      if Passes(rnd, e', o, mid) then (e'.(count := e'.count + 1), true) else (e', false)
  }

  function Executed(rnd: Rounding, e: Engine, o: Order, qty: int, price: real): Engine {
    var p := e.At(o.symbol);
    e.(positions := e.positions[o.symbol := Position(
         if o.side == Buy then p.net + qty else p.net - qty,
         p.gross + qty,
         rnd(p.notional + rnd(Value(price, qty))))])
  }

  function Reset(e: Engine): Engine {
    e.(positions := map[], count := 0, window := 0, killed := false)
  }

  // ----- limits as an invariant -----

  ghost predicate PositionWithin(l: Limits, p: Position) {
    Magnitude(p.net) <= l.maxPosition && 0 <= p.gross <= l.maxExposure && 0.0 <= p.notional <= l.maxNotional
  }

  ghost predicate Within(e: Engine) {
    && e.limits.enabled
    && e.limits.maxPosition >= 0 && e.limits.maxExposure >= 0 && e.limits.maxNotional >= 0.0
    && forall s :: s in e.positions ==> PositionWithin(e.limits, e.positions[s])
  }

  predicate InInt32(x: int) {
    -0x8000_0000 <= x <= 0x7FFF_FFFF
  }

  /** The limits leave room for one more order in 32 bits. */
  predicate RoomInInt32(l: Limits) {
    InInt32(l.maxPosition + l.maxOrderQty) && InInt32(l.maxExposure + l.maxOrderQty) && l.maxOrderQty >= 0
  }

  lemma ScaledFill(price: real, fill: int, quantity: int)
    requires price > 0.0 && fill <= quantity
    ensures Value(price, fill) <= Value(price, quantity)
    ensures fill >= 0 ==> Value(price, fill) >= 0.0
  {
  }

  /** The notional booked for a fill is at most the notional the check allowed for. */
  lemma NotionalBooked(rnd: Rounding, e: Engine, o: Order, fill: int)
    requires Monotone(rnd) && Within(e) && NotionalOk(rnd, e, o)
    requires o.price > 0.0 && 0 <= fill <= o.quantity
    ensures 0.0 <= rnd(e.At(o.symbol).notional + rnd(Value(o.price, fill))) <= e.limits.maxNotional
  {
    ScaledFill(o.price, fill, o.quantity);
    hide Value;
    var cur := e.At(o.symbol).notional;
    assert rnd(0.0) <= rnd(Value(o.price, fill)) <= rnd(Value(o.price, o.quantity));
    assert rnd(0.0) <= rnd(cur + rnd(Value(o.price, fill))) <= rnd(cur + rnd(Value(o.price, o.quantity)));
  }

  /** Booking any part of an order that passed keeps every limit. */
  lemma FillKeepsLimits(rnd: Rounding, e: Engine, o: Order, mid: real, fill: int)
    requires Monotone(rnd) && Within(e) && Passes(rnd, e, o, mid)
    requires o.price > 0.0 && 0 <= fill <= o.quantity
    ensures Within(Executed(rnd, e, o, fill, o.price))
  {
    NotionalBooked(rnd, e, o, fill);
    hide Value;
    var e' := Executed(rnd, e, o, fill, o.price);
    assert PositionWithin(e.limits, e'.positions[o.symbol]);
  }

  /** The 32-bit sums made for an order of admissible size, in the checks and in the booking. */
  predicate OrderSumsFit(e: Engine, o: Order, fill: int) {
    SizeOk(e, o) ==>
      && InInt32(NewPosition(e, o)) && InInt32(Magnitude(NewPosition(e, o)))
      && InInt32(e.At(o.symbol).gross + o.quantity) && InInt32(e.At(o.symbol).gross + fill)
      && InInt32(e.At(o.symbol).net + fill) && InInt32(e.At(o.symbol).net - fill)
  }

  /** None of them overflows. */
  lemma NoOverflow(e: Engine, o: Order, fill: int)
    requires Within(e) && RoomInInt32(e.limits) && (o.quantity > 0 ==> 0 <= fill <= o.quantity)
    ensures OrderSumsFit(e, o, fill)
  {
  }

  /** Without rounding, the band check admits a limit price exactly when it lies within the
      given percentage of the mid, on either side. */
  lemma PriceBandMeans(e: Engine, o: Order, mid: real)
    requires mid > 0.0 && o.price > 0.0 && o.kind == Limit
    ensures PriceOk(x => x, e, o, mid) <==>
      && 100.0 * o.price <= mid * (100.0 + e.limits.priceBandPct)
      && 100.0 * o.price >= mid * (100.0 - e.limits.priceBandPct)
  {
    var d := if o.price - mid < 0.0 then mid - o.price else o.price - mid;
    PercentOf(d, mid, e.limits.priceBandPct);
    assert mid * (100.0 + e.limits.priceBandPct) == 100.0 * mid + e.limits.priceBandPct * mid;
    assert mid * (100.0 - e.limits.priceBandPct) == 100.0 * mid - e.limits.priceBandPct * mid;
  }

  lemma PercentOf(d: real, m: real, p: real)
    requires m > 0.0
    ensures d / m * 100.0 <= p <==> d * 100.0 <= p * m
  {
    var q := d / m;
    assert q * m == d;
    if q * 100.0 <= p {
      assert (p - q * 100.0) * m >= 0.0;
    } else {
      assert (q * 100.0 - p) * m > 0.0;
    }
  }

  // ----- the rate limiter -----

  /** A call to the engine: a validation at some clock second, with the fill that is booked
      if it is accepted, or the kill switch. */
  datatype Call =
    | Check(order: Order, mid: real, now: nat, fill: int, fillPrice: real)
    | Kill(on: bool)

  function Apply(rnd: Rounding, e: Engine, c: Call): (Engine, bool) {
    match c
    case Check(o, mid, now, fill, price) =>
      var (e', ok) := Validate(rnd, e, o, mid, now);
      (if ok && fill > 0 then Executed(rnd, e', o, fill, price) else e', ok)
    case Kill(on) => (e.(killed := on), false)
  }

  function RunAll(rnd: Rounding, e: Engine, cs: seq<Call>): Engine
    decreases |cs|
  {
    if cs == [] then e else RunAll(rnd, Apply(rnd, e, cs[0]).0, cs[1..])
  }

  /** Validations accepted in the clock seconds from `lo` up to `hi`. */
  function Accepted(rnd: Rounding, e: Engine, cs: seq<Call>, lo: nat, hi: nat): nat
    decreases |cs|
  {
    if cs == [] then 0
    else
      var (e', ok) := Apply(rnd, e, cs[0]);
      (if ok && lo <= cs[0].now < hi then 1 else 0) + Accepted(rnd, e', cs[1..], lo, hi)
  }

  /** The clock does not run backwards. */
  ghost predicate ClockFrom(start: nat, cs: seq<Call>)
    decreases |cs|
  {
    cs == [] ||
    (if cs[0].Check? then start <= cs[0].now && ClockFrom(cs[0].now, cs[1..]) else ClockFrom(start, cs[1..]))
  }

  /** What the rate window still admits in one second. */
  function Allowance(e: Engine, sec: nat): int {
    if sec < e.window then 0
    else if sec == e.window then e.limits.maxOrdersPerSec - e.count
    else e.limits.maxOrdersPerSec
  }

  ghost predicate RateReady(e: Engine) {
    e.limits.enabled && 0 <= e.count <= e.limits.maxOrdersPerSec && e.limits.maxOrdersPerSec > 0
  }

  lemma ApplyRate(rnd: Rounding, e: Engine, c: Call, sec: nat)
    requires RateReady(e) && (c.Check? ==> e.window <= c.now)
    ensures var (e', ok) := Apply(rnd, e, c);
      && RateReady(e') && e'.limits == e.limits
      && (c.Check? ==> e'.window <= c.now) && (c.Kill? ==> e'.window == e.window && !ok)
      && (if ok && c.now == sec then 1 else 0) + Allowance(e', sec) <= Allowance(e, sec)
  {
  }

  /** In one clock second no more orders are accepted than the window still admits. */
  lemma {:induction false} OneSecond(rnd: Rounding, e: Engine, cs: seq<Call>, sec: nat)
    requires RateReady(e) && ClockFrom(e.window, cs)
    ensures Accepted(rnd, e, cs, sec, sec + 1) <= if Allowance(e, sec) > 0 then Allowance(e, sec) else 0
    decreases |cs|
  {
    if cs != [] {
      var e' := Apply(rnd, e, cs[0]).0;
      ApplyRate(rnd, e, cs[0], sec);
      ClockLater(e'.window, if cs[0].Check? then cs[0].now else e.window, cs[1..]);
      OneSecond(rnd, e', cs[1..], sec);
    }
  }

  lemma {:induction false} ClockLater(a: nat, b: nat, cs: seq<Call>)
    requires a <= b && ClockFrom(b, cs)
    ensures ClockFrom(a, cs)
    decreases |cs|
  {
    if cs != [] && cs[0].Kill? {
      ClockLater(a, b, cs[1..]);
    }
  }

  lemma {:induction false} AcceptedSplit(rnd: Rounding, e: Engine, cs: seq<Call>, lo: nat, mid: nat, hi: nat)
    requires lo <= mid <= hi
    ensures Accepted(rnd, e, cs, lo, hi) == Accepted(rnd, e, cs, lo, mid) + Accepted(rnd, e, cs, mid, hi)
    decreases |cs|
  {
    if cs != [] {
      AcceptedSplit(rnd, Apply(rnd, e, cs[0]).0, cs[1..], lo, mid, hi);
    }
  }

  /** In any k consecutive seconds at most k times the limit is accepted. */
  lemma {:induction false} RateLimited(rnd: Rounding, e: Engine, cs: seq<Call>, from: nat, k: nat)
    requires RateReady(e) && ClockFrom(e.window, cs)
    ensures Accepted(rnd, e, cs, from, from + k) <= k * e.limits.maxOrdersPerSec
    decreases k
  {
    if k == 0 {
      NoneAccepted(rnd, e, cs, from);
    } else {
      AcceptedSplit(rnd, e, cs, from, from + k - 1, from + k);
      RateLimited(rnd, e, cs, from, k - 1);
      OneSecond(rnd, e, cs, from + k - 1);
      assert k * e.limits.maxOrdersPerSec == (k - 1) * e.limits.maxOrdersPerSec + e.limits.maxOrdersPerSec;
    }
  }

  lemma {:induction false} NoneAccepted(rnd: Rounding, e: Engine, cs: seq<Call>, from: nat)
    ensures Accepted(rnd, e, cs, from, from) == 0
    decreases |cs|
  {
    if cs != [] {
      NoneAccepted(rnd, Apply(rnd, e, cs[0]).0, cs[1..], from);
    }
  }

  // ----- every run -----

  /** A priced order whose booked fill is part of it, at its own price. */
  ghost predicate Fair(c: Call) {
    c.Check? ==> c.order.price > 0.0 && c.fillPrice == c.order.price && c.fill <= c.order.quantity
  }

  lemma ApplyKeepsLimits(rnd: Rounding, e: Engine, c: Call)
    requires Monotone(rnd) && Within(e) && Fair(c)
    ensures Within(Apply(rnd, e, c).0) && Apply(rnd, e, c).0.limits == e.limits
  {
    hide Value, Passes;
    if c.Check? && Apply(rnd, e, c).1 && c.fill > 0 {
      assert e.limits.enabled;
      var e' := Refresh(e, c.now);
      assert Passes(rnd, e', c.order, c.mid);
      FillKeepsLimits(rnd, e', c.order, c.mid, c.fill);
    }
  }

  /** Every run of validate, match and book keeps every limit on every symbol. */
  lemma {:induction false} EveryRun(rnd: Rounding, e: Engine, cs: seq<Call>)
    requires Monotone(rnd) && Within(e) && forall i :: 0 <= i < |cs| ==> Fair(cs[i])
    ensures Within(RunAll(rnd, e, cs)) && RunAll(rnd, e, cs).limits == e.limits
    decreases |cs|
  {
    if cs != [] {
      ApplyKeepsLimits(rnd, e, cs[0]);
      EveryRun(rnd, Apply(rnd, e, cs[0]).0, cs[1..]);
    }
  }

  /** At every step of a run, the 32-bit sums made for the order fit. */
  ghost predicate SumsFit(rnd: Rounding, e: Engine, cs: seq<Call>)
    decreases |cs|
  {
    cs == [] ||
    (&& (cs[0].Check? ==> OrderSumsFit(e, cs[0].order, cs[0].fill))
     && SumsFit(rnd, Apply(rnd, e, cs[0]).0, cs[1..]))
  }

  /** No 32-bit sum of any run overflows. */
  lemma {:induction false} NeverOverflows(rnd: Rounding, e: Engine, cs: seq<Call>)
    requires Monotone(rnd) && Within(e) && RoomInInt32(e.limits)
    requires forall i :: 0 <= i < |cs| ==> Fair(cs[i]) && (cs[i].Check? ==> cs[i].fill >= 0)
    ensures SumsFit(rnd, e, cs)
    decreases |cs|
  {
    if cs != [] {
      ApplyKeepsLimits(rnd, e, cs[0]);
      NeverOverflows(rnd, Apply(rnd, e, cs[0]).0, cs[1..]);
      if cs[0].Check? {
        NoOverflow(e, cs[0].order, cs[0].fill);
      }
    }
  }
}

/** The risk engine as an object. */
module RiskControl {
  import opened Orders
  import opened RiskSpec

  class RiskEngine {
    const rnd: Rounding
    var limits: Limits
    var positions: map<string, Position>
    var orderCountThisSec: int
    var secWindowStart: nat
    var killed: bool

    ghost function Abs(): Engine
      reads this
    {
      Engine(limits, positions, orderCountThisSec, secWindowStart, killed)
    }

    constructor (rnd: Rounding, limits: Limits)
      ensures this.rnd == rnd && Abs() == Engine(limits, map[], 0, 0, false)
    {
      this.rnd := rnd;
      this.limits := limits;
      positions, orderCountThisSec, secWindowStart, killed := map[], 0, 0, false;
    }

    method UpdateRateWindow(now: nat)
      modifies this`secWindowStart, this`orderCountThisSec
      ensures Abs() == Refresh(old(Abs()), now)
    {
      if now != secWindowStart {
        secWindowStart := now;
        orderCountThisSec := 0;
      }
    }

    /** The checks in the order of the code, the first failure deciding. */
    method Validate(o: Order, mid: real, now: nat) returns (ok: bool)
      modifies this`secWindowStart, this`orderCountThisSec
      ensures (Abs(), ok) == RiskSpec.Validate(rnd, old(Abs()), o, mid, now)
    {
      hide Value;
      if killed {
        return false;
      }
      if !limits.enabled {
        return true;
      }
      UpdateRateWindow(now);
      if limits.maxOrdersPerSec > 0 && orderCountThisSec >= limits.maxOrdersPerSec {
        return false;
      }
      if o.quantity > limits.maxOrderQty || o.quantity <= 0 {
        return false;
      }
      var p := if o.symbol in positions then positions[o.symbol] else FLAT;
      var newPos := if o.side == Buy then p.net + o.quantity else p.net - o.quantity;
      if Magnitude(newPos) > limits.maxPosition {
        return false;
      }
      if p.gross + o.quantity > limits.maxExposure {
        return false;
      }
      if !(o.price <= 0.0 && o.kind == Limit) {
        var price := if o.price > 0.0 then o.price else 1.0;
        if rnd(p.notional + rnd(Value(price, o.quantity))) > limits.maxNotional {
          return false;
        }
      }
      if !(mid <= 0.0 || o.price <= 0.0 || o.kind == Market) {
        var d := rnd(o.price - mid);
        if rnd(rnd((if d < 0.0 then -d else d) / mid) * 100.0) > limits.priceBandPct {
          return false;
        }
      }
      orderCountThisSec := orderCountThisSec + 1;
      return true;
    }

    method OnOrderExecuted(o: Order, qty: int, price: real)
      modifies this`positions
      ensures Abs() == Executed(rnd, old(Abs()), o, qty, price)
    {
      hide Value;
      var p := if o.symbol in positions then positions[o.symbol] else FLAT;
      var net := if o.side == Buy then p.net + qty else p.net - qty;
      positions := positions[o.symbol := Position(net, p.gross + qty, rnd(p.notional + rnd(Value(price, qty))))];
    }

    method KillSwitch(on: bool)
      modifies this`killed
      ensures Abs() == old(Abs()).(killed := on)
    {
      killed := on;
    }

    method ResetAll()
      modifies this
      ensures Abs() == Reset(old(Abs()))
      ensures Abs() == Engine(old(limits), map[], 0, 0, false)
    {
      positions, orderCountThisSec, secWindowStart, killed := map[], 0, 0, false;
    }
  }
}
