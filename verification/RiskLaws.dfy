/** What the risk engine decides and what it records, told from the caller's side: which orders
    pass, which orders of a second the rate limit lets through, and what notional is booked. */
module RiskLaws {
  import opened Orders
  import opened RiskSpec

  // ----- the decision -----

  /** A killed engine accepts nothing, a disabled one everything. Otherwise an order passes
      exactly when the current second has room, its size is admissible, the position and
      exposure it leads to and its notional are within their limits, and its price is in the
      band around the mid. */
  lemma Decision(rnd: Rounding, e: Engine, o: Order, mid: real, now: nat)
    ensures e.killed ==> Validate(rnd, e, o, mid, now) == (e, false)
    ensures !e.killed && !e.limits.enabled ==> Validate(rnd, e, o, mid, now) == (e, true)
    ensures !e.killed && e.limits.enabled ==>
      var p := if o.symbol in e.positions then e.positions[o.symbol] else Position(0, 0, 0.0);
      var net := p.net + if o.side == Buy then o.quantity else -o.quantity;
      var gap := rnd(o.price - mid);
      Validate(rnd, e, o, mid, now).1 <==>
        && (e.limits.maxOrdersPerSec <= 0 || now != e.window || e.count < e.limits.maxOrdersPerSec)
        && 0 < o.quantity <= e.limits.maxOrderQty
        && -e.limits.maxPosition <= net <= e.limits.maxPosition
        && p.gross + o.quantity <= e.limits.maxExposure
        && (o.price > 0.0 ==> rnd(p.notional + rnd(Value(o.price, o.quantity))) <= e.limits.maxNotional)
        && (o.price <= 0.0 && o.kind == Market ==>
              rnd(p.notional + rnd(Value(1.0, o.quantity))) <= e.limits.maxNotional)
        && (mid > 0.0 && o.price > 0.0 && o.kind == Limit ==>
              rnd(rnd((if gap < 0.0 then -gap else gap) / mid) * 100.0) <= e.limits.priceBandPct)
    ensures !e.killed && e.limits.enabled ==>
      var seen := if now == e.window then e.count else 0;
      Validate(rnd, e, o, mid, now).0
        == e.(window := now, count := if Validate(rnd, e, o, mid, now).1 then seen + 1 else seen)
  {
    hide Value;
    var e' := Refresh(e, now);
    assert e'.At(o.symbol) == e.At(o.symbol);
    assert RateOk(e') <==>
      (e.limits.maxOrdersPerSec <= 0 || now != e.window || e.count < e.limits.maxOrdersPerSec);
  }

  /** The same in plain arithmetic, without rounding, for a limit order at a positive price. */
  lemma DecisionExact(rnd: Rounding, e: Engine, o: Order, mid: real, now: nat)
    requires Exact(rnd) && !e.killed && e.limits.enabled && o.kind == Limit && o.price > 0.0
    ensures
      var p := if o.symbol in e.positions then e.positions[o.symbol] else Position(0, 0, 0.0);
      var net := p.net + if o.side == Buy then o.quantity else -o.quantity;
      Validate(rnd, e, o, mid, now).1 <==>
        && (e.limits.maxOrdersPerSec <= 0 || now != e.window || e.count < e.limits.maxOrdersPerSec)
        && 0 < o.quantity <= e.limits.maxOrderQty
        && -e.limits.maxPosition <= net <= e.limits.maxPosition
        && p.gross + o.quantity <= e.limits.maxExposure
        && p.notional + o.price * o.quantity as real <= e.limits.maxNotional
        && (mid > 0.0 ==>
              && 100.0 * o.price <= mid * (100.0 + e.limits.priceBandPct)
              && 100.0 * o.price >= mid * (100.0 - e.limits.priceBandPct))
  {
    Decision(rnd, e, o, mid, now);
    ValueIs(o.price, o.quantity);
    hide Value;
    if mid > 0.0 {
      BandIs(rnd, e, o, mid);
    }
  }

  lemma ValueIs(price: real, qty: int)
    ensures Value(price, qty) == price * qty as real
  {
  }

  lemma BandIs(rnd: Rounding, e: Engine, o: Order, mid: real)
    requires Exact(rnd) && mid > 0.0 && o.price > 0.0 && o.kind == Limit
    ensures var gap := rnd(o.price - mid);
      rnd(rnd((if gap < 0.0 then -gap else gap) / mid) * 100.0) <= e.limits.priceBandPct <==>
        && 100.0 * o.price <= mid * (100.0 + e.limits.priceBandPct)
        && 100.0 * o.price >= mid * (100.0 - e.limits.priceBandPct)
  {
    PriceBandMeans(e, o, mid);
  }

  // ----- first come, first served -----

  /** A call that only the rate limit can turn away. */
  predicate Eligible(rnd: Rounding, e: Engine, c: Call) {
    && c.Check? && !e.killed && e.limits.enabled
    && SizeOk(e, c.order) && PositionOk(e, c.order) && ExposureOk(e, c.order)
    && NotionalOk(rnd, e, c.order) && PriceOk(rnd, e, c.order, c.mid)
  }

  /** How many calls of a run are eligible in one second. */
  function EligibleIn(rnd: Rounding, e: Engine, cs: seq<Call>, sec: nat): nat
    decreases |cs|
  {
    if cs == [] then 0
    else
      (if Eligible(rnd, e, cs[0]) && cs[0].now == sec then 1 else 0)
      + EligibleIn(rnd, Apply(rnd, e, cs[0]).0, cs[1..], sec)
  }

  /** Clock seconds run forward and stay within the given second. */
  ghost predicate ClockUpTo(cs: seq<Call>, sec: nat) {
    forall i :: 0 <= i < |cs| && cs[i].Check? ==> cs[i].now <= sec
  }

  lemma EligibleStep(rnd: Rounding, e: Engine, c: Call, sec: nat)
    requires RateReady(e) && e.window <= sec && (c.Check? ==> e.window <= c.now <= sec)
    ensures var (e', ok) := Apply(rnd, e, c);
      && RateReady(e') && e'.limits == e.limits && e'.window <= sec
      && e'.window == (if c.Check? && !e.killed then c.now else e.window)
      && (c.Check? ==> (ok <==> Eligible(rnd, e, c) && Allowance(e, c.now) > 0))
      && Allowance(e', sec)
           == Allowance(e, sec)
              - if Eligible(rnd, e, c) && c.now == sec && Allowance(e, sec) > 0 then 1 else 0
  {
    hide Value;
    if c.Check? {
      var e' := Refresh(e, c.now);
      assert e'.At(c.order.symbol) == e.At(c.order.symbol);
      assert RateOk(e') <==> Allowance(e, c.now) > 0;
    }
  }

  function Rest(allowance: int, used: nat): int {
    if allowance > used then allowance - used else 0
  }

  lemma {:induction false} AllowanceAfter(rnd: Rounding, e: Engine, cs: seq<Call>, sec: nat)
    requires RateReady(e) && ClockFrom(e.window, cs) && ClockUpTo(cs, sec) && e.window <= sec
    ensures var e' := RunAll(rnd, e, cs);
      && RateReady(e') && e'.window <= sec && e'.limits == e.limits
      && Allowance(e', sec) == Rest(Allowance(e, sec), EligibleIn(rnd, e, cs, sec))
    decreases |cs|
  {
    hide Apply, Eligible;
    if cs != [] {
      var e' := Apply(rnd, e, cs[0]).0;
      EligibleStep(rnd, e, cs[0], sec);
      ClockLater(e'.window, if cs[0].Check? then cs[0].now else e.window, cs[1..]);
      AllowanceAfter(rnd, e', cs[1..], sec);
    }
  }

  lemma {:induction false} ClockBefore(start: nat, cs: seq<Call>, i: nat)
    requires ClockFrom(start, cs) && i < |cs| && cs[i].Check?
    ensures ClockFrom(start, cs[..i]) && ClockUpTo(cs[..i], cs[i].now) && start <= cs[i].now
    decreases |cs|
  {
    if i > 0 {
      var next := if cs[0].Check? then cs[0].now else start;
      ClockBefore(next, cs[1..], i - 1);
      assert cs[1..][..i-1] == cs[..i][1..];
      forall k | 0 <= k < i && cs[..i][k].Check? ensures cs[..i][k].now <= cs[i].now {
        if k > 0 {
          assert cs[1..][..i-1][k-1] == cs[..i][k];
        }
      }
    }
  }

  /** Under a rate limit, a call of a run is accepted exactly when it meets every other
      condition and fewer such calls came before it in its second than the second still
      admitted at the start: first come, first served. */
  lemma FirstServed(rnd: Rounding, e: Engine, cs: seq<Call>, i: nat)
    requires RateReady(e) && ClockFrom(e.window, cs) && i < |cs| && cs[i].Check?
    ensures var sec := cs[i].now; var before := RunAll(rnd, e, cs[..i]);
      var room := if sec == e.window then e.limits.maxOrdersPerSec - e.count else e.limits.maxOrdersPerSec;
      Apply(rnd, before, cs[i]).1 <==> Eligible(rnd, before, cs[i]) && EligibleIn(rnd, e, cs[..i], sec) < room
  {
    hide Apply, Eligible;
    var sec := cs[i].now;
    ClockBefore(e.window, cs, i);
    AllowanceAfter(rnd, e, cs[..i], sec);
    EligibleStep(rnd, RunAll(rnd, e, cs[..i]), cs[i], sec);
  }

  // ----- the kill switch -----

  /** Until it is released, the kill switch keeps every order out and every record as it is. */
  lemma {:induction false} KilledAcceptsNothing(rnd: Rounding, e: Engine, cs: seq<Call>, lo: nat, hi: nat)
    requires e.killed && forall i :: 0 <= i < |cs| ==> cs[i] != Kill(false)
    ensures RunAll(rnd, e, cs) == e && Accepted(rnd, e, cs, lo, hi) == 0
    decreases |cs|
  {
    if cs != [] {
      assert Apply(rnd, e, cs[0]) == (e, false);
      KilledAcceptsNothing(rnd, e, cs[1..], lo, hi);
    }
  }

  /** Throwing the switch keeps every order out until it is released, and releasing it leaves
      the engine as it was. */
  lemma KillSwitchHolds(rnd: Rounding, e: Engine, cs: seq<Call>, lo: nat, hi: nat)
    requires forall i :: 0 <= i < |cs| ==> cs[i] != Kill(false)
    ensures Accepted(rnd, e, [Kill(true)] + cs, lo, hi) == 0
    ensures RunAll(rnd, e, [Kill(true)] + cs) == e.(killed := true)
    ensures RunAll(rnd, RunAll(rnd, e, [Kill(true)] + cs), [Kill(false)]) == e.(killed := false)
  {
    assert ([Kill(true)] + cs)[1..] == cs && [Kill(false)][1..] == [];
    KilledAcceptsNothing(rnd, e.(killed := true), cs, lo, hi);
  }

  // ----- what is booked -----

  /** Money value of a call's fill, if it was accepted and concerns the symbol. */
  function FillValue(c: Call, ok: bool, symbol: string): real {
    if c.Check? && ok && c.fill > 0 && c.order.symbol == symbol then c.fillPrice * c.fill as real else 0.0
  }

  /** Money value of the accepted fills of one symbol in a run. */
  function FillsValue(rnd: Rounding, e: Engine, cs: seq<Call>, symbol: string): real
    decreases |cs|
  {
    if cs == [] then 0.0
    else
      var (e', ok) := Apply(rnd, e, cs[0]);
      FillValue(cs[0], ok, symbol) + FillsValue(rnd, e', cs[1..], symbol)
  }

  /** Without rounding, the notional record of a symbol is the money value of all its fills,
      bought or sold. */
  lemma {:induction false} NotionalIsFills(rnd: Rounding, e: Engine, cs: seq<Call>, symbol: string)
    requires Exact(rnd)
    ensures RunAll(rnd, e, cs).At(symbol).notional == e.At(symbol).notional + FillsValue(rnd, e, cs, symbol)
    decreases |cs|
  {
    hide Apply, FillValue, Exact;
    if cs != [] {
      BookedOnce(rnd, e, cs[0], symbol);
      NotionalIsFills(rnd, Apply(rnd, e, cs[0]).0, cs[1..], symbol);
    }
  }

  lemma BookedOnce(rnd: Rounding, e: Engine, c: Call, symbol: string)
    requires Exact(rnd)
    ensures var (e', ok) := Apply(rnd, e, c);
      e'.At(symbol).notional == e.At(symbol).notional + FillValue(c, ok, symbol)
  {
    hide Passes;
    if c.Check? {
      ValueIs(c.fillPrice, c.fill);
      hide Value;
      var (e', ok) := Validate(rnd, e, c.order, c.mid, c.now);
      assert e'.positions == e.positions;
      assert e'.At(symbol) == e.At(symbol);
    }
  }

  /** With a monotone rounding, no fill at a positive price lowers the record exactly when
      rounding the record does not lower it, as it does not for a number of the format. */
  lemma NeverLowersIff(rnd: Rounding, e: Engine, o: Order)
    requires Monotone(rnd)
    ensures rnd(e.At(o.symbol).notional) >= e.At(o.symbol).notional <==>
      forall qty: int, price: real :: qty >= 0 && price > 0.0 ==>
        Executed(rnd, e, o, qty, price).At(o.symbol).notional >= e.At(o.symbol).notional
  {
    var cur := e.At(o.symbol).notional;
    if rnd(cur) >= cur {
      forall qty: int, price: real | qty >= 0 && price > 0.0
        ensures Executed(rnd, e, o, qty, price).At(o.symbol).notional >= cur
      {
        FillRaises(rnd, e, o, qty, price);
      }
    } else {
      NothingBooked(rnd, e, o);
    }
  }

  /** Monotonicity alone is not enough: halving is monotone, and under it a fill of one at a
      price of one takes a record of 10 down to 5.25. */
  lemma MonotoneIsNotEnough(e: Engine, o: Order)
    requires e.At(o.symbol).notional == 10.0
    ensures Monotone(x => x / 2.0)
    ensures Executed(x => x / 2.0, e, o, 1, 1.0).At(o.symbol).notional == 5.25
  {
    assert Value(1.0, 1) == 1.0;
  }

  lemma FillRaises(rnd: Rounding, e: Engine, o: Order, qty: int, price: real)
    requires Monotone(rnd) && qty >= 0 && price > 0.0
    ensures Executed(rnd, e, o, qty, price).At(o.symbol).notional >= rnd(e.At(o.symbol).notional)
  {
    ScaledFill(price, qty, qty);
    hide Value;
    var cur, v := e.At(o.symbol).notional, Value(price, qty);
    assert rnd(0.0) <= rnd(v);
    assert rnd(cur) <= rnd(cur + rnd(v));
  }

  lemma NothingBooked(rnd: Rounding, e: Engine, o: Order)
    requires Monotone(rnd)
    ensures Executed(rnd, e, o, 0, 1.0).At(o.symbol).notional == rnd(e.At(o.symbol).notional)
  {
    assert Value(1.0, 0) == 0.0;
  }

  /** Results of rounding are numbers of the format. */
  ghost predicate Idempotent(rnd: Rounding) {
    forall x :: rnd(rnd(x)) == rnd(x)
  }

  /** All records are numbers of the format. */
  ghost predicate Representable(rnd: Rounding, e: Engine) {
    forall s :: rnd(e.At(s).notional) == e.At(s).notional
  }

  ghost predicate PositiveFills(cs: seq<Call>) {
    forall i :: 0 <= i < |cs| && cs[i].Check? ==> cs[i].fillPrice > 0.0
  }

  /** Over every run of fills at positive prices, no notional record ever decreases. */
  lemma {:induction false} NotionalNeverFalls(rnd: Rounding, e: Engine, cs: seq<Call>, symbol: string)
    requires Monotone(rnd) && Idempotent(rnd) && Representable(rnd, e) && PositiveFills(cs)
    ensures Representable(rnd, RunAll(rnd, e, cs))
    ensures RunAll(rnd, e, cs).At(symbol).notional >= e.At(symbol).notional
    decreases |cs|
  {
    hide Monotone, Idempotent, Apply;
    if cs != [] {
      ApplyRaises(rnd, e, cs[0]);
      NotionalNeverFalls(rnd, Apply(rnd, e, cs[0]).0, cs[1..], symbol);
    }
  }

  lemma ApplyRaises(rnd: Rounding, e: Engine, c: Call)
    requires Monotone(rnd) && Idempotent(rnd) && Representable(rnd, e)
    requires c.Check? ==> c.fillPrice > 0.0
    ensures Representable(rnd, Apply(rnd, e, c).0)
    ensures forall s :: Apply(rnd, e, c).0.At(s).notional >= e.At(s).notional
  {
    hide Value, Passes;
    var last := Apply(rnd, e, c).0;
    forall s ensures rnd(last.At(s).notional) == last.At(s).notional >= e.At(s).notional {
      if c.Check? {
        var e' := Validate(rnd, e, c.order, c.mid, c.now).0;
        assert e'.At(s) == e.At(s);
        if last != e' && s == c.order.symbol {
          FillRaises(rnd, e', c.order, c.fill, c.fillPrice);
        }
      } else {
        assert last.At(s) == e.At(s);
      }
    }
  }
}
