/** Orders and trades as exchanged between the components.

    Prices are reals (no NaN, no infinities); identifiers and quantities are
    mathematical integers. */
module Orders {

  datatype Side = Buy | Sell {
    function Opposite(): Side {
      if this == Buy then Sell else Buy
    }
  }

  datatype OrderType = Limit | Market

  datatype Status = New | Partial | Filled | Cancelled | Rejected

  datatype Order = Order(
    id: int, account: int, price: real, quantity: int, filled: int,
    timestamp: nat, side: Side, kind: OrderType, status: Status, symbol: string)
  {
    function Remaining(): int {
      quantity - filled
    }

    predicate IsFilled() {
      filled >= quantity
    }
  }

  const INVALID_ORDER_ID := -1

  /** The value of a default-constructed order. */
  const EMPTY_ORDER := Order(INVALID_ORDER_ID, 0, 0.0, 0, 0, 0, Buy, Limit, New, "")

  datatype Trade = Trade(id: int, buyId: int, sellId: int, price: real, quantity: int) {
    predicate Names(orderId: int) {
      buyId == orderId || sellId == orderId
    }
  }

  /** `p` has strictly better price priority than `q` on the given side of the book. */
  predicate Better(side: Side, p: real, q: real) {
    if side == Buy then p > q else p < q
  }

  /** An incoming order may trade at resting price `p`. */
  predicate Crosses(o: Order, p: real) {
    o.kind == Limit ==> if o.side == Buy then o.price >= p else o.price <= p
  }

  function Min(a: int, b: int): int {
    if a <= b then a else b
  }

  /** Total traded quantity. */
  function Volume(ts: seq<Trade>): int {
    if ts == [] then 0 else ts[0].quantity + Volume(ts[1..])
  }

  /** Traded quantity of the trades that name the given order. */
  function VolumeOf(ts: seq<Trade>, orderId: int): int {
    if ts == [] then 0
    else (if ts[0].Names(orderId) then ts[0].quantity else 0) + VolumeOf(ts[1..], orderId)
  }

  /** Money exchanged by a list of trades. */
  function Notional(ts: seq<Trade>): real {
    if ts == [] then 0.0 else ts[0].quantity as real * ts[0].price + Notional(ts[1..])
  }

  /** Total open quantity of a queue of resting orders. */
  function Liquidity(q: seq<Order>): int {
    if q == [] then 0 else q[0].Remaining() + Liquidity(q[1..])
  }

  lemma {:induction false} VolumeConcat(a: seq<Trade>, b: seq<Trade>)
    ensures Volume(a + b) == Volume(a) + Volume(b)
  {
    if a == [] {
      assert a + b == b;
    } else {
      assert (a + b)[1..] == a[1..] + b;
      VolumeConcat(a[1..], b);
    }
  }

  lemma {:induction false} VolumeOfConcat(a: seq<Trade>, b: seq<Trade>, id: int)
    ensures VolumeOf(a + b, id) == VolumeOf(a, id) + VolumeOf(b, id)
  {
    if a == [] {
      assert a + b == b;
    } else {
      assert (a + b)[1..] == a[1..] + b;
      VolumeOfConcat(a[1..], b, id);
    }
  }
}
