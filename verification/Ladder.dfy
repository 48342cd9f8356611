/** One side of the book as it is stored: price levels in priority order, each a list of
    handles to order nodes, plus the id index. A handle plays the part of a list iterator:
    it stays the same while other nodes come and go. */
module Ladder {
  import opened Orders
  import opened FlatMatching
  import opened BookSpec

  type Handle = nat
  type Nodes = map<Handle, Order>

  datatype Level = Level(price: real, entries: seq<Handle>)

  /** All handles of a side, best price first, oldest first within a price. */
  function Handles(levels: seq<Level>): seq<Handle> {
    if levels == [] then [] else levels[0].entries + Handles(levels[1..])
  }

  function NodeAt(nodes: Nodes, h: Handle): Order {
    if h in nodes then nodes[h] else EMPTY_ORDER
  }

  function Contents(hs: seq<Handle>, nodes: Nodes): seq<Order> {
    seq(|hs|, i requires 0 <= i < |hs| => NodeAt(nodes, hs[i]))
  }

  /** The flat queue a ladder stands for. */
  function Flat(levels: seq<Level>, nodes: Nodes): seq<Order> {
    Contents(Handles(levels), nodes)
  }

  ghost predicate NoDup(hs: seq<Handle>) {
    forall i, j :: 0 <= i < j < |hs| ==> hs[i] != hs[j]
  }

  ghost predicate NodeOk(side: Side, price: real, nodes: Nodes, h: Handle) {
    h in nodes && Fits(side, nodes[h]) && nodes[h].price == price
  }

  ghost predicate LevelOk(side: Side, l: Level, nodes: Nodes) {
    forall i :: 0 <= i < |l.entries| ==> NodeOk(side, l.price, nodes, l.entries[i])
  }

  ghost predicate Descending(side: Side, levels: seq<Level>) {
    forall i, j :: 0 <= i < j < |levels| ==> Better(side, levels[i].price, levels[j].price)
  }

  ghost predicate LadderOk(side: Side, levels: seq<Level>, nodes: Nodes) {
    && Descending(side, levels)
    && (forall i :: 0 <= i < |levels| ==> LevelOk(side, levels[i], nodes))
    && NoDup(Handles(levels))
  }

  ghost predicate NoEmptyLevel(levels: seq<Level>) {
    forall i :: 0 <= i < |levels| ==> levels[i].entries != []
  }

  /** An id is in the index exactly when a node has it, and the index leads to that node. */
  ghost predicate Indexed(nodes: Nodes, index: map<int, Handle>) {
    && (forall id :: id in index ==> index[id] in nodes && nodes[index[id]].id == id)
    && (forall h :: h in nodes ==> nodes[h].id in index && index[nodes[h].id] == h)
  }

  /** Every node hangs on the ladder of its own side. */
  ghost predicate Covered(side: Side, levels: seq<Level>, other: seq<Level>, nodes: Nodes) {
    forall h :: h in nodes ==> h in Handles(if nodes[h].side == side then levels else other)
  }

  ghost predicate Linked(
    side: Side, levels: seq<Level>, other: seq<Level>, nodes: Nodes, index: map<int, Handle>)
  {
    && LadderOk(side, levels, nodes)
    && LadderOk(side.Opposite(), other, nodes)
    && Covered(side, levels, other, nodes)
    && Indexed(nodes, index)
  }

  lemma LinkedFlips(
    side: Side, levels: seq<Level>, other: seq<Level>, nodes: Nodes, index: map<int, Handle>)
    requires Linked(side, levels, other, nodes, index)
    ensures Linked(side.Opposite(), other, levels, nodes, index)
  {
  }

  // ----- handles -----

  lemma {:induction false} HandlesConcat(a: seq<Level>, b: seq<Level>)
    ensures Handles(a + b) == Handles(a) + Handles(b)
  {
    if a == [] {
      assert a + b == b;
    } else {
      assert (a + b)[1..] == a[1..] + b;
      HandlesConcat(a[1..], b);
    }
  }

  /** The handle list around level k. */
  lemma HandlesAround(levels: seq<Level>, k: nat)
    requires k < |levels|
    ensures Handles(levels) == Handles(levels[..k]) + levels[k].entries + Handles(levels[k+1..])
  {
    assert levels == levels[..k] + levels[k..];
    HandlesConcat(levels[..k], levels[k..]);
    assert levels[k..][1..] == levels[k+1..];
  }

  /** Every listed handle is one of some level's. */
  lemma {:induction false} HandleLevel(side: Side, levels: seq<Level>, nodes: Nodes, h: Handle)
    requires forall i :: 0 <= i < |levels| ==> LevelOk(side, levels[i], nodes)
    requires h in Handles(levels)
    ensures exists k :: 0 <= k < |levels| && h in levels[k].entries
    ensures h in nodes && Fits(side, nodes[h])
  {
    if h !in levels[0].entries {
      HandleLevel(side, levels[1..], nodes, h);
      var k :| 0 <= k < |levels[1..]| && h in levels[1..][k].entries;
      assert h in levels[k+1].entries;
    } else {
      var i :| 0 <= i < |levels[0].entries| && levels[0].entries[i] == h;
      assert NodeOk(side, levels[0].price, nodes, levels[0].entries[i]);
    }
  }

  lemma EntryListed(levels: seq<Level>, k: nat, h: Handle)
    requires k < |levels| && h in levels[k].entries
    ensures h in Handles(levels)
  {
    HandlesAround(levels, k);
  }

  // ----- the index -----

  /** Every node is listed, in the queue of its own side. */
  lemma NodeListed(
    side: Side, levels: seq<Level>, other: seq<Level>, nodes: Nodes, index: map<int, Handle>, id: int)
    requires Linked(side, levels, other, nodes, index) && id in index && nodes[index[id]].side == side
    ensures nodes[index[id]] in Flat(levels, nodes) && HasId(Flat(levels, nodes), id)
  {
    var hs := Handles(levels);
    var i :| 0 <= i < |hs| && hs[i] == index[id];
    assert Flat(levels, nodes)[i] == nodes[index[id]];
  }

  lemma ListedIndexed(side: Side, levels: seq<Level>, nodes: Nodes, index: map<int, Handle>, id: int)
    requires LadderOk(side, levels, nodes) && Indexed(nodes, index) && HasId(Flat(levels, nodes), id)
    ensures id in index && nodes[index[id]].side == side
  {
    var i :| 0 <= i < |Flat(levels, nodes)| && Flat(levels, nodes)[i].id == id;
    HandleLevel(side, levels, nodes, Handles(levels)[i]);
  }

  /** An id is indexed exactly when an order with that id rests on one of the sides. */
  lemma IndexAgrees(bids: seq<Level>, asks: seq<Level>, nodes: Nodes, index: map<int, Handle>, id: int)
    requires Linked(Buy, bids, asks, nodes, index)
    ensures id in index <==> HasId(Flat(bids, nodes), id) || HasId(Flat(asks, nodes), id)
  {
    if id in index {
      LinkedFlips(Buy, bids, asks, nodes, index);
      if nodes[index[id]].side == Buy {
        NodeListed(Buy, bids, asks, nodes, index, id);
      } else {
        NodeListed(Sell, asks, bids, nodes, index, id);
      }
    } else if HasId(Flat(bids, nodes), id) {
      ListedIndexed(Buy, bids, nodes, index, id);
    } else if HasId(Flat(asks, nodes), id) {
      ListedIndexed(Sell, asks, nodes, index, id);
    }
  }

  // ----- changing one node -----

  /** Two node stores that agree on a side's handles show the same side. */
  lemma SameLadder(side: Side, levels: seq<Level>, nodes: Nodes, nodes': Nodes)
    requires LadderOk(side, levels, nodes)
    requires forall h :: h in Handles(levels) && h in nodes ==> h in nodes' && nodes'[h] == nodes[h]
    ensures LadderOk(side, levels, nodes')
    ensures Flat(levels, nodes') == Flat(levels, nodes)
  {
    forall k | 0 <= k < |levels| ensures LevelOk(side, levels[k], nodes') {
      forall i | 0 <= i < |levels[k].entries| ensures NodeOk(side, levels[k].price, nodes', levels[k].entries[i]) {
        assert LevelOk(side, levels[k], nodes);
        EntryListed(levels, k, levels[k].entries[i]);
      }
    }
    forall h | h in Handles(levels) ensures h in nodes {
      HandleLevel(side, levels, nodes, h);
    }
  }

  /** The other side does not mention a node of this side. */
  lemma OtherSideFree(side: Side, levels: seq<Level>, nodes: Nodes, h: Handle)
    requires LadderOk(side, levels, nodes) && h in nodes && nodes[h].side != side
    ensures h !in Handles(levels)
  {
    if h in Handles(levels) {
      HandleLevel(side, levels, nodes, h);
    }
  }

  lemma UnindexOne(nodes: Nodes, index: map<int, Handle>, h: Handle)
    requires Indexed(nodes, index) && h in nodes
    ensures Indexed(nodes - {h}, index - {nodes[h].id})
  {
  }

  // ----- filtering a flat queue -----

  lemma {:induction false} FilterConcat(a: seq<Order>, b: seq<Order>, cut: Cut)
    ensures Filter(a + b, cut) == Filter(a, cut) + Filter(b, cut)
  {
    if a == [] {
      assert a + b == b;
    } else {
      assert (a + b)[1..] == a[1..] + b;
      FilterConcat(a[1..], b, cut);
      var x, y, z := if cut.Drops(a[0]) then [] else [a[0]], Filter(a[1..], cut), Filter(b, cut);
      assert x + (y + z) == (x + y) + z;
    }
  }

  lemma {:induction false} FilterNone(q: seq<Order>, cut: Cut)
    requires forall i :: 0 <= i < |q| ==> !cut.Drops(q[i])
    ensures Filter(q, cut) == q
  {
    if q != [] {
      FilterNone(q[1..], cut);
    }
  }

  lemma {:induction false} FilterAll(q: seq<Order>, cut: Cut)
    requires forall i :: 0 <= i < |q| ==> cut.Drops(q[i])
    ensures Filter(q, cut) == []
  {
    if q != [] {
      FilterAll(q[1..], cut);
    }
  }

  /** If a cut drops exactly the middle part, what is left is the two ends. */
  lemma FilterMiddle(a: seq<Order>, m: seq<Order>, b: seq<Order>, cut: Cut)
    requires forall i :: 0 <= i < |a| ==> !cut.Drops(a[i])
    requires forall i :: 0 <= i < |m| ==> cut.Drops(m[i])
    requires forall i :: 0 <= i < |b| ==> !cut.Drops(b[i])
    ensures Filter(a + m + b, cut) == a + b
  {
    FilterConcat(a + m, b, cut);
    FilterConcat(a, m, cut);
    FilterNone(a, cut);
    FilterAll(m, cut);
    FilterNone(b, cut);
    assert Filter(a + m, cut) == a;
  }

  // ----- matching at the front -----

  /** The level map after erasing the first entry of the first level. */
  function PopFront(levels: seq<Level>): seq<Level>
    requires levels != [] && levels[0].entries != []
  {
    [Level(levels[0].price, levels[0].entries[1..])] + levels[1..]
  }

  lemma PopFrontHandles(levels: seq<Level>)
    requires levels != [] && levels[0].entries != []
    ensures Handles(PopFront(levels)) == Handles(levels)[1..]
    ensures Handles(levels) != [] && Handles(levels)[0] == levels[0].entries[0]
  {
    assert PopFront(levels)[1..] == levels[1..];
  }

  /** Erasing the filled front node, from its list, from the store and from the index. */
  lemma EraseFront(side: Side, levels: seq<Level>, other: seq<Level>, nodes: Nodes, index: map<int, Handle>)
    requires Linked(side, levels, other, nodes, index) && levels != [] && levels[0].entries != []
    ensures var h := levels[0].entries[0];
      && NodeOk(side, levels[0].price, nodes, h)
      && Linked(side, PopFront(levels), other, nodes - {h}, index - {nodes[h].id})
      && Flat(PopFront(levels), nodes - {h}) == Flat(levels, nodes)[1..]
      && Flat(other, nodes - {h}) == Flat(other, nodes)
      && Flat(levels, nodes) != [] && Flat(levels, nodes)[0] == nodes[h]
  {
    var h := levels[0].entries[0];
    var hs := Handles(levels);
    assert LevelOk(side, levels[0], nodes);
    assert NodeOk(side, levels[0].price, nodes, h);
    PopFrontHandles(levels);
    PopFrontOk(side, levels, nodes);
    OtherSideFree(side.Opposite(), other, nodes, h);
    SameLadder(side.Opposite(), other, nodes, nodes - {h});
    SameLadder(side, PopFront(levels), nodes, nodes - {h});
    EraseCovered(side, levels, other, nodes, h);
    UnindexOne(nodes, index, h);
  }

  lemma PopFrontOk(side: Side, levels: seq<Level>, nodes: Nodes)
    requires LadderOk(side, levels, nodes) && levels != [] && levels[0].entries != []
    ensures LadderOk(side, PopFront(levels), nodes)
    ensures levels[0].entries[0] !in Handles(PopFront(levels))
  {
    PopFrontHandles(levels);
    assert LevelOk(side, levels[0], nodes);
  }

  lemma EraseCovered(side: Side, levels: seq<Level>, other: seq<Level>, nodes: Nodes, h: Handle)
    requires Covered(side, levels, other, nodes) && levels != [] && levels[0].entries != []
    requires h == levels[0].entries[0]
    ensures Covered(side, PopFront(levels), other, nodes - {h})
  {
    PopFrontHandles(levels);
  }

  /** Updating the fill of the front node in place. */
  lemma DentFront(
    side: Side, levels: seq<Level>, other: seq<Level>, nodes: Nodes, index: map<int, Handle>, qty: int)
    requires Linked(side, levels, other, nodes, index) && levels != [] && levels[0].entries != []
    requires NodeOk(side, levels[0].price, nodes, levels[0].entries[0])
    requires qty < nodes[levels[0].entries[0]].Remaining()
    ensures var h := levels[0].entries[0];
      var nodes' := nodes[h := Dent(nodes[h], qty)];
      && Linked(side, levels, other, nodes', index)
      && Flat(levels, nodes') == [Dent(nodes[h], qty)] + Flat(levels, nodes)[1..]
      && Flat(other, nodes') == Flat(other, nodes)
  {
    var h := levels[0].entries[0];
    var nodes' := nodes[h := Dent(nodes[h], qty)];
    OtherSideFree(side.Opposite(), other, nodes, h);
    SameLadder(side.Opposite(), other, nodes, nodes');
    DentLadder(side, levels, nodes, qty);
  }

  lemma DentLadder(side: Side, levels: seq<Level>, nodes: Nodes, qty: int)
    requires LadderOk(side, levels, nodes) && levels != [] && levels[0].entries != []
    requires NodeOk(side, levels[0].price, nodes, levels[0].entries[0])
    requires qty < nodes[levels[0].entries[0]].Remaining()
    ensures var h := levels[0].entries[0];
      var nodes' := nodes[h := Dent(nodes[h], qty)];
      LadderOk(side, levels, nodes') && Flat(levels, nodes') == [Dent(nodes[h], qty)] + Flat(levels, nodes)[1..]
  {
    var h := levels[0].entries[0];
    PopFrontHandles(levels);
    forall k | 0 <= k < |levels| ensures LevelOk(side, levels[k], nodes[h := Dent(nodes[h], qty)]) {
      assert LevelOk(side, levels[k], nodes);
    }
  }

  /** An emptied first level can be dropped. */
  lemma DropFrontLevel(side: Side, levels: seq<Level>, other: seq<Level>, nodes: Nodes, index: map<int, Handle>)
    requires Linked(side, levels, other, nodes, index) && levels != [] && levels[0].entries == []
    ensures Linked(side, levels[1..], other, nodes, index)
    ensures Flat(levels[1..], nodes) == Flat(levels, nodes)
  {
    assert Handles(levels) == Handles(levels[1..]);
  }

  // ----- splicing the level map -----

  ghost predicate LevelsOk(side: Side, levels: seq<Level>, nodes: Nodes) {
    && Descending(side, levels) && NoEmptyLevel(levels)
    && forall i :: 0 <= i < |levels| ==> LevelOk(side, levels[i], nodes)
  }

  /** The best order of a ladder is priced as its first level. */
  lemma FrontPrice(side: Side, levels: seq<Level>, nodes: Nodes)
    requires LevelsOk(side, levels, nodes)
    ensures levels == [] ==> Flat(levels, nodes) == []
    ensures levels != [] ==> Flat(levels, nodes) != [] && Flat(levels, nodes)[0].price == levels[0].price
  {
    if levels != [] {
      assert LevelOk(side, levels[0], nodes);
      assert NodeOk(side, levels[0].price, nodes, levels[0].entries[0]);
    }
  }

  /** Replace levels k up to j by `mid`. */
  function Splice(levels: seq<Level>, k: nat, mid: seq<Level>, j: nat): seq<Level>
    requires k <= j <= |levels|
  {
    levels[..k] + mid + levels[j..]
  }

  lemma SpliceHandles(levels: seq<Level>, k: nat, mid: seq<Level>, j: nat)
    requires k <= j <= |levels|
    ensures Handles(Splice(levels, k, mid, j)) == Handles(levels[..k]) + Handles(mid) + Handles(levels[j..])
  {
    HandlesConcat(levels[..k] + mid, levels[j..]);
    HandlesConcat(levels[..k], mid);
  }

  lemma SpliceAt(levels: seq<Level>, k: nat, mid: seq<Level>, j: nat)
    requires k <= j <= |levels|
    ensures var r := Splice(levels, k, mid, j);
      && |r| == k + |mid| + |levels| - j
      && (forall i :: 0 <= i < k ==> r[i] == levels[i])
      && (forall i :: k <= i < k + |mid| ==> r[i] == mid[i - k])
      && (forall i :: k + |mid| <= i < |r| ==> r[i] == levels[i + j - k - |mid|])
  {
  }

  /** Replacing level k, if it is there, by at most one level priced between its neighbours. */
  lemma SpliceLevels(side: Side, levels: seq<Level>, nodes: Nodes, k: nat, mid: seq<Level>, j: nat)
    requires k <= j <= |levels| && LevelsOk(side, levels, nodes) && |mid| <= 1
    requires mid != [] ==>
      && mid[0].entries != [] && LevelOk(side, mid[0], nodes)
      && (forall i :: 0 <= i < k ==> Better(side, levels[i].price, mid[0].price))
      && (forall i :: j <= i < |levels| ==> Better(side, mid[0].price, levels[i].price))
    ensures LevelsOk(side, Splice(levels, k, mid, j), nodes)
  {
    SpliceAt(levels, k, mid, j);
    var r := Splice(levels, k, mid, j);
    forall x, y | 0 <= x < y < |r| ensures Better(side, r[x].price, r[y].price) {
      var shift := j - k - |mid|;
      if x >= k + |mid| {
        assert Better(side, levels[x + shift].price, levels[y + shift].price);
      } else if x < k && y >= k + |mid| {
        assert Better(side, levels[x].price, levels[y + shift].price);
      }
    }
  }

  /** All nodes of a run of levels are priced as those levels are. */
  ghost predicate PricedBy(levels: seq<Level>, nodes: Nodes, hs: seq<Handle>) {
    forall i :: 0 <= i < |hs| ==>
      hs[i] in nodes && exists k :: 0 <= k < |levels| && levels[k].price == nodes[hs[i]].price
  }

  lemma HandlesPriced(side: Side, levels: seq<Level>, nodes: Nodes)
    requires forall i :: 0 <= i < |levels| ==> LevelOk(side, levels[i], nodes)
    ensures PricedBy(levels, nodes, Handles(levels))
  {
    var hs := Handles(levels);
    forall i | 0 <= i < |hs|
      ensures hs[i] in nodes && exists k :: 0 <= k < |levels| && levels[k].price == nodes[hs[i]].price
    {
      HandleLevel(side, levels, nodes, hs[i]);
      var k :| 0 <= k < |levels| && hs[i] in levels[k].entries;
      assert LevelOk(side, levels[k], nodes);
      var e :| 0 <= e < |levels[k].entries| && levels[k].entries[e] == hs[i];
      assert NodeOk(side, levels[k].price, nodes, levels[k].entries[e]);
    }
  }

  lemma ContentsConcat(a: seq<Handle>, b: seq<Handle>, nodes: Nodes)
    ensures Contents(a + b, nodes) == Contents(a, nodes) + Contents(b, nodes)
  {
  }

  // ----- queueing a new order -----

  /** How many levels have strictly better priority than a price. */
  function Rank(side: Side, levels: seq<Level>, price: real): (k: nat)
    ensures k <= |levels|
    ensures forall i :: 0 <= i < k ==> Better(side, levels[i].price, price)
    ensures k < |levels| ==> !Better(side, levels[k].price, price)
  {
    if levels == [] || !Better(side, levels[0].price, price) then 0 else 1 + Rank(side, levels[1..], price)
  }

  /** The end of the levels at least as well priced as a price. */
  function RankEnd(side: Side, levels: seq<Level>, price: real): (j: nat)
    ensures Rank(side, levels, price) <= j <= |levels|
  {
    var k := Rank(side, levels, price);
    if k < |levels| && levels[k].price == price then k + 1 else k
  }

  /** The orders already queued at a price. */
  function Queued(side: Side, levels: seq<Level>, price: real): seq<Handle> {
    Handles(levels[Rank(side, levels, price)..RankEnd(side, levels, price)])
  }

  /** Append to the level of that price, creating the level if there is none. */
  function Place(side: Side, levels: seq<Level>, price: real, h: Handle): seq<Level> {
    Splice(levels, Rank(side, levels, price), [Level(price, Queued(side, levels, price) + [h])],
      RankEnd(side, levels, price))
  }

  lemma PlaceHandles(side: Side, levels: seq<Level>, price: real, h: Handle)
    ensures var j := RankEnd(side, levels, price);
      && Handles(levels) == Handles(levels[..j]) + Handles(levels[j..])
      && Handles(Place(side, levels, price, h)) == Handles(levels[..j]) + [h] + Handles(levels[j..])
  {
    var k, j := Rank(side, levels, price), RankEnd(side, levels, price);
    var es := Queued(side, levels, price);
    assert levels == levels[..j] + levels[j..];
    HandlesConcat(levels[..j], levels[j..]);
    assert levels[..j] == levels[..k] + levels[k..j];
    HandlesConcat(levels[..k], levels[k..j]);
    SpliceHandles(levels, k, [Level(price, es + [h])], j);
    assert Handles([Level(price, es + [h])]) == es + [h];
    Reassociate(Handles(levels[..k]), es, h, [], Handles(levels[j..]));
    assert es + [h] + [] == es + [h] && [] + Handles(levels[j..]) == Handles(levels[j..]);
  }

  lemma Reassociate(x: seq<Handle>, e: seq<Handle>, h: Handle, f: seq<Handle>, y: seq<Handle>)
    ensures x + (e + [h] + f) + y == (x + e) + [h] + (f + y)
    ensures x + (e + f) + y == (x + e) + (f + y)
  {
  }

  /** The new handle goes behind every handle at least as well priced. */
  lemma PlacePriority(side: Side, levels: seq<Level>, nodes: Nodes, price: real)
    requires LevelsOk(side, levels, nodes)
    ensures var j := RankEnd(side, levels, price);
      var a, b := Handles(levels[..j]), Handles(levels[j..]);
      && (forall i :: 0 <= i < |a| ==> a[i] in nodes && !Better(side, price, nodes[a[i]].price))
      && (forall i :: 0 <= i < |b| ==> b[i] in nodes && Better(side, price, nodes[b[i]].price))
  {
    var j := RankEnd(side, levels, price);
    HandlesPriced(side, levels[..j], nodes);
    HandlesPriced(side, levels[j..], nodes);
    PlacePrices(side, levels, price);
  }

  lemma PlacePrices(side: Side, levels: seq<Level>, price: real)
    requires Descending(side, levels)
    ensures var j := RankEnd(side, levels, price);
      && (forall i :: 0 <= i < j ==> !Better(side, price, levels[..j][i].price))
      && (forall i :: 0 <= i < |levels| - j ==> Better(side, price, levels[j..][i].price))
  {
    var k, j := Rank(side, levels, price), RankEnd(side, levels, price);
    forall i | j <= i < |levels| ensures Better(side, price, levels[i].price) {
      assert k < i ==> Better(side, levels[k].price, levels[i].price);
    }
  }

  lemma {:induction false} SlotSkips(side: Side, a: seq<Order>, b: seq<Order>, price: real)
    requires forall i :: 0 <= i < |a| ==> !Better(side, price, a[i].price)
    requires b != [] ==> Better(side, price, b[0].price)
    ensures Slot(side, a + b, price) == |a|
  {
    if a == [] {
      assert a + b == b;
    } else {
      assert (a + b)[1..] == a[1..] + b;
      SlotSkips(side, a[1..], b, price);
    }
  }

  lemma InsertBetween(side: Side, a: seq<Order>, b: seq<Order>, o: Order)
    requires forall i :: 0 <= i < |a| ==> !Better(side, o.price, a[i].price)
    requires b != [] ==> Better(side, o.price, b[0].price)
    ensures Insert(side, a + b, o) == a + [o] + b
  {
    SlotSkips(side, a, b, o.price);
  }

  lemma PlaceLevels(side: Side, levels: seq<Level>, nodes: Nodes, h: Handle, price: real)
    requires LevelsOk(side, levels, nodes) && NodeOk(side, price, nodes, h)
    ensures LevelsOk(side, Place(side, levels, price, h), nodes)
  {
    var k, j := Rank(side, levels, price), RankEnd(side, levels, price);
    var es := Queued(side, levels, price);
    PlacePrices(side, levels, price);
    assert forall i :: j <= i < |levels| ==> levels[i] == levels[j..][i - j];
    QueuedOk(side, levels, nodes, price);
    SpliceLevels(side, levels, nodes, k, [Level(price, es + [h])], j);
  }

  lemma QueuedOk(side: Side, levels: seq<Level>, nodes: Nodes, price: real)
    requires LevelsOk(side, levels, nodes)
    ensures LevelOk(side, Level(price, Queued(side, levels, price)), nodes)
  {
    var k, j := Rank(side, levels, price), RankEnd(side, levels, price);
    if j > k {
      assert levels[k..j] == [levels[k]];
      assert Handles([levels[k]]) == levels[k].entries;
      assert LevelOk(side, levels[k], nodes);
    }
  }

  /** Storing a new node changes nothing about the nodes already listed. */
  lemma NewNodeIrrelevant(side: Side, levels: seq<Level>, nodes: Nodes, h: Handle, o: Order)
    requires LadderOk(side, levels, nodes) && h !in nodes
    ensures LadderOk(side, levels, nodes[h := o])
    ensures Flat(levels, nodes[h := o]) == Flat(levels, nodes)
    ensures h !in Handles(levels)
  {
    SameLadder(side, levels, nodes, nodes[h := o]);
    if h in Handles(levels) {
      HandleLevel(side, levels, nodes, h);
    }
  }

  lemma PlaceFlat(side: Side, nodes: Nodes, h: Handle, o: Order, a: seq<Handle>, b: seq<Handle>)
    requires h !in nodes
    requires forall i :: 0 <= i < |a| ==> a[i] in nodes && !Better(side, o.price, nodes[a[i]].price)
    requires forall i :: 0 <= i < |b| ==> b[i] in nodes && Better(side, o.price, nodes[b[i]].price)
    ensures Contents(a + [h] + b, nodes[h := o]) == Insert(side, Contents(a + b, nodes), o)
  {
    var nodes' := nodes[h := o];
    ContentsConcat(a, b, nodes);
    InsertBetween(side, Contents(a, nodes), Contents(b, nodes), o);
    ContentsConcat(a + [h], b, nodes');
    ContentsConcat(a, [h], nodes');
    assert Contents(a, nodes') == Contents(a, nodes) && Contents(b, nodes') == Contents(b, nodes);
    assert Contents([h], nodes') == [o];
  }

  lemma JoinNoDup(a: seq<Handle>, h: Handle, b: seq<Handle>)
    requires NoDup(a + b) && h !in a + b
    ensures NoDup(a + [h] + b)
  {
    var w := a + [h] + b;
    forall i, j | 0 <= i < j < |w| ensures w[i] != w[j] {
      assert i < |a| ==> w[i] == (a + b)[i];
      assert i > |a| ==> w[i] == (a + b)[i-1];
      assert j < |a| ==> w[j] == (a + b)[j];
      assert j > |a| ==> w[j] == (a + b)[j-1];
    }
  }

  /** Storing, listing and indexing a new order. */
  lemma PlaceLinked(
    side: Side, levels: seq<Level>, other: seq<Level>, nodes: Nodes, index: map<int, Handle>, h: Handle, o: Order)
    requires Linked(side, levels, other, nodes, index) && NoEmptyLevel(levels)
    requires h !in nodes && o.id !in index && Fits(side, o)
    ensures Linked(side, Place(side, levels, o.price, h), other, nodes[h := o], index[o.id := h])
    ensures NoEmptyLevel(Place(side, levels, o.price, h))
    ensures Flat(Place(side, levels, o.price, h), nodes[h := o]) == Insert(side, Flat(levels, nodes), o)
    ensures Flat(other, nodes[h := o]) == Flat(other, nodes)
  {
    var j := RankEnd(side, levels, o.price);
    NewNodeIrrelevant(side, levels, nodes, h, o);
    NewNodeIrrelevant(side.Opposite(), other, nodes, h, o);
    PlaceLadder(side, levels, nodes, h, o);
    PlaceHandles(side, levels, o.price, h);
    PlaceCovered(side, levels, Place(side, levels, o.price, h), other, nodes, h, o,
      Handles(levels[..j]), Handles(levels[j..]));
    IndexOne(nodes, index, h, o);
  }

  lemma PlaceLadder(side: Side, levels: seq<Level>, nodes: Nodes, h: Handle, o: Order)
    requires LadderOk(side, levels, nodes) && NoEmptyLevel(levels) && h !in nodes && Fits(side, o)
    ensures LadderOk(side, Place(side, levels, o.price, h), nodes[h := o])
    ensures NoEmptyLevel(Place(side, levels, o.price, h))
    ensures Flat(Place(side, levels, o.price, h), nodes[h := o]) == Insert(side, Flat(levels, nodes), o)
  {
    var j := RankEnd(side, levels, o.price);
    var a, b := Handles(levels[..j]), Handles(levels[j..]);
    NewNodeIrrelevant(side, levels, nodes, h, o);
    PlaceHandles(side, levels, o.price, h);
    PlacePriority(side, levels, nodes, o.price);
    PlaceFlat(side, nodes, h, o, a, b);
    PlaceLevels(side, levels, nodes[h := o], h, o.price);
    JoinNoDup(a, h, b);
  }

  lemma IndexOne(nodes: Nodes, index: map<int, Handle>, h: Handle, o: Order)
    requires Indexed(nodes, index) && h !in nodes && o.id !in index
    ensures Indexed(nodes[h := o], index[o.id := h])
  {
  }

  lemma PlaceCovered(
    side: Side, levels: seq<Level>, levels': seq<Level>, other: seq<Level>, nodes: Nodes, h: Handle, o: Order,
    a: seq<Handle>, b: seq<Handle>)
    requires Covered(side, levels, other, nodes) && Handles(levels) == a + b && Handles(levels') == a + [h] + b
    requires o.side == side
    ensures Covered(side, levels', other, nodes[h := o])
  {
  }

  // ----- unlinking one order -----

  function FindLevel(levels: seq<Level>, price: real): (k: nat)
    ensures k <= |levels|
    ensures k < |levels| ==> levels[k].price == price
    ensures forall i :: 0 <= i < k ==> levels[i].price != price
  {
    if levels == [] || levels[0].price == price then 0 else 1 + FindLevel(levels[1..], price)
  }

  function Position(hs: seq<Handle>, h: Handle): (p: nat)
    ensures p <= |hs|
    ensures p < |hs| <==> h in hs
    ensures p < |hs| ==> hs[p] == h
  {
    if hs == [] || hs[0] == h then 0 else 1 + Position(hs[1..], h)
  }

  /** Unlink one node from a list. */
  function Erase(hs: seq<Handle>, h: Handle): seq<Handle>
    requires h in hs
  {
    var p := Position(hs, h);
    hs[..p] + hs[p+1..]
  }

  /** What unlinking one node leaves of its level: nothing, if that empties it. */
  function Kept(l: Level, h: Handle): seq<Level>
    requires h in l.entries
  {
    var es := Erase(l.entries, h);
    if es == [] then [] else [Level(l.price, es)]
  }

  function Unlink(levels: seq<Level>, k: nat, h: Handle): seq<Level>
    requires k < |levels| && h in levels[k].entries
  {
    Splice(levels, k, Kept(levels[k], h), k + 1)
  }

  lemma SamePriceSameLevel(side: Side, levels: seq<Level>, i: nat, j: nat)
    requires Descending(side, levels) && i <= j < |levels| && levels[i].price == levels[j].price
    ensures i == j
  {
  }

  /** The stored handle denotes an entry of the level that its node's price names. */
  lemma HandleAtItsLevel(side: Side, levels: seq<Level>, nodes: Nodes, h: Handle)
    requires LadderOk(side, levels, nodes) && h in Handles(levels)
    ensures h in nodes
    ensures var k := FindLevel(levels, nodes[h].price); k < |levels| && h in levels[k].entries
  {
    HandleLevel(side, levels, nodes, h);
    var k :| 0 <= k < |levels| && h in levels[k].entries;
    assert LevelOk(side, levels[k], nodes);
    var i :| 0 <= i < |levels[k].entries| && levels[k].entries[i] == h;
    assert NodeOk(side, levels[k].price, nodes, levels[k].entries[i]);
    SamePriceSameLevel(side, levels, FindLevel(levels, nodes[h].price), k);
  }

  lemma UnlinkHandles(levels: seq<Level>, k: nat, h: Handle) returns (a: seq<Handle>, b: seq<Handle>)
    requires k < |levels| && h in levels[k].entries
    ensures Handles(levels) == a + [h] + b
    ensures Handles(Unlink(levels, k, h)) == a + b
  {
    var es := levels[k].entries;
    var p := Position(es, h);
    var mid := Kept(levels[k], h);
    HandlesAround(levels, k);
    SpliceHandles(levels, k, mid, k + 1);
    assert Handles(mid) == es[..p] + es[p+1..];
    a := Handles(levels[..k]) + es[..p];
    b := es[p+1..] + Handles(levels[k+1..]);
    Reassociate(Handles(levels[..k]), es[..p], h, es[p+1..], Handles(levels[k+1..]));
    assert es == es[..p] + [h] + es[p+1..];
  }

  lemma UnlinkLevels(side: Side, levels: seq<Level>, nodes: Nodes, k: nat, h: Handle)
    requires k < |levels| && h in levels[k].entries && LevelsOk(side, levels, nodes)
    ensures LevelsOk(side, Unlink(levels, k, h), nodes)
  {
    var es := levels[k].entries;
    var p := Position(es, h);
    assert LevelOk(side, levels[k], nodes);
    assert forall i :: 0 <= i < |Erase(es, h)| ==> Erase(es, h)[i] == es[if i < p then i else i + 1];
    SpliceLevels(side, levels, nodes, k, Kept(levels[k], h), k + 1);
  }

  lemma PartsNoDup(a: seq<Handle>, h: Handle, b: seq<Handle>)
    requires NoDup(a + [h] + b)
    ensures NoDup(a + b) && h !in a + b
  {
    var w := a + [h] + b;
    forall i, j | 0 <= i < j < |a + b| ensures (a + b)[i] != (a + b)[j] {
      assert (a + b)[i] == w[if i < |a| then i else i + 1] && (a + b)[j] == w[if j < |a| then j else j + 1];
    }
    forall i | 0 <= i < |a + b| ensures (a + b)[i] != h {
      assert (a + b)[i] == w[if i < |a| then i else i + 1] && w[|a|] == h;
    }
  }

  lemma UnlinkLadder(
    side: Side, levels: seq<Level>, nodes: Nodes, k: nat, h: Handle, a: seq<Handle>, b: seq<Handle>)
    requires k < |levels| && h in levels[k].entries && LadderOk(side, levels, nodes) && NoEmptyLevel(levels)
    requires Handles(levels) == a + [h] + b && Handles(Unlink(levels, k, h)) == a + b
    ensures h !in a + b
    ensures LadderOk(side, Unlink(levels, k, h), nodes - {h}) && NoEmptyLevel(Unlink(levels, k, h))
    ensures Flat(Unlink(levels, k, h), nodes - {h}) == Contents(a + b, nodes)
  {
    PartsNoDup(a, h, b);
    UnlinkLevels(side, levels, nodes, k, h);
    SameLadder(side, Unlink(levels, k, h), nodes, nodes - {h});
  }

  /** Constant-time cancellation through the index equals filtering the flat queues by id. */
  lemma UnlinkLinked(
    side: Side, levels: seq<Level>, other: seq<Level>, nodes: Nodes, index: map<int, Handle>, id: int)
    requires Linked(side, levels, other, nodes, index) && NoEmptyLevel(levels) && NoEmptyLevel(other)
    requires id in index && nodes[index[id]].side == side
    ensures var h := index[id];
      var k := FindLevel(levels, nodes[h].price);
      && k < |levels| && h in levels[k].entries
      && Linked(side, Unlink(levels, k, h), other, nodes - {h}, index - {id})
      && NoEmptyLevel(Unlink(levels, k, h))
      && Flat(Unlink(levels, k, h), nodes - {h}) == Filter(Flat(levels, nodes), ById(id))
      && Flat(other, nodes - {h}) == Filter(Flat(other, nodes), ById(id))
  {
    var h := index[id];
    HandleAtItsLevel(side, levels, nodes, h);
    var k := FindLevel(levels, nodes[h].price);
    var a, b := UnlinkHandles(levels, k, h);
    UnlinkLadder(side, levels, nodes, k, h, a, b);
    UnlinkFlat(side, levels, nodes, index, id, a, b);
    UnlinkOther(side.Opposite(), other, nodes, index, id);
    UnlinkCovered(side, levels, Unlink(levels, k, h), other, nodes, h, a, b);
    UnindexOne(nodes, index, h);
  }

  lemma UnlinkCovered(
    side: Side, levels: seq<Level>, r: seq<Level>, other: seq<Level>, nodes: Nodes, h: Handle,
    a: seq<Handle>, b: seq<Handle>)
    requires Covered(side, levels, other, nodes) && Handles(levels) == a + [h] + b && Handles(r) == a + b
    ensures Covered(side, r, other, nodes - {h})
  {
  }

  lemma UnlinkFlat(
    side: Side, levels: seq<Level>, nodes: Nodes, index: map<int, Handle>, id: int, a: seq<Handle>, b: seq<Handle>)
    requires LadderOk(side, levels, nodes) && Indexed(nodes, index) && id in index
    requires Handles(levels) == a + [index[id]] + b && index[id] !in a + b
    ensures Contents(a + b, nodes) == Filter(Flat(levels, nodes), ById(id))
  {
    var h := index[id];
    ContentsConcat(a + [h], b, nodes);
    ContentsConcat(a, [h], nodes);
    ContentsConcat(a, b, nodes);
    forall x | x in a + b ensures x in nodes && nodes[x].id != id {
      assert x in Handles(levels);
      HandleLevel(side, levels, nodes, x);
    }
    assert forall i :: 0 <= i < |a| ==> a[i] in a + b;
    assert forall i :: 0 <= i < |b| ==> b[i] in a + b;
    FilterMiddle(Contents(a, nodes), Contents([h], nodes), Contents(b, nodes), ById(id));
  }

  lemma UnlinkOther(side: Side, levels: seq<Level>, nodes: Nodes, index: map<int, Handle>, id: int)
    requires LadderOk(side, levels, nodes) && Indexed(nodes, index)
    requires id in index && nodes[index[id]].side != side
    ensures LadderOk(side, levels, nodes - {index[id]})
    ensures Flat(levels, nodes - {index[id]}) == Filter(Flat(levels, nodes), ById(id))
  {
    var hs := Handles(levels);
    OtherSideFree(side, levels, nodes, index[id]);
    forall i | 0 <= i < |hs| ensures NodeAt(nodes, hs[i]).id != id {
      HandleLevel(side, levels, nodes, hs[i]);
    }
    FilterNone(Flat(levels, nodes), ById(id));
    SameLadder(side, levels, nodes, nodes - {index[id]});
  }

  // ----- removing a whole level -----

  function Dropped(levels: seq<Level>, k: nat): seq<Level>
    requires k < |levels|
  {
    Splice(levels, k, [], k + 1)
  }

  /** The store without the nodes of a list. */
  function Without(nodes: Nodes, hs: seq<Handle>): Nodes {
    map h | h in nodes && h !in hs :: nodes[h]
  }

  /** The index without the ids of the nodes of a list. */
  function Unindexed(index: map<int, Handle>, hs: seq<Handle>): map<int, Handle> {
    map id | id in index && index[id] !in hs :: index[id]
  }

  lemma UnindexStep(nodes: Nodes, index: map<int, Handle>, hs: seq<Handle>, h: Handle)
    requires Indexed(nodes, index) && h in nodes
    ensures Unindexed(index, hs + [h]) == Unindexed(index, hs) - {nodes[h].id}
  {
    forall id | id in index ensures index[id] == h <==> id == nodes[h].id {
    }
  }

  lemma DropLinked(
    side: Side, levels: seq<Level>, other: seq<Level>, nodes: Nodes, index: map<int, Handle>, k: nat)
    requires Linked(side, levels, other, nodes, index) && NoEmptyLevel(levels) && k < |levels|
    ensures var es := levels[k].entries;
      var nodes' := Without(nodes, es);
      && Indexed(nodes, index)
      && (forall h :: h in es ==> h in nodes)
      && Linked(side, Dropped(levels, k), other, nodes', Unindexed(index, es))
      && NoEmptyLevel(Dropped(levels, k))
      && Flat(Dropped(levels, k), nodes') == Filter(Flat(levels, nodes), AtPrice(levels[k].price))
      && Flat(other, nodes') == Flat(other, nodes)
  {
    var es := levels[k].entries;
    var nodes' := Without(nodes, es);
    var a, b := Handles(levels[..k]), Handles(levels[k+1..]);
    HandlesAround(levels, k);
    SpliceHandles(levels, k, [], k + 1);
    assert a + [] + b == a + b;
    SpliceLevels(side, levels, nodes, k, [], k + 1);
    MiddleNoDup(a, es, b);
    SameLadder(side, Dropped(levels, k), nodes, nodes');
    LevelSides(side, levels, nodes, k);
    forall h | h in Handles(other) ensures h !in es {
      HandleLevel(side.Opposite(), other, nodes, h);
    }
    SameLadder(side.Opposite(), other, nodes, nodes');
    DropFlat(side, levels, nodes, k);
    DropCovered(side, levels, other, nodes, k, a, b);
  }

  lemma LevelSides(side: Side, levels: seq<Level>, nodes: Nodes, k: nat)
    requires k < |levels| && LevelOk(side, levels[k], nodes)
    ensures forall h :: h in levels[k].entries ==>
      h in nodes && nodes[h].side == side && nodes[h].price == levels[k].price
  {
    forall h | h in levels[k].entries
      ensures h in nodes && nodes[h].side == side && nodes[h].price == levels[k].price
    {
      var i :| 0 <= i < |levels[k].entries| && levels[k].entries[i] == h;
      assert NodeOk(side, levels[k].price, nodes, levels[k].entries[i]);
    }
  }

  lemma MiddleNoDup(a: seq<Handle>, m: seq<Handle>, b: seq<Handle>)
    requires NoDup(a + m + b)
    ensures NoDup(a + b) && forall h :: h in a + b ==> h !in m
  {
    var w := a + m + b;
    forall i, j | 0 <= i < j < |a + b| ensures (a + b)[i] != (a + b)[j] {
      assert (a + b)[i] == w[if i < |a| then i else i + |m|];
      assert (a + b)[j] == w[if j < |a| then j else j + |m|];
    }
    forall i, j | 0 <= i < |a + b| && 0 <= j < |m| ensures (a + b)[i] != m[j] {
      assert (a + b)[i] == w[if i < |a| then i else i + |m|] && m[j] == w[|a| + j];
    }
  }

  lemma DropFlat(side: Side, levels: seq<Level>, nodes: Nodes, k: nat)
    requires LadderOk(side, levels, nodes) && k < |levels|
    ensures Contents(Handles(levels[..k]) + Handles(levels[k+1..]), nodes)
      == Filter(Flat(levels, nodes), AtPrice(levels[k].price))
  {
    var es := levels[k].entries;
    var a, b := Handles(levels[..k]), Handles(levels[k+1..]);
    HandlesAround(levels, k);
    ContentsConcat(a + es, b, nodes);
    ContentsConcat(a, es, nodes);
    ContentsConcat(a, b, nodes);
    HandlesPriced(side, levels[..k], nodes);
    HandlesPriced(side, levels[k+1..], nodes);
    LevelSides(side, levels, nodes, k);
    assert forall i :: k + 1 <= i < |levels| ==> levels[i] == levels[k+1..][i - (k + 1)];
    assert forall i :: 0 <= i < |es| ==> es[i] in es;
    FilterMiddle(Contents(a, nodes), Contents(es, nodes), Contents(b, nodes), AtPrice(levels[k].price));
  }

  lemma DropCovered(
    side: Side, levels: seq<Level>, other: seq<Level>, nodes: Nodes, k: nat, a: seq<Handle>, b: seq<Handle>)
    requires Covered(side, levels, other, nodes) && k < |levels|
    requires Handles(levels) == a + levels[k].entries + b && Handles(Dropped(levels, k)) == a + b
    ensures Covered(side, Dropped(levels, k), other, Without(nodes, levels[k].entries))
  {
  }
}
