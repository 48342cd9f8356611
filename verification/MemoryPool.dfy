/** The fixed-size object pool: a stack of free indices. Each call is atomic here. */
module MemoryPool {

  import opened Modular
  import opened Options

  /** The live part of the free stack, and who is out. */
  datatype Pool = Pool(capacity: nat, stack: seq<nat>, out: set<nat>)

  /** Free and allocated indices split 0 .. capacity-1 between them, each index once. */
  ghost predicate Partition(p: Pool) {
    && (forall i, j :: 0 <= i < j < |p.stack| ==> p.stack[i] != p.stack[j])
    && (forall x :: x in p.stack ==> x !in p.out)
    && (forall x :: x in p.stack || x in p.out <==> 0 <= x < p.capacity)
    && |p.stack| + |p.out| == p.capacity
  }

  function Alloc(p: Pool): (Pool, Option<nat>) {
    if p.stack == [] then (p, None)
    else
      var top := p.stack[|p.stack| - 1];
      (p.(stack := p.stack[..|p.stack| - 1], out := p.out + {top}), Some(top))
  }

  function Free(p: Pool, idx: nat): Pool {
    if idx >= p.capacity || |p.stack| >= p.capacity then p
    else p.(stack := p.stack + [idx], out := p.out - {idx})
  }

  lemma AllocKeeps(p: Pool)
    requires Partition(p)
    ensures Partition(Alloc(p).0)
    ensures Alloc(p).1 == None <==> |p.out| == p.capacity
    ensures Alloc(p).1.Some? ==> Alloc(p).1.value !in p.out && Alloc(p).1.value < p.capacity
  {
    if p.stack != [] {
      var n := |p.stack| - 1;
      assert p.stack == p.stack[..n] + [p.stack[n]];
      assert p.stack[n] in p.stack;
    }
  }

  /** Returning an object that is out always succeeds. */
  lemma FreeKeeps(p: Pool, idx: nat)
    requires Partition(p) && idx in p.out
    ensures Partition(Free(p, idx))
    ensures Free(p, idx).stack == p.stack + [idx] && Free(p, idx).out == p.out - {idx}
  {
    assert |p.out - {idx}| == |p.out| - 1;
  }

  /** A free keeps the pool sound exactly when the object is out, or the call is ignored
      because the index is foreign or nothing is out at all. */
  lemma FreeKeepsIff(p: Pool, idx: nat)
    requires Partition(p)
    ensures Partition(Free(p, idx)) <==> idx in p.out || idx >= p.capacity || p.out == {}
  {
    if idx in p.out {
      FreeKeeps(p, idx);
    } else if idx < p.capacity && p.out != {} {
      assert idx in p.stack;
      var i :| 0 <= i < |p.stack| && p.stack[i] == idx;
      if |p.stack| < p.capacity {
        var s := Free(p, idx).stack;
        assert s[i] == s[|p.stack|];
      }
    }
  }

  /** The pool is a stack: an object returned is the next one handed out. */
  lemma ReturnedGoesNext(p: Pool, idx: nat)
    requires Partition(p) && idx in p.out
    ensures Alloc(Free(p, idx)) == (p, Some(idx))
  {
    FreeKeeps(p, idx);
    hide Partition;
    assert (p.stack + [idx])[..|p.stack|] == p.stack;
    assert p.out - {idx} + {idx} == p.out;
  }

  /** Returning an object just handed out undoes the allocation. */
  lemma FreeUndoesAlloc(p: Pool)
    requires Partition(p) && p.stack != []
    ensures Alloc(p).1.Some? && Free(Alloc(p).0, Alloc(p).1.value) == p
  {
    var n := |p.stack| - 1;
    assert p.stack[n] in p.stack && p.stack[n] !in p.out;
    hide Partition;
    assert p.stack[..n] + [p.stack[n]] == p.stack;
    assert p.out + {p.stack[n]} - {p.stack[n]} == p.out;
  }

  // ----- every run -----

  datatype Op = Take | Return(idx: nat)

  function Step(p: Pool, op: Op): Pool {
    match op
    case Take => Alloc(p).0
    case Return(idx) => Free(p, idx)
  }

  /** Callers return only what they hold. */
  ghost predicate Honest(p: Pool, ops: seq<Op>)
    decreases |ops|
  {
    ops == [] || ((ops[0].Return? ==> ops[0].idx in p.out) && Honest(Step(p, ops[0]), ops[1..]))
  }

  function Run(p: Pool, ops: seq<Op>): Pool
    decreases |ops|
  {
    if ops == [] then p else Run(Step(p, ops[0]), ops[1..])
  }

  function Initial(capacity: nat): Pool {
    Pool(capacity, seq(capacity, i requires 0 <= i < capacity => capacity - 1 - i), {})
  }

  lemma InitialOk(capacity: nat)
    ensures Partition(Initial(capacity))
  {
    var p := Initial(capacity);
    forall x ensures x in p.stack || x in p.out <==> 0 <= x < p.capacity {
      if 0 <= x < capacity {
        assert p.stack[capacity - 1 - x] == x;
      }
    }
  }

  lemma {:induction false} RunKeeps(p: Pool, ops: seq<Op>)
    requires Partition(p) && Honest(p, ops)
    ensures Partition(Run(p, ops)) && Run(p, ops).capacity == p.capacity
    decreases |ops|
  {
    if ops != [] {
      if ops[0].Take? {
        AllocKeeps(p);
      } else {
        FreeKeeps(p, ops[0].idx);
      }
      RunKeeps(Step(p, ops[0]), ops[1..]);
    }
  }

  function Takes(k: nat): (ops: seq<Op>)
    ensures |ops| == k
  {
    seq(k, _ => Take)
  }

  /** A new pool hands out its objects in order. */
  lemma {:induction false} HandsOutInOrder(p: Pool, capacity: nat, first: nat, k: nat)
    requires first + k < capacity && p.capacity == capacity && p.stack == Initial(capacity).stack[..capacity - first]
    ensures Alloc(Run(p, Takes(k))).1 == Some(first + k)
    decreases k
  {
    var n := capacity - first - 1;
    assert p.stack[n] == first;
    if k > 0 {
      assert Takes(k)[1..] == Takes(k - 1);
      assert p.stack[..n] == Initial(capacity).stack[..n];
      HandsOutInOrder(Step(p, Take), capacity, first + 1, k - 1);
    }
  }

  /** In every honest run from a new pool the indices stay partitioned, and allocation fails
      exactly when every object is out. */
  lemma EveryRun(capacity: nat, ops: seq<Op>)
    requires Honest(Initial(capacity), ops)
    ensures var p := Run(Initial(capacity), ops);
      Partition(p) && (Alloc(p).1 == None <==> |p.out| == capacity)
    ensures forall k: nat :: k < capacity ==> Alloc(Run(Initial(capacity), Takes(k))).1 == Some(k)
  {
    forall k: nat | k < capacity ensures Alloc(Run(Initial(capacity), Takes(k))).1 == Some(k) {
      assert Initial(capacity).stack[..capacity] == Initial(capacity).stack;
      HandsOutInOrder(Initial(capacity), capacity, 0, k);
    }
    InitialOk(capacity);
    RunKeeps(Initial(capacity), ops);
    AllocKeeps(Run(Initial(capacity), ops));
  }

  // ----- the pool object -----

  /** The object that an offset from the pool's base falls into, as a 32-bit index. */
  function IndexOf(offset: nat, objectSize: nat): nat
    requires objectSize > 0
  {
    offset / objectSize % WORD
  }

  class MemPool {
    const objectSize: nat
    const capacity: nat
    var freeList: array<nat>
    var freeTop: nat
    ghost var out: set<nat>

    ghost predicate Valid()
      reads this, freeList
    {
      && objectSize > 0 && 0 < capacity < WORD && freeList.Length == capacity && freeTop <= capacity
    }

    ghost function Abs(): Pool
      requires Valid()
      reads this, freeList
    {
      Pool(capacity, freeList[..freeTop], out)
    }

    constructor (objectSize: nat, capacity: nat)
      requires objectSize > 0 && 0 < capacity < WORD
      ensures Valid() && fresh(freeList) && Abs() == Initial(capacity) && Partition(Abs())
      ensures this.capacity == capacity && this.objectSize == if objectSize < 4 then 4 else objectSize
    {
      this.objectSize := if objectSize < 4 then 4 else objectSize;
      this.capacity := capacity;
      var list := new nat[capacity];
      var i := 0;
      while i < capacity
        invariant i <= capacity
        invariant forall k :: 0 <= k < i ==> list[k] == capacity - 1 - k
      {
        list[i] := capacity - 1 - i;
        i := i + 1;
      }
      freeList := list;
      freeTop := capacity;
      out := {};
      InitialOk(capacity);
      assert list[..capacity] == Initial(capacity).stack;
    }

    /** Pop an index; the object is at that many object sizes from the pool's base. */
    method Allocate() returns (offset: Option<nat>)
      requires Valid()
      modifies this`freeTop, this`out
      ensures Valid()
      ensures Abs() == Alloc(old(Abs())).0
      ensures match Alloc(old(Abs())).1
        case None => offset == None
        case Some(idx) => offset == Some(idx * objectSize)
    {
      var top := freeTop;
      freeTop := (freeTop - 1) % WORD;
      if top == 0 {
        freeTop := (freeTop + 1) % WORD;
        return None;
      }
      var idx := freeList[top - 1];
      out := out + {idx};
      assert freeList[..top][..top - 1] == freeList[..freeTop];
      return Some(idx * objectSize);
    }

    /** Push back the index that an offset from the pool's base falls into. */
    method Release(offset: nat)
      requires Valid()
      modifies this`freeTop, this`out, freeList
      ensures Valid()
      ensures Abs() == Free(old(Abs()), IndexOf(offset, objectSize))
    {
      hide IndexOf;
      var idx := IndexOf(offset, objectSize);
      if idx >= capacity {
        return;
      }
      var slot := freeTop;
      freeTop := (freeTop + 1) % WORD;
      if slot >= capacity {
        freeTop := (freeTop - 1) % WORD;
        return;
      }
      freeList[slot] := idx;
      out := out - {idx};
      assert freeList[..slot + 1] == old(freeList[..slot]) + [idx];
    }
  }

  /** The offset handed out by an allocation frees the same index again. */
  lemma OffsetRoundTrip(idx: nat, objectSize: nat, capacity: nat)
    requires idx < capacity < WORD && objectSize > 0
    ensures IndexOf(idx * objectSize, objectSize) == idx
  {
    ModUnique(idx * objectSize, objectSize, idx, 0);
    ModUnique(idx, WORD, 0, idx);
  }
}
