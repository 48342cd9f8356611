/** A bounded first-in first-out queue: what a ring buffer is to its users. */
module BoundedFifo {

  function Push<T>(q: seq<T>, x: T, limit: nat): (seq<T>, bool) {
    if |q| < limit then (q + [x], true) else (q, false)
  }

  function Pop<T>(q: seq<T>): (seq<T>, seq<T>) {
    if q == [] then ([], []) else (q[1..], [q[0]])
  }
}

/** The lock-free ring of one producer and one consumer, as the interleaving of their
    atomic steps. A shared index is the list of values ever stored in it; a load by the other
    thread may return any of them that is not older than what that thread saw before. */
module SpscRing {
  import opened Modular
  import opened RingArithmetic
  import BoundedFifo

  datatype Producer<T> =
    | PIdle
    | PLoadedHead(data: T, head: nat)
    | PLoadedTail(data: T, head: nat, tail: nat)
    | PWrote(data: T, next: nat)

  datatype Consumer<T> =
    | CIdle
    | CLoadedTail(tail: nat)
    | CLoadedHead(tail: nat, head: nat)
    | CRead(data: T, tail: nat)

  /** `heads` and `tails` list every value stored in the two indices, oldest first; `seenTail`
      and `seenHead` say how far along the other index each thread has looked; `pushed` and
      `popped` record the completed operations. */
  datatype Ring<T> = Ring(
    mask: nat, buffer: seq<T>, heads: seq<nat>, tails: seq<nat>,
    producer: Producer<T>, consumer: Consumer<T>, seenTail: nat, seenHead: nat,
    pushed: seq<T>, popped: seq<T>)
  {
    function Capacity(): nat {
      mask + 1
    }

    /** The queue the ring stands for. */
    function Queue(): seq<T>
      requires |popped| <= |pushed|
    {
      pushed[|popped|..]
    }
  }

  /** A new ring, with whatever the slots happen to hold. */
  function Init<T>(buffer: seq<T>): Ring<T>
    requires |buffer| > 0
  {
    Ring(|buffer| - 1, buffer, [0], [0], PIdle, CIdle, 0, 0, [], [])
  }

  datatype Event<T> =
    | StartPush(item: T)
    | SeeTail(at: nat)
    | RefusePush
    | WriteSlot
    | PublishHead
    | StartPop
    | SeeHead(at: nat)
    | RefusePop
    | ReadSlot
    | PublishTail

  predicate Full<T>(s: Ring<T>)
    requires s.producer.PLoadedTail?
  {
    And(s.producer.head + 1, s.mask) == s.producer.tail
  }

  predicate Empty<T>(s: Ring<T>)
    requires s.consumer.CLoadedHead?
  {
    s.consumer.tail == s.consumer.head
  }

  predicate Enabled<T>(s: Ring<T>, e: Event<T>) {
    match e
    case StartPush(_) => s.producer.PIdle? && s.heads != []
    case SeeTail(at) => s.producer.PLoadedHead? && s.seenTail <= at < |s.tails|
    case RefusePush => s.producer.PLoadedTail? && Full(s)
    case WriteSlot => s.producer.PLoadedTail? && !Full(s) && s.producer.head < |s.buffer|
    case PublishHead => s.producer.PWrote?
    case StartPop => s.consumer.CIdle? && s.tails != []
    case SeeHead(at) => s.consumer.CLoadedTail? && s.seenHead <= at < |s.heads|
    case RefusePop => s.consumer.CLoadedHead? && Empty(s)
    case ReadSlot => s.consumer.CLoadedHead? && !Empty(s) && s.consumer.tail < |s.buffer|
    case PublishTail => s.consumer.CRead?
  }

  function Step<T>(s: Ring<T>, e: Event<T>): Ring<T>
    requires Enabled(s, e)
  {
    match e
    case StartPush(item) => s.(producer := PLoadedHead(item, s.heads[|s.heads| - 1]))
    case SeeTail(at) =>
      s.(producer := PLoadedTail(s.producer.data, s.producer.head, s.tails[at]), seenTail := at)
    case RefusePush => s.(producer := PIdle)
    case WriteSlot =>
      s.(buffer := s.buffer[s.producer.head := s.producer.data],
         producer := PWrote(s.producer.data, And(s.producer.head + 1, s.mask)))
    case PublishHead =>
      s.(heads := s.heads + [s.producer.next], pushed := s.pushed + [s.producer.data], producer := PIdle)
    case StartPop => s.(consumer := CLoadedTail(s.tails[|s.tails| - 1]))
    case SeeHead(at) => s.(consumer := CLoadedHead(s.consumer.tail, s.heads[at]), seenHead := at)
    case RefusePop => s.(consumer := CIdle)
    case ReadSlot => s.(consumer := CRead(s.buffer[s.consumer.tail], s.consumer.tail))
    case PublishTail =>
      s.(tails := s.tails + [And(s.consumer.tail + 1, s.mask)], popped := s.popped + [s.consumer.data],
         consumer := CIdle)
  }

  // ----- the invariant -----

  ghost predicate Positions(idx: seq<nat>, n: nat)
    requires n > 0
  {
    forall i :: 0 <= i < |idx| ==> idx[i] == i % n
  }

  /** The counters: nobody runs ahead of what it has seen. */
  ghost predicate Counters<T>(s: Ring<T>) {
    && IsPower(s.Capacity()) && |s.buffer| == s.Capacity()
    && |s.heads| == |s.pushed| + 1 && |s.tails| == |s.popped| + 1
    && Positions(s.heads, s.Capacity()) && Positions(s.tails, s.Capacity())
    && s.seenTail <= |s.popped| <= s.seenHead <= |s.pushed| <= s.seenTail + s.mask
  }

  /** Popped items are the first pushed ones, and the rest are in their slots. */
  ghost predicate Contents<T>(s: Ring<T>)
    requires Counters(s)
  {
    && s.popped <= s.pushed
    && forall i :: |s.popped| <= i < |s.pushed| ==> s.buffer[i % s.Capacity()] == s.pushed[i]
  }

  ghost predicate ProducerOk<T>(s: Ring<T>)
    requires Counters(s)
  {
    var n, h := s.Capacity(), |s.pushed|;
    match s.producer
    case PIdle => true
    case PLoadedHead(_, head) => head == h % n
    case PLoadedTail(_, head, tail) => head == h % n && tail == s.seenTail % n
    case PWrote(data, next) => next == (h + 1) % n && h < s.seenTail + s.mask && s.buffer[h % n] == data
  }

  ghost predicate ConsumerOk<T>(s: Ring<T>)
    requires Counters(s)
  {
    var n, t := s.Capacity(), |s.popped|;
    match s.consumer
    case CIdle => true
    case CLoadedTail(tail) => tail == t % n
    case CLoadedHead(tail, head) => tail == t % n && head == s.seenHead % n
    case CRead(data, tail) => tail == t % n && t < s.seenHead && data == s.pushed[t]
  }

  ghost predicate Inv<T>(s: Ring<T>) {
    Counters(s) && Contents(s) && ProducerOk(s) && ConsumerOk(s)
  }

  lemma InitOk<T>(buffer: seq<T>)
    requires IsPower(|buffer|)
    ensures Inv(Init(buffer))
  {
  }

  lemma MaskedNext(a: nat, n: nat)
    requires IsPower(n)
    ensures And(a % n + 1, n - 1) == (a + 1) % n
  {
    var k: nat :| n == Pow2(k);
    MaskIsMod(a % n + 1, k);
    ModNext(a, n);
  }

  /** The masked comparison finds the ring full exactly when the producer, going by the tail
      it saw, has used every slot but one. */
  lemma FullIff<T>(s: Ring<T>)
    requires Inv(s) && s.producer.PLoadedTail?
    ensures Full(s) <==> |s.pushed| == s.seenTail + s.mask
    ensures s.producer.head < |s.buffer|
  {
    var n, h := s.Capacity(), |s.pushed|;
    MaskedNext(h, n);
    ModFull(h, s.seenTail, n);
  }

  lemma EmptyIff<T>(s: Ring<T>)
    requires Inv(s) && s.consumer.CLoadedHead?
    ensures Empty(s) <==> |s.popped| == s.seenHead
    ensures s.consumer.tail < |s.buffer|
  {
    ModApart(s.seenHead, |s.popped|, s.Capacity());
  }

  /** The slot about to be written holds no unread item. */
  lemma SlotIsFree<T>(s: Ring<T>, i: nat)
    requires Counters(s) && |s.popped| <= i < |s.pushed| < s.seenTail + s.mask
    ensures i % s.Capacity() != |s.pushed| % s.Capacity()
  {
    ModApart(|s.pushed|, i, s.Capacity());
  }

  lemma StepKeeps<T>(s: Ring<T>, e: Event<T>)
    requires Inv(s) && Enabled(s, e)
    ensures Inv(Step(s, e))
  {
    var n := s.Capacity();
    match e
    case WriteSlot =>
      FullIff(s);
      MaskedNext(|s.pushed|, n);
      forall i | |s.popped| <= i < |s.pushed| ensures i % n != |s.pushed| % n {
        SlotIsFree(s, i);
      }
    case ReadSlot => EmptyIff(s);
    case PublishHead => PublishHeadKeeps(s);
    case PublishTail => MaskedNext(|s.popped|, n);
    case _ =>
  }

  lemma PublishHeadKeeps<T>(s: Ring<T>)
    requires Inv(s) && s.producer.PWrote?
    ensures Inv(Step(s, PublishHead))
  {
  }

  // ----- every run -----

  ghost predicate IsRun<T>(s: Ring<T>, es: seq<Event<T>>)
    decreases |es|
  {
    es == [] || (Enabled(s, es[0]) && IsRun(Step(s, es[0]), es[1..]))
  }

  ghost function Run<T>(s: Ring<T>, es: seq<Event<T>>): Ring<T>
    requires IsRun(s, es)
    decreases |es|
  {
    if es == [] then s else Run(Step(s, es[0]), es[1..])
  }

  lemma {:induction false} RunKeeps<T>(s: Ring<T>, es: seq<Event<T>>)
    requires Inv(s) && IsRun(s, es)
    ensures Inv(Run(s, es))
    decreases |es|
  {
    if es != [] {
      StepKeeps(s, es[0]);
      RunKeeps(Step(s, es[0]), es[1..]);
    }
  }

  /** Under every interleaving and every allowed stale load, what was popped is a prefix of
      what was pushed, and one slot always stays unused. */
  lemma EveryRun<T>(buffer: seq<T>, es: seq<Event<T>>)
    requires IsPower(|buffer|) && IsRun(Init(buffer), es)
    ensures var s := Run(Init(buffer), es);
      s.popped <= s.pushed && |s.pushed| - |s.popped| <= |buffer| - 1
  {
    InitOk(buffer);
    RunKeeps(Init(buffer), es);
    RunMask(Init(buffer), es);
  }

  lemma {:induction false} RunMask<T>(s: Ring<T>, es: seq<Event<T>>)
    requires IsRun(s, es)
    ensures Run(s, es).mask == s.mask
    decreases |es|
  {
    if es != [] {
      RunMask(Step(s, es[0]), es[1..]);
    }
  }

  // ----- linearization -----

  /** Every step is a push, a pop or nothing at all on the bounded queue; a completed push
      always fits and a completed pop takes the oldest item. */
  lemma Linearizes<T>(s: Ring<T>, e: Event<T>)
    requires Inv(s) && Enabled(s, e)
    ensures Inv(Step(s, e))
    ensures match e
      case PublishHead => (Step(s, e).Queue(), true) == BoundedFifo.Push(s.Queue(), s.producer.data, s.mask)
      case PublishTail => (Step(s, e).Queue(), [s.consumer.data]) == BoundedFifo.Pop(s.Queue())
      case _ => Step(s, e).Queue() == s.Queue()
  {
    StepKeeps(s, e);
    if e == PublishHead {
      assert (s.pushed + [s.producer.data])[|s.popped|..] == s.pushed[|s.popped|..] + [s.producer.data];
    }
  }

  /** Going by a current tail, a push is refused exactly when the queue is full; going by a
      stale one it may be refused early, but a full queue is always refused. */
  lemma RefusalMeansFull<T>(s: Ring<T>)
    requires Inv(s) && s.producer.PLoadedTail?
    ensures |s.Queue()| == s.mask ==> Full(s)
    ensures s.seenTail == |s.popped| ==> (Full(s) <==> |s.Queue()| == s.mask)
  {
    FullIff(s);
  }

  lemma RefusalMeansEmpty<T>(s: Ring<T>)
    requires Inv(s) && s.consumer.CLoadedHead?
    ensures s.Queue() == [] ==> Empty(s)
    ensures s.seenHead == |s.pushed| ==> (Empty(s) <==> s.Queue() == [])
  {
    EmptyIff(s);
  }

  /** A slot about to be written is never the slot about to be read. */
  lemma NoRace<T>(s: Ring<T>)
    requires Inv(s) && Enabled(s, WriteSlot) && Enabled(s, ReadSlot)
    ensures s.producer.head != s.consumer.tail
  {
    FullIff(s);
    EmptyIff(s);
    SlotIsFree(s, |s.popped|);
  }

  /** Writing a slot disturbs no unread item. */
  lemma NoOverwrite<T>(s: Ring<T>, i: nat)
    requires Inv(s) && Enabled(s, WriteSlot) && |s.popped| <= i < |s.pushed|
    ensures Step(s, WriteSlot).buffer[i % s.Capacity()] == s.pushed[i]
  {
    FullIff(s);
    SlotIsFree(s, i);
  }

  // ----- the snapshot queries -----

  /** Index difference, masked, is the queue length in every reachable state. */
  lemma CountIsLength<T>(s: Ring<T>)
    requires Inv(s) && s.Capacity() <= Pow2(31)
    ensures Count(s.heads[|s.pushed|], s.tails[|s.popped|], s.mask) == |s.Queue()|
  {
    var k: nat :| s.Capacity() == Pow2(k);
    if k > 31 {
      Pow2Monotone(32, k);
      Powers();
    }
    CountIsDistance(|s.pushed|, |s.popped|, k);
  }

  lemma FullQuery<T>(s: Ring<T>)
    requires Inv(s)
    ensures And(s.heads[|s.pushed|] + 1, s.mask) == s.tails[|s.popped|] <==> |s.Queue()| == s.mask
    ensures s.heads[|s.pushed|] == s.tails[|s.popped|] <==> s.Queue() == []
  {
    var n, h, t := s.Capacity(), |s.pushed|, |s.popped|;
    MaskedNext(h, n);
    ModApart(h, t, n);
    ModFull(h, t, n);
  }
}

/** The ring buffer as an object, its calls running without interference. */
module RingObject {
  import opened Modular
  import opened RingArithmetic
  import opened SpscRing
  import BoundedFifo

  /** No step of the other thread in between, and current loads. */
  ghost function PushAlone<T>(s: Ring<T>, x: T): Ring<T>
    requires Inv(s) && s.producer.PIdle?
  {
    var s1 := Step(s, StartPush(x));
    var s2 := Step(s1, SeeTail(|s.popped|));
    StepKeeps(s, StartPush(x));
    StepKeeps(s1, SeeTail(|s.popped|));
    FullIff(s2);
    if Full(s2) then Step(s2, RefusePush)
    else Step(Step(s2, WriteSlot), PublishHead)
  }

  ghost function PopAlone<T>(s: Ring<T>): Ring<T>
    requires Inv(s) && s.consumer.CIdle?
  {
    var s1 := Step(s, StartPop);
    var s2 := Step(s1, SeeHead(|s.pushed|));
    StepKeeps(s, StartPop);
    StepKeeps(s1, SeeHead(|s.pushed|));
    EmptyIff(s2);
    if Empty(s2) then Step(s2, RefusePop)
    else Step(Step(s2, ReadSlot), PublishTail)
  }

  lemma PushAloneIsPush<T>(s: Ring<T>, x: T)
    requires Inv(s) && s.producer.PIdle?
    ensures Inv(PushAlone(s, x)) && PushAlone(s, x).producer.PIdle?
    ensures PushAlone(s, x).Queue() == BoundedFifo.Push(s.Queue(), x, s.mask).0
    ensures BoundedFifo.Push(s.Queue(), x, s.mask).1 <==>
      And(s.heads[|s.pushed|] + 1, s.mask) != s.tails[|s.popped|]
  {
    var s1 := Step(s, StartPush(x));
    var s2 := Step(s1, SeeTail(|s.popped|));
    FullQuery(s);
    Linearizes(s, StartPush(x));
    Linearizes(s1, SeeTail(|s.popped|));
    FullIff(s2);
    if Full(s2) {
      Linearizes(s2, RefusePush);
    } else {
      Linearizes(s2, WriteSlot);
      Linearizes(Step(s2, WriteSlot), PublishHead);
    }
  }

  lemma PopAloneIsPop<T>(s: Ring<T>)
    requires Inv(s) && s.consumer.CIdle?
    ensures Inv(PopAlone(s)) && PopAlone(s).consumer.CIdle?
    ensures PopAlone(s).Queue() == BoundedFifo.Pop(s.Queue()).0
    ensures s.Queue() != [] ==>
      s.tails[|s.popped|] < |s.buffer| && BoundedFifo.Pop(s.Queue()).1 == [s.buffer[s.tails[|s.popped|]]]
    ensures s.Queue() == [] <==> s.heads[|s.pushed|] == s.tails[|s.popped|]
  {
    var s1 := Step(s, StartPop);
    var s2 := Step(s1, SeeHead(|s.pushed|));
    FullQuery(s);
    Linearizes(s, StartPop);
    Linearizes(s1, SeeHead(|s.pushed|));
    EmptyIff(s2);
    if Empty(s2) {
      Linearizes(s2, RefusePop);
    } else {
      Linearizes(s2, ReadSlot);
      Linearizes(Step(s2, ReadSlot), PublishTail);
    }
  }

  class RingBuffer<T(0)> {
    var buffer: array<T>
    var mask: nat
    var head: nat
    var tail: nat
    ghost var model: Ring<T>

    ghost predicate Valid()
      reads this, buffer
    {
      && Inv(model) && model.producer.PIdle? && model.consumer.CIdle?
      && model.buffer == buffer[..] && model.mask == mask < Pow2(31)
      && head == model.heads[|model.pushed|] && tail == model.tails[|model.popped|]
    }

    /** The capacity is rounded up to a power of two; beyond 2^31 there is none that fits. */
    constructor (capacity: nat)
      requires 1 <= capacity <= Pow2(31)
      ensures Valid() && fresh(buffer) && model.Queue() == []
      ensures IsLeastPower(capacity, mask + 1)
    {
      var size := capacity;
      LeastItself(capacity);
      Powers();
      if !IsPowerOfTwo(capacity) {
        size := NextPowerOfTwo(capacity);
      }
      buffer := new T[size];
      mask, head, tail := size - 1, 0, 0;
      new;
      model := Init(buffer[..]);
      InitOk(buffer[..]);
    }

    method Push(x: T) returns (ok: bool)
      requires Valid()
      modifies this`head, this`model, buffer
      ensures Valid()
      ensures (model.Queue(), ok) == BoundedFifo.Push(old(model.Queue()), x, mask)
    {
      hide Inv, Pow2;
      PushAloneIsPush(model, x);
      OwnSlots(model);
      var next := And(head + 1, mask);
      ok := next != tail;
      model := PushAlone(model, x);
      if ok {
        buffer[head] := x;
        head := next;
      }
    }

    method Pop() returns (r: seq<T>)
      requires Valid()
      modifies this`tail, this`model
      ensures Valid()
      ensures (model.Queue(), r) == BoundedFifo.Pop(old(model.Queue()))
    {
      hide Inv, Pow2;
      PopAloneIsPop(model);
      OwnSlots(model);
      if tail == head {
        r := [];
      } else {
        r := [buffer[tail]];
        tail := And(tail + 1, mask);
      }
      model := PopAlone(model);
    }

    method GetCount() returns (n: nat)
      requires Valid()
      ensures n == |model.Queue()|
    {
      CountIsLength(model);
      n := And((head - tail) % WORD, mask);
    }
  }

  lemma OwnSlots<T>(s: Ring<T>)
    requires Inv(s)
    ensures |s.heads| == |s.pushed| + 1 && |s.tails| == |s.popped| + 1 && |s.popped| <= |s.pushed|
    ensures s.heads[|s.pushed|] < |s.buffer| && s.tails[|s.popped|] < |s.buffer|
  {
  }

  lemma LeastItself(n: nat)
    requires n >= 1
    ensures IsPowerOfTwo(n) ==> IsLeastPower(n, n)
  {
    PowerOfTwoTest(n);
  }
}
