/** Event objects circulating between the hot path and the I/O thread through a ring of free
    events and a ring of filled ones. No push result is ever looked at; that none fails rests
    on counting the events in circulation. Ring calls are atomic here, on the bounded queue
    that the ring buffer implements. */
module EventCirculation {
  import BoundedFifo

  type Event = nat

  /** The hot path between calls, holding a free event, or holding one it has filled in. */
  datatype HotPath = Waiting | Holding(event: Event) | Filled(event: Event) | HotDone

  datatype IoThread = Polling | Taken(event: Event) | Processed(event: Event) | IoDone

  /** `limit` is the number of usable slots of either ring; `store` is the content of each
      event object; `written` and `processed` list contents in the order in which they were
      handed over and worked off; `failed` counts pushes that did not fit. */
  datatype State<C> = State(
    limit: nat, free: seq<Event>, filled: seq<Event>, hot: HotPath, io: IoThread,
    running: bool, draining: bool, retired: seq<Event>, store: map<Event, C>,
    written: seq<C>, processed: seq<C>, attempts: nat, dropped: nat, failed: nat, late: nat)

  /** Offer events 0, 1, ... to the free ring, ignoring whether they fit. */
  method Seed(pool: nat, limit: nat) returns (free: seq<Event>)
    ensures free == FirstEvents(if pool <= limit then pool else limit)
  {
    free := [];
    var i := 0;
    while i < pool
      invariant i <= pool
      invariant free == FirstEvents(if i <= limit then i else limit)
    {
      var (free', _) := BoundedFifo.Push(free, i, limit);
      free := free';
      i := i + 1;
    }
  }

  function FirstEvents(n: nat): (es: seq<Event>)
    ensures |es| == n
  {
    seq(n, i => i)
  }

  function Init<C>(limit: nat, free: seq<Event>): State<C> {
    State(limit, free, [], Waiting, Polling, true, false, [], map[], [], [], 0, 0, 0, 0)
  }

  datatype Action<C> =
    | HotPop
    | HotFill(content: C)
    | HotPush
    | HotExit
    | IoPop
    | IoProcess
    | IoReturn
    | IoSeesStop
    | Stop

  predicate Enabled<C>(s: State<C>, a: Action<C>) {
    match a
    case HotPop => s.hot.Waiting?
    case HotFill(_) => s.hot.Holding?
    case HotPush => s.hot.Filled? && s.hot.event in s.store
    case HotExit => s.hot.Waiting? && !s.running
    case IoPop => s.io.Polling?
    case IoProcess => s.io.Taken? && s.io.event in s.store
    case IoReturn => s.io.Processed?
    case IoSeesStop => s.io.Polling? && !s.running && !s.draining
    case Stop => true
  }

  function Step<C>(s: State<C>, a: Action<C>): State<C>
    requires Enabled(s, a)
  {
    match a
    case HotPop =>
      var (free, got) := BoundedFifo.Pop(s.free);
      if got == [] then s.(attempts := s.attempts + 1, dropped := s.dropped + 1)
      else s.(attempts := s.attempts + 1, free := free, hot := Holding(got[0]))
    case HotFill(c) => s.(store := s.store[s.hot.event := c], hot := Filled(s.hot.event))
    case HotPush =>
      var (filled, ok) := BoundedFifo.Push(s.filled, s.hot.event, s.limit);
      s.(filled := filled, hot := Waiting, written := s.written + [s.store[s.hot.event]],
         failed := if ok then s.failed else s.failed + 1,
         late := if s.io.IoDone? then s.late + 1 else s.late)
    case HotExit => s.(hot := HotDone)
    case IoPop =>
      var (filled, got) := BoundedFifo.Pop(s.filled);
      if got != [] then s.(filled := filled, io := Taken(got[0]))
      else if s.draining then s.(io := IoDone)
      else s
    case IoProcess => s.(processed := s.processed + [s.store[s.io.event]], io := Processed(s.io.event))
    case IoReturn =>
      if s.draining then s.(retired := s.retired + [s.io.event], io := Polling)
      else
        var (free, ok) := BoundedFifo.Push(s.free, s.io.event, s.limit);
        s.(free := free, io := Polling, failed := if ok then s.failed else s.failed + 1)
    case IoSeesStop => s.(draining := true)
    case Stop => s.(running := false)
  }

  // ----- the invariant -----

  function InHotHand(h: HotPath): seq<Event> {
    if h.Holding? || h.Filled? then [h.event] else []
  }

  function InIoHand(t: IoThread): seq<Event> {
    if t.Taken? || t.Processed? then [t.event] else []
  }

  /** How often an event occurs in a queue. */
  ghost function Times(q: seq<Event>, e: Event): nat {
    multiset(q)[e]
  }

  /** In how many places an event is. */
  ghost function Places<C>(s: State<C>, e: Event): nat {
    Times(s.free, e) + Times(s.filled, e) + Times(InHotHand(s.hot), e) + Times(InIoHand(s.io), e) + Times(s.retired, e)
  }

  /** Contents of a queue of events. */
  ghost predicate Holds<C>(es: seq<Event>, store: map<Event, C>, cs: seq<C>) {
    |cs| == |es| && forall i :: 0 <= i < |es| ==> es[i] in store && store[es[i]] == cs[i]
  }

  /** Events handed over and not yet worked off, oldest first. */
  function InFlight<C>(s: State<C>): seq<Event> {
    (if s.io.Taken? then [s.io.event] else []) + s.filled
  }

  /** Exactly the first n events circulate, each in one place, and n fit either ring. */
  ghost predicate Located<C>(s: State<C>, n: nat) {
    && |s.free| + |s.filled| + |InHotHand(s.hot)| + |InIoHand(s.io)| + |s.retired| == n <= s.limit
    && forall e: Event :: Places(s, e) == if e < n then 1 else 0
  }

  /** What is in flight is what was written and not yet processed. */
  ghost predicate Flows<C>(s: State<C>) {
    && s.processed <= s.written
    && Holds(InFlight(s), s.store, s.written[|s.processed|..])
    && (s.hot.Filled? ==> s.hot.event in s.store)
  }

  ghost predicate Counted<C>(s: State<C>) {
    && s.failed == 0
    && s.attempts == s.dropped + |s.written| + |InHotHand(s.hot)|
    && (!s.draining ==> s.retired == []) && (s.draining ==> !s.running)
    && (s.io.IoDone? ==> s.draining && |s.filled| == s.late)
    && (!s.io.IoDone? ==> s.late == 0)
  }

  ghost predicate Inv<C>(s: State<C>, n: nat) {
    Located(s, n) && Flows(s) && Counted(s)
  }

  lemma InitOk<C>(limit: nat, n: nat)
    requires n <= limit
    ensures Inv(Init<C>(limit, FirstEvents(n)), n)
  {
    var s := Init<C>(limit, FirstEvents(n));
    forall e: Event ensures Places(s, e) == if e < n then 1 else 0 {
      FirstEventsOnce(n, e);
    }
  }

  lemma {:induction false} FirstEventsOnce(n: nat, e: Event)
    ensures Times(FirstEvents(n), e) == if e < n then 1 else 0
  {
    if n > 0 {
      FirstEventsOnce(n - 1, e);
      assert FirstEvents(n) == FirstEvents(n - 1) + [n - 1];
    }
  }

  /** What the hot path holds is not in flight, so filling it in overwrites nothing. */
  lemma HandNotInFlight<C>(s: State<C>, n: nat)
    requires Located(s, n) && (s.hot.Holding? || s.hot.Filled?)
    ensures s.hot.event !in InFlight(s)
  {
    var e := s.hot.event;
    assert Places(s, e) <= 1;
    assert Times(InHotHand(s.hot), e) == 1;
    assert Times(s.filled, e) == 0 && Times(InIoHand(s.io), e) == 0;
  }

  /** An event in a hand leaves room for itself in either ring. */
  lemma RoomForHand<C>(s: State<C>, n: nat)
    requires Located(s, n)
    ensures InHotHand(s.hot) != [] ==> |s.filled| < s.limit
    ensures InIoHand(s.io) != [] ==> |s.free| < s.limit
  {
  }

  lemma PopMoves(q: seq<Event>, e: Event)
    requires q != []
    ensures Times(q, e) == Times([q[0]], e) + Times(q[1..], e)
  {
    assert q == [q[0]] + q[1..];
  }

  lemma PushMoves(q: seq<Event>, x: Event, e: Event)
    ensures Times(q + [x], e) == Times(q, e) + Times([x], e)
  {
  }

  lemma NoTimes(e: Event)
    ensures Times([], e) == 0
  {
  }

  lemma HotPopPlaces<C>(s: State<C>, e: Event)
    requires Enabled(s, HotPop) && s.free != []
    ensures Places(Step(s, HotPop), e) == Places(s, e)
  {
    PopMoves(s.free, e);
    NoTimes(e);
    hide Times;
    assert InHotHand(s.hot) == [] && InHotHand(Step(s, HotPop).hot) == [s.free[0]];
  }

  lemma HotPushPlaces<C>(s: State<C>, e: Event)
    requires Enabled(s, HotPush) && |s.filled| < s.limit
    ensures Places(Step(s, HotPush), e) == Places(s, e)
  {
    PushMoves(s.filled, s.hot.event, e);
    NoTimes(e);
    hide Times;
    assert InHotHand(s.hot) == [s.hot.event] && InHotHand(Waiting) == [];
  }

  lemma IoPopPlaces<C>(s: State<C>, e: Event)
    requires Enabled(s, IoPop) && s.filled != []
    ensures Places(Step(s, IoPop), e) == Places(s, e)
  {
    PopMoves(s.filled, e);
    NoTimes(e);
    hide Times;
    assert InIoHand(s.io) == [] && InIoHand(Step(s, IoPop).io) == [s.filled[0]];
  }

  lemma IoReturnPlaces<C>(s: State<C>, e: Event)
    requires Enabled(s, IoReturn) && |s.free| < s.limit
    ensures Places(Step(s, IoReturn), e) == Places(s, e)
  {
    PushMoves(if s.draining then s.retired else s.free, s.io.event, e);
    NoTimes(e);
    hide Times;
    assert InIoHand(s.io) == [s.io.event] && InIoHand(Polling) == [];
  }

  lemma OtherPlaces<C>(s: State<C>, a: Action<C>, e: Event)
    requires Enabled(s, a) && !a.HotPush? && !a.IoReturn?
    requires (a.HotPop? ==> s.free == []) && (a.IoPop? ==> s.filled == [])
    ensures Places(Step(s, a), e) == Places(s, e)
  {
    hide Times;
    assert InHotHand(Step(s, a).hot) == InHotHand(s.hot) && InIoHand(Step(s, a).io) == InIoHand(s.io);
  }

  /** No step makes an event appear, disappear or multiply. */
  lemma StepPlaces<C>(s: State<C>, a: Action<C>, n: nat, e: Event)
    requires Located(s, n) && Enabled(s, a)
    ensures Places(Step(s, a), e) == Places(s, e)
  {
    RoomForHand(s, n);
    hide Places, Located;
    if a.HotPop? && s.free != [] {
      HotPopPlaces(s, e);
    } else if a.HotPush? {
      HotPushPlaces(s, e);
    } else if a.IoPop? && s.filled != [] {
      IoPopPlaces(s, e);
    } else if a.IoReturn? {
      IoReturnPlaces(s, e);
    } else {
      OtherPlaces(s, a, e);
    }
  }

  lemma StepLocated<C>(s: State<C>, a: Action<C>, n: nat)
    requires Located(s, n) && Enabled(s, a)
    ensures Located(Step(s, a), n)
  {
    RoomForHand(s, n);
    hide Times;
    forall e: Event ensures Places(Step(s, a), e) == if e < n then 1 else 0 {
      StepPlaces(s, a, n, e);
    }
  }

  lemma ProcessFlows<C>(s: State<C>)
    requires Flows(s) && Enabled(s, IoProcess)
    ensures Flows(Step(s, IoProcess))
  {
    var s', todo := Step(s, IoProcess), s.written[|s.processed|..];
    assert InFlight(s)[0] == s.io.event && InFlight(s)[1..] == InFlight(s');
    assert todo[0] == s.store[s.io.event] && s.written == s.processed + todo;
    assert s'.written[|s'.processed|..] == todo[1..];
  }

  lemma StepFlows<C>(s: State<C>, a: Action<C>, n: nat)
    requires Located(s, n) && Flows(s) && Enabled(s, a)
    ensures Flows(Step(s, a))
  {
    RoomForHand(s, n);
    var s' := Step(s, a);
    hide Located;
    match a
    case HotFill(c) => HandNotInFlight(s, n);
    case HotPush =>
      assert s'.written[|s.processed|..] == s.written[|s.processed|..] + [s.store[s.hot.event]];
      assert InFlight(s') == InFlight(s) + [s.hot.event];
    case IoPop =>
      assert s.filled != [] ==> InFlight(s') == InFlight(s);
    case IoProcess => ProcessFlows(s);
    case _ =>
  }

  lemma StepCounted<C>(s: State<C>, a: Action<C>, n: nat)
    requires Located(s, n) && Counted(s) && Enabled(s, a)
    ensures Counted(Step(s, a))
  {
    RoomForHand(s, n);
  }

  lemma StepKeeps<C>(s: State<C>, a: Action<C>, n: nat)
    requires Inv(s, n) && Enabled(s, a)
    ensures Inv(Step(s, a), n)
  {
    hide Located, Flows, Counted;
    StepLocated(s, a, n);
    StepFlows(s, a, n);
    StepCounted(s, a, n);
  }

  // ----- every run -----

  ghost predicate IsRun<C>(s: State<C>, acts: seq<Action<C>>)
    decreases |acts|
  {
    acts == [] || (Enabled(s, acts[0]) && IsRun(Step(s, acts[0]), acts[1..]))
  }

  ghost function Run<C>(s: State<C>, acts: seq<Action<C>>): State<C>
    requires IsRun(s, acts)
    decreases |acts|
  {
    if acts == [] then s else Run(Step(s, acts[0]), acts[1..])
  }

  lemma {:induction false} RunKeeps<C>(s: State<C>, acts: seq<Action<C>>, n: nat)
    requires Inv(s, n) && IsRun(s, acts)
    ensures Inv(Run(s, acts), n)
    decreases |acts|
  {
    if acts != [] {
      StepKeeps(s, acts[0], n);
      RunKeeps(Step(s, acts[0]), acts[1..], n);
    }
  }

  /** Of `pool` events offered to rings with `limit` usable slots, as many as fit circulate;
      in every state of every run each of them is in exactly one place, no push has failed,
      and the processed contents are a prefix of the contents handed over. */
  lemma EveryRun<C>(pool: nat, limit: nat, acts: seq<Action<C>>, e: Event)
    requires var n := if pool <= limit then pool else limit; IsRun(Init<C>(limit, FirstEvents(n)), acts)
    ensures var n := if pool <= limit then pool else limit;
      var s := Run(Init<C>(limit, FirstEvents(n)), acts);
      && Places(s, e) == (if e < n then 1 else 0)
      && s.failed == 0
      && s.processed <= s.written
      && s.attempts == s.dropped + |s.written| + |InHotHand(s.hot)|
  {
    var n := if pool <= limit then pool else limit;
    InitOk<C>(limit, n);
    RunKeeps(Init<C>(limit, FirstEvents(n)), acts, n);
  }

  /** What has been filled in so far, handed over or about to be. */
  function Handed<C>(s: State<C>): seq<C> {
    s.written + if s.hot.Filled? && s.hot.event in s.store then [s.store[s.hot.event]] else []
  }

  /** The contents that the hot path fills in during a run. */
  function FilledIn<C>(acts: seq<Action<C>>): seq<C> {
    if acts == [] then []
    else (if acts[0].HotFill? then [acts[0].content] else []) + FilledIn(acts[1..])
  }

  lemma {:induction false} HandsOverWhatItFills<C>(s: State<C>, acts: seq<Action<C>>)
    requires IsRun(s, acts)
    ensures Handed(Run(s, acts)) == Handed(s) + FilledIn(acts)
    decreases |acts|
  {
    if acts != [] {
      var s' := Step(s, acts[0]);
      assert Handed(s') == Handed(s) + if acts[0].HotFill? then [acts[0].content] else [];
      HandsOverWhatItFills(s', acts[1..]);
    }
  }

  /** In every run, what the I/O thread has processed is, in order, what the hot path filled
      in first. */
  lemma ProcessedIsFilledIn<C>(pool: nat, limit: nat, acts: seq<Action<C>>)
    requires var n := if pool <= limit then pool else limit; IsRun(Init<C>(limit, FirstEvents(n)), acts)
    ensures var n := if pool <= limit then pool else limit;
      var s := Run(Init<C>(limit, FirstEvents(n)), acts);
      s.processed <= s.written <= FilledIn(acts) && |FilledIn(acts)| - |s.written| <= 1
  {
    var n := if pool <= limit then pool else limit;
    EveryRun<C>(pool, limit, acts, 0);
    HandsOverWhatItFills(Init<C>(limit, FirstEvents(n)), acts);
    assert Handed(Init<C>(limit, FirstEvents(n))) == [] && [] + FilledIn(acts) == FilledIn(acts);
  }

  // ----- supply -----

  /** Events that the hot path cannot get hold of now. */
  ghost function Away<C>(s: State<C>): nat {
    |s.filled| + |InIoHand(s.io)| + |s.retired|
  }

  /** In how many steps of a run the hot path asks for an event while all n are away. */
  ghost function StarvedPops<C>(s: State<C>, acts: seq<Action<C>>, n: nat): nat
    requires IsRun(s, acts)
    decreases |acts|
  {
    if acts == [] then 0
    else (if acts[0].HotPop? && Away(s) == n then 1 else 0) + StarvedPops(Step(s, acts[0]), acts[1..], n)
  }

  lemma {:induction false} DropsAreStarvation<C>(s: State<C>, acts: seq<Action<C>>, n: nat)
    requires Inv(s, n) && IsRun(s, acts)
    ensures Run(s, acts).dropped == s.dropped + StarvedPops(s, acts, n)
    decreases |acts|
  {
    if acts != [] {
      StepKeeps(s, acts[0], n);
      assert acts[0].HotPop? ==> (s.free == [] <==> Away(s) == n);
      DropsAreStarvation(Step(s, acts[0]), acts[1..], n);
    }
  }

  /** In every run, an attempt of the hot path is dropped exactly when all circulating events
      wait for the I/O thread, are in its hand or are retired; and none is retired before the
      I/O thread drains, let alone while the pipeline runs, so that until then every event is
      free, filled or in a hand. */
  lemma SupplyOverRuns<C>(pool: nat, limit: nat, acts: seq<Action<C>>)
    requires var n := if pool <= limit then pool else limit; IsRun(Init<C>(limit, FirstEvents(n)), acts)
    ensures var n := if pool <= limit then pool else limit;
      var first := Init<C>(limit, FirstEvents(n)); var s := Run(first, acts);
      && s.dropped == StarvedPops(first, acts, n)
      && (s.hot.Waiting? ==>
            (Step(s, HotPop).dropped == s.dropped + 1 <==> |s.filled| + |InIoHand(s.io)| + |s.retired| == n))
      && (s.running ==> !s.draining)
      && (!s.draining ==>
            s.retired == [] && |s.free| + |s.filled| + |InHotHand(s.hot)| + |InIoHand(s.io)| == n)
  {
    var n := if pool <= limit then pool else limit;
    var first := Init<C>(limit, FirstEvents(n));
    InitOk<C>(limit, n);
    RunKeeps(first, acts, n);
    DropsAreStarvation(first, acts, n);
  }

  /** The I/O thread taking, processing and returning k events, one after the other. */
  function IoRounds<C>(k: nat): seq<Action<C>> {
    if k == 0 then [] else [IoPop, IoProcess, IoReturn] + IoRounds(k - 1)
  }

  lemma TakenIsStored<C>(s: State<C>, n: nat)
    requires Inv(s, n) && s.io.Taken?
    ensures s.io.event in s.store
  {
    assert InFlight(s)[0] == s.io.event;
  }

  lemma RoomToReturn<C>(s: State<C>, n: nat)
    requires Inv(s, n) && s.io.Processed?
    ensures |s.free| < s.limit
  {
    RoomForHand(s, n);
  }

  /** One round works off the oldest event and, unless draining, puts it behind the free ones. */
  lemma OneRound<C>(s: State<C>, n: nat) returns (s': State<C>)
    requires Inv(s, n) && s.io.Polling? && s.filled != []
    ensures Inv(s', n) && IsRun(s, [IoPop, IoProcess, IoReturn]) && Run(s, [IoPop, IoProcess, IoReturn]) == s'
    ensures s'.io.Polling? && s'.filled == s.filled[1..] && s'.written == s.written && s'.hot == s.hot
    ensures |s'.processed| == |s.processed| + 1 && s'.draining == s.draining
    ensures s'.free == if s.draining then s.free else s.free + [s.filled[0]]
  {
    var acts: seq<Action<C>> := [IoPop, IoProcess, IoReturn];
    hide Inv;
    var s1 := Step(s, IoPop);
    StepKeeps(s, IoPop, n);
    TakenIsStored(s1, n);
    var s2 := Step(s1, IoProcess);
    StepKeeps(s1, IoProcess, n);
    RoomToReturn(s2, n);
    s' := Step(s2, IoReturn);
    StepKeeps(s2, IoReturn, n);
    hide Step, Enabled;
    assert acts[2..][1..] == [] && Run(s', []) == s';
    RunStep(s2, acts[2..], s');
    RunStep(s1, acts[1..], s');
    RunStep(s, acts, s');
  }

  lemma {:induction false} RunConcat<C>(s: State<C>, a: seq<Action<C>>, b: seq<Action<C>>)
    requires IsRun(s, a) && IsRun(Run(s, a), b)
    ensures IsRun(s, a + b) && Run(s, a + b) == Run(Run(s, a), b)
    decreases |a|
  {
    if a == [] {
      assert a + b == b;
    } else {
      assert (a + b)[0] == a[0] && (a + b)[1..] == a[1..] + b;
      RunConcat(Step(s, a[0]), a[1..], b);
    }
  }

  lemma NothingInFlight<C>(s: State<C>, n: nat)
    requires Inv(s, n) && s.io.Polling? && s.filled == []
    ensures s.processed == s.written
  {
    assert s.written == s.processed + s.written[|s.processed|..];
  }

  /** From every state in which it polls, the I/O thread alone can work off everything handed
      over, in order; unless draining, all those events are then free again, behind those that
      were, and what the hot path does not hold it can get. */
  lemma {:induction false} IoCatchesUp<C>(s: State<C>, n: nat)
    requires Inv(s, n) && s.io.Polling?
    ensures IsRun(s, IoRounds<C>(|s.filled|))
    ensures var s' := Run(s, IoRounds<C>(|s.filled|));
      && s'.processed == s.written == s'.written && s'.filled == [] && s'.io.Polling? && s'.hot == s.hot
      && s'.free == if s.draining then s.free else s.free + s.filled
    decreases |s.filled|
  {
    hide Inv, Step, Enabled;
    if s.filled == [] {
      NothingInFlight(s, n);
    } else {
      var s1 := OneRound(s, n);
      IoCatchesUp(s1, n);
      RunConcat(s, [IoPop, IoProcess, IoReturn], IoRounds<C>(|s1.filled|));
      assert s.filled == [s.filled[0]] + s.filled[1..];
      assert s.free + s.filled == (s.free + [s.filled[0]]) + s.filled[1..];
    }
  }

  // ----- shutdown -----

  /** How often in a run the hot path pushes after the I/O thread has ended. */
  ghost function LatePushes<C>(s: State<C>, acts: seq<Action<C>>): nat
    requires IsRun(s, acts)
    decreases |acts|
  {
    if acts == [] then 0
    else (if acts[0].HotPush? && s.io.IoDone? then 1 else 0) + LatePushes(Step(s, acts[0]), acts[1..])
  }

  lemma {:induction false} LateIsCounted<C>(s: State<C>, acts: seq<Action<C>>)
    requires IsRun(s, acts)
    ensures Run(s, acts).late == s.late + LatePushes(s, acts)
    decreases |acts|
  {
    if acts != [] {
      LateIsCounted(Step(s, acts[0]), acts[1..]);
    }
  }

  /** In every run that ends with both threads done, as many contents are lost as the hot path
      pushed after the I/O thread had ended: everything written was processed exactly when
      there was no such push. */
  lemma LostAtShutdownIff<C>(pool: nat, limit: nat, acts: seq<Action<C>>)
    requires var n := if pool <= limit then pool else limit; IsRun(Init<C>(limit, FirstEvents(n)), acts)
    requires var n := if pool <= limit then pool else limit;
      var s := Run(Init<C>(limit, FirstEvents(n)), acts); s.io.IoDone? && s.hot.HotDone?
    ensures var n := if pool <= limit then pool else limit;
      var first := Init<C>(limit, FirstEvents(n)); var s := Run(first, acts);
      && |s.written| - |s.processed| == LatePushes(first, acts)
      && (s.processed == s.written <==> LatePushes(first, acts) == 0)
  {
    var n := if pool <= limit then pool else limit;
    var first := Init<C>(limit, FirstEvents(n));
    var s := Run(first, acts);
    InitOk<C>(limit, n);
    RunKeeps(first, acts, n);
    LateIsCounted(first, acts);
    if s.late == 0 {
      assert s.written == s.processed + s.written[|s.processed|..];
    }
  }

  /** The I/O thread can drain and end while the hot path still works on its last message. */
  lemma ShutdownCanLose<C>(c: C) returns (acts: seq<Action<C>>)
    ensures IsRun(Init<C>(1, FirstEvents(1)), acts)
    ensures var s := Run(Init<C>(1, FirstEvents(1)), acts);
      s.hot.HotDone? && s.io.IoDone? && s.written == [c] && s.processed == []
  {
    var s0 := Init<C>(1, FirstEvents(1));
    acts := [HotPop, HotFill(c), Stop, IoSeesStop, IoPop, HotPush, HotExit];
    var s1 := Step(s0, HotPop);
    var s2 := Step(s1, HotFill(c));
    var s3 := Step(s2, Stop);
    var s4 := Step(s3, IoSeesStop);
    var s5 := Step(s4, IoPop);
    var s6 := Step(s5, HotPush);
    var s7 := Step(s6, HotExit);
    assert acts[6..][1..] == [] && Run(s7, []) == s7;
    RunStep(s6, acts[6..], s7);
    RunStep(s5, acts[5..], s7);
    RunStep(s4, acts[4..], s7);
    RunStep(s3, acts[3..], s7);
    RunStep(s2, acts[2..], s7);
    RunStep(s1, acts[1..], s7);
    RunStep(s0, acts, s7);
  }

  lemma RunStep<C>(s: State<C>, acts: seq<Action<C>>, last: State<C>)
    requires acts != [] && Enabled(s, acts[0])
    requires IsRun(Step(s, acts[0]), acts[1..]) && Run(Step(s, acts[0]), acts[1..]) == last
    ensures IsRun(s, acts) && Run(s, acts) == last
  {
  }
}
