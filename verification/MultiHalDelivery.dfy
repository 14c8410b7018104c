/** What the reader of the multi-HAL is given: each event under a handle that leads back to
    its own module and sensor, and the modules in turn. */
module MultiHalDelivery {
  import opened SensorRing
  import opened MultiHalScan
  import opened MultiHalProtocol

  // ----- which events, and under which handle; fs are the sensors registered

  /** An ordinary event is passed on exactly if its sensor is registered. */
  predicate IsPassed(fs: seq<FullHandle>, m: nat, e: SensorEvent) {
    if e.isMetaData then e.sensor != -1 else FullHandle(m, e.sensor) in fs
  }

  /** The handle leads back to the module and its sensor, or is -1 if that is not registered. */
  predicate LeadsTo(fs: seq<FullHandle>, g: int, m: nat, local: int) {
    var h := AssignAll(fs);
    if FullHandle(m, local) in fs then g >= 1 && ModuleIndex(h, g) == m && LocalHandle(h, g) == local else g == -1
  }

  /** d is e with its own handle, or for a meta-data event that of the inner one, replaced;
      everything else is as the module wrote it. */
  predicate PassedAs(fs: seq<FullHandle>, m: nat, e: SensorEvent, d: SensorEvent) {
    if e.isMetaData then d == e.(metaSensor := d.metaSensor) && LeadsTo(fs, d.metaSensor, m, e.metaSensor)
    else d == e.(sensor := d.sensor) && LeadsTo(fs, d.sensor, m, e.sensor)
  }

  function Kept(fs: seq<FullHandle>, m: nat, es: seq<SensorEvent>): seq<SensorEvent> {
    if es == [] then []
    else Kept(fs, m, es[..|es| - 1]) + (if IsPassed(fs, m, es[|es| - 1]) then [es[|es| - 1]] else [])
  }

  /** ds are the events of es that are passed on, in order, each under its handle. */
  ghost predicate Delivers(fs: seq<FullHandle>, m: nat, es: seq<SensorEvent>, ds: seq<SensorEvent>) {
    var kept := Kept(fs, m, es);
    |ds| == |kept| && forall k :: 0 <= k < |kept| ==> PassedAs(fs, m, kept[k], ds[k])
  }

  lemma OneIsPassed(fs: seq<FullHandle>, m: nat, e: SensorEvent)
    ensures var d := Remap(AssignAll(fs), m, e);
      PassedAs(fs, m, e, d) && (IsDropped(d) <==> !IsPassed(fs, m, e))
  {
    HandlesRoundTrip(fs, FullHandle(m, if e.isMetaData then e.metaSensor else e.sensor));
  }

  lemma {:induction false} PassedDelivers(fs: seq<FullHandle>, m: nat, es: seq<SensorEvent>)
    ensures Delivers(fs, m, es, Passed(AssignAll(fs), m, es))
    decreases |es|
  {
    if es != [] {
      PassedDelivers(fs, m, es[..|es| - 1]);
      OneIsPassed(fs, m, es[|es| - 1]);
    }
  }

  /** A scan passes on, of the events it takes from each module, those of registered sensors
      and the meta-data events, each leading back to where it came from. */
  lemma ScanDelivers(fs: seq<FullHandle>, qs: seq<Ring>, next: nat, maxReads: int, i: nat)
    requires AllValid(qs) && next < |qs| && maxReads >= 1 && i < |qs|
    ensures var s := Finish(AssignAll(fs), Start(qs, next, maxReads));
      Delivers(fs, i, From(i, s.taken), From(i, s.passed))
  {
    var s := Finish(AssignAll(fs), Start(qs, next, maxReads));
    ScanIsFaithful(AssignAll(fs), qs, next, maxReads);
    assert Tracked(AssignAll(fs), qs[i], s, i);
    PassedDelivers(fs, i, From(i, s.taken));
  }

  lemma {:induction false} HandlesStay(handles: Handles, modules: nat, actions: seq<Action>)
    requires Run(handles, modules, actions).Some?
    ensures Run(handles, modules, actions).value.handles == handles
    decreases |actions|
  {
    if actions != [] {
      HandlesStay(handles, modules, actions[..|actions| - 1]);
    }
  }

  /** In every interleaving, what poll ever returned of a module's events are those of
      registered sensors and the meta-data events among the ones it consumed, in the order
      they were written, each leading back to the module and its sensor. */
  lemma EventsKeepTheirSensor(fs: seq<FullHandle>, modules: nat, actions: seq<Action>, i: nat)
    requires Run(AssignAll(fs), modules, actions).Some?
    requires i < |Run(AssignAll(fs), modules, actions).value.queues|
    ensures var s := Run(AssignAll(fs), modules, actions).value;
      Delivers(fs, i, s.consumed[i], From(i, s.delivered))
  {
    HandlesStay(AssignAll(fs), modules, actions);
    EventsArriveInOrder(AssignAll(fs), modules, actions, i);
    PassedDelivers(fs, i, Run(AssignAll(fs), modules, actions).value.consumed[i]);
  }

  // ----- in turn

  /** How many places queue i is ahead of the one looked at next. */
  function Due(n: nat, next: nat, i: nat): nat
    requires next < n && i < n
  {
    if i >= next then i - next else i + n - next
  }

  /** If queue i still has events, queue j has given at most as many, or one more if i is to
      be looked at sooner. */
  predicate EvenFor(s: Scan, i: nat, j: nat)
    requires i < |s.queues| && j < |s.queues| && s.next < |s.queues|
  {
    s.queues[i].size > 0 ==>
      |From(j, s.taken)| <=
        |From(i, s.taken)| + if Due(|s.queues|, s.next, i) < Due(|s.queues|, s.next, j) then 1 else 0
  }

  ghost predicate Even(s: Scan)
    requires ScanValid(s)
  {
    forall i, j :: 0 <= i < |s.queues| && 0 <= j < |s.queues| ==> EvenFor(s, i, j)
  }

  /** A look goes on to the queue after, around the end. */
  lemma LookGoesOn(h: Handles, s: Scan)
    requires ScanValid(s) && Goes(s)
    ensures Look(h, s).next == if s.next + 1 == |s.queues| then 0 else s.next + 1
    ensures |Look(h, s).queues| == |s.queues|
    ensures forall i :: 0 <= i < |s.queues| ==>
      Due(|s.queues|, Look(h, s).next, i) == if i == s.next then |s.queues| - 1 else Due(|s.queues|, s.next, i) - 1
  {
    LookStaysValid(h, s);
    Wraps(s.next + 1, |s.queues|);
  }

  lemma LookTakesOne(h: Handles, s: Scan, i: nat)
    requires ScanValid(s) && Goes(s) && i < |s.queues|
    ensures var one := if i == s.next && s.queues[i].size > 0 then 1 else 0;
      && |Look(h, s).queues| == |s.queues|
      && |From(i, Look(h, s).taken)| == |From(i, s.taken)| + one
      && Look(h, s).queues[i].size == s.queues[i].size - one
  {
    LookTakes(h, s, i);
  }

  lemma LookStaysEvenFor(h: Handles, s: Scan, i: nat, j: nat)
    requires ScanValid(s) && Goes(s) && i < |s.queues| && j < |s.queues| && EvenFor(s, i, j)
    ensures |Look(h, s).queues| == |s.queues| && Look(h, s).next < |s.queues| && EvenFor(Look(h, s), i, j)
  {
    LookGoesOn(h, s);
    LookTakesOne(h, s, i);
    LookTakesOne(h, s, j);
  }

  lemma LookStaysEven(h: Handles, s: Scan)
    requires ScanValid(s) && Goes(s) && Even(s)
    ensures ScanValid(Look(h, s)) && Even(Look(h, s))
  {
    LookStaysValid(h, s);
    forall i, j | 0 <= i < |s.queues| && 0 <= j < |s.queues|
      ensures EvenFor(Look(h, s), i, j)
    {
      assert EvenFor(s, i, j);
      LookStaysEvenFor(h, s, i, j);
    }
  }

  lemma {:induction false} FinishIsEven(h: Handles, s: Scan)
    requires ScanValid(s) && Even(s)
    ensures ScanValid(Finish(h, s)) && Even(Finish(h, s))
    decreases Total(s.queues), |s.queues| - s.empties
  {
    if Goes(s) {
      LookStaysValid(h, s);
      LookStaysEven(h, s);
      FinishIsEven(h, Look(h, s));
    }
  }

  /** A scan takes the modules in turn: none gives more than one event more than a module
      that still has events when the scan ends. */
  lemma ScanIsFair(h: Handles, qs: seq<Ring>, next: nat, maxReads: int, i: nat, j: nat)
    requires AllValid(qs) && next < |qs| && maxReads >= 1 && i < |qs| && j < |qs|
    ensures var s := Finish(h, Start(qs, next, maxReads));
      |s.queues| == |qs| && (s.queues[i].size > 0 ==> |From(j, s.taken)| <= |From(i, s.taken)| + 1)
  {
    ScanIsFaithful(h, qs, next, maxReads);
    StartIsEven(qs, next, maxReads);
    FinishIsEven(h, Start(qs, next, maxReads));
    assert EvenFor(Finish(h, Start(qs, next, maxReads)), i, j);
  }

  lemma StartIsEven(qs: seq<Ring>, next: nat, maxReads: int)
    requires AllValid(qs) && next < |qs|
    ensures Even(Start(qs, next, maxReads))
  {
  }

  // ----- what each step of a thread does

  /** A writer that takes the mutex waits exactly if its queue is full, and otherwise goes to
      fill the largest region there is. */
  lemma EnterEffect(s: Hal, i: nat)
    requires Wellformed(s) && Enabled(s, WriterEnters(i))
    ensures var q, first := s.queues[i], Slot(s.queues[i], s.queues[i].size);
      var region := Region(first, Min(CAPACITY, Min(|q.data| - first, |q.data| - q.size)));
      Act(s, WriterEnters(i)) ==
        s.(writers := s.writers[i := if q.size == |q.data| then AwaitingSpace(false) else Polling(region)])
  {
    RegionIsReserved(s.queues[i], CAPACITY);
  }

  /** A writer that comes back with events adds them to the readable ones of its queue, in
      their slots, and signals the reader exactly if it waits for data. Without events it
      changes nothing; in either case it is done with its region. */
  lemma CommitEffect(s: Hal, i: nat, count: int)
    requires Wellformed(s) && Enabled(s, WriterCommits(i, count))
    ensures var n := Act(s, WriterCommits(i, count));
      && n.writers == s.writers[i := AtTop]
      && (if count <= 0 then n == s.(writers := n.writers)
          else
            && n.queues == s.queues[i := Ring(s.queues[i].start, s.queues[i].size + count, s.queues[i].data)]
            && n.reader == (if s.reader.AwaitingData? then s.reader.(signaled := true) else s.reader)
            && n == s.(writers := n.writers, queues := n.queues, reader := n.reader, committed := n.committed))
  {
    assert WriterFits(s, i);
  }

  /** The queue did not grow, and its writers are woken exactly if it was full and is not. */
  predicate WakesFull(q: Ring, s: Scan, i: nat)
    requires i < |s.queues|
  {
    && s.queues[i].size <= q.size && s.queues[i].data == q.data
    && (i in s.woken <==> IsFull(q) && s.queues[i].size < q.size)
  }

  lemma {:induction false} FinishWakesFull(h: Handles, q: Ring, s: Scan, i: nat)
    requires ScanValid(s) && Valid(q) && i < |s.queues| && WakesFull(q, s, i)
    ensures |Finish(h, s).queues| == |s.queues| && WakesFull(q, Finish(h, s), i)
    decreases Total(s.queues), |s.queues| - s.empties
  {
    if Goes(s) {
      LookStaysValid(h, s);
      assert WakesFull(q, Look(h, s), i);
      FinishWakesFull(h, q, Look(h, s), i);
    }
  }

  /** The reader wakes exactly the writers that wait at a queue that was full and gave it
      events; all other writers go on as they were. */
  lemma ReadWakes(s: Hal, a: Action, i: nat)
    requires Wellformed(s) && Reads(a) && Enabled(s, a) && i < |s.queues|
    ensures var n := Act(s, a);
      && |n.queues| == |n.writers| == |s.queues|
      && n.writers[i] ==
           if s.writers[i].AwaitingSpace? && IsFull(s.queues[i]) && !IsFull(n.queues[i]) then AwaitingSpace(true)
           else s.writers[i]
  {
    ScanIsFaithful(s.handles, s.queues, s.nextReadIndex, Requested(s, a));
    FinishWakesFull(s.handles, s.queues[i], Start(s.queues, s.nextReadIndex, Requested(s, a)), i);
  }
}
