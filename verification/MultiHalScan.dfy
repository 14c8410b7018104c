/** One locked scan of the multi-HAL reader over the queues of all modules: a round robin
    that stops when enough events were read or every queue was found empty. */
module MultiHalScan {
  import opened SensorRing

  // ----- sensor handles

  datatype FullHandle = FullHandle(moduleIndex: nat, localHandle: int)

  datatype Handles = Handles(fullToGlobal: map<FullHandle, int>, globalToFull: map<int, FullHandle>, next: int)

  const NO_HANDLES: Handles := Handles(map[], map[], 1)

  function Assign(h: Handles, f: FullHandle): Handles {
    Handles(h.fullToGlobal[f := h.next], h.globalToFull[h.next := f], h.next + 1)
  }

  function AssignAll(fs: seq<FullHandle>): Handles {
    if fs == [] then NO_HANDLES else Assign(AssignAll(fs[..|fs| - 1]), fs[|fs| - 1])
  }

  function GlobalHandle(h: Handles, f: FullHandle): int {
    if f in h.fullToGlobal then h.fullToGlobal[f] else -1
  }

  function LocalHandle(h: Handles, global: int): int {
    if global in h.globalToFull then h.globalToFull[global].localHandle else -1
  }

  function ModuleIndex(h: Handles, global: int): int {
    if global in h.globalToFull then h.globalToFull[global].moduleIndex else -1
  }

  /** A handle given out for an event leads back to the module and sensor the event came
      from; -1 is given exactly for sensors that were never registered. */
  lemma {:induction false} HandlesRoundTrip(fs: seq<FullHandle>, f: FullHandle)
    ensures var h := AssignAll(fs); var g := GlobalHandle(h, f);
      && (g == -1 <==> f !in fs)
      && (g != -1 ==> 1 <= g < h.next && LocalHandle(h, g) == f.localHandle && ModuleIndex(h, g) == f.moduleIndex)
      && h.next == |fs| + 1
    decreases |fs|
  {
    if fs != [] {
      assert fs == fs[..|fs| - 1] + [fs[|fs| - 1]];
      HandlesRoundTrip(fs[..|fs| - 1], f);
      HandlesRoundTrip(fs[..|fs| - 1], fs[|fs| - 1]);
    }
  }

  // ----- events on their way to the reader

  /** Replaces the module's own handle, in the payload of a meta-data event and in the
      sensor field of any other. */
  function Remap(h: Handles, m: nat, e: SensorEvent): SensorEvent {
    if e.isMetaData then e.(metaSensor := GlobalHandle(h, FullHandle(m, e.metaSensor)))
    else e.(sensor := GlobalHandle(h, FullHandle(m, e.sensor)))
  }

  predicate IsDropped(e: SensorEvent) { e.sensor == -1 }

  /** What the reader passes on of the events of module m. */
  function Passed(h: Handles, m: nat, es: seq<SensorEvent>): seq<SensorEvent> {
    if es == [] then []
    else
      var e := Remap(h, m, es[|es| - 1]);
      Passed(h, m, es[..|es| - 1]) + (if IsDropped(e) then [] else [e])
  }

  datatype Tagged = Tagged(origin: nat, event: SensorEvent)

  /** The events that came from module m, in order. */
  function From(m: nat, ts: seq<Tagged>): seq<SensorEvent> {
    if ts == [] then []
    else From(m, ts[..|ts| - 1]) + (if ts[|ts| - 1].origin == m then [ts[|ts| - 1].event] else [])
  }

  lemma {:induction false} FromConcat(m: nat, a: seq<Tagged>, b: seq<Tagged>)
    ensures From(m, a + b) == From(m, a) + From(m, b)
    decreases |b|
  {
    if b == [] {
      assert a + b == a;
    } else {
      FromConcat(m, a, b[..|b| - 1]);
      assert (a + b)[..|a + b| - 1] == a + b[..|b| - 1];
    }
  }

  lemma {:induction false} PassedConcat(h: Handles, m: nat, a: seq<SensorEvent>, b: seq<SensorEvent>)
    ensures Passed(h, m, a + b) == Passed(h, m, a) + Passed(h, m, b)
    decreases |b|
  {
    if b == [] {
      assert a + b == a;
    } else {
      PassedConcat(h, m, a, b[..|b| - 1]);
      assert (a + b)[..|a + b| - 1] == a + b[..|b| - 1];
    }
  }

  // ----- the scan

  ghost predicate AllValid(qs: seq<Ring>) {
    forall i :: 0 <= i < |qs| ==> Valid(qs[i])
  }

  ghost predicate AllEmpty(qs: seq<Ring>) {
    forall i :: 0 <= i < |qs| ==> qs[i].size == 0
  }

  function Total(qs: seq<Ring>): nat {
    if qs == [] then 0 else Total(qs[..|qs| - 1]) + qs[|qs| - 1].size
  }

  lemma {:induction false} TotalAfterUpdate(qs: seq<Ring>, i: nat, r: Ring)
    requires i < |qs|
    ensures Total(qs[i := r]) == Total(qs) - qs[i].size + r.size
    decreases |qs|
  {
    if i == |qs| - 1 {
      assert qs[i := r][..|qs| - 1] == qs[..|qs| - 1];
    } else {
      TotalAfterUpdate(qs[..|qs| - 1], i, r);
      assert qs[i := r][..|qs| - 1] == qs[..|qs| - 1][i := r];
    }
  }

  /** The state of a scan: where it reads next, how many queues in a row were empty, how
      many events may still be read, the events taken out of the queues, the events
      passed on, and the queues whose waiting writers were woken. */
  datatype Scan = Scan(
    queues: seq<Ring>, next: nat, empties: nat, room: int,
    taken: seq<Tagged>, passed: seq<Tagged>, woken: set<nat>)

  ghost predicate ScanValid(s: Scan) {
    AllValid(s.queues) && (s.queues != [] ==> s.next < |s.queues|)
  }

  predicate Goes(s: Scan) { s.empties < |s.queues| && s.room > 0 }

  /** Looks at one queue. */
  function Look(h: Handles, s: Scan): Scan
    requires ScanValid(s) && Goes(s)
  {
    var q := s.queues[s.next];
    var next := (s.next + 1) % |s.queues|;
    if q.size == 0 then s.(empties := s.empties + 1, next := next)
    else
      var e := q.data[q.start];
      var f := Remap(h, s.next, e);
      Scan(s.queues[s.next := Dequeue(q)], next, 0, if IsDropped(f) then s.room else s.room - 1,
           s.taken + [Tagged(s.next, e)],
           s.passed + (if IsDropped(f) then [] else [Tagged(s.next, f)]),
           s.woken + (if IsFull(q) then {s.next} else {}))
  }

  lemma LookStaysValid(h: Handles, s: Scan)
    requires ScanValid(s) && Goes(s)
    ensures ScanValid(Look(h, s)) && |Look(h, s).queues| == |s.queues|
    ensures Total(Look(h, s).queues) < Total(s.queues) ||
      (Look(h, s).queues == s.queues && Look(h, s).empties == s.empties + 1)
  {
    var q := s.queues[s.next];
    if q.size > 0 {
      DequeueTakesOldest(q);
      TotalAfterUpdate(s.queues, s.next, Dequeue(q));
    }
  }

  /** Looks at queue after queue; ends because events run out or empty queues pile up. */
  function Finish(h: Handles, s: Scan): Scan
    requires ScanValid(s)
    decreases Total(s.queues), |s.queues| - s.empties
  {
    if Goes(s) then
      LookStaysValid(h, s);
      Finish(h, Look(h, s))
    else s
  }

  function Start(qs: seq<Ring>, next: nat, maxReads: int): Scan { Scan(qs, next, 0, maxReads, [], [], {}) }

  /** The queue k places before position next in the round. */
  function Before(n: nat, next: nat, k: nat): nat
    requires k <= n && next < n
  {
    if next >= k then next - k else next + n - k
  }

  /** What holds during a scan that started from the queues qs with room for maxReads. */
  ghost predicate Progress(h: Handles, qs: seq<Ring>, maxReads: int, s: Scan) {
    && ScanValid(s) && AllValid(qs) && |s.queues| == |qs| && s.empties <= |qs|
    && |s.passed| + s.room == maxReads
    && (forall i :: 0 <= i < |qs| ==> Tracked(h, qs[i], s, i))
    && (qs != [] ==> forall k :: 1 <= k <= s.empties ==> s.queues[Before(|qs|, s.next, k)].size == 0)
  }

  /** Queue i lost exactly the events taken from it, oldest first; those not dropped were
      passed on; and the slots of the queue were left alone. */
  ghost predicate Tracked(h: Handles, q: Ring, s: Scan, i: nat)
    requires ScanValid(s) && Valid(q) && i < |s.queues|
  {
    && Contents(q) == From(i, s.taken) + Contents(s.queues[i])
    && From(i, s.passed) == Passed(h, i, From(i, s.taken))
    && Undisturbed(q, s, i)
  }

  /** No slot was written, reserved regions stay reserved, and a full queue that lost
      anything has had its writers woken. */
  ghost predicate Undisturbed(q: Ring, s: Scan, i: nat)
    requires ScanValid(s) && i < |s.queues|
  {
    var r := s.queues[i];
    && r.data == q.data
    && (forall g :: Reserved(q, g) ==> Reserved(r, g))
    && (IsFull(q) && i !in s.woken ==> r == q)
  }

  lemma LookUndisturbs(h: Handles, q: Ring, s: Scan, i: nat)
    requires ScanValid(s) && Goes(s) && i < |s.queues| && Undisturbed(q, s, i)
    ensures ScanValid(Look(h, s)) && Undisturbed(q, Look(h, s), i)
  {
    LookStaysValid(h, s);
    DequeueTakesOldest(s.queues[s.next]);
  }

  /** What one look takes and passes on. */
  function TakenNow(s: Scan, i: nat): seq<SensorEvent>
    requires ScanValid(s) && Goes(s)
  {
    var q := s.queues[s.next];
    if q.size == 0 || i != s.next then [] else [q.data[q.start]]
  }

  lemma FromOneMore(m: nat, ts: seq<Tagged>, t: Tagged)
    ensures From(m, ts + [t]) == From(m, ts) + (if t.origin == m then [t.event] else [])
  {
    assert (ts + [t])[..|ts|] == ts;
  }

  lemma PassedOne(h: Handles, m: nat, e: SensorEvent)
    ensures Passed(h, m, [e]) == if IsDropped(Remap(h, m, e)) then [] else [Remap(h, m, e)]
  {
    assert [e][..0] == [];
  }

  lemma LookTakes(h: Handles, s: Scan, i: nat)
    requires ScanValid(s) && Goes(s)
    ensures From(i, Look(h, s).taken) == From(i, s.taken) + TakenNow(s, i)
    ensures From(i, Look(h, s).passed) == From(i, s.passed) + Passed(h, i, TakenNow(s, i))
  {
    var q := s.queues[s.next];
    if q.size > 0 {
      var e := q.data[q.start];
      FromOneMore(i, s.taken, Tagged(s.next, e));
      FromOneMore(i, s.passed, Tagged(s.next, Remap(h, s.next, e)));
      PassedOne(h, s.next, e);
      if IsDropped(Remap(h, s.next, e)) { assert s.passed + [] == s.passed; }
    }
  }

  lemma LookLeaves(h: Handles, s: Scan, i: nat)
    requires ScanValid(s) && Goes(s) && i < |s.queues|
    ensures ScanValid(Look(h, s)) && Contents(s.queues[i]) == TakenNow(s, i) + Contents(Look(h, s).queues[i])
  {
    LookStaysValid(h, s);
    DequeueTakesOldest(s.queues[s.next]);
  }

  lemma Assoc(a: seq<SensorEvent>, b: seq<SensorEvent>, c: seq<SensorEvent>)
    ensures (a + b) + c == a + (b + c)
  {
  }

  lemma LookTracks(h: Handles, q: Ring, s: Scan, i: nat)
    requires ScanValid(s) && Goes(s) && Valid(q) && i < |s.queues| && Tracked(h, q, s, i)
    ensures ScanValid(Look(h, s)) && Tracked(h, q, Look(h, s), i)
  {
    LookUndisturbs(h, q, s, i);
    LookTakes(h, s, i);
    PassedConcat(h, i, From(i, s.taken), TakenNow(s, i));
    LookLeaves(h, s, i);
    Assoc(From(i, s.taken), TakenNow(s, i), Contents(Look(h, s).queues[i]));
  }

  lemma LookProgresses(h: Handles, qs: seq<Ring>, maxReads: int, s: Scan)
    requires Progress(h, qs, maxReads, s) && Goes(s)
    ensures Progress(h, qs, maxReads, Look(h, s))
  {
    LookStaysValid(h, s);
    var n := Look(h, s);
    forall i | 0 <= i < |qs| ensures Tracked(h, qs[i], n, i) {
      LookTracks(h, qs[i], s, i);
    }
    Wraps(s.next + 1, |qs|);
    forall k | 1 <= k <= n.empties
      ensures n.queues[Before(|qs|, n.next, k)].size == 0
    {
      if k > 1 {
        assert Before(|qs|, n.next, k) == Before(|qs|, s.next, k - 1);
      }
    }
  }

  lemma {:induction false} FinishProgresses(h: Handles, qs: seq<Ring>, maxReads: int, s: Scan)
    requires Progress(h, qs, maxReads, s)
    ensures Progress(h, qs, maxReads, Finish(h, s)) && !Goes(Finish(h, s))
    decreases Total(s.queues), |s.queues| - s.empties
  {
    if Goes(s) {
      LookStaysValid(h, s);
      LookProgresses(h, qs, maxReads, s);
      FinishProgresses(h, qs, maxReads, Look(h, s));
    }
  }

  lemma StartProgresses(h: Handles, qs: seq<Ring>, next: nat, maxReads: int)
    requires AllValid(qs) && (qs != [] ==> next < |qs|)
    ensures Progress(h, qs, maxReads, Start(qs, next, maxReads))
  {
  }

  /** A finished scan returns at most maxReads events, fewer only if it left every queue
      empty; from each module it took the oldest events and passed on, in the order they
      were written, all of them but the dropped ones. */
  lemma ScanIsFaithful(h: Handles, qs: seq<Ring>, next: nat, maxReads: int)
    requires AllValid(qs) && (qs != [] ==> next < |qs|) && maxReads >= 1
    ensures var s := Finish(h, Start(qs, next, maxReads));
      && Progress(h, qs, maxReads, s)
      && |s.passed| <= maxReads
      && (|s.passed| < maxReads ==> AllEmpty(s.queues))
  {
    var s := Finish(h, Start(qs, next, maxReads));
    StartProgresses(h, qs, next, maxReads);
    FinishProgresses(h, qs, maxReads, Start(qs, next, maxReads));
    RoomNeverNegative(h, Start(qs, next, maxReads));
    if s.room > 0 && qs != [] {
      forall i | 0 <= i < |qs| ensures s.queues[i].size == 0 {
        var k := if i < s.next then s.next - i else s.next + |qs| - i;
        assert Before(|qs|, s.next, k) == i;
      }
    }
  }

  lemma {:induction false} RoomNeverNegative(h: Handles, s: Scan)
    requires ScanValid(s) && s.room >= 0
    ensures Finish(h, s).room >= 0
    decreases Total(s.queues), |s.queues| - s.empties
  {
    if Goes(s) {
      LookStaysValid(h, s);
      RoomNeverNegative(h, Look(h, s));
    }
  }

  /** With no room for even one event the scan looks at nothing, so a reader that asks for
      none would wait although events are there. */
  lemma NoRoomReadsNothing(h: Handles, qs: seq<Ring>, next: nat, maxReads: int)
    requires AllValid(qs) && (qs != [] ==> next < |qs|) && maxReads < 1
    ensures Finish(h, Start(qs, next, maxReads)) == Start(qs, next, maxReads)
  {
  }
}
