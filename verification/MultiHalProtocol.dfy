/** The multi-HAL pipeline as interleaved steps: one writer thread per module, one reader,
    one mutex and two kinds of condition variable. A step is what a thread does while it
    holds the mutex, or one write of a device into its region without it. */
module MultiHalProtocol {
  import opened Optional
  import opened SensorRing
  import opened MultiHalScan

  /** Requested by a writer each time; also the capacity of every queue. */
  const CAPACITY: nat := 36

  datatype Writer =
    | AtTop                          // about to take the mutex
    | AwaitingSpace(signaled: bool)  // in the wait for space, perhaps with a pending wake-up
    | Polling(region: Region)        // in the module's poll, filling the region

  datatype Reader =
    | Outside                                     // not in poll
    | AwaitingData(signaled: bool, maxReads: int) // in the wait for data

  /** committed: per module, all events ever marked as written. consumed: those taken out
      of the queue again. delivered: what poll returned so far. */
  datatype Hal = Hal(
    handles: Handles, queues: seq<Ring>, writers: seq<Writer>, reader: Reader,
    waitingForData: bool, nextReadIndex: nat,
    committed: seq<seq<SensorEvent>>, consumed: seq<seq<SensorEvent>>, delivered: seq<Tagged>)

  function Fresh(handles: Handles, modules: nat): Hal {
    Hal(handles,
        seq(modules, _ => Ring(0, 0, seq(CAPACITY, _ => SensorEvent(false, 0, 0, 0)))),
        seq(modules, _ => AtTop), Outside, false, 0,
        seq(modules, _ => []), seq(modules, _ => []), [])
  }

  // ----- steps of writer i

  /** With the mutex: wait if the queue is full, otherwise go and poll the module. Also
      what a woken writer does, whether or not it was signaled. */
  function Enter(s: Hal, i: nat): Hal
    requires i < |s.writers| == |s.queues| && Valid(s.queues[i])
  {
    if IsFull(s.queues[i]) then s.(writers := s.writers[i := AwaitingSpace(false)])
    else s.(writers := s.writers[i := Polling(WritableRegion(s.queues[i], CAPACITY))])
  }

  /** The device writes one event into the region. */
  function DeviceWrites(s: Hal, i: nat, j: nat, e: SensorEvent): Hal
    requires i < |s.writers| == |s.queues| && s.writers[i].Polling?
    requires s.writers[i].region.first + j < |s.queues[i].data|
  {
    s.(queues := s.queues[i := Fill(s.queues[i], s.writers[i].region.first + j, e)])
  }

  /** The device's poll returned count: mark that many events as written and wake the
      reader if it waits for data. Nothing is marked for zero or an error. */
  function Commit(s: Hal, i: nat, count: int): Hal
    requires i < |s.writers| == |s.queues| == |s.committed| && s.writers[i].Polling?
    requires s.writers[i].region.first + count <= |s.queues[i].data|
  {
    var t := s.(writers := s.writers[i := AtTop]);
    if count <= 0 then t
    else
      var g := s.writers[i].region;
      t.(queues := s.queues[i := MarkAsWritten(s.queues[i], count)],
         committed := s.committed[i := s.committed[i] + s.queues[i].data[g.first..g.first + count]],
         reader := if s.waitingForData && s.reader.AwaitingData? then s.reader.(signaled := true) else s.reader)
  }

  // ----- steps of the reader

  function Woken(ws: seq<Writer>, woken: set<nat>): seq<Writer> {
    seq(|ws|, i requires 0 <= i < |ws| =>
      if i in woken && ws[i].AwaitingSpace? then AwaitingSpace(true) else ws[i])
  }

  /** With the mutex: scan, then return the events found or wait for data. Also what the
      woken reader does, whether or not it was signaled. */
  function Read(s: Hal, maxReads: int): Hal
    requires AllValid(s.queues) && (s.queues != [] ==> s.nextReadIndex < |s.queues|) && |s.consumed| == |s.queues|
  {
    var f := Finish(s.handles, Start(s.queues, s.nextReadIndex, maxReads));
    var t := s.(
      queues := f.queues, nextReadIndex := f.next, writers := Woken(s.writers, f.woken),
      consumed := seq(|s.consumed|, i requires 0 <= i < |s.consumed| => s.consumed[i] + From(i, f.taken)),
      delivered := s.delivered + f.passed);
    if f.passed == [] then t.(reader := AwaitingData(false, maxReads), waitingForData := true)
    else t.(reader := Outside, waitingForData := false)
  }

  datatype Action =
    | WriterEnters(i: nat)
    | DeviceWritesEvent(i: nat, j: nat, e: SensorEvent)
    | WriterCommits(i: nat, count: int)
    | ReaderCalls(maxReads: int)
    | ReaderWakes

  /** What the threads and the device contract allow next: a device returns at most as
      many events as its region holds, and the reader asks for at least one. */
  predicate Enabled(s: Hal, a: Action) {
    match a
    case WriterEnters(i) => i < |s.writers| && !s.writers[i].Polling?
    case DeviceWritesEvent(i, j, _) => i < |s.writers| && s.writers[i].Polling? && j < s.writers[i].region.length
    case WriterCommits(i, count) => i < |s.writers| && s.writers[i].Polling? && count <= s.writers[i].region.length
    case ReaderCalls(maxReads) => s.reader == Outside && maxReads >= 1
    case ReaderWakes => s.reader.AwaitingData?
  }

  function Act(s: Hal, a: Action): Hal
    requires Wellformed(s) && Enabled(s, a)
  {
    match a
    case WriterEnters(i) => Enter(s, i)
    case DeviceWritesEvent(i, j, e) => assert WriterFits(s, i); DeviceWrites(s, i, j, e)
    case WriterCommits(i, count) => assert WriterFits(s, i); Commit(s, i, count)
    case ReaderCalls(maxReads) => Read(s, maxReads)
    case ReaderWakes => Read(s, s.reader.maxReads)
  }

  // ----- the invariant

  ghost predicate WriterFits(s: Hal, i: nat)
    requires i < |s.writers| == |s.queues|
  {
    match s.writers[i]
    case AtTop => true
    case AwaitingSpace(signaled) => !signaled ==> IsFull(s.queues[i])
    case Polling(g) => g.length > 0 && Reserved(s.queues[i], g)
  }

  ghost predicate HistoryFits(s: Hal, i: nat)
    requires i < |s.queues| == |s.committed| == |s.consumed| && Valid(s.queues[i])
  {
    && s.committed[i] == s.consumed[i] + Contents(s.queues[i])
    && From(i, s.delivered) == Passed(s.handles, i, s.consumed[i])
  }

  ghost predicate Shape(s: Hal) {
    && |s.writers| == |s.queues| == |s.committed| == |s.consumed|
    && AllValid(s.queues)
    && (s.queues != [] ==> s.nextReadIndex < |s.queues|)
  }

  ghost predicate ReaderFits(s: Hal) {
    match s.reader
    case Outside => !s.waitingForData
    case AwaitingData(signaled, maxReads) =>
      s.waitingForData && maxReads >= 1 && (!signaled ==> AllEmpty(s.queues))
  }

  ghost predicate Wellformed(s: Hal) {
    && Shape(s)
    && (forall i :: 0 <= i < |s.queues| ==> WriterFits(s, i) && HistoryFits(s, i))
    && ReaderFits(s)
  }

  lemma FreshIsWellformed(handles: Handles, modules: nat)
    ensures Wellformed(Fresh(handles, modules))
  {
  }

  lemma EnterKeeps(s: Hal, i: nat)
    requires Wellformed(s) && i < |s.writers|
    ensures Wellformed(Enter(s, i))
  {
    var t := Enter(s, i);
    RegionIsReserved(s.queues[i], CAPACITY);
    forall k | 0 <= k < |t.queues| ensures WriterFits(t, k) && HistoryFits(t, k) {
      assert WriterFits(s, k) && HistoryFits(s, k);
    }
  }

  lemma DeviceWritesKeeps(s: Hal, i: nat, j: nat, e: SensorEvent)
    requires Wellformed(s) && Enabled(s, DeviceWritesEvent(i, j, e))
    ensures Wellformed(Act(s, DeviceWritesEvent(i, j, e)))
  {
    assert WriterFits(s, i);
    var t := DeviceWrites(s, i, j, e);
    FillIsInvisible(s.queues[i], s.writers[i].region, j, e);
    forall k | 0 <= k < |t.queues| ensures WriterFits(t, k) && HistoryFits(t, k) {
      assert WriterFits(s, k) && HistoryFits(s, k);
    }
  }

  lemma CommitKeeps(s: Hal, i: nat, count: int)
    requires Wellformed(s) && Enabled(s, WriterCommits(i, count))
    ensures Wellformed(Act(s, WriterCommits(i, count)))
  {
    assert WriterFits(s, i) && HistoryFits(s, i);
    var t := Commit(s, i, count);
    var g := s.writers[i].region;
    if count > 0 {
      MarkAppends(s.queues[i], g, count);
      Assoc(s.consumed[i], Contents(s.queues[i]), s.queues[i].data[g.first..g.first + count]);
    }
    forall k | 0 <= k < |t.queues| ensures WriterFits(t, k) && HistoryFits(t, k) {
      assert WriterFits(s, k) && HistoryFits(s, k);
    }
  }

  /** What a scan does to the account of one queue. */
  lemma HistoryAfterScan(h: Handles, i: nat, q: Ring, f: Scan,
                         committed: seq<SensorEvent>, consumed: seq<SensorEvent>, delivered: seq<Tagged>)
    requires Valid(q) && ScanValid(f) && i < |f.queues| && Tracked(h, q, f, i)
    requires committed == consumed + Contents(q) && From(i, delivered) == Passed(h, i, consumed)
    ensures committed == (consumed + From(i, f.taken)) + Contents(f.queues[i])
    ensures From(i, delivered + f.passed) == Passed(h, i, consumed + From(i, f.taken))
  {
    Assoc(consumed, From(i, f.taken), Contents(f.queues[i]));
    FromConcat(i, delivered, f.passed);
    PassedConcat(h, i, consumed, From(i, f.taken));
  }

  function ScanOf(s: Hal, maxReads: int): Scan
    requires Shape(s)
  {
    Finish(s.handles, Start(s.queues, s.nextReadIndex, maxReads))
  }

  lemma ReadKeepsShape(s: Hal, maxReads: int)
    requires Wellformed(s) && maxReads >= 1
    ensures Shape(Read(s, maxReads)) && |Read(s, maxReads).queues| == |s.queues|
    ensures ScanValid(ScanOf(s, maxReads)) && Read(s, maxReads).queues == ScanOf(s, maxReads).queues
    ensures forall i :: 0 <= i < |s.queues| ==> Tracked(s.handles, s.queues[i], ScanOf(s, maxReads), i)
  {
    ScanIsFaithful(s.handles, s.queues, s.nextReadIndex, maxReads);
  }

  lemma ReadKeepsHistory(s: Hal, maxReads: int, i: nat)
    requires Wellformed(s) && maxReads >= 1 && i < |s.queues|
    ensures Shape(Read(s, maxReads)) && |Read(s, maxReads).queues| == |s.queues|
    ensures HistoryFits(Read(s, maxReads), i)
  {
    ReadKeepsShape(s, maxReads);
    assert HistoryFits(s, i);
    HistoryAfterScan(s.handles, i, s.queues[i], ScanOf(s, maxReads), s.committed[i], s.consumed[i], s.delivered);
  }

  /** A writer that was woken may go on; one that was not has a queue as full as before. */
  lemma WriterAfterScan(w: Writer, q: Ring, f: Scan, i: nat)
    requires ScanValid(f) && i < |f.queues| && Undisturbed(q, f, i)
    requires w.AwaitingSpace? && !w.signaled ==> IsFull(q)
    requires w.Polling? ==> Reserved(q, w.region)
    ensures w.AwaitingSpace? && !w.signaled && i !in f.woken ==> IsFull(f.queues[i])
    ensures w.Polling? ==> Reserved(f.queues[i], w.region)
  {
  }

  lemma ReadKeepsWriter(s: Hal, maxReads: int, i: nat)
    requires Wellformed(s) && maxReads >= 1 && i < |s.queues|
    ensures Shape(Read(s, maxReads)) && |Read(s, maxReads).queues| == |s.queues|
    ensures WriterFits(Read(s, maxReads), i)
  {
    ReadKeepsShape(s, maxReads);
    assert WriterFits(s, i);
    WriterAfterScan(s.writers[i], s.queues[i], ScanOf(s, maxReads), i);
  }

  lemma ReadKeeps(s: Hal, maxReads: int)
    requires Wellformed(s) && maxReads >= 1
    ensures Wellformed(Read(s, maxReads))
  {
    ScanIsFaithful(s.handles, s.queues, s.nextReadIndex, maxReads);
    ReadKeepsShape(s, maxReads);
    forall i | 0 <= i < |s.queues|
      ensures WriterFits(Read(s, maxReads), i) && HistoryFits(Read(s, maxReads), i)
    {
      ReadKeepsWriter(s, maxReads, i);
      ReadKeepsHistory(s, maxReads, i);
    }
  }

  lemma ActKeeps(s: Hal, a: Action)
    requires Wellformed(s) && Enabled(s, a)
    ensures Wellformed(Act(s, a))
  {
    match a
    case WriterEnters(i) => EnterKeeps(s, i);
    case DeviceWritesEvent(i, j, e) => DeviceWritesKeeps(s, i, j, e);
    case WriterCommits(i, count) => CommitKeeps(s, i, count);
    case ReaderCalls(maxReads) => ReadKeeps(s, maxReads);
    case ReaderWakes => ReadKeeps(s, s.reader.maxReads);
  }

  // ----- every interleaving

  /** The state after the given actions of the threads in this order, or nothing if some
      thread could not have acted then. */
  ghost function Run(handles: Handles, modules: nat, actions: seq<Action>): (s: Option<Hal>)
    ensures s.Some? ==> Wellformed(s.value)
    decreases |actions|
  {
    if actions == [] then
      FreshIsWellformed(handles, modules);
      Some(Fresh(handles, modules))
    else
      var before, a := Run(handles, modules, actions[..|actions| - 1]), actions[|actions| - 1];
      if before.Some? && Enabled(before.value, a) then
        ActKeeps(before.value, a);
        Some(Act(before.value, a))
      else None
  }

  /** No wake-up is lost: a reader that waits with no wake-up pending has told the writers
      so and every queue is empty; a writer that waits with no wake-up pending has a full
      queue. So the reader and a writer never both wait in vain. */
  lemma NoLostWakeups(handles: Handles, modules: nat, actions: seq<Action>)
    requires Run(handles, modules, actions).Some?
    ensures var s := Run(handles, modules, actions).value;
      && |s.writers| == |s.queues|
      && (s.reader.AwaitingData? && !s.reader.signaled ==> s.waitingForData && AllEmpty(s.queues))
      && (forall i :: 0 <= i < |s.writers| && s.writers[i] == AwaitingSpace(false) ==> IsFull(s.queues[i]))
      && !(s.reader.AwaitingData? && !s.reader.signaled
           && exists i :: 0 <= i < |s.writers| && s.writers[i] == AwaitingSpace(false))
  {
    var s := Run(handles, modules, actions).value;
    forall i | 0 <= i < |s.writers| && s.writers[i] == AwaitingSpace(false)
      ensures IsFull(s.queues[i]) && s.queues[i].size > 0
    {
      assert WriterFits(s, i);
    }
  }

  /** Nothing is lost, invented or reordered: of each module's events, in the order they
      were written, the oldest were consumed and the rest are queued, and the reader was
      given the consumed ones that are not dropped. */
  lemma EventsArriveInOrder(handles: Handles, modules: nat, actions: seq<Action>, i: nat)
    requires Run(handles, modules, actions).Some? && i < |Run(handles, modules, actions).value.queues|
    ensures var s := Run(handles, modules, actions).value;
      && s.committed[i] == s.consumed[i] + Contents(s.queues[i])
      && From(i, s.delivered) == Passed(s.handles, i, s.consumed[i])
  {
    assert HistoryFits(Run(handles, modules, actions).value, i);
  }

  /** The reader takes the mutex, in a call of poll or out of its wait. */
  predicate Reads(a: Action) { a.ReaderCalls? || a.ReaderWakes? }

  function Requested(s: Hal, a: Action): int
    requires Reads(a) && Enabled(s, a)
  {
    if a.ReaderCalls? then a.maxReads else s.reader.maxReads
  }

  /** When the reader has the mutex it returns with between 1 and as many events as it asked
      for when it called poll, or waits, for as many, and then with every queue empty. */
  lemma PollReturnsSomething(handles: Handles, modules: nat, actions: seq<Action>, a: Action)
    requires Run(handles, modules, actions).Some?
    requires Reads(a) && Enabled(Run(handles, modules, actions).value, a)
    ensures var s := Run(handles, modules, actions).value; var t, n := Act(s, a), Requested(s, a);
      && s.delivered <= t.delivered && |t.delivered| <= |s.delivered| + n
      && (if |t.delivered| > |s.delivered| then t.reader == Outside
          else t.reader == AwaitingData(false, n) && AllEmpty(t.queues))
  {
    var s := Run(handles, modules, actions).value;
    ScanIsFaithful(s.handles, s.queues, s.nextReadIndex, Requested(s, a));
  }

  /** While a module's device fills its region, nobody else writes a slot of that queue or
      moves the region, so what is committed is what the device wrote. */
  lemma RegionIsPrivate(s: Hal, a: Action, i: nat)
    requires Wellformed(s) && Enabled(s, a) && i < |s.queues| && s.writers[i].Polling?
    ensures WriterFits(s, i) && |Act(s, a).queues| == |Act(s, a).writers| == |Act(s, a).committed| == |s.queues|
    ensures !(a.DeviceWritesEvent? && a.i == i) ==> Act(s, a).queues[i].data == s.queues[i].data
    ensures !(a.WriterCommits? && a.i == i) ==> Act(s, a).writers[i] == s.writers[i]
    ensures a.WriterCommits? && a.i == i && a.count > 0 ==>
      var g := s.writers[i].region;
      a.count <= g.length && Act(s, a).committed[i] == s.committed[i] + s.queues[i].data[g.first..g.first + a.count]
  {
    assert WriterFits(s, i);
    if a.ReaderCalls? || a.ReaderWakes? {
      var maxReads := if a.ReaderCalls? then a.maxReads else s.reader.maxReads;
      ScanIsFaithful(s.handles, s.queues, s.nextReadIndex, maxReads);
      assert Tracked(s.handles, s.queues[i], Finish(s.handles, Start(s.queues, s.nextReadIndex, maxReads)), i);
    }
  }

  /** A wait is ended by whoever can end it: a writer that commits events signals a waiting
      reader, and while the reader waits in vain every writer that takes the mutex gets a
      region to fill. */
  lemma WaitersAreServed(s: Hal, i: nat, count: int)
    requires Wellformed(s) && i < |s.writers| && s.reader.AwaitingData?
    ensures s.writers[i].Polling? && 0 < count <= s.writers[i].region.length ==>
      Act(s, WriterCommits(i, count)).reader == s.reader.(signaled := true)
    ensures !s.reader.signaled && !s.writers[i].Polling? ==>
      Act(s, WriterEnters(i)).writers[i].Polling? && Act(s, WriterEnters(i)).writers[i].region.length > 0
  {
    assert WriterFits(s, i);
    RegionIsReserved(s.queues[i], CAPACITY);
  }
}
