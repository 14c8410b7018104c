/** The reader of the multi-HAL as code: it drains the queue objects of all modules in place. */
module MultiHal {
  import opened Optional
  import opened SensorRing
  import opened SensorEventQueue
  import opened MultiHalScan

  class SensorsPollContext {
    const handles: Handles
    const queues: seq<SensorEventQueue>
    var nextReadIndex: nat
    var waitingForData: bool

    /** The queues as values. */
    ghost var values: seq<Ring>

    ghost predicate IsValid()
      reads this, queues, set q | q in queues :: q.mData
    {
      && |values| == |queues|
      && (forall i :: 0 <= i < |queues| ==> queues[i].IsValid() && queues[i].Value() == values[i])
      && (forall i, j :: 0 <= i < j < |queues| ==> queues[i] != queues[j])
      && (queues != [] ==> nextReadIndex < |queues|)
    }

    constructor (handles: Handles, queues: seq<SensorEventQueue>)
      requires forall i :: 0 <= i < |queues| ==> queues[i].IsValid()
      requires forall i, j :: 0 <= i < j < |queues| ==> queues[i] != queues[j]
      ensures IsValid() && this.handles == handles && this.queues == queues && nextReadIndex == 0 && !waitingForData
    {
      this.handles, this.queues := handles, queues;
      nextReadIndex, waitingForData := 0, false;
      ghost var vs: seq<Ring> := [];
      for i := 0 to |queues|
        invariant |vs| == i && forall k :: 0 <= k < i ==> vs[k] == queues[k].Value()
      {
        vs := vs + [queues[i].Value()];
      }
      values := vs;
    }

    method CopyEventRemapHandle(src: SensorEvent, subIndex: nat) returns (dest: SensorEvent)
      ensures dest == Remap(handles, subIndex, src)
    {
      dest := src;
      if dest.isMetaData {
        dest := dest.(metaSensor := GlobalHandle(handles, FullHandle(subIndex, dest.metaSensor)));
      } else {
        dest := dest.(sensor := GlobalHandle(handles, FullHandle(subIndex, dest.sensor)));
      }
    }

    method PeekNext() returns (event: Option<SensorEvent>)
      requires IsValid() && queues != []
      ensures var q := values[nextReadIndex]; event == if q.size == 0 then None else Some(q.data[q.start])
    {
      DequeueTakesOldest(values[nextReadIndex]);
      event := queues[nextReadIndex].Peek();
    }

    /** Puts an event into the reader's buffer. */
    method Store(data: array<SensorEvent>, at: nat, e: SensorEvent)
      requires IsValid() && at < data.Length && forall q :: q in queues ==> q.mData != data
      modifies data
      ensures IsValid() && data[..] == old(data[..])[at := e]
    {
      data[at] := e;
    }

    /** Takes the oldest event out of the next queue. */
    method DequeueNext()
      requires IsValid() && queues != []
      modifies queues, this`values
      ensures IsValid() && values == old(values)[nextReadIndex := Dequeue(old(values)[nextReadIndex])]
    {
      queues[nextReadIndex].Dequeue();
      values := values[nextReadIndex := Dequeue(values[nextReadIndex])];
    }

    method Advance()
      requires IsValid() && queues != []
      modifies this`nextReadIndex
      ensures IsValid() && nextReadIndex == (old(nextReadIndex) + 1) % |queues|
    {
      nextReadIndex := (nextReadIndex + 1) % |queues|;
    }

    /** s is where the scan stands and out what it has put into the reader's buffer. */
    ghost predicate StandsAt(s: Scan, out: seq<SensorEvent>)
      reads this
    {
      && s.queues == values && s.next == nextReadIndex && |s.passed| <= |out|
      && (forall k :: 0 <= k < |s.passed| ==> out[k] == s.passed[k].event)
    }

    /** Looks at the next queue in the round and passes its oldest event on, unless its
        handle is bad. */
    method LookAtNext(data: array<SensorEvent>, eventsRead: nat, ghost s: Scan) returns (found: bool, kept: bool)
      requires IsValid() && |s.queues| == |queues| && Goes(s) && eventsRead < data.Length
      requires StandsAt(s, data[..]) && eventsRead == |s.passed|
      requires forall q :: q in queues ==> q.mData != data
      modifies this`nextReadIndex, this`values, queues, data
      ensures IsValid() && ScanValid(s) && StandsAt(Look(handles, s), data[..])
      ensures var n := Look(handles, s);
        && |n.queues| == |queues|
        && n.empties == (if found then 0 else s.empties + 1)
        && |n.passed| == (if kept then eventsRead + 1 else eventsRead)
        && n.room == (if kept then s.room - 1 else s.room)
    {
      var event := PeekNext();
      found, kept := event.Some?, false;
      if found {
        var copy := CopyEventRemapHandle(event.value, nextReadIndex);
        Store(data, eventsRead, copy);
        kept := copy.sensor != -1;
        DequeueNext();
      }
      Advance();
    }

    /** The inner loop of poll. */
    method ScanQueues(data: array<SensorEvent>, maxReads: int) returns (eventsRead: nat)
      requires IsValid() && maxReads <= data.Length
      requires forall q :: q in queues ==> q.mData != data
      modifies this`nextReadIndex, this`values, queues, data
      ensures IsValid()
      ensures var f := Finish(handles, Start(old(values), old(nextReadIndex), maxReads));
        StandsAt(f, data[..]) && eventsRead == |f.passed|
    {
      var empties := 0;
      eventsRead := 0;
      ghost var s := Start(values, nextReadIndex, maxReads);
      ghost var f := Finish(handles, s);
      while empties < |queues| && eventsRead < maxReads
        invariant IsValid() && StandsAt(s, data[..]) && |s.queues| == |queues|
        invariant s.empties == empties && s.room == maxReads - eventsRead && |s.passed| == eventsRead
        invariant Finish(handles, s) == f
        decreases Total(s.queues), |queues| - empties
      {
        LookStaysValid(handles, s);
        var found, kept := LookAtNext(data, eventsRead, s);
        empties := if found then 0 else empties + 1;
        eventsRead := if kept then eventsRead + 1 else eventsRead;
        s := Look(handles, s);
      }
    }

    /** What poll does while it holds the lock, from taking it or waking up to returning
        events or going to wait: zero events means it waits. */
    method PollLocked(data: array<SensorEvent>, maxReads: int) returns (eventsRead: nat)
      requires IsValid() && maxReads <= data.Length
      requires forall q :: q in queues ==> q.mData != data
      modifies this, queues, data
      ensures IsValid()
      ensures var f := Finish(handles, Start(old(values), old(nextReadIndex), maxReads));
        StandsAt(f, data[..]) && eventsRead == |f.passed|
      ensures waitingForData <==> eventsRead == 0
    {
      eventsRead := ScanQueues(data, maxReads);
      waitingForData := eventsRead == 0;
    }
  }
}
