/** The circular buffer between one sensor module and the reader, on values: it is a
    first-in first-out queue into which a writer fills slots outside the lock. */
module SensorRing {

  /** What the code looks at in a sensor event. A meta-data event carries the handle of
      another sensor in its payload. */
  datatype SensorEvent = SensorEvent(isMetaData: bool, sensor: int, metaSensor: int, payload: int)

  /** start is the first readable slot, size the number of readable slots. */
  datatype Ring = Ring(start: nat, size: nat, data: seq<SensorEvent>)

  predicate Valid(r: Ring) {
    r.start < |r.data| && r.size <= |r.data|
  }

  /** The slot i places after the first readable one. */
  function Slot(r: Ring, i: nat): nat
    requires Valid(r)
  {
    (r.start + i) % |r.data|
  }

  function Contents(r: Ring): seq<SensorEvent>
    requires Valid(r)
  {
    seq(r.size, i requires 0 <= i < r.size => r.data[Slot(r, i)])
  }

  predicate IsFull(r: Ring) { r.size == |r.data| }

  /** A run of length slots beginning at slot first; length 0 stands for no region. */
  datatype Region = Region(first: nat, length: nat)

  const NO_REGION: Region := Region(0, 0)

  // ----- the operations

  function WritableRegion(r: Ring, requested: int): Region
    requires Valid(r)
  {
    if IsFull(r) || requested <= 0 then NO_REGION
    else
      var first := Slot(r, r.size);
      var last := first + requested - 1;
      var inside := if last > |r.data| - 1 then |r.data| - 1 else last;
      var end := if first < r.start && inside >= r.start then r.start - 1 else inside;
      Region(first, end - first + 1)
  }

  function MarkAsWritten(r: Ring, count: nat): Ring { r.(size := r.size + count) }

  function Fill(r: Ring, slot: nat, e: SensorEvent): Ring
    requires slot < |r.data|
  {
    r.(data := r.data[slot := e])
  }

  function Dequeue(r: Ring): Ring
    requires Valid(r)
  {
    if r.size == 0 then r else Ring((r.start + 1) % |r.data|, r.size - 1, r.data)
  }

  // ----- regions

  function Min(a: int, b: int): int { if a < b then a else b }

  /** The region may be filled: it begins where the next event goes, is contiguous, and
      fits into the slots that are not readable. */
  ghost predicate Reserved(r: Ring, g: Region) {
    && Valid(r)
    && (g.length > 0 ==>
         g.first == Slot(r, r.size) && g.first + g.length <= |r.data| && g.length <= |r.data| - r.size)
  }

  lemma Wraps(a: nat, n: nat)
    requires 0 < n && a < 2 * n
    ensures a % n == if a < n then a else a - n
  {
  }

  lemma SlotWraps(r: Ring, i: nat)
    requires Valid(r) && i <= |r.data|
    ensures Slot(r, i) == if r.start + i < |r.data| then r.start + i else r.start + i - |r.data|
  {
    Wraps(r.start + i, |r.data|);
  }

  /** A requested region is as long as the request, the end of the buffer and the readable
      slots allow; so it is empty only if the queue is full or nothing was asked for. */
  lemma RegionIsReserved(r: Ring, requested: int)
    requires Valid(r)
    ensures var g := WritableRegion(r, requested);
      && Reserved(r, g)
      && (g.length == 0 <==> IsFull(r) || requested <= 0)
      && (g.length > 0 ==> g.length == Min(requested, Min(|r.data| - Slot(r, r.size), |r.data| - r.size)))
  {
    SlotWraps(r, r.size);
  }

  /** No slot of a reserved region is readable. */
  lemma RegionIsUnreadable(r: Ring, g: Region, j: nat, k: nat)
    requires Reserved(r, g) && j < g.length && k < r.size
    ensures g.first + j != Slot(r, k)
  {
    SlotWraps(r, r.size);
    SlotWraps(r, k);
  }

  /** Filling a slot of the region does not disturb the reader. */
  lemma FillIsInvisible(r: Ring, g: Region, j: nat, e: SensorEvent)
    requires Reserved(r, g) && j < g.length
    ensures Reserved(Fill(r, g.first + j, e), g)
    ensures Contents(Fill(r, g.first + j, e)) == Contents(r)
  {
    forall k | 0 <= k < r.size
      ensures Contents(Fill(r, g.first + j, e))[k] == Contents(r)[k]
    {
      RegionIsUnreadable(r, g, j, k);
    }
  }

  /** Dequeuing takes the oldest event and leaves a reserved region reserved. */
  lemma DequeueTakesOldest(r: Ring)
    requires Valid(r)
    ensures Valid(Dequeue(r)) && Dequeue(r).data == r.data
    ensures Contents(Dequeue(r)) == if r.size == 0 then [] else Contents(r)[1..]
    ensures r.size > 0 ==> Contents(r)[0] == r.data[r.start]
    ensures forall g :: Reserved(r, g) ==> Reserved(Dequeue(r), g)
  {
    SlotWraps(r, 0);
    SlotWraps(r, 1);
    SlotWraps(r, r.size);
    if r.size > 0 {
      SlotWraps(Dequeue(r), r.size - 1);
      forall i | 0 <= i < r.size - 1
        ensures Contents(Dequeue(r))[i] == Contents(r)[1..][i]
      {
        SlotWraps(Dequeue(r), i);
        SlotWraps(r, i + 1);
      }
    }
  }

  /** Marking count slots of the region as written appends exactly those slots. */
  lemma MarkAppends(r: Ring, g: Region, count: nat)
    requires Reserved(r, g) && count <= g.length
    ensures Valid(MarkAsWritten(r, count))
    ensures Contents(MarkAsWritten(r, count)) ==
      Contents(r) + (if count == 0 then [] else r.data[g.first..g.first + count])
  {
    var n := MarkAsWritten(r, count);
    SlotWraps(r, r.size);
    forall i | 0 <= i < n.size
      ensures Contents(n)[i] == (Contents(r) + (if count == 0 then [] else r.data[g.first..g.first + count]))[i]
    {
      SlotWraps(r, i);
      if i >= r.size { assert Slot(r, i) == g.first + (i - r.size); }
    }
  }

  // ----- any number of dequeues between reserving and marking

  function Dequeues(r: Ring, n: nat): Ring
    requires Valid(r)
    ensures Valid(Dequeues(r, n))
  {
    if n == 0 then r
    else
      DequeueTakesOldest(Dequeues(r, n - 1));
      Dequeue(Dequeues(r, n - 1))
  }

  lemma {:induction false} DequeuesTakeOldest(r: Ring, n: nat, g: Region)
    requires Valid(r)
    ensures Dequeues(r, n).data == r.data
    ensures Contents(Dequeues(r, n)) == if n < r.size then Contents(r)[n..] else []
    ensures Reserved(r, g) ==> Reserved(Dequeues(r, n), g)
    decreases n
  {
    if n > 0 {
      DequeuesTakeOldest(r, n - 1, g);
      DequeueTakesOldest(Dequeues(r, n - 1));
    }
  }

  /** A region obtained earlier is still good after any number of dequeues, and marking it
      appends exactly what was put into it to what the reader has left. */
  lemma RegionSurvivesReader(r: Ring, requested: int, n: nat, count: nat)
    requires Valid(r) && count <= WritableRegion(r, requested).length
    ensures var g := WritableRegion(r, requested);
      && Reserved(Dequeues(r, n), g)
      && Contents(MarkAsWritten(Dequeues(r, n), count)) ==
           (if n < r.size then Contents(r)[n..] else []) + (if count == 0 then [] else r.data[g.first..g.first + count])
  {
    var g := WritableRegion(r, requested);
    RegionIsReserved(r, requested);
    DequeuesTakeOldest(r, n, g);
    MarkAppends(Dequeues(r, n), g, count);
  }
}
