/** The queue object of one sensor module, over an array that is filled in place. */
module SensorEventQueue {
  import opened Optional
  import opened SensorRing

  class SensorEventQueue {
    const mCapacity: nat
    const mData: array<SensorEvent>
    var mStart: nat
    var mSize: nat
    /** How often the space-available condition was broadcast. */
    ghost var broadcasts: nat

    ghost function Value(): Ring
      reads this, mData
    {
      Ring(mStart, mSize, mData[..])
    }

    ghost predicate IsValid()
      reads this, mData
    {
      mData.Length == mCapacity && Valid(Value())
    }

    constructor (capacity: nat)
      requires capacity > 0
      ensures IsValid() && fresh(mData) && mCapacity == capacity
      ensures Contents(Value()) == [] && broadcasts == 0
    {
      mCapacity := capacity;
      mStart, mSize, broadcasts := 0, 0, 0;
      mData := new SensorEvent[capacity](_ => SensorEvent(false, 0, 0, 0));
    }

    /** Length and first slot of the region a writer may fill; the length is 0 for no region. */
    method GetWritableRegion(requestedLength: int) returns (length: nat, out: nat)
      requires IsValid()
      ensures Region(out, length) == WritableRegion(Value(), requestedLength)
    {
      RegionIsReserved(Value(), requestedLength);
      if mSize == mCapacity || requestedLength <= 0 {
        return 0, 0;
      }
      var firstWritable := (mStart + mSize) % mCapacity;
      var lastWritable := firstWritable + requestedLength - 1;
      if lastWritable > mCapacity - 1 {
        lastWritable := mCapacity - 1;
      }
      if firstWritable < mStart && lastWritable >= mStart {
        lastWritable := mStart - 1;
      }
      return lastWritable - firstWritable + 1, firstWritable;
    }

    /** What the device does to the region it was handed, without the lock. */
    method FillSlot(g: Region, j: nat, e: SensorEvent)
      requires IsValid() && Reserved(Value(), g) && j < g.length
      modifies mData
      ensures IsValid() && Value() == Fill(old(Value()), g.first + j, e)
      ensures Reserved(Value(), g) && Contents(Value()) == old(Contents(Value()))
    {
      FillIsInvisible(Value(), g, j, e);
      mData[g.first + j] := e;
    }

    method MarkAsWritten(ghost g: Region, count: nat)
      requires IsValid() && Reserved(Value(), g) && count <= g.length
      modifies this`mSize
      ensures IsValid() && Value() == SensorRing.MarkAsWritten(old(Value()), count)
      ensures Contents(Value()) ==
        old(Contents(Value())) + (if count == 0 then [] else mData[g.first..g.first + count])
    {
      MarkAppends(Value(), g, count);
      mSize := mSize + count;
    }

    method GetSize() returns (size: nat)
      requires IsValid()
      ensures size == |Contents(Value())|
    {
      size := mSize;
    }

    method Peek() returns (e: Option<SensorEvent>)
      requires IsValid()
      ensures e == if Contents(Value()) == [] then None else Some(Contents(Value())[0])
    {
      DequeueTakesOldest(Value());
      if mSize == 0 { return None; }
      return Some(mData[mStart]);
    }

    /** Frees the oldest slot; waiting writers are woken exactly if the queue was full. */
    method Dequeue()
      requires IsValid()
      modifies this
      ensures IsValid() && Value() == SensorRing.Dequeue(old(Value()))
      ensures Contents(Value()) == if old(Contents(Value())) == [] then [] else old(Contents(Value()))[1..]
      ensures forall g :: old(Reserved(Value(), g)) ==> Reserved(Value(), g)
      ensures broadcasts == old(broadcasts) + (if IsFull(old(Value())) then 1 else 0)
    {
      DequeueTakesOldest(Value());
      if mSize == 0 { return; }
      if mSize == mCapacity {
        broadcasts := broadcasts + 1;
      }
      mSize := mSize - 1;
      mStart := (mStart + 1) % mCapacity;
    }
  }
}
