/** The location API, with its adapters in an array that is updated in place. */
module LocApi {
  import opened AdapterTable

  /** A bit of an adapter's event mask. */
  datatype Event = Event(bit: nat)

  type EventMask = set<Event>

  class LocAdapterBase {
    var mEvtMask: EventMask

    constructor (mask: EventMask)
      ensures mEvtMask == mask
    {
      mEvtMask := mask;
    }
  }

  /** What a change asks of the modem. */
  datatype Request = Nothing | Open(mask: EventMask) | Close

  /** The events some adapter listed wants and that are not excluded. */
  ghost predicate Asked(s: seq<LocAdapterBase>, excluded: EventMask, e: Event)
    reads s
  {
    e !in excluded && exists i :: 0 <= i < |s| && e in s[i].mEvtMask
  }

  class LocApiBase {
    const mLocAdapters: array<LocAdapterBase?>
    const mExcludedMask: EventMask
    ghost var listed: seq<LocAdapterBase>

    /** The adapters listed fill the front of the array, without holes or duplicates. */
    ghost predicate Valid()
      reads this, mLocAdapters
    {
      && mLocAdapters.Length == MAX_ADAPTERS
      && |listed| <= MAX_ADAPTERS && Distinct(listed)
      && (forall i :: 0 <= i < |listed| ==> mLocAdapters[i] == listed[i])
      && (forall i :: |listed| <= i < MAX_ADAPTERS ==> mLocAdapters[i] == null)
    }

    constructor (excludedMask: EventMask)
      ensures Valid() && fresh(mLocAdapters) && mExcludedMask == excludedMask && listed == []
    {
      mLocAdapters := new LocAdapterBase?[MAX_ADAPTERS](i => null);
      mExcludedMask := excludedMask;
      listed := [];
    }

    method GetEvtMask() returns (mask: EventMask)
      requires Valid()
      ensures forall e :: e in mask <==> Asked(listed, mExcludedMask, e)
    {
      mask := {};
      var i := 0;
      while i < MAX_ADAPTERS && mLocAdapters[i] != null
        invariant 0 <= i <= |listed|
        invariant forall e :: e in mask <==> exists k :: 0 <= k < i && e in listed[k].mEvtMask
      {
        mask := mask + mLocAdapters[i].mEvtMask;
        i := i + 1;
      }
      mask := mask - mExcludedMask;
    }

    /** Opens with the mask of the adapter alone; without room the adapter is left out. */
    method AddAdapter(adapter: LocAdapterBase) returns (request: Request)
      requires Valid()
      modifies this`listed, mLocAdapters
      ensures Valid() && listed == Added(old(listed), adapter)
      ensures request == if listed == old(listed) then Nothing else Open(adapter.mEvtMask)
    {
      request := Nothing;
      var i := 0;
      while i < MAX_ADAPTERS && mLocAdapters[i] != adapter
        invariant 0 <= i <= |listed| && adapter !in listed[..i]
        invariant Valid() && listed == old(listed) && request == Nothing
      {
        if mLocAdapters[i] == null {
          mLocAdapters[i] := adapter;
          assert listed[..i] == listed;
          listed := listed + [adapter];
          request := Open(adapter.mEvtMask);
          break;
        }
        i := i + 1;
      }
    }

    /** Closes exactly if the last adapter went, and otherwise opens with what is left. */
    method RemoveAdapter(adapter: LocAdapterBase) returns (request: Request)
      requires Valid()
      modifies this`listed, mLocAdapters
      ensures Valid() && listed == Removed(old(listed), adapter)
      ensures request.Nothing? <==> adapter !in old(listed)
      ensures request.Close? <==> adapter in old(listed) && listed == []
      ensures request.Open? ==> forall e :: e in request.mask <==> Asked(listed, mExcludedMask, e)
    {
      request := Nothing;
      ghost var removed := false;
      var i := 0;
      while i < MAX_ADAPTERS && mLocAdapters[i] != null
        invariant Valid()
        invariant !removed ==>
          listed == old(listed) && 0 <= i <= |listed| && adapter !in listed[..i] && request.Nothing?
        invariant removed ==> listed == Removed(old(listed), adapter) && i == |listed| + 1 && adapter in old(listed)
        invariant removed ==> (request.Close? <==> listed == []) && !request.Nothing?
        invariant request.Open? ==> forall e :: e in request.mask <==> Asked(listed, mExcludedMask, e)
        decreases MAX_ADAPTERS - i
      {
        if mLocAdapters[i] == adapter {
          i := TakeOut(i);
          removed := true;
          if i == 0 {
            request := Close;
          } else {
            var mask := GetEvtMask();
            request := Open(mask);
          }
        }
        i := i + 1;
      }
    }

    /** Fills the hole that removing the adapter at j makes, and returns where the last one was. */
    method TakeOut(j: nat) returns (i: nat)
      requires Valid() && j < |listed|
      modifies this`listed, mLocAdapters
      ensures Valid() && listed == Removed(old(listed), old(listed)[j]) && i == |listed|
    {
      ghost var before := listed;
      mLocAdapters[j] := null;
      i := j + 1;
      while i < MAX_ADAPTERS && mLocAdapters[i] != null
        invariant j < i <= |before|
      {
        i := i + 1;
      }
      i := i - 1;
      mLocAdapters[j] := mLocAdapters[i];
      mLocAdapters[i] := null;
      RemovingKeeps(before, before[j]);
      listed := Removed(before, before[j]);
    }
  }
}
