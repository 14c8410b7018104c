/** The AGPS state machine as an object that updates its fields in place. Every method is
    tied to the step functions of AgpsProtocol, whose runs are proved safe in AgpsSafety. */
module AgpsMachine {
  import opened Optional
  import opened AgpsProtocol

  /** A walk that is at i in the list as it is and at seen in the list as it was. */
  lemma NextEntry(list: seq<AgpsSubscriber>, i: nat, whole: seq<AgpsSubscriber>, seen: nat)
    requires i < |list| && seen <= |whole| && list[i..] == whole[seen..]
    ensures seen < |whole| && list[i] == whole[seen] && list[i + 1..] == whole[seen + 1..]
  {
    assert list[i] == list[i..][0] == whole[seen..][0];
    assert list[i + 1..] == list[i..][1..] == whole[seen..][1..];
  }

  lemma LeftOneMore(subs: seq<AgpsSubscriber>, k: nat, delete: bool, a: Audience)
    requires k < |subs|
    ensures Left(subs[..k + 1], delete, a) ==
      Left(subs[..k], delete, a) + (if IsAddressed(a, subs[k]) && delete then [] else [subs[k]])
  {
    assert subs[..k + 1][..k] == subs[..k];
    assert !delete ==> subs[..k + 1] == subs[..k] + [subs[k]];
  }

  lemma NoticesOneMore(subs: seq<AgpsSubscriber>, k: nat, a: Audience, e: AgpsEvent, log: seq<AtlNotice>)
    requires k < |subs|
    ensures log + Notices(subs[..k + 1], a, e) ==
      log + Notices(subs[..k], a, e) + (if IsAddressed(a, subs[k]) then NoticeOf(e, subs[k].connHandle) else [])
  {
    assert subs[..k + 1][..k] == subs[..k];
  }

  class AgpsStateMachine {
    var mState: AgpsState
    var mSubscriberList: seq<AgpsSubscriber>
    var mCurrentSubscriber: Option<AgpsSubscriber>
    ghost var atl: seq<AtlNotice>
    ghost var nif: seq<NifTraffic>

    ghost function Value(): Machine
      reads this
    {
      Machine(mState, mSubscriberList, atl, nif)
    }

    constructor ()
      ensures Value() == INITIAL && mCurrentSubscriber == None
    {
      mState, mSubscriberList, mCurrentSubscriber := Released, [], None;
      atl, nif := [], [];
    }

    method SetCurrentSubscriber(s: AgpsSubscriber)
      modifies this`mCurrentSubscriber
      ensures mCurrentSubscriber == Some(s)
    {
      mCurrentSubscriber := Some(s);
    }

    method GetSubscriber(connHandle: int) returns (s: Option<AgpsSubscriber>)
      ensures s == Find(mSubscriberList, connHandle)
    {
      var i := 0;
      while i < |mSubscriberList|
        invariant i <= |mSubscriberList|
        invariant Find(mSubscriberList, connHandle) == Find(mSubscriberList[i..], connHandle)
      {
        if mSubscriberList[i].connHandle == connHandle {
          return Some(mSubscriberList[i]);
        }
        assert mSubscriberList[i..][1..] == mSubscriberList[i + 1..];
        i := i + 1;
      }
      return None;
    }

    method AnyActiveSubscribers() returns (any: bool)
      ensures any <==> AnyActive(mSubscriberList)
    {
      for i := 0 to |mSubscriberList|
        invariant forall j :: 0 <= j < i ==> mSubscriberList[j].isInactive
      {
        if !mSubscriberList[i].isInactive {
          assert mSubscriberList[i] in mSubscriberList;
          return true;
        }
      }
      return false;
    }

    method AddSubscriber(s: AgpsSubscriber)
      modifies this`mSubscriberList, this`atl
      ensures Value() == Listing(old(Value()), s)
    {
      for i := 0 to |mSubscriberList|
        invariant forall j :: 0 <= j < i ==> mSubscriberList[j].connHandle != s.connHandle
      {
        if mSubscriberList[i].connHandle == s.connHandle {
          assert mSubscriberList[i] in mSubscriberList;
          return;
        }
      }
      mSubscriberList := mSubscriberList + [s];
      atl := atl + [Listed(s.connHandle)];
    }

    method DeleteSubscriber(s: AgpsSubscriber)
      modifies this`mSubscriberList
      ensures mSubscriberList == Without(old(mSubscriberList), s.connHandle)
    {
      ghost var whole := mSubscriberList;
      var i := 0;
      ghost var seen := 0;
      while i < |mSubscriberList|
        invariant 0 <= i <= |mSubscriberList| && seen <= |whole|
        invariant mSubscriberList[..i] == Without(whole[..seen], s.connHandle)
        invariant mSubscriberList[i..] == whole[seen..]
        decreases |mSubscriberList| - i
      {
        NextEntry(mSubscriberList, i, whole, seen);
        assert whole[..seen + 1][..seen] == whole[..seen];
        if mSubscriberList[i].connHandle == s.connHandle {
          mSubscriberList := mSubscriberList[..i] + mSubscriberList[i + 1..];
        } else {
          assert mSubscriberList[..i + 1] == mSubscriberList[..i] + [mSubscriberList[i]];
          i := i + 1;
        }
        seen := seen + 1;
      }
      assert whole[..seen] == whole && mSubscriberList[..i] == mSubscriberList;
    }

    /** Writes through the current-subscriber pointer, which refers to the list entry. */
    method DeactivateCurrent()
      requires mCurrentSubscriber.Some?
      modifies this`mSubscriberList
      ensures mSubscriberList == Deactivated(old(mSubscriberList), mCurrentSubscriber.value.connHandle)
    {
      var h := mCurrentSubscriber.value.connHandle;
      ghost var whole := mSubscriberList;
      for i := 0 to |mSubscriberList|
        invariant |mSubscriberList| == |whole|
        invariant forall j :: 0 <= j < |whole| ==>
          mSubscriberList[j] == if j < i then Deactivated(whole, h)[j] else whole[j]
      {
        if mSubscriberList[i].connHandle == h {
          mSubscriberList := mSubscriberList[i := mSubscriberList[i].(isInactive := true)];
        }
      }
    }

    method NotifyEventToSubscriber(e: AgpsEvent, s: AgpsSubscriber, delete: bool)
      modifies this`mSubscriberList, this`atl
      ensures atl == old(atl) + NoticeOf(e, s.connHandle)
      ensures mSubscriberList == if delete then Without(old(mSubscriberList), s.connHandle) else old(mSubscriberList)
    {
      atl := atl + NoticeOf(e, s.connHandle);
      if delete {
        DeleteSubscriber(s);
      }
    }

    /** Notifies the entry at position i if it is addressed, and unlists it if asked to. */
    method NotifyAt(i: nat, e: AgpsEvent, delete: bool, a: Audience) returns (next: nat)
      requires i < |mSubscriberList|
      modifies this`mSubscriberList, this`atl
      ensures next <= |mSubscriberList|
      ensures mSubscriberList[next..] == old(mSubscriberList)[i + 1..]
      ensures mSubscriberList[..next] ==
        old(mSubscriberList)[..i]
        + (if IsAddressed(a, old(mSubscriberList)[i]) && delete then [] else [old(mSubscriberList)[i]])
      ensures atl == old(atl) +
        (if IsAddressed(a, old(mSubscriberList)[i]) then NoticeOf(e, old(mSubscriberList)[i].connHandle) else [])
    {
      next := i + 1;
      if IsAddressed(a, mSubscriberList[i]) {
        NotifyEventToSubscriber(e, mSubscriberList[i], false);
        if delete {
          mSubscriberList := mSubscriberList[..i] + mSubscriberList[i + 1..];
          next := i;
        }
      }
    }

    method NotifyAllSubscribers(e: AgpsEvent, delete: bool, a: Audience)
      modifies this`mSubscriberList, this`atl
      ensures Value() == Broadcast(old(Value()), e, delete, a)
    {
      ghost var whole := mSubscriberList;
      ghost var seen := 0;
      var i := 0;
      while i < |mSubscriberList|
        invariant 0 <= i <= |mSubscriberList| && seen <= |whole|
        invariant mSubscriberList[i..] == whole[seen..]
        invariant mSubscriberList[..i] == Left(whole[..seen], delete, a)
        invariant atl == old(atl) + Notices(whole[..seen], a, e)
        decreases |whole| - seen
      {
        NextEntry(mSubscriberList, i, whole, seen);
        LeftOneMore(whole, seen, delete, a);
        NoticesOneMore(whole, seen, a, e, old(atl));
        i := NotifyAt(i, e, delete, a);
        seen := seen + 1;
      }
      assert whole[..seen] == whole && mSubscriberList[..i] == mSubscriberList;
    }

    /** The base machine's request to the framework never fails. */
    method RequestOrReleaseDataConn(request: bool) returns (err: int)
      modifies this`nif
      ensures err == 0 && nif == old(nif) + [if request then SentRequest else SentRelease]
    {
      nif := nif + [if request then SentRequest else SentRelease];
      err := 0;
    }

    method ProcessAgpsEventSubscribe()
      requires mCurrentSubscriber.Some?
      modifies this`mState, this`mSubscriberList, this`atl, this`nif
      ensures Value() == OnSubscribe(old(Value()), mCurrentSubscriber.value)
    {
      match mState
      case Released =>
        AddSubscriber(mCurrentSubscriber.value);
        var err := RequestOrReleaseDataConn(true);
        if err == 0 {
          mState := Pending;
        }
      case Pending => AddSubscriber(mCurrentSubscriber.value);
      case Acquired =>
        NotifyEventToSubscriber(GrantedEvent, mCurrentSubscriber.value, false);
        AddSubscriber(mCurrentSubscriber.value);
      case Releasing => AddSubscriber(mCurrentSubscriber.value);
    }

    method ProcessAgpsEventUnsubscribe()
      requires mCurrentSubscriber.Some?
      modifies this`mState, this`mSubscriberList, this`atl, this`nif
      ensures Value() == OnUnsubscribe(old(Value()), mCurrentSubscriber.value)
    {
      match mState
      case Released => NotifyEventToSubscriber(UnsubscribeEvent, mCurrentSubscriber.value, false);
      case Releasing =>
        if mCurrentSubscriber.value.waitForCloseComplete {
          DeactivateCurrent();
        } else {
          NotifyEventToSubscriber(UnsubscribeEvent, mCurrentSubscriber.value, true);
        }
        if mSubscriberList == [] {
          mState := Released;
        }
      case _ =>
        if mCurrentSubscriber.value.waitForCloseComplete {
          DeactivateCurrent();
        } else {
          NotifyEventToSubscriber(UnsubscribeEvent, mCurrentSubscriber.value, true);
        }
        if mSubscriberList == [] {
          mState := Released;
          var err := RequestOrReleaseDataConn(false);
        } else {
          var any := AnyActiveSubscribers();
          if !any {
            mState := Releasing;
            var err := RequestOrReleaseDataConn(false);
          }
        }
    }

    method ProcessAgpsEventGranted()
      modifies this`mState, this`mSubscriberList, this`atl, this`nif
      ensures Value() == OnGranted(old(Value()))
    {
      nif := nif + [GotGranted];
      if mState == Pending {
        mState := Acquired;
        NotifyAllSubscribers(GrantedEvent, false, ActiveSubscribers);
      }
    }

    method ProcessAgpsEventReleased()
      modifies this`mState, this`mSubscriberList, this`atl, this`nif
      ensures Value() == OnReleased(old(Value()))
    {
      nif := nif + [GotReleased];
      match mState
      case Acquired =>
        mState := Released;
        NotifyAllSubscribers(ReleasedEvent, true, AllSubscribers);
      case Releasing =>
        NotifyAllSubscribers(ReleasedEvent, true, InactiveSubscribers);
        var any := AnyActiveSubscribers();
        if any {
          mState := Pending;
          var err := RequestOrReleaseDataConn(true);
        } else {
          mState := Released;
        }
      case _ =>
    }

    method ProcessAgpsEventDenied()
      modifies this`mState, this`mSubscriberList, this`atl, this`nif
      ensures Value() == OnDenied(old(Value()))
    {
      nif := nif + [GotDenied];
      match mState
      case Pending =>
        mState := Released;
        NotifyAllSubscribers(DeniedEvent, true, AllSubscribers);
      case Releasing =>
        NotifyAllSubscribers(ReleasedEvent, true, InactiveSubscribers);
        var any := AnyActiveSubscribers();
        if any {
          mState := Pending;
          var err := RequestOrReleaseDataConn(true);
        } else {
          mState := Released;
        }
      case _ =>
    }

    method ProcessAgpsEvent(e: AgpsEvent)
      requires e == SubscribeEvent || e == UnsubscribeEvent ==> mCurrentSubscriber.Some?
      modifies this
      ensures mCurrentSubscriber == old(mCurrentSubscriber)
      ensures Value() == match e
        case SubscribeEvent => OnSubscribe(old(Value()), mCurrentSubscriber.value)
        case UnsubscribeEvent => OnUnsubscribe(old(Value()), mCurrentSubscriber.value)
        case GrantedEvent => OnGranted(old(Value()))
        case ReleasedEvent => OnReleased(old(Value()))
        case DeniedEvent => OnDenied(old(Value()))
    {
      match e
      case SubscribeEvent => ProcessAgpsEventSubscribe();
      case UnsubscribeEvent => ProcessAgpsEventUnsubscribe();
      case GrantedEvent => ProcessAgpsEventGranted();
      case ReleasedEvent => ProcessAgpsEventReleased();
      case DeniedEvent => ProcessAgpsEventDenied();
    }

    method DropAllSubscribers()
      modifies this`mSubscriberList, this`atl
      ensures Value() == OnDropAll(old(Value()))
    {
      ghost var whole := mSubscriberList;
      ghost var seen := 0;
      while mSubscriberList != []
        invariant seen <= |whole| && mSubscriberList == whole[seen..]
        invariant atl == old(atl) + Drops(whole[..seen])
        decreases |mSubscriberList|
      {
        assert whole[..seen + 1][..seen] == whole[..seen];
        atl := atl + [Dropped(mSubscriberList[0].connHandle)];
        mSubscriberList := mSubscriberList[1..];
        seen := seen + 1;
      }
      assert whole[..seen] == whole;
    }
  }
}
