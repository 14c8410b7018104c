/** The emergency machine as an object. What it inherits from the base machine it keeps in
    one: the state, the list with its loops, and the current subscriber. Here are the
    operations it overrides, and the handlers as they run with those. */
module DsStateMachine {
  import opened Optional
  import opened AgpsProtocol
  import opened AgpsMachine
  import opened DsMachine

  lemma DsNoticesOneMore(
    front: seq<AgpsSubscriber>, s: AgpsSubscriber, e: AgpsEvent, delete: bool, a: Audience, log: seq<AtlNotice>)
    ensures log + DsNotices(front + [s], e, delete, a) ==
      log + DsNotices(front, e, delete, a) + (if IsAddressed(a, s) then DsNoticeOf(e, s.connHandle, delete) else [])
  {
    assert (front + [s])[..|front|] == front;
  }

  lemma PostsOneMore(front: seq<AgpsSubscriber>, s: AgpsSubscriber, e: AgpsEvent, a: Audience, log: seq<int>)
    ensures var one := if IsAddressed(a, s) then PostOf(e, s.connHandle) else [];
      && (Posts(front + [s], e, a) != [] <==> Posts(front, e, a) != [] || one != [])
      && log + Posts(front + [s], e, a) == log + Posts(front, e, a) + one
  {
    assert (front + [s])[..|front|] == front;
  }

  lemma HangUpsOneMore(front: seq<AgpsSubscriber>, s: AgpsSubscriber, e: AgpsEvent, a: Audience, log: seq<NifTraffic>)
    ensures log + HangUps(front + [s], e, a) ==
      log + HangUps(front, e, a) + (if IsAddressed(a, s) then HangUpOf(e) else [])
  {
    assert (front + [s])[..|front|] == front;
  }

  /** The entries left of those passed, once the next one is passed too. */
  lemma ListOneMore(
    front: seq<AgpsSubscriber>, list: seq<AgpsSubscriber>, i: nat, next: seq<AgpsSubscriber>, delete: bool, a: Audience)
    requires i < |list| && list[..i] == Left(front, delete, a)
    requires next == list[..i] + (if IsAddressed(a, list[i]) && delete then [] else [list[i]])
    ensures next == Left(front + [list[i]], delete, a)
    ensures front + list[i..] == (front + [list[i]]) + list[i + 1..]
  {
    assert (front + [list[i]])[..|front|] == front;
    if !delete {
      assert next == front + [list[i]];
    }
  }

  class DSStateMachine {
    const base: AgpsStateMachine
    var mRetries: nat
    /** The requests posted for the normal machine. */
    var posted: seq<int>

    ghost function Value(): Ds
      reads this, base
    {
      Ds(base.mState, base.mSubscriberList, mRetries, posted, base.atl, base.nif)
    }

    constructor ()
      ensures Value() == DS_INITIAL && fresh(base)
    {
      base := new AgpsStateMachine();
      mRetries, posted := 0, [];
    }

    method GetFirstSubscriber(isInactive: bool) returns (s: Option<AgpsSubscriber>)
      ensures !isInactive ==> s == FirstActive(base.mSubscriberList)
    {
      var i := 0;
      while i < |base.mSubscriberList|
        invariant i <= |base.mSubscriberList|
        invariant !isInactive ==> FirstActive(base.mSubscriberList) == FirstActive(base.mSubscriberList[i..])
      {
        if base.mSubscriberList[i].isInactive == isInactive {
          return Some(base.mSubscriberList[i]);
        }
        assert base.mSubscriberList[i..][1..] == base.mSubscriberList[i + 1..];
        i := i + 1;
      }
      return None;
    }

    /** Denied means that the normal machine is to try, by way of the message queue; a
        release also gives up the call. */
    method NotifyEventToSubscriber(e: AgpsEvent, s: AgpsSubscriber, delete: bool)
      modifies this, base`mSubscriberList, base`atl, base`nif
      ensures base.mSubscriberList ==
        if delete then Without(old(base.mSubscriberList), s.connHandle) else old(base.mSubscriberList)
      ensures mRetries == (if e == DeniedEvent then 0 else old(mRetries))
      ensures posted == old(posted) + PostOf(e, s.connHandle)
      ensures base.atl == old(base.atl) + DsNoticeOf(e, s.connHandle, delete)
      ensures base.nif == old(base.nif) + HangUpOf(e)
    {
      match e {
        case DeniedEvent =>
          mRetries := 0;
          posted := posted + [s.connHandle];
        case ReleasedEvent =>
          base.nif := base.nif + [HungUp];
        case _ =>
      }
      base.atl := base.atl + DsNoticeOf(e, s.connHandle, delete);
      if delete {
        base.DeleteSubscriber(s);
      }
    }

    /** Notifies the entry at position i if it is addressed, and unlists it if asked to. */
    method NotifyAt(i: nat, e: AgpsEvent, delete: bool, a: Audience) returns (next: nat)
      requires i < |base.mSubscriberList|
      modifies this, base`mSubscriberList, base`atl, base`nif
      ensures next <= |base.mSubscriberList|
      ensures base.mSubscriberList[next..] == old(base.mSubscriberList)[i + 1..]
      ensures var s := old(base.mSubscriberList)[i];
        && base.mSubscriberList[..next] ==
             old(base.mSubscriberList)[..i] + (if IsAddressed(a, s) && delete then [] else [s])
        && posted == old(posted) + (if IsAddressed(a, s) then PostOf(e, s.connHandle) else [])
        && mRetries == (if IsAddressed(a, s) && e == DeniedEvent then 0 else old(mRetries))
        && base.atl == old(base.atl) + (if IsAddressed(a, s) then DsNoticeOf(e, s.connHandle, delete) else [])
        && base.nif == old(base.nif) + (if IsAddressed(a, s) then HangUpOf(e) else [])
    {
      next := i + 1;
      if IsAddressed(a, base.mSubscriberList[i]) {
        var s := base.mSubscriberList[i];
        NotifyEventToSubscriber(e, s, false);
        if delete {
          if e == DeniedEvent {
            base.atl := base.atl + [Dropped(s.connHandle)];
          }
          base.mSubscriberList := base.mSubscriberList[..i] + base.mSubscriberList[i + 1..];
          next := i;
        }
      }
    }

    /** A walk that began with was, has passed the entries in front and stands at i. */
    ghost predicate Passed(was: Ds, front: seq<AgpsSubscriber>, i: nat, e: AgpsEvent, delete: bool, a: Audience)
      reads this, base
    {
      && i <= |base.mSubscriberList| && base.mState == was.state
      && front + base.mSubscriberList[i..] == was.subscribers
      && base.mSubscriberList[..i] == Left(front, delete, a)
      && posted == was.fallbacks + Posts(front, e, a)
      && mRetries == (if Posts(front, e, a) != [] then 0 else was.retries)
      && base.atl == was.atl + DsNotices(front, e, delete, a)
      && base.nif == was.nif + HangUps(front, e, a)
    }

    method NotifyNext(
      ghost was: Ds, ghost front: seq<AgpsSubscriber>, i: nat, e: AgpsEvent, delete: bool, a: Audience)
      returns (next: nat)
      requires Passed(was, front, i, e, delete, a) && i < |base.mSubscriberList|
      modifies this, base`mSubscriberList, base`atl, base`nif
      ensures Passed(was, front + [old(base.mSubscriberList)[i]], next, e, delete, a)
      ensures |base.mSubscriberList| - next == |old(base.mSubscriberList)| - i - 1
    {
      ghost var list, s := base.mSubscriberList, base.mSubscriberList[i];
      PostsOneMore(front, s, e, a, was.fallbacks);
      DsNoticesOneMore(front, s, e, delete, a, was.atl);
      HangUpsOneMore(front, s, e, a, was.nif);
      next := NotifyAt(i, e, delete, a);
      ListOneMore(front, list, i, base.mSubscriberList[..next], delete, a);
    }

    method NotifyAllSubscribers(e: AgpsEvent, delete: bool, a: Audience)
      modifies this, base`mSubscriberList, base`atl, base`nif
      ensures Value() == DsBroadcast(old(Value()), e, delete, a)
    {
      ghost var front := [];
      var i: nat := 0;
      while i < |base.mSubscriberList|
        invariant Passed(old(Value()), front, i, e, delete, a)
        decreases |base.mSubscriberList| - i
      {
        ghost var s := base.mSubscriberList[i];
        i := NotifyNext(old(Value()), front, i, e, delete, a);
        front := front + [s];
      }
      assert front == old(base.mSubscriberList) && base.mSubscriberList[..i] == base.mSubscriberList;
    }

    /** Without a function to stop the call, a release is taken for one more attempt. */
    method RequestOrReleaseDataConn(request: bool, canStop: bool, attempt: Attempt) returns (ok: bool)
      modifies this, base`mSubscriberList, base`atl, base`nif
      ensures !request && canStop ==> Value() == StopCall(old(Value()), true) && ok
      ensures request || !canStop ==>
        Value() == Attempted(old(Value()), attempt) && ok == Succeeds(old(Value()), attempt)
    {
      if !request && canStop {
        base.nif := base.nif + [SentRelease];
        return true;
      }
      var subscriber := GetFirstSubscriber(false);
      ok := false;
      if subscriber != None {
        match attempt
        case NotRegistered =>
          NotifyEventToSubscriber(DeniedEvent, subscriber.value, false);
        case Busy(_) =>
          mRetries := mRetries + 1;
          if mRetries > MAX_START_DATA_CALL_RETRIES {
            NotifyEventToSubscriber(DeniedEvent, subscriber.value, false);
          }
        case Unsupported =>
          NotifyEventToSubscriber(DeniedEvent, subscriber.value, false);
        case Sent =>
          base.nif := base.nif + [SentRequest];
          ok := true;
        case Unrecognized =>
      }
    }

    /** Releases the call when nobody is left to serve. */
    method ReleaseUnused(canStop: bool, attempt: Attempt)
      requires !AnyActive(base.mSubscriberList)
      modifies this, base`mSubscriberList, base`atl, base`nif
      ensures Value() == StopCall(old(Value()), canStop)
    {
      var _ := RequestOrReleaseDataConn(false, canStop, attempt);
    }

    method AddSubscriber(s: AgpsSubscriber)
      modifies base`mSubscriberList, base`atl
      ensures Value() == DsListing(old(Value()), s)
    {
      base.AddSubscriber(s);
    }

    method ProcessAgpsEventSubscribe(canStop: bool, attempt: Attempt)
      requires base.mCurrentSubscriber.Some?
      modifies this, base`mState, base`mSubscriberList, base`atl, base`nif
      ensures Value() == DsSubscribe(old(Value()), base.mCurrentSubscriber.value, attempt)
    {
      var s := base.mCurrentSubscriber.value;
      match base.mState
      case Released =>
        AddSubscriber(s);
        var ok := RequestOrReleaseDataConn(true, canStop, attempt);
        if ok {
          base.mState := Pending;
        }
      case Pending => AddSubscriber(s);
      case Acquired =>
        NotifyEventToSubscriber(GrantedEvent, s, false);
        AddSubscriber(s);
      case Releasing => AddSubscriber(s);
    }

    /** Marks the current subscriber inactive, or tells it that it is closed and unlists it. */
    method LeaveCurrent()
      requires base.mCurrentSubscriber.Some?
      modifies this, base`mSubscriberList, base`atl, base`nif
      ensures Value() == DsLeave(old(Value()), base.mCurrentSubscriber.value)
    {
      if base.mCurrentSubscriber.value.waitForCloseComplete {
        base.DeactivateCurrent();
      } else {
        NotifyEventToSubscriber(UnsubscribeEvent, base.mCurrentSubscriber.value, true);
      }
    }

    method ProcessAgpsEventUnsubscribe(canStop: bool, attempt: Attempt)
      requires base.mCurrentSubscriber.Some?
      modifies this, base`mState, base`mSubscriberList, base`atl, base`nif
      ensures Value() == DsUnsubscribe(old(Value()), base.mCurrentSubscriber.value, canStop)
    {
      match base.mState
      case Released => NotifyEventToSubscriber(UnsubscribeEvent, base.mCurrentSubscriber.value, false);
      case Releasing =>
        LeaveCurrent();
        if base.mSubscriberList == [] {
          base.mState := Released;
        }
      case _ =>
        LeaveCurrent();
        if base.mSubscriberList == [] {
          base.mState := Released;
          ReleaseUnused(canStop, attempt);
        } else {
          var any := base.AnyActiveSubscribers();
          if !any {
            base.mState := Releasing;
            ReleaseUnused(canStop, attempt);
          }
        }
    }

    method ProcessAgpsEventGranted()
      modifies this, base`mState, base`mSubscriberList, base`atl, base`nif
      ensures Value() == DsGranted(old(Value()))
    {
      base.nif := base.nif + [GotGranted];
      if base.mState == Pending {
        base.mState := Acquired;
        NotifyAllSubscribers(GrantedEvent, false, ActiveSubscribers);
      }
    }

    /** What both handlers do in Releasing. */
    method FinishReleasing(canStop: bool, attempt: Attempt)
      modifies this, base`mState, base`mSubscriberList, base`atl, base`nif
      ensures Value() == DsAfterRelease(old(Value()), attempt)
    {
      NotifyAllSubscribers(ReleasedEvent, true, InactiveSubscribers);
      var any := base.AnyActiveSubscribers();
      if any {
        base.mState := Pending;
        var _ := RequestOrReleaseDataConn(true, canStop, attempt);
      } else {
        base.mState := Released;
      }
    }

    method ProcessAgpsEventReleased(canStop: bool, attempt: Attempt)
      modifies this, base`mState, base`mSubscriberList, base`atl, base`nif
      ensures Value() == DsClosedDown(old(Value()), attempt)
    {
      base.nif := base.nif + [GotReleased];
      match base.mState
      case Acquired =>
        base.mState := Released;
        NotifyAllSubscribers(ReleasedEvent, true, AllSubscribers);
      case Releasing => FinishReleasing(canStop, attempt);
      case _ =>
    }

    method ProcessAgpsEventDenied(canStop: bool, attempt: Attempt)
      modifies this, base`mState, base`mSubscriberList, base`atl, base`nif
      ensures Value() == DsDenied(old(Value()), attempt)
    {
      base.nif := base.nif + [GotDenied];
      match base.mState
      case Pending =>
        base.mState := Released;
        NotifyAllSubscribers(DeniedEvent, true, AllSubscribers);
      case Releasing => FinishReleasing(canStop, attempt);
      case _ =>
    }

    /** canStop says whether the function to stop the call is registered. */
    method ProcessAgpsEvent(e: AgpsEvent, canStop: bool, attempt: Attempt)
      requires e == SubscribeEvent || e == UnsubscribeEvent ==> base.mCurrentSubscriber.Some?
      modifies this, base`mState, base`mSubscriberList, base`atl, base`nif
      ensures Value() == DsHandle(old(Value()), e, base.mCurrentSubscriber, canStop, attempt)
    {
      var event := if e == ReleasedEvent && base.mState == Pending then DeniedEvent else e;
      match event
      case SubscribeEvent => ProcessAgpsEventSubscribe(canStop, attempt);
      case UnsubscribeEvent => ProcessAgpsEventUnsubscribe(canStop, attempt);
      case GrantedEvent => ProcessAgpsEventGranted();
      case ReleasedEvent => ProcessAgpsEventReleased(canStop, attempt);
      case DeniedEvent => ProcessAgpsEventDenied(canStop, attempt);
    }

    method DropAllSubscribers()
      modifies base`mSubscriberList, base`atl
      ensures Value() == DsDropAll(old(Value()), false)
    {
      base.DropAllSubscribers();
    }

    /** The manager restarts the client of the data service: it stops and gives up any call,
        and is initialized anew. */
    ghost method LogClientRestart()
      modifies base`nif
      ensures Value() == old(Value()).(nif := old(base.nif) + [ClientRestarted])
    {
      base.nif := base.nif + [ClientRestarted];
    }

    /** The retry timer fired: posts one more request for the first active subscriber. */
    method RetryCallback() returns (request: Option<int>)
      ensures var first := FirstActive(base.mSubscriberList);
        request == if first.Some? then Some(first.value.connHandle) else None
    {
      var subscriber := GetFirstSubscriber(false);
      if subscriber == None {
        return None;
      }
      return Some(subscriber.value.connHandle);
    }
  }
}
