/** The client base of the location API, which updates its session dictionary in place. */
module LocationAPIClient {
  import opened SessionDictionary

  class BiDict<T> {
    /** What a lookup that finds nothing returns. */
    const none: T
    var mForwardMap: map<nat, nat>
    var mBackwardMap: map<nat, nat>
    var mExtMap: map<nat, T>

    ghost function Value(): Dict<T>
      reads this
    {
      Dict(mForwardMap, mBackwardMap, mExtMap)
    }

    constructor (none: T)
      ensures this.none == none && Value() == EmptyDict()
    {
      this.none := none;
      mForwardMap, mBackwardMap, mExtMap := map[], map[], map[];
    }

    method HasId(id: nat) returns (has: bool)
      ensures has <==> id in mForwardMap
    {
      has := id in mForwardMap;
    }

    method HasSession(session: nat) returns (has: bool)
      ensures has <==> session in mBackwardMap
    {
      has := session in mBackwardMap;
    }

    method Set(id: nat, session: nat, ext: T)
      modifies this
      ensures Value() == SessionDictionary.Set(old(Value()), id, session, ext)
    {
      mForwardMap := mForwardMap[id := session];
      mBackwardMap := mBackwardMap[session := id];
      mExtMap := mExtMap[session := ext];
    }

    /** Reads the entry at key, putting a zero there if there is none. */
    method ForwardAt(id: nat) returns (session: nat)
      modifies this`mForwardMap
      ensures session == At(old(mForwardMap), id) && mForwardMap == old(mForwardMap)[id := session]
    {
      if id !in mForwardMap {
        mForwardMap := mForwardMap[id := 0];
      }
      session := mForwardMap[id];
    }

    method RmById(id: nat)
      modifies this
      ensures Value() == SessionDictionary.RmById(old(Value()), id)
    {
      var session := ForwardAt(id);
      mBackwardMap := mBackwardMap - {session};
      session := ForwardAt(id);
      mExtMap := mExtMap - {session};
      mForwardMap := mForwardMap - {id};
      assert mForwardMap == old(mForwardMap) - {id};
    }

    method RmBySession(session: nat)
      modifies this
      ensures Value() == SessionDictionary.RmBySession(old(Value()), session)
    {
      if session !in mBackwardMap {
        mBackwardMap := mBackwardMap[session := 0];
      }
      mForwardMap := mForwardMap - {mBackwardMap[session]};
      mBackwardMap := mBackwardMap - {session};
      mExtMap := mExtMap - {session};
      assert mBackwardMap == old(mBackwardMap) - {session};
    }

    /** Asking for an unknown id leaves it in the forward map, as belonging to session zero. */
    method GetExtById(id: nat) returns (ext: T)
      modifies this`mForwardMap
      ensures mForwardMap == old(mForwardMap)[id := At(old(mForwardMap), id)]
      ensures var session := At(old(mForwardMap), id);
        ext == if session > 0 && session in mExtMap then mExtMap[session] else none
    {
      ext := none;
      var session := ForwardAt(id);
      if session > 0 && session in mExtMap {
        ext := mExtMap[session];
      }
    }

    method GetExtBySession(session: nat) returns (ext: T)
      ensures ext == if session in mExtMap then mExtMap[session] else none
    {
      ext := if session in mExtMap then mExtMap[session] else none;
    }
  }

  datatype LocationError = Success | GeneralFailure | AlreadyStarted | IdUnknown

  class LocationAPIClientBase {
    const mSessionBiDict: BiDict<SessionEntity>
    /** Whether the location API could be created. */
    const hasApi: bool
    /** What was asked of the location API, and which sessions it reported ended. */
    ghost var log: seq<Call>

    ghost function Value(): Client
      reads this, mSessionBiDict
    {
      Client(mSessionBiDict.Value(), log)
    }

    constructor (hasApi: bool)
      ensures this.hasApi == hasApi && fresh(mSessionBiDict) && mSessionBiDict.none == NO_ENTITY
      ensures Value() == FRESH_CLIENT
    {
      this.hasApi := hasApi;
      mSessionBiDict := new BiDict(NO_ENTITY);
      log := [];
    }

    /** issued is what the location API returns as the session it opens, if it is asked to. */
    method LocAPIStartSession(id: nat, sessionMode: SessionMode, issued: nat) returns (retVal: LocationError)
      modifies this`log, mSessionBiDict
      ensures Value() == if hasApi then Step(old(Value()), StartSession(id, sessionMode, issued)) else old(Value())
      ensures retVal == if !hasApi then GeneralFailure
                        else if id in old(mSessionBiDict.mForwardMap) then AlreadyStarted else Success
    {
      retVal := GeneralFailure;
      if hasApi {
        var has := mSessionBiDict.HasId(id);
        if has {
          retVal := AlreadyStarted;
        } else {
          var trackingSession, batchingSession := 0, 0;
          if sessionMode == OnFix {
            trackingSession := issued;
            log := log + [Tracking(Start, trackingSession)];
          } else {
            batchingSession := issued;
            log := log + [Batching(Start, batchingSession)];
          }
          var session := if sessionMode != OnFix then batchingSession else trackingSession;
          mSessionBiDict.Set(id, session, SessionEntity(id, trackingSession, batchingSession, sessionMode));
          retVal := Success;
        }
      }
    }

    /** The session stays in the dictionary until the response to the stop arrives. */
    method LocAPIStopSession(id: nat) returns (retVal: LocationError)
      requires mSessionBiDict.none == NO_ENTITY
      modifies this`log, mSessionBiDict
      ensures Value() == if hasApi then Step(old(Value()), StopSession(id)) else old(Value())
      ensures retVal == if !hasApi then GeneralFailure
                        else if id in old(mSessionBiDict.mForwardMap) then Success else IdUnknown
    {
      retVal := GeneralFailure;
      if hasApi {
        var has := mSessionBiDict.HasId(id);
        if has {
          var entity := mSessionBiDict.GetExtById(id);
          if entity.sessionMode == OnFix {
            log := log + [Tracking(Stop, entity.trackingSession)];
          } else {
            log := log + [Batching(Stop, entity.batchingSession)];
          }
          retVal := Success;
        } else {
          retVal := IdUnknown;
        }
      }
    }

    /** Asks the engine for the new mode and returns the entity as it is then. */
    method SwitchOrAlter(entity: SessionEntity, sessionMode: SessionMode, issued: nat) returns (updated: SessionEntity)
      modifies this`log
      ensures updated == UpdatedEntity(entity, sessionMode, issued)
      ensures log == old(log) + if Switches(entity, sessionMode) then [CallFor(Stop, entity), CallFor(Start, updated)]
                                    else [CallFor(Alter, updated)]
    {
      var trackingSession, batchingSession := entity.trackingSession, entity.batchingSession;
      if sessionMode == OnFix {
        if entity.sessionMode == OnFix {
          log := log + [Tracking(Alter, trackingSession)];
        } else {
          log := log + [Batching(Stop, batchingSession), Tracking(Start, issued)];
          batchingSession, trackingSession := 0, issued;
        }
      } else if entity.sessionMode == OnFix {
        log := log + [Tracking(Stop, trackingSession), Batching(Start, issued)];
        trackingSession, batchingSession := 0, issued;
      } else {
        log := log + [Batching(Alter, batchingSession)];
      }
      updated := SessionEntity(entity.id, trackingSession, batchingSession, sessionMode);
    }

    method LocAPIUpdateSessionOptions(id: nat, sessionMode: SessionMode, issued: nat) returns (retVal: LocationError)
      requires mSessionBiDict.none == NO_ENTITY
      modifies this`log, mSessionBiDict
      ensures Value() == if hasApi then Step(old(Value()), UpdateSession(id, sessionMode, issued)) else old(Value())
      ensures retVal == if !hasApi then GeneralFailure
                        else if id in old(mSessionBiDict.mForwardMap) then Success else IdUnknown
    {
      retVal := GeneralFailure;
      if hasApi {
        var has := mSessionBiDict.HasId(id);
        if has {
          var entity := mSessionBiDict.GetExtById(id);
          assert mSessionBiDict.Value() == old(mSessionBiDict.Value());
          assert entity == EntityOf(mSessionBiDict.Value(), id);
          entity := SwitchOrAlter(entity, sessionMode, issued);
          var session := if sessionMode != OnFix then entity.batchingSession else entity.trackingSession;
          mSessionBiDict.RmById(id);
          mSessionBiDict.Set(id, session, entity);
          retVal := Success;
        } else {
          retVal := IdUnknown;
        }
      }
    }

    /** Called when the response to a start reports a failure, or to a stop success. */
    method RemoveSession(session: nat)
      modifies this`log, mSessionBiDict
      ensures Value() == Step(old(Value()), SessionEnded(session))
    {
      var has := mSessionBiDict.HasSession(session);
      if has {
        log := log + [CallFor(End, EntityAt(mSessionBiDict.Value(), session))];
        mSessionBiDict.RmBySession(session);
      }
    }

    /** Returns the client ids of the completed trips, for the client's own callback. */
    method BeforeBatchingStatusCb(tripsCompleted: bool, tripCompletedList: seq<nat>) returns (ids: seq<nat>)
      requires mSessionBiDict.none == NO_ENTITY
      modifies this`log, mSessionBiDict
      ensures Value() == if tripsCompleted then Step(old(Value()), TripsCompleted(tripCompletedList)) else old(Value())
      ensures ids == if tripsCompleted then CompletedIds(old(Value()), tripCompletedList) else []
    {
      ids := [];
      if tripsCompleted {
        ghost var before := Value();
        for n := 0 to |tripCompletedList|
          invariant Value() == Completed(before, tripCompletedList[..n])
          invariant ids == CompletedIds(before, tripCompletedList[..n])
        {
          assert tripCompletedList[..n + 1][..n] == tripCompletedList[..n];
          var session := tripCompletedList[n];
          var has := mSessionBiDict.HasSession(session);
          if has {
            var sessEntity := mSessionBiDict.GetExtBySession(session);
            if sessEntity.sessionMode == OnTripCompleted {
              ids := ids + [sessEntity.id];
              log := log + [CallFor(End, sessEntity)];
              mSessionBiDict.RmBySession(session);
            }
          }
        }
        assert tripCompletedList[..|tripCompletedList|] == tripCompletedList;
      }
    }
  }
}
