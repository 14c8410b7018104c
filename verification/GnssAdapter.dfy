/** The tracking part of the adapter as it updates its session map and drives the engine.
    Every method is tied to the operation of the same name in TrackingMultiplex. */
module GnssAdapter {
  import opened TrackingMultiplex

  class GnssAdapter {
    var mTrackingSessions: Sessions
    /** What the engine last accepted. */
    ghost var engine: Engine

    ghost function Value(): Adapter
      reads this
    {
      Adapter(mTrackingSessions, engine)
    }

    constructor ()
      ensures Value() == Adapter(map[], Stopped)
    {
      mTrackingSessions, engine := map[], Stopped;
    }

    /** Asks the engine to run at this interval; ok is its answer. */
    method StartTracking(options: LocationOptions, ok: bool) returns (err: LocationError)
      modifies this`engine
      ensures Outcome(Value(), err) == StartEngine(old(Value()), options.minInterval, ok)
    {
      if ok {
        engine := Fixing(options.minInterval);
        err := SUCCESS;
      } else {
        err := GENERAL_FAILURE;
      }
    }

    method StopTracking(ok: bool) returns (err: LocationError)
      modifies this`engine
      ensures Outcome(Value(), err) == StopEngine(old(Value()), ok)
    {
      if ok {
        engine := Stopped;
        err := SUCCESS;
      } else {
        err := GENERAL_FAILURE;
      }
    }

    /** Scans the sessions outside skip for the smallest interval; size is zero if there are none. */
    method SmallestIntervalOptions(skip: set<SessionKey>) returns (smallest: LocationOptions)
      requires Filled(mTrackingSessions)
      ensures mTrackingSessions - skip == map[] ==> smallest == LocationOptions(0, 0)
      ensures mTrackingSessions - skip != map[] ==>
        smallest.size != 0 && smallest.minInterval == MinInterval(mTrackingSessions - skip)
    {
      smallest := LocationOptions(0, 0);
      ghost var seen: Sessions := map[];
      var sessions := mTrackingSessions;
      var todo := sessions.Keys;
      while todo != {}
        invariant todo <= sessions.Keys
        invariant forall k :: k in seen <==> k in sessions && k !in skip && k !in todo
        invariant forall k :: k in seen ==> seen[k] == sessions[k]
        invariant seen == map[] ==> smallest == LocationOptions(0, 0)
        invariant seen != map[] ==> smallest.size != 0 && smallest.minInterval == MinInterval(seen)
        decreases |todo|
      {
        var key :| key in todo;
        var options := sessions[key];
        if key !in skip {
          MinOfOneMore(seen, key, options);
          if smallest.size == 0 || options.minInterval < smallest.minInterval {
            smallest := options;
          }
          seen := seen[key := options];
        }
        todo := todo - {key};
      }
      assert seen == mTrackingSessions - skip;
    }

    method StartTrackingMultiplex(options: LocationOptions, ok: bool) returns (err: LocationError)
      requires Filled(mTrackingSessions)
      modifies this`engine
      ensures Outcome(Value(), err) == StartMultiplex(old(Value()), options, ok)
    {
      err := SUCCESS;
      if mTrackingSessions == map[] {
        err := StartTracking(options, ok);
      } else {
        var smallest := SmallestIntervalOptions({});
        assert mTrackingSessions - {} == mTrackingSessions;
        if options.minInterval < smallest.minInterval {
          err := StartTracking(options, ok);
        }
      }
    }

    method UpdateTrackingMultiplex(key: SessionKey, options: LocationOptions, ok: bool) returns (err: LocationError)
      requires Filled(mTrackingSessions) && key in mTrackingSessions
      modifies this`engine
      ensures Outcome(Value(), err) == UpdateMultiplex(old(Value()), key, options, ok)
    {
      err := SUCCESS;
      if |mTrackingSessions| == 1 {
        err := StartTracking(options, ok);
      } else if key in mTrackingSessions {
        var smallest := SmallestIntervalOptions({key});
        if options.minInterval < smallest.minInterval {
          err := StartTracking(options, ok);
        } else if mTrackingSessions[key].minInterval < smallest.minInterval {
          err := StartTracking(smallest, ok);
        }
      }
    }

    method StopTrackingMultiplex(key: SessionKey, ok: bool) returns (err: LocationError)
      requires Filled(mTrackingSessions) && key in mTrackingSessions
      modifies this`engine
      ensures Outcome(Value(), err) == StopMultiplex(old(Value()), key, ok)
    {
      err := SUCCESS;
      if |mTrackingSessions| == 1 {
        err := StopTracking(ok);
      } else if key in mTrackingSessions {
        var smallest := SmallestIntervalOptions({key});
        if mTrackingSessions[key].minInterval < smallest.minInterval {
          err := StartTracking(smallest, ok);
        }
      }
    }

    method ProcStartTracking(key: SessionKey, options: LocationOptions, hasCallback: bool, ok: bool)
        returns (err: LocationError)
      requires Filled(mTrackingSessions)
      modifies this
      ensures Filled(mTrackingSessions)
      ensures Outcome(Value(), err) == Start(old(Value()), key, options, hasCallback, ok)
    {
      if !hasCallback {
        err := CALLBACK_MISSING;
      } else if options.size == 0 {
        err := INVALID_PARAMETER;
      } else {
        err := StartTrackingMultiplex(options, ok);
        if err == SUCCESS {
          mTrackingSessions := mTrackingSessions[key := options];
        }
      }
    }

    method ProcUpdateTracking(key: SessionKey, options: LocationOptions, ok: bool) returns (err: LocationError)
      requires Filled(mTrackingSessions)
      modifies this
      ensures Filled(mTrackingSessions)
      ensures Outcome(Value(), err) == Update(old(Value()), key, options, ok)
    {
      err := SUCCESS;
      if key in mTrackingSessions {
        if options.size == 0 {
          err := INVALID_PARAMETER;
        } else {
          err := UpdateTrackingMultiplex(key, options, ok);
          if err == SUCCESS {
            mTrackingSessions := mTrackingSessions[key := options];
          }
        }
      }
    }

    method ProcStopTracking(key: SessionKey, ok: bool) returns (err: LocationError)
      requires Filled(mTrackingSessions)
      modifies this
      ensures Filled(mTrackingSessions)
      ensures Outcome(Value(), err) == Stop(old(Value()), key, ok)
    {
      err := SUCCESS;
      if key in mTrackingSessions {
        err := StopTrackingMultiplex(key, ok);
        if err == SUCCESS {
          mTrackingSessions := mTrackingSessions - {key};
        }
      }
    }

    /** order enumerates the session map as it was on entry. */
    method StopClientSessions(client: int, order: seq<SessionKey>, works: set<SessionKey>)
      requires Filled(mTrackingSessions)
      modifies this
      ensures Filled(mTrackingSessions)
      ensures Value() == StopClient(old(Value()), client, order, works)
    {
      for i := 0 to |order|
        invariant Filled(mTrackingSessions)
        invariant Value() == StopClient(old(Value()), client, order[..i], works)
      {
        assert order[..i + 1][..i] == order[..i];
        if order[i].client == client && order[i] in mTrackingSessions {
          var err := StopTrackingMultiplex(order[i], order[i] in works);
          if err == SUCCESS {
            mTrackingSessions := mTrackingSessions - {order[i]};
          }
        }
      }
      assert order[..|order|] == order;
    }

    method RestartSessions(ok: bool)
      requires Filled(mTrackingSessions)
      modifies this`engine
      ensures Value() == Restart(old(Value()), ok)
    {
      if mTrackingSessions == map[] {
        return;
      }
      var smallest := SmallestIntervalOptions({});
      assert mTrackingSessions - {} == mTrackingSessions;
      var err := StartTracking(smallest, ok);
    }
  }
}
