/** What each request does to the sessions, the engine and the client that made it, said
    outright. */
module TrackingEffects {
  import opened TrackingMultiplex

  /** Some other session runs at this interval or a shorter one. */
  predicate OtherSuffices(s: Sessions, key: SessionKey, interval: nat) {
    exists k :: k in s && k != key && s[k].minInterval <= interval
  }

  lemma MinAtMost(s: Sessions, interval: nat)
    requires s != map[]
    ensures MinInterval(s) <= interval <==> exists k :: k in s && s[k].minInterval <= interval
  {
    var i := MinInterval(s);
    assert IsSmallest(s, i);
  }

  /** A start is refused without a callback or with empty options. Otherwise the engine is
      left alone if some session already runs at the new interval or a shorter one, and
      started at the new interval if not. The session is stored exactly if the engine was
      left alone or did as told; every other session stays as it is. */
  lemma StartEffect(a: Adapter, key: SessionKey, options: LocationOptions, hasCallback: bool, ok: bool)
    ensures var o := Start(a, key, options, hasCallback, ok);
      var suffices := exists k :: k in a.sessions && a.sessions[k].minInterval <= options.minInterval;
      if !hasCallback then o == Outcome(a, CALLBACK_MISSING)
      else if options.size == 0 then o == Outcome(a, INVALID_PARAMETER)
      else if suffices then o == Outcome(Adapter(a.sessions[key := options], a.engine), SUCCESS)
      else if ok then o == Outcome(Adapter(a.sessions[key := options], Fixing(options.minInterval)), SUCCESS)
      else o == Outcome(a, GENERAL_FAILURE)
  {
    if a.sessions != map[] {
      MinAtMost(a.sessions, options.minInterval);
    }
  }

  /** Other sessions of the key's are there, and the smallest interval of theirs. */
  lemma OthersMin(s: Sessions, key: SessionKey, interval: nat)
    requires key in s && |s| != 1
    ensures s - {key} != map[]
    ensures MinInterval(s - {key}) <= interval <==> OtherSuffices(s, key, interval)
  {
    var others := s - {key};
    OthersOf(s, key);
    MinAtMost(others, interval);
    assert forall k :: k in others <==> k in s && k != key;
  }

  /** The interval the engine is given is the smallest of the sessions as they become. */
  lemma SmallestAfterUpdate(s: Sessions, key: SessionKey, options: LocationOptions)
    requires key in s
    ensures key in s[key := options] && s[key := options] != map[] && (s - {key} == map[] <==> |s| == 1)
    ensures MinInterval(s[key := options]) ==
      if s - {key} == map[] || options.minInterval < MinInterval(s - {key}) then options.minInterval
      else MinInterval(s - {key})
  {
    OthersOf(s, key);
    MinOfOneMore(s - {key}, key, options);
    assert s[key := options] == (s - {key})[key := options];
  }

  /** An update of an unknown session does nothing, and empty options are refused. Otherwise
      the engine is restarted, at the smallest interval of the sessions as they become,
      exactly if no other session runs at the new interval or a shorter one, or none at the
      old or a shorter one. The new options are stored exactly if the engine was left alone
      or did as told; every other session stays as it is. */
  lemma UpdateEffect(a: Adapter, key: SessionKey, options: LocationOptions, ok: bool)
    ensures var o := Update(a, key, options, ok);
      if key !in a.sessions then o == Outcome(a, SUCCESS)
      else if options.size == 0 then o == Outcome(a, INVALID_PARAMETER)
      else
        var after := a.sessions[key := options];
        var alone := OtherSuffices(a.sessions, key, options.minInterval)
          && OtherSuffices(a.sessions, key, a.sessions[key].minInterval);
        if alone then o == Outcome(Adapter(after, a.engine), SUCCESS)
        else if ok then o == Outcome(Adapter(after, Fixing(MinInterval(after))), SUCCESS)
        else o == Outcome(a, GENERAL_FAILURE)
  {
    if key in a.sessions {
      OthersOf(a.sessions, key);
      SmallestAfterUpdate(a.sessions, key, options);
      if |a.sessions| != 1 {
        OthersMin(a.sessions, key, options.minInterval);
        OthersMin(a.sessions, key, a.sessions[key].minInterval);
      } else {
        assert forall k :: k in a.sessions && k != key ==> k in a.sessions - {key};
      }
    }
  }

  /** A stop of an unknown session does nothing. Otherwise the engine is stopped if it was
      the last session, restarted at the smallest remaining interval if no other session
      runs at its interval or a shorter one, and left alone if not. The session goes exactly
      if the engine was left alone or did as told; every other session stays. */
  lemma StopEffect(a: Adapter, key: SessionKey, ok: bool)
    ensures var o := Stop(a, key, ok);
      if key !in a.sessions then o == Outcome(a, SUCCESS)
      else
        var after := a.sessions - {key};
        if OtherSuffices(a.sessions, key, a.sessions[key].minInterval)
        then o == Outcome(Adapter(after, a.engine), SUCCESS)
        else if !ok then o == Outcome(a, GENERAL_FAILURE)
        else if after == map[] then o == Outcome(Adapter(after, Stopped), SUCCESS)
        else o == Outcome(Adapter(after, Fixing(MinInterval(after))), SUCCESS)
  {
    if key in a.sessions {
      OthersOf(a.sessions, key);
      if |a.sessions| != 1 {
        OthersMin(a.sessions, key, a.sessions[key].minInterval);
      } else {
        assert forall k :: k in a.sessions && k != key ==> k in a.sessions - {key};
      }
    }
  }

  /** Removing a client touches only its sessions. One of them stays, with its options, only
      if the engine had to be told and did not do as told. */
  lemma {:induction false} StopClientEffect(a: Adapter, client: int, order: seq<SessionKey>, works: set<SessionKey>)
    ensures var s := StopClient(a, client, order, works).sessions;
      && (forall k :: k in s ==> k in a.sessions && s[k] == a.sessions[k])
      && (forall k :: k in a.sessions && !(k.client == client && k in order) ==> k in s)
      && (forall k :: k in s && k in order && k.client == client ==>
           k !in works && !OtherSuffices(s, k, s[k].minInterval))
    decreases |order|
  {
    if order != [] {
      var front, key := order[..|order| - 1], order[|order| - 1];
      StopClientEffect(a, client, front, works);
      assert order == front + [key];
      StopEffect(StopClient(a, client, front, works), key, key in works);
    }
  }

  /** A restart starts the engine at the smallest interval of the sessions there are, if
      there are any and it does as told, and changes nothing else. */
  lemma EngineUpEffect(a: Adapter, ok: bool)
    ensures Restart(a, ok) ==
      if a.sessions == map[] || !ok then a else Adapter(a.sessions, Fixing(MinInterval(a.sessions)))
  {
  }

  /** Requests as they are processed: a start takes the next id, whether accepted or not. */
  lemma ProcessEffect(s: System, client: int, options: LocationOptions, hasCallback: bool, ok: bool)
    requires IdsIssued(s) && s.ids < SessionId.PERIOD
    ensures var key := SessionKey(client, SessionId.After(s.ids + 1));
      var n := Process(s, StartTracking(client, options, hasCallback, ok));
      var suffices := exists k :: k in s.adapter.sessions && s.adapter.sessions[k].minInterval <= options.minInterval;
      && n.ids == s.ids + 1 && key !in s.adapter.sessions
      && n.adapter.sessions == if hasCallback && options.size != 0 && (ok || suffices)
                               then s.adapter.sessions[key := options] else s.adapter.sessions
  {
    NextIdIsFresh(s, client);
    StartEffect(s.adapter, SessionKey(client, SessionId.After(s.ids + 1)), options, hasCallback, ok);
  }
}
