/** Many tracking sessions share one positioning engine. The adapter never recomputes the
    engine's interval from scratch when a session starts, changes or stops; it only
    restarts the engine when it thinks it must. Here: that is enough. */
module TrackingMultiplex {
  import SessionId

  datatype SessionKey = SessionKey(client: int, id: nat)

  /** size is zero in options nobody has filled in. */
  datatype LocationOptions = LocationOptions(size: nat, minInterval: nat)

  type Sessions = map<SessionKey, LocationOptions>

  datatype Engine = Stopped | Fixing(interval: nat)

  datatype LocationError = SUCCESS | GENERAL_FAILURE | CALLBACK_MISSING | INVALID_PARAMETER

  datatype Adapter = Adapter(sessions: Sessions, engine: Engine)

  datatype Outcome = Outcome(adapter: Adapter, error: LocationError)

  // ----- the smallest interval of a set of sessions

  ghost predicate IsSmallest(s: Sessions, i: nat) {
    && (exists k :: k in s && s[k].minInterval == i)
    && (forall k :: k in s ==> i <= s[k].minInterval)
  }

  lemma {:induction false} SmallestExists(s: Sessions)
    requires s != map[]
    ensures exists i: nat :: IsSmallest(s, i)
    decreases |s|
  {
    var k :| k in s;
    var others := s - {k};
    assert s.Keys == others.Keys + {k};
    if others == map[] {
      assert IsSmallest(s, s[k].minInterval);
    } else {
      SmallestExists(others);
      var i: nat :| IsSmallest(others, i);
      assert IsSmallest(s, if i < s[k].minInterval then i else s[k].minInterval);
    }
  }

  ghost function MinInterval(s: Sessions): (i: nat)
    requires s != map[]
    ensures IsSmallest(s, i)
  {
    SmallestExists(s);
    var i: nat :| IsSmallest(s, i);
    i
  }

  lemma SmallestIsMin(s: Sessions, i: nat)
    requires s != map[] && IsSmallest(s, i)
    ensures i == MinInterval(s)
  {
  }

  // ----- the operations; ok says whether the engine call they may make succeeds

  function StartEngine(a: Adapter, interval: nat, ok: bool): Outcome {
    if ok then Outcome(a.(engine := Fixing(interval)), SUCCESS) else Outcome(a, GENERAL_FAILURE)
  }

  function StopEngine(a: Adapter, ok: bool): Outcome {
    if ok then Outcome(a.(engine := Stopped), SUCCESS) else Outcome(a, GENERAL_FAILURE)
  }

  ghost function StartMultiplex(a: Adapter, options: LocationOptions, ok: bool): Outcome {
    if a.sessions == map[] || options.minInterval < MinInterval(a.sessions)
    then StartEngine(a, options.minInterval, ok)
    else Outcome(a, SUCCESS)
  }

  ghost function UpdateMultiplex(a: Adapter, key: SessionKey, options: LocationOptions, ok: bool): Outcome
    requires key in a.sessions
  {
    var others := a.sessions - {key};
    if |a.sessions| == 1 then StartEngine(a, options.minInterval, ok)
    else if others == map[] then Outcome(a, SUCCESS)
    else if options.minInterval < MinInterval(others) then StartEngine(a, options.minInterval, ok)
    else if a.sessions[key].minInterval < MinInterval(others) then StartEngine(a, MinInterval(others), ok)
    else Outcome(a, SUCCESS)
  }

  ghost function StopMultiplex(a: Adapter, key: SessionKey, ok: bool): Outcome
    requires key in a.sessions
  {
    var others := a.sessions - {key};
    if |a.sessions| == 1 then StopEngine(a, ok)
    else if others == map[] then Outcome(a, SUCCESS)
    else if a.sessions[key].minInterval < MinInterval(others) then StartEngine(a, MinInterval(others), ok)
    else Outcome(a, SUCCESS)
  }

  /** A start request of a client that has (or has not) registered a tracking or measurement callback. */
  ghost function Start(a: Adapter, key: SessionKey, options: LocationOptions, hasCallback: bool, ok: bool): Outcome {
    if !hasCallback then Outcome(a, CALLBACK_MISSING)
    else if options.size == 0 then Outcome(a, INVALID_PARAMETER)
    else
      var o := StartMultiplex(a, options, ok);
      if o.error == SUCCESS then o.(adapter := o.adapter.(sessions := a.sessions[key := options])) else o
  }

  ghost function Update(a: Adapter, key: SessionKey, options: LocationOptions, ok: bool): Outcome {
    if key !in a.sessions then Outcome(a, SUCCESS)
    else if options.size == 0 then Outcome(a, INVALID_PARAMETER)
    else
      var o := UpdateMultiplex(a, key, options, ok);
      if o.error == SUCCESS then o.(adapter := o.adapter.(sessions := a.sessions[key := options])) else o
  }

  ghost function Stop(a: Adapter, key: SessionKey, ok: bool): Outcome {
    if key !in a.sessions then Outcome(a, SUCCESS)
    else
      var o := StopMultiplex(a, key, ok);
      if o.error == SUCCESS then o.(adapter := o.adapter.(sessions := a.sessions - {key})) else o
  }

  /** Client removal: its sessions are stopped one by one in the given order; works holds
      the sessions whose engine call, if any, succeeds. A session that does not stop stays. */
  ghost function StopClient(a: Adapter, client: int, order: seq<SessionKey>, works: set<SessionKey>): Adapter {
    if order == [] then a
    else
      var before := StopClient(a, client, order[..|order| - 1], works);
      var key := order[|order| - 1];
      if key.client == client then Stop(before, key, key in works).adapter else before
  }

  /** The engine came up again: start it for the sessions there are. Its answer is not looked at. */
  ghost function Restart(a: Adapter, ok: bool): Adapter {
    if a.sessions == map[] then a else StartEngine(a, MinInterval(a.sessions), ok).adapter
  }

  // ----- agreement of engine and sessions

  /** The engine does what recomputing from scratch would have it do. */
  ghost predicate Synced(a: Adapter) {
    a.engine == if a.sessions == map[] then Stopped else Fixing(MinInterval(a.sessions))
  }

  /** The scans rely on every stored session having filled-in options. */
  ghost predicate Filled(s: Sessions) {
    forall k :: k in s ==> s[k].size != 0
  }

  lemma OthersOf(s: Sessions, key: SessionKey)
    requires key in s
    ensures s - {key} == map[] <==> |s| == 1
    ensures s == (s - {key})[key := s[key]]
  {
    assert s.Keys == (s - {key}).Keys + {key};
    assert |s.Keys| == |(s - {key}).Keys| + 1;
  }

  /** The smallest interval after one session was added. */
  lemma MinOfOneMore(s: Sessions, key: SessionKey, options: LocationOptions)
    requires key !in s
    ensures key in s[key := options] && s[key := options] != map[]
    ensures MinInterval(s[key := options]) ==
      if s == map[] || options.minInterval < MinInterval(s) then options.minInterval else MinInterval(s)
  {
    var t := s[key := options];
    var i := if s == map[] || options.minInterval < MinInterval(s) then options.minInterval else MinInterval(s);
    assert IsSmallest(t, i) by {
      if s == map[] || options.minInterval < MinInterval(s) {
        assert key in t && t[key].minInterval == i;
      } else {
        var k :| k in s && s[k].minInterval == MinInterval(s);
        assert k in t && t[k].minInterval == i;
      }
    }
    SmallestIsMin(t, i);
  }

  lemma StartStaysSynced(a: Adapter, key: SessionKey, options: LocationOptions, hasCallback: bool, ok: bool)
    requires Synced(a) && key !in a.sessions
    ensures Synced(Start(a, key, options, hasCallback, ok).adapter)
  {
    MinOfOneMore(a.sessions, key, options);
  }

  lemma UpdateStaysSynced(a: Adapter, key: SessionKey, options: LocationOptions, ok: bool)
    requires Synced(a)
    ensures Synced(Update(a, key, options, ok).adapter)
  {
    if key in a.sessions {
      var others := a.sessions - {key};
      OthersOf(a.sessions, key);
      MinOfOneMore(others, key, a.sessions[key]);
      MinOfOneMore(others, key, options);
      assert a.sessions[key := options] == others[key := options];
    }
  }

  lemma StopStaysSynced(a: Adapter, key: SessionKey, ok: bool)
    requires Synced(a)
    ensures Synced(Stop(a, key, ok).adapter)
  {
    if key in a.sessions {
      OthersOf(a.sessions, key);
      MinOfOneMore(a.sessions - {key}, key, a.sessions[key]);
    }
  }

  lemma {:induction false} StopClientStaysSynced(a: Adapter, client: int, order: seq<SessionKey>,
                                                 works: set<SessionKey>)
    requires Synced(a)
    ensures Synced(StopClient(a, client, order, works))
    decreases |order|
  {
    if order != [] {
      StopClientStaysSynced(a, client, order[..|order| - 1], works);
      var key := order[|order| - 1];
      StopStaysSynced(StopClient(a, client, order[..|order| - 1], works), key, key in works);
    }
  }

  /** If the engine cooperates, removing a client ends its sessions and no others. */
  lemma {:induction false} StopClientEndsItsSessions(a: Adapter, client: int, order: seq<SessionKey>,
                                                     works: set<SessionKey>)
    requires forall k :: k in order ==> k in works
    ensures var s := StopClient(a, client, order, works).sessions;
      && (forall k :: k in s <==> k in a.sessions && !(k.client == client && k in order))
      && (forall k :: k in s ==> s[k] == a.sessions[k])
    decreases |order|
  {
    if order != [] {
      var front, key := order[..|order| - 1], order[|order| - 1];
      assert order == front + [key];
      StopClientEndsItsSessions(a, client, front, works);
    }
  }

  /** A successful restart agrees with the sessions whatever the engine did before; a
      failed one changes nothing. */
  lemma RestartSyncs(a: Adapter, ok: bool)
    ensures Synced(Restart(a, ok)) <==> Synced(a) || (a.sessions != map[] && ok)
  {
  }

  /** Why keys must be fresh: for an accepted start under a key in use, engine and sessions
      agree afterwards exactly if the new interval is no larger than the current minimum or
      another session also has that minimum. */
  lemma StartUnderKeyInUse(a: Adapter, key: SessionKey, options: LocationOptions)
    requires Synced(a) && key in a.sessions && options.size != 0
    ensures var min := MinInterval(a.sessions);
      Synced(Start(a, key, options, true, true).adapter) <==>
        options.minInterval <= min || exists k :: k in a.sessions && k != key && a.sessions[k].minInterval == min
  {
    var others, min := a.sessions - {key}, MinInterval(a.sessions);
    OthersOf(a.sessions, key);
    MinOfOneMore(others, key, a.sessions[key]);
    MinOfOneMore(others, key, options);
    assert a.sessions[key := options] == others[key := options];
    if k :| k in a.sessions && k != key && a.sessions[k].minInterval == min {
      assert k in others && others[k] == a.sessions[k];
      SmallestIsMin(others, min);
    } else if others != map[] {
      var k :| k in others && others[k].minInterval == MinInterval(others);
      assert k in a.sessions && k != key;
    }
  }

  // ----- whole runs

  /** Requests as they are processed. Ids come from the shared generator. */
  datatype Command =
    | StartTracking(client: int, options: LocationOptions, hasCallback: bool, ok: bool)
    | UpdateTracking(key: SessionKey, options: LocationOptions, ok: bool)
    | StopTracking(key: SessionKey, ok: bool)
    | RemoveClient(client: int, order: seq<SessionKey>, works: set<SessionKey>)
    | OtherIds(count: nat)        // ids other users of the generator took
    | EngineDown                  // the engine lost its state
    | EngineUp(ok: bool)

  datatype System = System(adapter: Adapter, ids: nat)

  ghost function Process(s: System, c: Command): System {
    match c
    case StartTracking(client, options, hasCallback, ok) =>
      var key := SessionKey(client, SessionId.After(s.ids + 1));
      System(Start(s.adapter, key, options, hasCallback, ok).adapter, s.ids + 1)
    case UpdateTracking(key, options, ok) => s.(adapter := Update(s.adapter, key, options, ok).adapter)
    case StopTracking(key, ok) => s.(adapter := Stop(s.adapter, key, ok).adapter)
    case RemoveClient(client, order, works) => s.(adapter := StopClient(s.adapter, client, order, works))
    case OtherIds(count) => s.(ids := s.ids + count)
    case EngineDown => s.(adapter := s.adapter.(engine := Stopped))
    case EngineUp(ok) => s.(adapter := Restart(s.adapter, ok))
  }

  ghost function ProcessAll(cs: seq<Command>): System {
    if cs == [] then System(Adapter(map[], Stopped), 0) else Process(ProcessAll(cs[..|cs| - 1]), cs[|cs| - 1])
  }

  /** Every loss of the engine's state was followed by a successful restart, or hit no sessions. */
  ghost predicate Recovered(cs: seq<Command>) {
    cs == [] ||
    (var front, last := cs[..|cs| - 1], cs[|cs| - 1];
     match last
     case EngineDown => ProcessAll(front).adapter.sessions == map[]
     case EngineUp(ok) => Recovered(front) || (ok && ProcessAll(front).adapter.sessions != map[])
     case _ => Recovered(front))
  }

  /** Every session's id came from the generator. */
  ghost predicate IdsIssued(s: System) {
    forall k :: k in s.adapter.sessions ==> exists n: nat :: n <= s.ids && n > 0 && k.id == SessionId.After(n)
  }

  lemma {:induction false} StopClientShrinks(a: Adapter, client: int, order: seq<SessionKey>, works: set<SessionKey>)
    ensures forall k :: k in StopClient(a, client, order, works).sessions ==>
      k in a.sessions && StopClient(a, client, order, works).sessions[k] == a.sessions[k]
    decreases |order|
  {
    if order != [] {
      StopClientShrinks(a, client, order[..|order| - 1], works);
    }
  }

  lemma ProcessIssuesIds(s: System, c: Command)
    requires IdsIssued(s)
    ensures IdsIssued(Process(s, c)) && s.ids <= Process(s, c).ids
  {
    if c.RemoveClient? {
      StopClientShrinks(s.adapter, c.client, c.order, c.works);
    }
  }

  lemma NextIdIsFresh(s: System, client: int)
    requires IdsIssued(s) && s.ids < SessionId.PERIOD
    ensures SessionKey(client, SessionId.After(s.ids + 1)) !in s.adapter.sessions
  {
    forall n: nat | 0 < n <= s.ids
      ensures SessionId.After(n) != SessionId.After(s.ids + 1)
    {
      SessionId.IdsAreFreshWithinAPeriod(n, s.ids + 1);
    }
  }

  lemma {:induction false} ProcessAllIssuesIds(cs: seq<Command>)
    ensures IdsIssued(ProcessAll(cs)) && Filled(ProcessAll(cs).adapter.sessions)
    decreases |cs|
  {
    if cs != [] {
      var s, c := ProcessAll(cs[..|cs| - 1]), cs[|cs| - 1];
      ProcessAllIssuesIds(cs[..|cs| - 1]);
      ProcessIssuesIds(s, c);
      if c.RemoveClient? {
        StopClientShrinks(s.adapter, c.client, c.order, c.works);
      }
    }
  }

  /** A start under a key in use loses the minimum exactly if the session it replaces was
      alone at the minimum and the new interval is larger. */
  ghost predicate LosesMinimum(a: Adapter, key: SessionKey, options: LocationOptions) {
    && key in a.sessions && options.minInterval > MinInterval(a.sessions)
    && forall k :: k in a.sessions && k != key ==> a.sessions[k].minInterval != MinInterval(a.sessions)
  }

  /** What parts engine and sessions: the engine loses its state while there are sessions,
      or the ids have gone round and a start replaces the session that set the interval. */
  ghost predicate Parts(s: System, c: Command) {
    match c
    case EngineDown => s.adapter.sessions != map[]
    case StartTracking(client, options, hasCallback, _) =>
      hasCallback && options.size != 0 &&
      LosesMinimum(s.adapter, SessionKey(client, SessionId.After(s.ids + 1)), options)
    case _ => false
  }

  lemma StartKeepsUnlessReplacing(a: Adapter, key: SessionKey, options: LocationOptions, hasCallback: bool, ok: bool)
    requires Synced(a)
    ensures Synced(Start(a, key, options, hasCallback, ok).adapter) <==>
      !(hasCallback && options.size != 0 && LosesMinimum(a, key, options))
  {
    if key !in a.sessions {
      StartStaysSynced(a, key, options, hasCallback, ok);
    } else if hasCallback && options.size != 0 {
      if ok || options.minInterval >= MinInterval(a.sessions) {
        StartUnderKeyInUse(a, key, options);
      }
    }
  }

  lemma ProcessKeepsSynced(s: System, c: Command)
    requires Synced(s.adapter)
    ensures Synced(Process(s, c).adapter) <==> !Parts(s, c)
  {
    match c
    case StartTracking(client, options, hasCallback, ok) =>
      StartKeepsUnlessReplacing(s.adapter, SessionKey(client, SessionId.After(s.ids + 1)), options, hasCallback, ok);
    case UpdateTracking(key, options, ok) => UpdateStaysSynced(s.adapter, key, options, ok);
    case StopTracking(key, ok) => StopStaysSynced(s.adapter, key, ok);
    case RemoveClient(client, order, works) => StopClientStaysSynced(s.adapter, client, order, works);
    case OtherIds(count) =>
    case EngineDown =>
    case EngineUp(ok) => RestartSyncs(s.adapter, ok);
  }

  ghost predicate AlwaysSynced(cs: seq<Command>)
    decreases |cs|
  {
    Synced(ProcessAll(cs).adapter) && (cs == [] || AlwaysSynced(cs[..|cs| - 1]))
  }

  ghost predicate NeverParts(cs: seq<Command>) {
    cs == [] || (NeverParts(cs[..|cs| - 1]) && !Parts(ProcessAll(cs[..|cs| - 1]), cs[|cs| - 1]))
  }

  /** All through any run, however long, the engine runs exactly if a session exists, and
      then at the minimum interval over all sessions, exactly if no command parted them. */
  lemma {:induction false} EngineFollowsThroughout(cs: seq<Command>)
    ensures AlwaysSynced(cs) <==> NeverParts(cs)
    decreases |cs|
  {
    if cs != [] {
      var front := cs[..|cs| - 1];
      EngineFollowsThroughout(front);
      if AlwaysSynced(front) {
        ProcessKeepsSynced(ProcessAll(front), cs[|cs| - 1]);
      }
    }
  }

  /** Every loss of the engine's state found no sessions. */
  ghost predicate LossesFindNobody(cs: seq<Command>) {
    cs == [] ||
    (var front := cs[..|cs| - 1];
     LossesFindNobody(front) && (cs[|cs| - 1].EngineDown? ==> ProcessAll(front).adapter.sessions == map[]))
  }

  /** Within one period of the id generator only a loss of state does. */
  lemma {:induction false} OnlyLossesPart(cs: seq<Command>)
    requires ProcessAll(cs).ids <= SessionId.PERIOD
    ensures NeverParts(cs) <==> LossesFindNobody(cs)
    decreases |cs|
  {
    if cs != [] {
      var front, c := cs[..|cs| - 1], cs[|cs| - 1];
      ProcessAllIssuesIds(front);
      ProcessIssuesIds(ProcessAll(front), c);
      OnlyLossesPart(front);
      if c.StartTracking? {
        NextIdIsFresh(ProcessAll(front), c.client);
      }
    }
  }

  lemma EngineFollowsWithinAPeriod(cs: seq<Command>)
    requires ProcessAll(cs).ids <= SessionId.PERIOD
    ensures AlwaysSynced(cs) <==> LossesFindNobody(cs)
  {
    EngineFollowsThroughout(cs);
    OnlyLossesPart(cs);
  }

  /** After any run within one period of the id generator, in which the engine recovered
      from every loss of state, the engine runs exactly if a session exists, and then at
      the minimum interval over all sessions. Failed engine calls are allowed anywhere. */
  lemma {:induction false} EngineFollowsSessions(cs: seq<Command>)
    requires ProcessAll(cs).ids <= SessionId.PERIOD && Recovered(cs)
    ensures Synced(ProcessAll(cs).adapter)
    decreases |cs|
  {
    if cs != [] {
      var front, c := cs[..|cs| - 1], cs[|cs| - 1];
      var s := ProcessAll(front);
      ProcessAllIssuesIds(front);
      ProcessIssuesIds(s, c);
      if c.EngineUp? {
        if Recovered(front) { EngineFollowsSessions(front); }
        RestartSyncs(s.adapter, c.ok);
      } else if !c.EngineDown? {
        EngineFollowsSessions(front);
        if c.StartTracking? { NextIdIsFresh(s, c.client); }
        ProcessKeepsSynced(s, c);
      }
    }
  }
}
