/** The sessions a client of the location API has open, found by the client's id and by the
    engine's session, and what the client base does with them. */
module SessionDictionary {
  import SessionId

  datatype SessionMode = NoMode | OnFull | OnFix | OnTripCompleted

  datatype SessionEntity = SessionEntity(id: nat, trackingSession: nat, batchingSession: nat, sessionMode: SessionMode)

  /** What a lookup that finds nothing returns: all bytes zero. */
  const NO_ENTITY := SessionEntity(0, 0, 0, NoMode)

  datatype Dict<T> = Dict(forward: map<nat, nat>, backward: map<nat, nat>, ext: map<nat, T>)

  type Sessions = Dict<SessionEntity>

  function EmptyDict<T>(): Dict<T> { Dict(map[], map[], map[]) }

  /** The value of a map at a key, as the index operator of the code's maps reads it. */
  function At(m: map<nat, nat>, k: nat): nat {
    if k in m then m[k] else 0
  }

  function Set<T>(d: Dict<T>, id: nat, session: nat, ext: T): Dict<T> {
    Dict(d.forward[id := session], d.backward[session := id], d.ext[session := ext])
  }

  function RmById<T>(d: Dict<T>, id: nat): Dict<T> {
    var session := At(d.forward, id);
    Dict(d.forward - {id}, d.backward - {session}, d.ext - {session})
  }

  function RmBySession<T>(d: Dict<T>, session: nat): Dict<T> {
    Dict(d.forward - {At(d.backward, session)}, d.backward - {session}, d.ext - {session})
  }

  /** The entity belongs to the client id, and the session is the tracking session if the
      mode reports each fix and the batching session otherwise; there is no other. */
  predicate Describes(e: SessionEntity, id: nat, session: nat) {
    && e.id == id && session != 0
    && if e.sessionMode == OnFix then e.trackingSession == session && e.batchingSession == 0
       else e.batchingSession == session && e.trackingSession == 0
  }

  /** The maps between ids and sessions are inverse bijections, and every session has its entity. */
  ghost predicate Linked<T>(d: Dict<T>) {
    && (forall id :: id in d.forward ==> d.forward[id] in d.backward && d.backward[d.forward[id]] == id)
    && (forall s :: s in d.backward ==> d.backward[s] in d.forward && d.forward[d.backward[s]] == s)
    && d.ext.Keys == d.backward.Keys
    && 0 !in d.backward
  }

  ghost predicate Wellformed(d: Sessions) {
    Linked(d) && forall s :: s in d.ext ==> Describes(d.ext[s], d.backward[s], s)
  }

  // ----- the dictionary's own operations

  /** The id and the session are both new, or belong to each other already. */
  predicate Free<T>(d: Dict<T>, id: nat, session: nat) {
    && session != 0
    && (id in d.forward ==> d.forward[id] == session)
    && (session in d.backward ==> d.backward[session] == id)
  }

  /** Storing a session keeps the dictionary linked exactly if id and session are free for
      each other. */
  lemma SetKeepsLinks<T>(d: Dict<T>, id: nat, session: nat, ext: T)
    requires Linked(d)
    ensures Linked(Set(d, id, session, ext)) <==> Free(d, id, session)
  {
    var n := Set(d, id, session, ext);
    if id in d.forward && d.forward[id] != session {
      var other := d.forward[id];
      assert other in n.backward && n.backward[other] == id && n.forward[id] != other;
    } else if session in d.backward && d.backward[session] != id {
      var other := d.backward[session];
      assert other in n.forward && n.forward[other] == session && n.backward[session] != other;
    }
  }

  lemma RmByIdKeepsLinks<T>(d: Dict<T>, id: nat)
    requires Linked(d)
    ensures Linked(RmById(d, id)) && id !in RmById(d, id).forward
    ensures forall other :: other != id && other in d.forward ==>
      other in RmById(d, id).forward && RmById(d, id).forward[other] == d.forward[other]
  {
  }

  /** Removing by session keeps the dictionary linked exactly if the session is stored or
      no client has id zero: an unknown session is looked up as belonging to id zero. */
  lemma RmBySessionKeepsLinks<T>(d: Dict<T>, session: nat)
    requires Linked(d)
    ensures Linked(RmBySession(d, session)) <==> session in d.backward || 0 !in d.forward
  {
    if session !in d.backward && 0 in d.forward {
      var lost := d.forward[0];
      assert lost in RmBySession(d, session).backward && d.backward[lost] == 0;
    }
  }

  /** Both removals of a stored pair are the same. */
  lemma RemovalsAgree<T>(d: Dict<T>, id: nat)
    requires Linked(d) && id in d.forward
    ensures RmById(d, id) == RmBySession(d, d.forward[id])
  {
  }

  lemma RemovalUndoesSet<T>(d: Dict<T>, id: nat, session: nat, ext: T)
    requires Linked(d) && id !in d.forward && Free(d, id, session)
    ensures RmById(Set(d, id, session, ext), id) == d
  {
  }

  // ----- what the client base asks of the engine

  /** What happens to a session of the engine: the client base asks it to start, change or
      stop it, and the engine reports its end. */
  datatype Verb = Start | Alter | Stop | End

  datatype Call = Tracking(verb: Verb, session: nat) | Batching(verb: Verb, session: nat)

  datatype Client = Client(dict: Sessions, log: seq<Call>)

  const FRESH_CLIENT := Client(EmptyDict(), [])

  /** issued is the session the engine would open next. A response that reports a failed
      start or a successful stop ends a session, and so does the completion of a trip. */
  datatype Event =
    | StartSession(id: nat, mode: SessionMode, issued: nat)
    | UpdateSession(id: nat, mode: SessionMode, issued: nat)
    | StopSession(id: nat)
    | SessionEnded(session: nat)
    | TripsCompleted(sessions: seq<nat>)

  function EntityFor(id: nat, mode: SessionMode, issued: nat): SessionEntity {
    if mode == OnFix then SessionEntity(id, issued, 0, mode) else SessionEntity(id, 0, issued, mode)
  }

  function CallFor(verb: Verb, e: SessionEntity): Call {
    if e.sessionMode == OnFix then Tracking(verb, e.trackingSession) else Batching(verb, e.batchingSession)
  }

  /** Between tracking and batching an update stops the one session and starts another. */
  predicate Switches(e: SessionEntity, mode: SessionMode) {
    (e.sessionMode == OnFix) != (mode == OnFix)
  }

  function UpdatedEntity(e: SessionEntity, mode: SessionMode, issued: nat): SessionEntity {
    if Switches(e, mode) then EntityFor(e.id, mode, issued) else e.(sessionMode := mode)
  }

  function MainSession(e: SessionEntity): nat {
    if e.sessionMode == OnFix then e.trackingSession else e.batchingSession
  }

  function EntityOf(d: Sessions, id: nat): SessionEntity {
    var session := At(d.forward, id);
    if session > 0 && session in d.ext then d.ext[session] else NO_ENTITY
  }

  function EntityAt(d: Sessions, session: nat): SessionEntity {
    if session in d.ext then d.ext[session] else NO_ENTITY
  }

  function Started(c: Client, id: nat, mode: SessionMode, issued: nat): Client {
    if id in c.dict.forward then c
    else
      var e := EntityFor(id, mode, issued);
      c.(dict := Set(c.dict, id, issued, e), log := c.log + [CallFor(Start, e)])
  }

  function Altered(c: Client, id: nat, mode: SessionMode, issued: nat): Client {
    if id !in c.dict.forward then c
    else
      var e := EntityOf(c.dict, id);
      var u := UpdatedEntity(e, mode, issued);
      c.(dict := Set(RmById(c.dict, id), id, MainSession(u), u),
         log := c.log + if Switches(e, mode) then [CallFor(Stop, e), CallFor(Start, u)] else [CallFor(Alter, u)])
  }

  function Stopped(c: Client, id: nat): Client {
    if id !in c.dict.forward then c
    else c.(log := c.log + [CallFor(Stop, EntityOf(c.dict, id))])
  }

  function Ended(c: Client, session: nat): Client {
    if session !in c.dict.backward then c
    else c.(dict := RmBySession(c.dict, session), log := c.log + [CallFor(End, EntityAt(c.dict, session))])
  }

  predicate IsTrip(d: Sessions, session: nat) {
    session in d.backward && session in d.ext && d.ext[session].sessionMode == OnTripCompleted
  }

  function Completed(c: Client, sessions: seq<nat>): Client {
    if sessions == [] then c
    else
      var front, last := Completed(c, sessions[..|sessions| - 1]), sessions[|sessions| - 1];
      if IsTrip(front.dict, last) then Ended(front, last) else front
  }

  /** The client ids of the completed trips, in the order reported. */
  function CompletedIds(c: Client, sessions: seq<nat>): seq<nat> {
    if sessions == [] then []
    else
      var before, last := sessions[..|sessions| - 1], sessions[|sessions| - 1];
      var d := Completed(c, before).dict;
      CompletedIds(c, before) + if IsTrip(d, last) then [d.ext[last].id] else []
  }

  function Step(c: Client, e: Event): Client {
    match e
    case StartSession(id, mode, issued) => Started(c, id, mode, issued)
    case UpdateSession(id, mode, issued) => Altered(c, id, mode, issued)
    case StopSession(id) => Stopped(c, id)
    case SessionEnded(session) => Ended(c, session)
    case TripsCompleted(sessions) => Completed(c, sessions)
  }

  function Run(es: seq<Event>): Client {
    if es == [] then FRESH_CLIENT else Step(Run(es[..|es| - 1]), es[|es| - 1])
  }

  // ----- each step keeps the dictionary well formed

  /** The step opens a session with the engine. */
  predicate Opens(c: Client, e: Event) {
    match e
    case StartSession(id, _, _) => id !in c.dict.forward
    case UpdateSession(id, mode, _) => id in c.dict.forward && Switches(EntityOf(c.dict, id), mode)
    case _ => false
  }

  /** A session the step opens is not zero and not another client's. */
  predicate IssuesFresh(c: Client, e: Event) {
    Opens(c, e) ==> e.issued != 0 && (e.issued in c.dict.backward ==> c.dict.backward[e.issued] == e.id)
  }

  lemma EntityIsOwn(d: Sessions, id: nat)
    requires Wellformed(d) && id in d.forward
    ensures EntityOf(d, id) == d.ext[d.forward[id]] && Describes(EntityOf(d, id), id, d.forward[id])
  {
  }

  /** Starting keeps the dictionary well formed exactly if the engine issued a free session. */
  lemma StartKeeps(c: Client, id: nat, mode: SessionMode, issued: nat)
    requires Wellformed(c.dict)
    ensures Wellformed(Step(c, StartSession(id, mode, issued)).dict) <==> IssuesFresh(c, StartSession(id, mode, issued))
  {
    if id !in c.dict.forward {
      SetKeepsLinks(c.dict, id, issued, EntityFor(id, mode, issued));
    }
  }

  lemma SetKeeps(d: Sessions, id: nat, session: nat, e: SessionEntity)
    requires Wellformed(d)
    ensures Wellformed(Set(d, id, session, e)) <==> Free(d, id, session) && Describes(e, id, session)
  {
    SetKeepsLinks(d, id, session, e);
    assert Set(d, id, session, e).ext[session] == e;
  }

  lemma RmByIdKeeps(d: Sessions, id: nat)
    requires Wellformed(d)
    ensures Wellformed(RmById(d, id))
  {
    RmByIdKeepsLinks(d, id);
  }

  lemma FreeAfterRemoval(d: Sessions, id: nat, session: nat)
    requires Linked(d) && id in d.forward
    ensures Free(RmById(d, id), id, session) <==> session != 0 && (session in d.backward ==> d.backward[session] == id)
    ensures Free(RmById(d, id), id, d.forward[id])
  {
  }

  /** So does updating. */
  lemma UpdateKeeps(c: Client, id: nat, mode: SessionMode, issued: nat)
    requires Wellformed(c.dict)
    ensures Wellformed(Step(c, UpdateSession(id, mode, issued)).dict) <==>
      IssuesFresh(c, UpdateSession(id, mode, issued))
  {
    if id in c.dict.forward {
      EntityIsOwn(c.dict, id);
      RmByIdKeeps(c.dict, id);
      FreeAfterRemoval(c.dict, id, issued);
      AlterMeans(c, id, mode, issued);
      var u := UpdatedEntity(EntityOf(c.dict, id), mode, issued);
      SetKeeps(RmById(c.dict, id), id, MainSession(u), u);
    }
  }

  lemma AlterMeans(c: Client, id: nat, mode: SessionMode, issued: nat)
    requires Wellformed(c.dict) && id in c.dict.forward
    ensures var u, session := UpdatedEntity(EntityOf(c.dict, id), mode, issued), c.dict.forward[id];
      && MainSession(u) == (if Switches(EntityOf(c.dict, id), mode) then issued else session)
      && (MainSession(u) != 0 ==> Describes(u, id, MainSession(u)))
      && Altered(c, id, mode, issued).dict == Set(RmById(c.dict, id), id, MainSession(u), u)
  {
    EntityIsOwn(c.dict, id);
  }

  /** An update within tracking or within batching keeps the session; one between them puts
      the session just issued in its place. No other client's session changes. */
  lemma UpdateKeepsOrSwapsSession(c: Client, id: nat, mode: SessionMode, issued: nat)
    requires Wellformed(c.dict) && id in c.dict.forward
    ensures var after := Step(c, UpdateSession(id, mode, issued)).dict.forward;
      after == c.dict.forward[id := if Switches(EntityOf(c.dict, id), mode) then issued else c.dict.forward[id]]
  {
    AlterMeans(c, id, mode, issued);
  }

  /** A client's requests concern its own session and no other: a stop names it, and an
      update alters it, or stops it and starts the one issued, by the kind of the new mode,
      which the client has from then on. */
  lemma RequestsConcernOwnSession(c: Client, id: nat, mode: SessionMode, issued: nat)
    requires Wellformed(c.dict) && id in c.dict.forward && IssuesFresh(c, UpdateSession(id, mode, issued))
    ensures var own, fix := c.dict.forward[id], EntityOf(c.dict, id).sessionMode == OnFix;
      && Step(c, StopSession(id)).log == c.log + [if fix then Tracking(Stop, own) else Batching(Stop, own)]
      && Step(c, UpdateSession(id, mode, issued)).log == c.log +
           (if mode == OnFix
            then if fix then [Tracking(Alter, own)] else [Batching(Stop, own), Tracking(Start, issued)]
            else if fix then [Tracking(Stop, own), Batching(Start, issued)] else [Batching(Alter, own)])
      && EntityOf(Step(c, UpdateSession(id, mode, issued)).dict, id).sessionMode == mode
  {
    EntityIsOwn(c.dict, id);
    AlterMeans(c, id, mode, issued);
  }

  lemma EndKeeps(c: Client, session: nat)
    requires Wellformed(c.dict)
    ensures Wellformed(Ended(c, session).dict)
  {
  }

  lemma {:induction false} CompletionKeeps(c: Client, sessions: seq<nat>)
    requires Wellformed(c.dict)
    ensures Wellformed(Completed(c, sessions).dict)
    decreases |sessions|
  {
    if sessions != [] {
      CompletionKeeps(c, sessions[..|sessions| - 1]);
      EndKeeps(Completed(c, sessions[..|sessions| - 1]), sessions[|sessions| - 1]);
    }
  }

  lemma StepKeeps(c: Client, e: Event)
    requires Wellformed(c.dict)
    ensures Wellformed(Step(c, e).dict) <==> IssuesFresh(c, e)
  {
    match e
    case StartSession(id, mode, issued) => StartKeeps(c, id, mode, issued);
    case UpdateSession(id, mode, issued) => UpdateKeeps(c, id, mode, issued);
    case StopSession(_) =>
    case SessionEnded(session) => EndKeeps(c, session);
    case TripsCompleted(sessions) => CompletionKeeps(c, sessions);
  }

  /** Completion drops exactly the reported sessions in that mode, and all others stay as
      they are. */
  lemma {:induction false} CompletionDrops(c: Client, sessions: seq<nat>)
    requires Wellformed(c.dict)
    ensures forall s :: s in Completed(c, sessions).dict.ext <==>
      s in c.dict.ext && !(s in sessions && IsTrip(c.dict, s))
    ensures forall s :: s in Completed(c, sessions).dict.ext ==>
      Completed(c, sessions).dict.ext[s] == c.dict.ext[s]
    decreases |sessions|
  {
    if sessions != [] {
      var before, last := sessions[..|sessions| - 1], sessions[|sessions| - 1];
      CompletionKeeps(c, before);
      CompletionDrops(c, before);
      assert sessions == before + [last];
    }
  }

  lemma {:induction false} CompletedWereTrips(c: Client, sessions: seq<nat>, id: nat)
    requires Wellformed(c.dict)
    ensures id in CompletedIds(c, sessions) <==>
      id in c.dict.forward && c.dict.forward[id] in sessions && IsTrip(c.dict, c.dict.forward[id])
    decreases |sessions|
  {
    if sessions != [] {
      var before, last := sessions[..|sessions| - 1], sessions[|sessions| - 1];
      CompletedWereTrips(c, before, id);
      CompletionDrops(c, before);
      CompletionKeeps(c, before);
      assert sessions == before + [last];
    }
  }

  /** Each client id of a completed trip, and no other, is reported, and reported once. */
  lemma {:induction false} CompletionReports(c: Client, sessions: seq<nat>)
    requires Wellformed(c.dict)
    ensures forall id :: id in CompletedIds(c, sessions) <==>
      id in c.dict.forward && c.dict.forward[id] in sessions && IsTrip(c.dict, c.dict.forward[id])
    ensures forall i, j :: 0 <= i < j < |CompletedIds(c, sessions)| ==>
      CompletedIds(c, sessions)[i] != CompletedIds(c, sessions)[j]
    decreases |sessions|
  {
    forall id: nat { CompletedWereTrips(c, sessions, id); }
    if sessions != [] {
      var before, last := sessions[..|sessions| - 1], sessions[|sessions| - 1];
      CompletionReports(c, before);
      CompletionDrops(c, before);
      CompletionKeeps(c, before);
      var d := Completed(c, before).dict;
      if IsTrip(d, last) {
        CompletedWereTrips(c, before, d.ext[last].id);
      }
    }
  }

  // ----- whole runs

  ghost predicate AlwaysWellformed(es: seq<Event>)
    decreases |es|
  {
    Wellformed(Run(es).dict) && (es == [] || AlwaysWellformed(es[..|es| - 1]))
  }

  predicate AlwaysFresh(es: seq<Event>) {
    es == [] || (AlwaysFresh(es[..|es| - 1]) && IssuesFresh(Run(es[..|es| - 1]), es[|es| - 1]))
  }

  /** The dictionary is well formed all through a run exactly if the engine always issued
      a session that was not zero and not another client's. */
  lemma {:induction false} RunsStayWellformed(es: seq<Event>)
    ensures AlwaysWellformed(es) <==> AlwaysFresh(es)
    decreases |es|
  {
    if es != [] {
      RunsStayWellformed(es[..|es| - 1]);
      if AlwaysWellformed(es[..|es| - 1]) {
        StepKeeps(Run(es[..|es| - 1]), es[|es| - 1]);
      }
    }
  }

  /** The events that carry a session to open. */
  predicate Carries(e: Event) { e.StartSession? || e.UpdateSession? }

  /** The events' sessions came from the generator, in turn and within one period. */
  ghost predicate IssuedInTurn(es: seq<Event>, turns: seq<nat>) {
    && |turns| == |es|
    && (forall k :: 0 <= k < |es| && Carries(es[k]) ==> es[k].issued == SessionId.After(turns[k]))
    && (forall i, j :: 0 <= i < j < |es| && Carries(es[i]) && Carries(es[j]) ==>
         turns[i] < turns[j] < turns[i] + SessionId.PERIOD)
  }

  lemma {:induction false} StoredSessionsWereCarried(es: seq<Event>, s: nat)
    requires AlwaysFresh(es) && s in Run(es).dict.backward
    ensures exists k :: 0 <= k < |es| && Carries(es[k]) && es[k].issued == s
    decreases |es|
  {
    var front, e := es[..|es| - 1], es[|es| - 1];
    var c := Run(front);
    RunsStayWellformed(front);
    if s in c.dict.backward {
      StoredSessionsWereCarried(front, s);
      var k :| 0 <= k < |front| && Carries(front[k]) && front[k].issued == s;
      assert es[k] == front[k];
    } else {
      StepAddsOnlyIssued(c, e, s);
    }
  }

  lemma StepAddsOnlyIssued(c: Client, e: Event, s: nat)
    requires Wellformed(c.dict) && s !in c.dict.backward && s in Step(c, e).dict.backward
    ensures Carries(e) && e.issued == s
  {
    match e
    case UpdateSession(id, _, _) =>
      if id in c.dict.forward {
        EntityIsOwn(c.dict, id);
      }
    case TripsCompleted(sessions) =>
      CompletionDrops(c, sessions);
      CompletionKeeps(c, sessions);
    case _ =>
  }

  lemma IssuedIsNotStored(front: seq<Event>, e: Event, turns: seq<nat>)
    requires IssuedInTurn(front + [e], turns) && AlwaysFresh(front) && Carries(e)
    ensures e.issued != 0 && e.issued !in Run(front).dict.backward
  {
    var es := front + [e];
    assert es[|front|] == e;
    SessionId.IdsAreFreshWithinAPeriod(turns[|front|], turns[|front|] + 1);
    if e.issued in Run(front).dict.backward {
      StoredSessionsWereCarried(front, e.issued);
      var k :| 0 <= k < |front| && Carries(front[k]) && front[k].issued == e.issued;
      assert es[k] == front[k];
      SessionId.IdsAreFreshWithinAPeriod(turns[k], turns[|front|]);
      assert false;
    }
  }

  /** Sessions the generator issues within one period keep the dictionary well formed. */
  lemma {:induction false} GeneratedSessionsAreFresh(es: seq<Event>, turns: seq<nat>)
    requires IssuedInTurn(es, turns)
    ensures AlwaysFresh(es) && AlwaysWellformed(es)
    decreases |es|
  {
    if es != [] {
      var front, e := es[..|es| - 1], es[|es| - 1];
      GeneratedSessionsAreFresh(front, turns[..|es| - 1]);
      if Carries(e) {
        assert es == front + [e];
        IssuedIsNotStored(front, e, turns);
      }
    }
    RunsStayWellformed(es);
  }

  // ----- the engine's view

  /** The sessions, as their starting calls, that were started and since then neither asked
      to stop nor reported ended. */
  function Live(log: seq<Call>): set<Call> {
    if log == [] then {}
    else
      var front, last := Live(log[..|log| - 1]), log[|log| - 1];
      match last.verb
      case Start => front + {last}
      case Alter => front
      case _ => front - {last.(verb := Start)}
  }

  /** Those that were started and since then not reported ended. */
  function Known(log: seq<Call>): set<Call> {
    if log == [] then {}
    else
      var front, last := Known(log[..|log| - 1]), log[|log| - 1];
      match last.verb
      case Start => front + {last}
      case End => front - {last.(verb := Start)}
      case _ => front
  }

  /** No session is started while it is live, and every session changed, stopped or ended
      was started, by a call of the same kind, and not reported ended since. */
  predicate Sensible(log: seq<Call>) {
    log == [] ||
    (var front, last := log[..|log| - 1], log[|log| - 1];
     Sensible(front) && if last.verb == Start then last !in Live(front) else last.(verb := Start) in Known(front))
  }

  predicate Stores(ext: map<nat, SessionEntity>, call: Call) {
    call.session in ext && CallFor(Start, ext[call.session]) == call
  }

  /** Every live session is stored under its kind, and every session stored is known. */
  ghost predicate Accounted(ext: map<nat, SessionEntity>, log: seq<Call>) {
    && (forall call :: call in Live(log) ==> Stores(ext, call))
    && (forall s :: s in ext ==> CallFor(Start, ext[s]) in Known(log))
  }

  ghost predicate InOrder(c: Client) {
    Accounted(c.dict.ext, c.log) && Sensible(c.log)
  }

  /** While the engine issues fresh sessions, also numbers it issued before, none is ever
      forgotten: each that was started is stored until it is asked to stop or reported
      ended after that start. And the engine is only asked about sessions it has. */
  lemma {:induction false} NoSessionIsForgotten(es: seq<Event>)
    requires AlwaysFresh(es)
    ensures InOrder(Run(es))
    decreases |es|
  {
    if es != [] {
      var front, e := es[..|es| - 1], es[|es| - 1];
      NoSessionIsForgotten(front);
      RunsStayWellformed(front);
      StepAccounts(Run(front), e);
    }
  }

  lemma LogOneMore(log: seq<Call>, call: Call)
    ensures Live(log + [call]) ==
      match call.verb
      case Start => Live(log) + {call}
      case Alter => Live(log)
      case _ => Live(log) - {call.(verb := Start)}
    ensures Known(log + [call]) ==
      match call.verb
      case Start => Known(log) + {call}
      case End => Known(log) - {call.(verb := Start)}
      case _ => Known(log)
    ensures Sensible(log + [call]) <==>
      Sensible(log) && if call.verb == Start then call !in Live(log) else call.(verb := Start) in Known(log)
  {
    assert (log + [call])[..|log|] == log;
  }

  /** A stored session is changed or asked to stop. */
  lemma OneMoreRequest(ext: map<nat, SessionEntity>, log: seq<Call>, s: nat, call: Call)
    requires Accounted(ext, log) && Sensible(log) && s in ext
    requires call == CallFor(Alter, ext[s]) || call == CallFor(Stop, ext[s])
    ensures Accounted(ext, log + [call]) && Sensible(log + [call])
  {
    LogOneMore(log, call);
    assert CallFor(Start, ext[s]) == call.(verb := Start);
  }

  /** A session is started under a number nothing is stored under. */
  lemma OneMoreStart(ext: map<nat, SessionEntity>, log: seq<Call>, s: nat, e: SessionEntity)
    requires Accounted(ext, log) && Sensible(log) && MainSession(e) == s && s !in ext
    ensures Accounted(ext[s := e], log + [CallFor(Start, e)]) && Sensible(log + [CallFor(Start, e)])
  {
    LogOneMore(log, CallFor(Start, e));
    assert forall call :: call in Live(log) ==> Stores(ext, call) && Stores(ext[s := e], call);
  }

  /** A stored session is dropped as it is reported ended. */
  lemma OneEnd(ext: map<nat, SessionEntity>, log: seq<Call>, s: nat)
    requires Accounted(ext, log) && Sensible(log) && s in ext && MainSession(ext[s]) == s
    requires forall t :: t in ext ==> MainSession(ext[t]) == t
    ensures Accounted(ext - {s}, log + [CallFor(End, ext[s])]) && Sensible(log + [CallFor(End, ext[s])])
  {
    var end := CallFor(End, ext[s]);
    LogOneMore(log, end);
    assert end.(verb := Start) == CallFor(Start, ext[s]);
    forall call | call in Live(log + [end])
      ensures Stores(ext - {s}, call)
    {
      assert Stores(ext, call);
    }
  }

  /** A stored session that is not live any more may be dropped. */
  lemma OneFewer(ext: map<nat, SessionEntity>, log: seq<Call>, s: nat)
    requires Accounted(ext, log) && s in ext && CallFor(Start, ext[s]) !in Live(log)
    ensures Accounted(ext - {s}, log)
  {
    forall call | call in Live(log)
      ensures Stores(ext - {s}, call)
    {
      assert Stores(ext, call);
    }
  }

  lemma SwitchAccounts(ext: map<nat, SessionEntity>, log: seq<Call>, s: nat, t: nat, u: SessionEntity)
    requires Accounted(ext, log) && Sensible(log) && s in ext && MainSession(u) == t && t !in ext - {s}
    ensures var after := log + [CallFor(Stop, ext[s]), CallFor(Start, u)];
      Accounted((ext - {s})[t := u], after) && Sensible(after)
  {
    var stopped := log + [CallFor(Stop, ext[s])];
    OneMoreRequest(ext, log, s, CallFor(Stop, ext[s]));
    LogOneMore(log, CallFor(Stop, ext[s]));
    OneFewer(ext, stopped, s);
    OneMoreStart(ext - {s}, stopped, t, u);
    assert stopped + [CallFor(Start, u)] == log + [CallFor(Stop, ext[s]), CallFor(Start, u)];
  }

  lemma SameCallsToStart(ext: map<nat, SessionEntity>, log: seq<Call>, s: nat, e: SessionEntity)
    requires Accounted(ext, log) && s in ext && CallFor(Start, e) == CallFor(Start, ext[s])
    ensures Accounted(ext[s := e], log)
  {
    assert forall call :: Stores(ext[s := e], call) == Stores(ext, call);
  }

  lemma UpdateAccounts(c: Client, id: nat, mode: SessionMode, issued: nat)
    requires Wellformed(c.dict) && IssuesFresh(c, UpdateSession(id, mode, issued)) && InOrder(c) && id in c.dict.forward
    ensures InOrder(Altered(c, id, mode, issued))
  {
    EntityIsOwn(c.dict, id);
    AlterMeans(c, id, mode, issued);
    var session, ext := c.dict.forward[id], c.dict.ext;
    var e, u := ext[session], UpdatedEntity(ext[session], mode, issued);
    if Switches(e, mode) {
      SwitchAccounts(ext, c.log, session, issued, u);
    } else {
      assert (ext - {session})[session := u] == ext[session := u];
      SameCallsToStart(ext, c.log, session, u);
      OneMoreRequest(ext[session := u], c.log, session, CallFor(Alter, u));
    }
  }

  lemma EndAccounts(c: Client, s: nat)
    requires Wellformed(c.dict) && InOrder(c)
    ensures InOrder(Ended(c, s))
  {
    if s in c.dict.backward {
      OneEnd(c.dict.ext, c.log, s);
    }
  }

  lemma {:induction false} CompletionAccounts(c: Client, sessions: seq<nat>)
    requires Wellformed(c.dict) && InOrder(c)
    ensures InOrder(Completed(c, sessions))
    decreases |sessions|
  {
    if sessions != [] {
      var before := sessions[..|sessions| - 1];
      CompletionKeeps(c, before);
      CompletionAccounts(c, before);
      EndAccounts(Completed(c, before), sessions[|sessions| - 1]);
    }
  }

  lemma StepAccounts(c: Client, e: Event)
    requires Wellformed(c.dict) && IssuesFresh(c, e) && InOrder(c)
    ensures InOrder(Step(c, e))
  {
    match e
    case StartSession(id, mode, issued) =>
      if id !in c.dict.forward {
        OneMoreStart(c.dict.ext, c.log, issued, EntityFor(id, mode, issued));
      }
    case UpdateSession(id, mode, issued) =>
      if id in c.dict.forward {
        UpdateAccounts(c, id, mode, issued);
      }
    case StopSession(id) =>
      if id in c.dict.forward {
        EntityIsOwn(c.dict, id);
        OneMoreRequest(c.dict.ext, c.log, c.dict.forward[id], CallFor(Stop, EntityOf(c.dict, id)));
      }
    case SessionEnded(session) => EndAccounts(c, session);
    case TripsCompleted(sessions) => CompletionAccounts(c, sessions);
  }
}
