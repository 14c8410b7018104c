/** What each event does to the dictionary and what the engine is asked, said outright. */
module SessionEffects {
  import opened SessionDictionary

  /** A session of the kind the mode asks for, and no other. */
  function Entity(id: nat, session: nat, mode: SessionMode): SessionEntity {
    SessionEntity(id, if mode == OnFix then session else 0, if mode == OnFix then 0 else session, mode)
  }

  /** The engine is asked of a tracking session in fix mode and of a batching one otherwise. */
  function Asked(verb: Verb, session: nat, mode: SessionMode): Call {
    if mode == OnFix then Tracking(verb, session) else Batching(verb, session)
  }

  /** A start under an id in use changes nothing; any other opens the session issued and
      stores it, as the mode's kind. */
  lemma StartEffect(c: Client, id: nat, mode: SessionMode, issued: nat)
    ensures var d := c.dict;
      Step(c, StartSession(id, mode, issued)) ==
        if id in d.forward then c
        else
          Client(Dict(d.forward[id := issued], d.backward[issued := id], d.ext[issued := Entity(id, issued, mode)]),
                 c.log + [Asked(Start, issued, mode)])
  {
  }

  /** A stop asks the engine to stop the client's own session, as the kind it is, and keeps
      it stored; of an unknown id it does nothing. */
  lemma StopEffect(c: Client, id: nat)
    requires Wellformed(c.dict)
    ensures var d := c.dict;
      Step(c, StopSession(id)) ==
        if id !in d.forward then c
        else c.(log := c.log + [Asked(Stop, d.forward[id], d.ext[d.forward[id]].sessionMode)])
  {
    if id in c.dict.forward {
      EntityIsOwn(c.dict, id);
    }
  }

  /** An update within tracking or within batching asks the engine to change the client's own
      session; one between them stops it and opens the one issued. The client has the new
      mode afterwards; of an unknown id it does nothing. */
  lemma UpdateEffect(c: Client, id: nat, mode: SessionMode, issued: nat)
    requires Wellformed(c.dict)
    ensures var d, n := c.dict, Step(c, UpdateSession(id, mode, issued));
      if id !in d.forward then n == c
      else
        var own, was := d.forward[id], d.ext[d.forward[id]].sessionMode;
        var switches := (was == OnFix) != (mode == OnFix);
        var session := if switches then issued else own;
        && n.dict == Dict(d.forward[id := session], (d.backward - {own})[session := id],
                          (d.ext - {own})[session := Entity(id, session, mode)])
        && n.log == c.log + (if switches then [Asked(Stop, own, was), Asked(Start, issued, mode)]
                             else [Asked(Alter, own, mode)])
  {
    if id in c.dict.forward {
      EntityIsOwn(c.dict, id);
      AlterMeans(c, id, mode, issued);
      var session := MainSession(UpdatedEntity(EntityOf(c.dict, id), mode, issued));
      assert (c.dict.forward - {id})[id := session] == c.dict.forward[id := session];
    }
  }

  /** The end of a session drops it and no other; of an unknown session it does nothing. */
  lemma EndEffect(c: Client, s: nat)
    requires Wellformed(c.dict)
    ensures var d := c.dict;
      Step(c, SessionEnded(s)) ==
        if s !in d.ext then c
        else
          Client(Dict(d.forward - {d.backward[s]}, d.backward - {s}, d.ext - {s}),
                 c.log + [Asked(End, s, d.ext[s].sessionMode)])
  {
  }

  /** The sessions reported that are trips to be completed, each at its first report. */
  function TripsIn(d: Sessions, reported: seq<nat>): seq<nat> {
    if reported == [] then []
    else
      var front, last := reported[..|reported| - 1], reported[|reported| - 1];
      TripsIn(d, front)
      + (if last in d.ext && d.ext[last].sessionMode == OnTripCompleted && last !in front then [last] else [])
  }

  ghost function Without(d: Sessions, gone: set<nat>): Sessions {
    Dict(map id | id in d.forward && d.forward[id] !in gone :: d.forward[id], d.backward - gone, d.ext - gone)
  }

  function Ends(trips: seq<nat>): seq<Call> {
    seq(|trips|, k requires 0 <= k < |trips| => Batching(End, trips[k]))
  }

  function OwnersOf(d: Sessions, trips: seq<nat>): seq<nat>
    requires forall s :: s in trips ==> s in d.backward
  {
    seq(|trips|, k requires 0 <= k < |trips| => d.backward[trips[k]])
  }

  lemma {:induction false} TripsAreStored(d: Sessions, reported: seq<nat>)
    requires Wellformed(d)
    ensures forall s :: s in TripsIn(d, reported) <==>
      s in reported && s in d.ext && d.ext[s].sessionMode == OnTripCompleted
    ensures forall s :: s in TripsIn(d, reported) ==> s in d.backward
    decreases |reported|
  {
    if reported != [] {
      TripsAreStored(d, reported[..|reported| - 1]);
      assert reported == reported[..|reported| - 1] + [reported[|reported| - 1]];
    }
  }

  ghost function Gone(d: Sessions, reported: seq<nat>): set<nat> { set s | s in TripsIn(d, reported) }

  lemma EndsOneMore(trips: seq<nat>, s: nat)
    ensures Ends(trips + [s]) == Ends(trips) + [Batching(End, s)]
  {
  }

  lemma OwnersOneMore(d: Sessions, trips: seq<nat>, s: nat)
    requires (forall t :: t in trips ==> t in d.backward) && s in d.backward
    ensures forall t :: t in trips + [s] ==> t in d.backward
    ensures OwnersOf(d, trips + [s]) == OwnersOf(d, trips) + [d.backward[s]]
  {
    assert forall t :: t in trips + [s] ==> t in trips || t == s;
  }

  lemma OneMoreTrip(d: Sessions, front: seq<nat>, last: nat)
    requires Wellformed(d) && last in d.ext && d.ext[last].sessionMode == OnTripCompleted && last !in front
    ensures TripsIn(d, front + [last]) == TripsIn(d, front) + [last]
    ensures Gone(d, front + [last]) == Gone(d, front) + {last} && last !in Gone(d, front)
  {
    TripsAreStored(d, front);
    assert (front + [last])[..|front|] == front;
  }

  lemma NoMoreTrip(d: Sessions, front: seq<nat>, last: nat)
    requires !(last in d.ext && d.ext[last].sessionMode == OnTripCompleted && last !in front)
    ensures TripsIn(d, front + [last]) == TripsIn(d, front)
  {
    assert (front + [last])[..|front|] == front;
  }

  lemma RemovingOneMore(d: Sessions, gone: set<nat>, s: nat)
    requires Wellformed(d) && s in d.ext && s !in gone
    ensures RmBySession(Without(d, gone), s) == Without(d, gone + {s})
    ensures s in Without(d, gone).backward && Without(d, gone).ext[s] == d.ext[s]
  {
    var id := d.backward[s];
    assert Without(d, gone).backward[s] == id;
    assert (Without(d, gone).forward - {id}).Keys == Without(d, gone + {s}).forward.Keys;
    assert Without(d, gone).backward - {s} == d.backward - (gone + {s});
    assert Without(d, gone).ext - {s} == d.ext - (gone + {s});
  }

  /** What completion does, for the list reported up to here. */
  ghost predicate Completes(c: Client, reported: seq<nat>) {
    && (forall s :: s in TripsIn(c.dict, reported) ==> s in c.dict.backward)
    && Completed(c, reported) ==
         Client(Without(c.dict, Gone(c.dict, reported)), c.log + Ends(TripsIn(c.dict, reported)))
    && CompletedIds(c, reported) == OwnersOf(c.dict, TripsIn(c.dict, reported))
  }

  lemma EndingOneMore(c: Client, gone: set<nat>, trips: seq<nat>, s: nat)
    requires Wellformed(c.dict) && s in c.dict.ext && s !in gone && c.dict.ext[s].sessionMode == OnTripCompleted
    ensures var before := Client(Without(c.dict, gone), c.log + Ends(trips));
      && IsTrip(before.dict, s) && before.dict.ext[s].id == c.dict.backward[s]
      && Ended(before, s) == Client(Without(c.dict, gone + {s}), c.log + Ends(trips + [s]))
  {
    RemovingOneMore(c.dict, gone, s);
    EndsOneMore(trips, s);
  }

  lemma CompletesOneMore(c: Client, front: seq<nat>, last: nat)
    requires Wellformed(c.dict) && Completes(c, front)
    ensures Completes(c, front + [last])
  {
    var d := c.dict;
    assert (front + [last])[..|front|] == front;
    TripsAreStored(d, front);
    if last in d.ext && d.ext[last].sessionMode == OnTripCompleted && last !in front {
      OneMoreTrip(d, front, last);
      OwnersOneMore(d, TripsIn(d, front), last);
      EndingOneMore(c, Gone(d, front), TripsIn(d, front), last);
    } else {
      NoMoreTrip(d, front, last);
      assert !IsTrip(Completed(c, front).dict, last);
    }
  }

  lemma {:induction false} CompletionCompletes(c: Client, reported: seq<nat>)
    requires Wellformed(c.dict)
    ensures Completes(c, reported)
    decreases |reported|
  {
    if reported == [] {
      assert Without(c.dict, {}) == c.dict;
      assert Gone(c.dict, reported) == {};
      assert c.log + Ends([]) == c.log;
    } else {
      var front, last := reported[..|reported| - 1], reported[|reported| - 1];
      CompletionCompletes(c, front);
      CompletesOneMore(c, front, last);
      assert front + [last] == reported;
    }
  }

  /** Completion drops exactly the trips reported, with their clients, logs their ends in the
      order of their first reports, and reports their clients in that order. */
  lemma TripsEffect(c: Client, reported: seq<nat>)
    requires Wellformed(c.dict)
    ensures var d, trips := c.dict, TripsIn(c.dict, reported);
      && Step(c, TripsCompleted(reported)) == Client(Without(d, Gone(d, reported)), c.log + Ends(trips))
      && (forall s :: s in trips ==> s in d.backward)
      && CompletedIds(c, reported) == OwnersOf(d, trips)
  {
    CompletionCompletes(c, reported);
  }

  /** After any run in which the engine issued free sessions, a client's stop reaches the
      engine for the session it opened last, and nothing else changes. */
  lemma StopInRuns(es: seq<Event>, id: nat)
    requires AlwaysFresh(es) && id in Run(es).dict.forward
    ensures var d := Run(es).dict;
      && d.forward[id] in d.ext
      && Run(es + [StopSession(id)]) ==
           Run(es).(log := Run(es).log + [Asked(Stop, d.forward[id], d.ext[d.forward[id]].sessionMode)])
  {
    RunsStayWellformed(es);
    StopEffect(Run(es), id);
    assert (es + [StopSession(id)])[..|es|] == es;
  }
}
