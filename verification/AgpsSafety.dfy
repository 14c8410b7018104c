/** Safety of the AGPS protocol over every run. */
module AgpsSafety {
  import opened AgpsProtocol

  // ----- the subscriber list

  lemma MemberOf(subs: seq<AgpsSubscriber>)
    ensures subs == [] || exists s :: s in subs
  {
    if subs != [] { assert subs[0] in subs; }
  }

  lemma DistinctAppend(subs: seq<AgpsSubscriber>, s: AgpsSubscriber)
    requires Distinct(subs) && !Lists(subs, s.connHandle)
    ensures Distinct(subs + [s])
  {
  }

  lemma OnlyEntry(subs: seq<AgpsSubscriber>, s: AgpsSubscriber)
    requires Distinct(subs) && s in subs
    ensures forall t :: t in subs && t.connHandle == s.connHandle ==> t == s
  {
    forall t | t in subs && t.connHandle == s.connHandle
      ensures t == s
    {
      var i :| 0 <= i < |subs| && subs[i] == s;
      var j :| 0 <= j < |subs| && subs[j] == t;
    }
  }

  lemma {:induction false} WithoutKeepsOthers(subs: seq<AgpsSubscriber>, h: int)
    ensures forall s :: s in Without(subs, h) <==> s in subs && s.connHandle != h
    ensures Distinct(subs) ==> Distinct(Without(subs, h))
    decreases |subs|
  {
    if subs != [] {
      var front, last := subs[..|subs| - 1], subs[|subs| - 1];
      assert subs == front + [last];
      WithoutKeepsOthers(front, h);
      if Distinct(subs) && last.connHandle != h {
        DistinctAppend(Without(front, h), last);
      }
    }
  }

  lemma {:induction false} SparedAreUnaddressed(subs: seq<AgpsSubscriber>, a: Audience)
    ensures forall s :: s in Spared(subs, a) <==> s in subs && !IsAddressed(a, s)
    ensures Distinct(subs) ==> Distinct(Spared(subs, a))
    decreases |subs|
  {
    if subs != [] {
      var front, last := subs[..|subs| - 1], subs[|subs| - 1];
      assert subs == front + [last];
      SparedAreUnaddressed(front, a);
      if Distinct(subs) && !IsAddressed(a, last) {
        DistinctAppend(Spared(front, a), last);
      }
    }
  }

  lemma DeactivatedMembers(subs: seq<AgpsSubscriber>, h: int)
    ensures forall s :: s in Deactivated(subs, h) <==>
      if s.connHandle == h then s.isInactive && exists t :: t in subs && s == t.(isInactive := true) else s in subs
    ensures Distinct(subs) ==> Distinct(Deactivated(subs, h))
    ensures |Deactivated(subs, h)| == |subs|
    ensures forall k :: Lists(Deactivated(subs, h), k) <==> Lists(subs, k)
  {
    var after := Deactivated(subs, h);
    assert forall i :: 0 <= i < |subs| ==>
      subs[i] in subs && after[i] in after && after[i].connHandle == subs[i].connHandle;
  }

  // ----- conversations

  lemma TalkAppend(log: seq<AtlNotice>, n: AtlNotice, h: int)
    ensures Talk(log + [n], h) == if n.handle == h then Hear(Talk(log, h), n) else Talk(log, h)
  {
    assert (log + [n])[..|log|] == log;
  }

  lemma AddressesLast(front: seq<AgpsSubscriber>, last: AgpsSubscriber, a: Audience, h: int)
    requires Distinct(front + [last])
    ensures Addresses(front + [last], a, h) <==>
      Addresses(front, a, h) || (last.connHandle == h && IsAddressed(a, last))
    ensures last.connHandle == h ==> !Addresses(front, a, h)
  {
    var subs := front + [last];
    forall s | s in front
      ensures s.connHandle != last.connHandle
    {
      var i :| 0 <= i < |front| && front[i] == s;
      assert subs[i] == s && subs[|front|] == last;
    }
  }

  lemma TalkNotice(log: seq<AtlNotice>, front: seq<AgpsSubscriber>, last: AgpsSubscriber, a: Audience,
                   e: AgpsEvent, h: int)
    requires e != SubscribeEvent
    ensures Talk(log + Notices(front + [last], a, e), h) ==
      if last.connHandle == h && IsAddressed(a, last)
      then Hear(Talk(log + Notices(front, a, e), h), NoticeOf(e, h)[0])
      else Talk(log + Notices(front, a, e), h)
  {
    var before := log + Notices(front, a, e);
    assert (front + [last])[..|front|] == front;
    if IsAddressed(a, last) {
      var n := NoticeOf(e, last.connHandle)[0];
      assert log + Notices(front + [last], a, e) == before + [n];
      TalkAppend(before, n, h);
    } else {
      assert log + Notices(front + [last], a, e) == before;
    }
  }

  /** A broadcast of e reaches the entry of h once if it is addressed, and not at all otherwise. */
  lemma {:induction false} TalkBroadcast(log: seq<AtlNotice>, subs: seq<AgpsSubscriber>, a: Audience,
                                         e: AgpsEvent, h: int)
    requires Distinct(subs) && e != SubscribeEvent
    ensures Talk(log + Notices(subs, a, e), h) ==
      if Addresses(subs, a, h) then Hear(Talk(log, h), NoticeOf(e, h)[0]) else Talk(log, h)
    decreases |subs|
  {
    if subs == [] {
      assert log + Notices(subs, a, e) == log;
    } else {
      var front, last := subs[..|subs| - 1], subs[|subs| - 1];
      assert subs == front + [last];
      TalkBroadcast(log, front, a, e, h);
      TalkNotice(log, front, last, a, e, h);
      AddressesLast(front, last, a, h);
    }
  }

  lemma {:induction false} TalkDrops(log: seq<AtlNotice>, subs: seq<AgpsSubscriber>, h: int)
    requires Distinct(subs)
    ensures Talk(log + Drops(subs), h) ==
      if Lists(subs, h) then Hear(Talk(log, h), Dropped(h)) else Talk(log, h)
    decreases |subs|
  {
    if subs == [] {
      assert log + Drops(subs) == log;
    } else {
      var front, last := subs[..|subs| - 1], subs[|subs| - 1];
      assert subs == front + [last];
      TalkDrops(log, front, h);
      TalkAppend(log + Drops(front), Dropped(last.connHandle), h);
      assert log + Drops(subs) == (log + Drops(front)) + [Dropped(last.connHandle)];
    }
  }

  lemma LinkAppend(log: seq<NifTraffic>, t: NifTraffic)
    ensures LinkOf(log + [t]) == Carry(LinkOf(log), t)
  {
    assert (log + [t])[..|log|] == log;
  }

  // ----- each handler keeps the invariant

  lemma ListingKeepsList(m: Machine, s: AgpsSubscriber)
    requires ListFits(m) && m.state != Released && !s.isInactive
    ensures ListFits(Listing(m, s))
  {
  }

  lemma ListingTalk(m: Machine, s: AgpsSubscriber, h: int)
    ensures Talk(Listing(m, s).atl, h) ==
      if h == s.connHandle && !Lists(m.subscribers, h) then Hear(Talk(m.atl, h), Listed(h)) else Talk(m.atl, h)
    ensures Lists(Listing(m, s).subscribers, h) <==> Lists(m.subscribers, h) || h == s.connHandle
  {
    TalkAppend(m.atl, Listed(s.connHandle), h);
  }

  /** What listing s does to the conversation of h: a new entry of h waits, or is open if
      it was welcomed. */
  lemma ListingFits(state: AgpsState, subs: seq<AgpsSubscriber>, s: AgpsSubscriber, c: Conversation, h: int)
    requires ConversationFits(state, subs, c, h) && !s.isInactive && !Lists(subs, s.connHandle)
    ensures h != s.connHandle ==> ConversationFits(state, subs + [s], c, h)
    ensures h == s.connHandle && state != Acquired ==> c == Absent && ConversationFits(state, subs + [s], Waiting, h)
    ensures h == s.connHandle && state == Acquired ==> c == Absent && ConversationFits(state, subs + [s], Open, h)
  {
    assert forall t :: t in subs + [s] <==> t in subs || t == s;
    assert (subs + [s])[|subs|] == s;
    assert Lists(subs + [s], h) <==> Lists(subs, h) || s.connHandle == h;
  }

  lemma WelcomeAgainFits(subs: seq<AgpsSubscriber>, c: Conversation, h: int)
    requires ConversationFits(Acquired, subs, c, h) && Lists(subs, h)
    ensures ConversationFits(Acquired, subs, Hear(c, OpenStatus(h, true)), h)
  {
  }

  lemma ListingTalkFits(m: Machine, s: AgpsSubscriber, h: int)
    requires TalkFits(m, h) && !s.isInactive && m.state != Acquired
    ensures TalkFits(Listing(m, s), h)
  {
    ListingTalk(m, s, h);
    if !Lists(m.subscribers, s.connHandle) {
      ListingFits(m.state, m.subscribers, s, Talk(m.atl, h), h);
    }
  }

  lemma FirstTalkFits(m: Machine, s: AgpsSubscriber, h: int)
    requires TalkFits(m, h) && !s.isInactive && m.subscribers == []
    ensures TalkFits(Request(Listing(m, s)).(state := Pending), h)
  {
    ListingTalk(m, s, h);
    assert ConversationFits(Pending, m.subscribers, Talk(m.atl, h), h);
    ListingFits(Pending, m.subscribers, s, Talk(m.atl, h), h);
  }

  lemma WelcomeTalkFits(m: Machine, s: AgpsSubscriber, h: int)
    requires TalkFits(m, h) && !s.isInactive && m.state == Acquired
    ensures TalkFits(OnSubscribe(m, s), h)
  {
    TalkAppend(m.atl, OpenStatus(s.connHandle, true), h);
    ListingTalk(m.(atl := m.atl + [OpenStatus(s.connHandle, true)]), s, h);
    if !Lists(m.subscribers, s.connHandle) {
      ListingFits(m.state, m.subscribers, s, Talk(m.atl, h), h);
    } else if h == s.connHandle {
      WelcomeAgainFits(m.subscribers, Talk(m.atl, h), h);
    }
  }

  lemma SubscribeKeepsList(m: Machine, s: AgpsSubscriber)
    requires ListFits(m) && !s.isInactive
    ensures ListFits(OnSubscribe(m, s))
  {
    ListingKeepsList(m.(state := Pending), s);
  }

  lemma SubscribeTalk(m: Machine, s: AgpsSubscriber, h: int)
    requires ListFits(m) && TalkFits(m, h) && !s.isInactive
    ensures TalkFits(OnSubscribe(m, s), h)
  {
    match m.state
    case Released => FirstTalkFits(m, s, h);
    case Acquired => WelcomeTalkFits(m, s, h);
    case _ => ListingTalkFits(m, s, h);
  }

  lemma ListingIsQuiet(m: Machine, s: AgpsSubscriber)
    ensures Listing(m, s).nif == m.nif && Listing(m, s).state == m.state
  {
  }

  lemma SubscribeKeepsLink(m: Machine, s: AgpsSubscriber)
    requires LinkOf(m.nif) == ExpectedLink(m.state)
    ensures LinkOf(OnSubscribe(m, s).nif) == ExpectedLink(OnSubscribe(m, s).state)
  {
    match m.state
    case Released =>
      ListingIsQuiet(m, s);
      LinkAppend(m.nif, SentRequest);
    case Acquired => ListingIsQuiet(m.(atl := m.atl + [OpenStatus(s.connHandle, true)]), s);
    case _ => ListingIsQuiet(m, s);
  }

  lemma SubscribeKeeps(m: Machine, s: AgpsSubscriber)
    requires Invariant(m) && !s.isInactive
    ensures Invariant(OnSubscribe(m, s))
  {
    SubscribeKeepsList(m, s);
    SubscribeKeepsLink(m, s);
    forall h
      ensures TalkFits(OnSubscribe(m, s), h)
    {
      assert TalkFits(m, h);
      SubscribeTalk(m, s, h);
    }
  }

  lemma LeaveKeepsList(m: Machine, s: AgpsSubscriber)
    requires ListFits(m) && m.state != Released && s in m.subscribers
    ensures ListFits(Leave(m, s))
  {
    WithoutKeepsOthers(m.subscribers, s.connHandle);
    DeactivatedMembers(m.subscribers, s.connHandle);
    assert forall t :: t in m.subscribers && t.connHandle == s.connHandle ==> t == s;
  }

  lemma LeaveTalk(m: Machine, s: AgpsSubscriber, h: int)
    requires ListFits(m) && TalkFits(m, h) && s in m.subscribers
    ensures TalkFits(Leave(m, s), h)
  {
    OnlyEntry(m.subscribers, s);
    if s.waitForCloseComplete {
      DeactivatedMembers(m.subscribers, s.connHandle);
    } else {
      WithoutKeepsOthers(m.subscribers, s.connHandle);
      TalkAppend(m.atl, CloseStatus(s.connHandle), h);
      assert Lists(Leave(m, s).subscribers, h) <==> Lists(m.subscribers, h) && h != s.connHandle;
    }
  }

  /** A state change that does not concern active entries or pending ones keeps the conversations. */
  lemma TalkAcrossStates(m: Machine, state: AgpsState, h: int)
    requires TalkFits(m, h) && !AnyActive(m.subscribers) && state != Pending
    ensures TalkFits(m.(state := state), h)
  {
  }

  lemma UnsubscribeKeeps(m: Machine, s: AgpsSubscriber)
    requires Invariant(m) && s in m.subscribers
    ensures Invariant(OnUnsubscribe(m, s))
  {
    LeaveKeepsList(m, s);
    LinkAppend(m.nif, SentRelease);
    forall h
      ensures TalkFits(OnUnsubscribe(m, s), h)
    {
      assert TalkFits(m, h);
      UnsubscribeTalk(m, s, h);
    }
  }

  lemma UnsubscribeIsLeave(m: Machine, s: AgpsSubscriber)
    requires m.state != Released
    ensures var left, n := Leave(m, s), OnUnsubscribe(m, s);
      && n.atl == left.atl && n.subscribers == left.subscribers
      && (n.state == m.state || (!AnyActive(left.subscribers) && n.state != Pending))
  {
  }

  lemma UnsubscribeTalk(m: Machine, s: AgpsSubscriber, h: int)
    requires ListFits(m) && TalkFits(m, h) && s in m.subscribers
    ensures TalkFits(OnUnsubscribe(m, s), h)
  {
    LeaveTalk(m, s, h);
    UnsubscribeIsLeave(m, s);
    if OnUnsubscribe(m, s).state != m.state {
      TalkAcrossStates(Leave(m, s), OnUnsubscribe(m, s).state, h);
    }
  }

  lemma GrantedTalk(m: Machine, h: int)
    requires Distinct(m.subscribers) && TalkFits(m, h)
    ensures TalkFits(OnGranted(m), h)
  {
    if m.state == Pending {
      TalkBroadcast(m.atl, m.subscribers, ActiveSubscribers, GrantedEvent, h);
    }
  }

  lemma GrantedKeeps(m: Machine)
    requires Invariant(m)
    ensures Invariant(OnGranted(m))
  {
    LinkAppend(m.nif, GotGranted);
    forall h
      ensures TalkFits(OnGranted(m), h)
    {
      assert TalkFits(m, h);
      GrantedTalk(m, h);
    }
  }

  lemma NobodyIsSpared(subs: seq<AgpsSubscriber>)
    ensures Spared(subs, AllSubscribers) == []
  {
  }

  lemma AllAreAddressed(subs: seq<AgpsSubscriber>, h: int)
    ensures Addresses(subs, AllSubscribers, h) <==> Lists(subs, h)
  {
  }

  /** Any of the closing notices ends the conversation. */
  lemma EndedFits(state: AgpsState, subs: seq<AgpsSubscriber>, c: Conversation, n: AtlNotice, h: int)
    requires ConversationFits(state, subs, c, h)
    requires n.CloseStatus? || n.Dropped? || (n == OpenStatus(h, false) && state == Pending)
    ensures ConversationFits(Released, [], if Lists(subs, h) then Hear(c, n) else c, h)
  {
  }

  /** A closing notice to every entry ends every conversation. */
  lemma TalkClosesAll(m: Machine, e: AgpsEvent, h: int)
    requires Distinct(m.subscribers) && TalkFits(m, h)
    requires e == ReleasedEvent || (e == DeniedEvent && m.state == Pending)
    ensures TalkFits(Broadcast(m, e, true, AllSubscribers).(state := Released), h)
  {
    NobodyIsSpared(m.subscribers);
    TalkBroadcast(m.atl, m.subscribers, AllSubscribers, e, h);
    AllAreAddressed(m.subscribers, h);
    EndedFits(m.state, m.subscribers, Talk(m.atl, h), NoticeOf(e, h)[0], h);
  }

  /** Entries that were waiting for the close are told of it and gone; the others wait. */
  lemma SparedFits(subs: seq<AgpsSubscriber>, c: Conversation, h: int)
    requires Distinct(subs) && ConversationFits(Releasing, subs, c, h)
    ensures var heard := if Addresses(subs, InactiveSubscribers, h) then Hear(c, CloseStatus(h)) else c;
      var spared := Spared(subs, InactiveSubscribers);
      && ConversationFits(Pending, spared, heard, h)
      && (!AnyActive(spared) ==> ConversationFits(Released, spared, heard, h))
  {
    var spared := Spared(subs, InactiveSubscribers);
    SparedAreUnaddressed(subs, InactiveSubscribers);
    if s: AgpsSubscriber :| s in subs && s.connHandle == h {
      OnlyEntry(subs, s);
      assert Addresses(subs, InactiveSubscribers, h) <==> s.isInactive;
      assert Lists(spared, h) <==> !s.isInactive;
      assert !s.isInactive ==> s in spared;
    } else {
      assert !Lists(spared, h) && !Addresses(subs, InactiveSubscribers, h);
    }
  }

  lemma AfterReleaseTalk(m: Machine, h: int)
    requires ListFits(m) && TalkFits(m, h) && m.state == Releasing
    ensures TalkFits(AfterRelease(m), h)
  {
    TalkBroadcast(m.atl, m.subscribers, InactiveSubscribers, ReleasedEvent, h);
    SparedFits(m.subscribers, Talk(m.atl, h), h);
  }

  lemma AfterReleaseKeepsList(m: Machine)
    requires ListFits(m) && m.state == Releasing
    ensures ListFits(AfterRelease(m)) && Attended(AfterRelease(m))
  {
    SparedAreUnaddressed(m.subscribers, InactiveSubscribers);
    MemberOf(Spared(m.subscribers, InactiveSubscribers));
  }

  lemma AfterReleaseKeeps(m: Machine)
    requires Invariant(m) && m.state == Releasing
    ensures Invariant(AfterRelease(m)) && Attended(AfterRelease(m))
  {
    AfterReleaseKeepsList(m);
    LinkAppend(m.nif, SentRequest);
    forall h
      ensures TalkFits(AfterRelease(m), h)
    {
      assert TalkFits(m, h);
      AfterReleaseTalk(m, h);
    }
  }

  /** Hearing the framework changes no conversation by itself. */
  lemma HearingKeeps(m: Machine, t: NifTraffic)
    requires Invariant(m) && Carry(LinkOf(m.nif), t) == LinkOf(m.nif)
    ensures Invariant(m.(nif := m.nif + [t]))
  {
    LinkAppend(m.nif, t);
    forall h
      ensures TalkFits(m.(nif := m.nif + [t]), h)
    {
      assert TalkFits(m, h);
    }
  }

  /** The connection is gone and everybody was told so. */
  lemma ClosingAllKeeps(m: Machine, t: NifTraffic, e: AgpsEvent)
    requires Invariant(m) && Carry(LinkOf(m.nif), t) == Down
    requires e == ReleasedEvent || (e == DeniedEvent && m.state == Pending)
    ensures Invariant(Broadcast(m.(nif := m.nif + [t]), e, true, AllSubscribers).(state := Released))
  {
    LinkAppend(m.nif, t);
    NobodyIsSpared(m.subscribers);
    var n := Broadcast(m.(nif := m.nif + [t]), e, true, AllSubscribers).(state := Released);
    forall h
      ensures TalkFits(n, h)
    {
      assert TalkFits(m, h);
      TalkClosesAll(m, e, h);
    }
  }

  lemma ReleasedKeeps(m: Machine)
    requires Invariant(m)
    ensures Invariant(OnReleased(m))
  {
    if m.state == Acquired {
      ClosingAllKeeps(m, GotReleased, ReleasedEvent);
    } else {
      HearingKeeps(m, GotReleased);
      if m.state == Releasing {
        AfterReleaseKeeps(m.(nif := m.nif + [GotReleased]));
      }
    }
  }

  lemma DeniedKeeps(m: Machine)
    requires Invariant(m)
    ensures Invariant(OnDenied(m))
  {
    if m.state == Pending {
      ClosingAllKeeps(m, GotDenied, DeniedEvent);
    } else {
      HearingKeeps(m, GotDenied);
      if m.state == Releasing {
        AfterReleaseKeeps(m.(nif := m.nif + [GotDenied]));
      }
    }
  }

  lemma DropAllKeeps(m: Machine)
    requires Invariant(m)
    ensures Invariant(OnDropAll(m))
  {
    var n := OnDropAll(m);
    forall h ensures TalkFits(n, h) {
      assert TalkFits(m, h);
      TalkDrops(m.atl, m.subscribers, h);
    }
  }

  lemma ReleaseKeeps(m: Machine, h: int)
    requires Invariant(m)
    ensures Invariant(Step(m, ReleaseATL(h)))
  {
    var s := Find(m.subscribers, h);
    if s.Some? {
      UnsubscribeKeeps(m, s.value);
    }
  }

  lemma StepKeeps(m: Machine, input: Input)
    requires Invariant(m)
    ensures Invariant(Step(m, input))
  {
    match input
    case RequestATL(h, wait) => SubscribeKeeps(m, AgpsSubscriber(h, wait, false));
    case ReleaseATL(h) => ReleaseKeeps(m, h);
    case OpenSuccess => GrantedKeeps(m);
    case OpenFailed => DeniedKeeps(m);
    case Closed => ReleasedKeeps(m);
    case ModemSSR => DropAllKeeps(m);
  }

  /** Every reachable state satisfies the invariant, modem restarts included. */
  lemma {:induction false} RunIsSafe(inputs: seq<Input>)
    ensures Invariant(Run(inputs))
    decreases |inputs|
  {
    if inputs != [] {
      RunIsSafe(inputs[..|inputs| - 1]);
      StepKeeps(Run(inputs[..|inputs| - 1]), inputs[|inputs| - 1]);
    }
  }

  // ----- unless the modem restarts at the wrong time, nobody waits on an unattended connection

  lemma SubscribeAttends(m: Machine, s: AgpsSubscriber)
    requires Invariant(m) && Attended(m) && !s.isInactive
    ensures Attended(OnSubscribe(m, s))
  {
  }

  lemma UnsubscribeAttends(m: Machine, s: AgpsSubscriber)
    requires Invariant(m) && Attended(m) && s in m.subscribers
    ensures Attended(OnUnsubscribe(m, s))
  {
    if m.state == Releasing {
      LeaveKeepsInactive(m, s);
    } else if m.state != Released {
      MemberOf(Leave(m, s).subscribers);
    }
  }

  lemma LeaveKeepsInactive(m: Machine, s: AgpsSubscriber)
    requires ListFits(m) && s in m.subscribers && AnyInactive(m.subscribers)
    ensures Leave(m, s).subscribers == [] || AnyInactive(Leave(m, s).subscribers)
  {
    var t :| t in m.subscribers && t.isInactive;
    OnlyEntry(m.subscribers, s);
    if s.waitForCloseComplete {
      DeactivatedMembers(m.subscribers, s.connHandle);
      assert s.(isInactive := true) in Leave(m, s).subscribers;
    } else {
      WithoutKeepsOthers(m.subscribers, s.connHandle);
      assert t.connHandle != s.connHandle ==> t in Leave(m, s).subscribers;
    }
  }

  lemma StepAttends(m: Machine, input: Input)
    requires Invariant(m) && Attended(m) && input != ModemSSR
    ensures Attended(Step(m, input))
  {
    match input
    case RequestATL(h, wait) => SubscribeAttends(m, AgpsSubscriber(h, wait, false));
    case ReleaseATL(h) =>
      var s := Find(m.subscribers, h);
      if s.Some? { UnsubscribeAttends(m, s.value); }
    case OpenSuccess =>
    case OpenFailed =>
      if m.state == Releasing {
        AttendAfterRelease(m, GotDenied);
      }
    case Closed =>
      if m.state == Releasing {
        AttendAfterRelease(m, GotReleased);
      }
  }

  lemma AttendAfterRelease(m: Machine, t: NifTraffic)
    requires Invariant(m) && m.state == Releasing && (t == GotDenied || t == GotReleased)
    ensures Attended(AfterRelease(m.(nif := m.nif + [t])))
  {
  }

  lemma RestartAttends(m: Machine)
    ensures Attended(OnDropAll(m)) <==> m.state == Released
  {
  }

  ghost predicate AlwaysAttended(inputs: seq<Input>)
    decreases |inputs|
  {
    Attended(Run(inputs)) && (inputs == [] || AlwaysAttended(inputs[..|inputs| - 1]))
  }

  predicate RestartsFindIdle(inputs: seq<Input>) {
    inputs == [] ||
    (var front := inputs[..|inputs| - 1];
     RestartsFindIdle(front) && (inputs[|inputs| - 1] == ModemSSR ==> Run(front).state == Released))
  }

  /** Nobody waits on an unattended connection all through a run exactly if every modem
      restart in it found the machine idle. */
  lemma {:induction false} RunIsAttended(inputs: seq<Input>)
    ensures AlwaysAttended(inputs) <==> RestartsFindIdle(inputs)
    decreases |inputs|
  {
    if inputs != [] {
      var front, last := inputs[..|inputs| - 1], inputs[|inputs| - 1];
      RunIsAttended(front);
      if AlwaysAttended(front) {
        RunIsSafe(front);
        if last == ModemSSR {
          RestartAttends(Run(front));
        } else {
          StepAttends(Run(front), last);
        }
      }
    }
  }

  // ----- what the invariant means to the modem and to the framework

  /** No handle ever hears a notice out of turn. In particular open-failure never
      follows open-success for one list entry, and a closing notice is given only to
      a listed handle. After any run the handle is listed exactly if its conversation
      is under way, and an active entry was told open-success exactly if the
      connection is up. */
  lemma ConversationsAreWellFormed(inputs: seq<Input>, h: int)
    ensures var m := Run(inputs); var c := Talk(m.atl, h);
      && c != Broken && c != Welcomed
      && (c == Absent <==> !Lists(m.subscribers, h))
      && (m.state == Pending ==> c != Open)
      && (forall s :: s in m.subscribers && s.connHandle == h && !s.isInactive ==> (c == Open <==> m.state == Acquired))
  {
    RunIsSafe(inputs);
    assert TalkFits(Run(inputs), h);
  }

  /** The framework is asked for a connection only when none is outstanding and to
      release one only when one is; a connection is outstanding exactly in states
      Pending and Acquired. */
  lemma FrameworkTrafficAlternates(inputs: seq<Input>)
    ensures var m := Run(inputs); var l := LinkOf(m.nif);
      && l != Misused
      && (l == Asked || l == Up <==> m.state == Pending || m.state == Acquired)
      && (l == Up <==> m.state == Acquired)
  {
    RunIsSafe(inputs);
  }

  // ----- when requests are served, and that releases are final

  /** The handle is listed and waits for its close. */
  predicate AwaitsClose(subs: seq<AgpsSubscriber>, h: int) { Lists(subs, h) && !Serves(subs, h) }

  /** After any run a request is served exactly if its handle does not still wait for the
      close of an earlier one; then it is dropped, though in Acquired the handle is told
      open-success all the same. Nobody else is touched, and the machine is not idle. */
  lemma RequestIsServed(inputs: seq<Input>, h: int, wait: bool)
    ensures var m := Run(inputs); var n := Step(m, RequestATL(h, wait));
      && (Serves(n.subscribers, h) <==> !AwaitsClose(m.subscribers, h))
      && (AwaitsClose(m.subscribers, h) ==> n.subscribers == m.subscribers && n.state == m.state)
      && (!Lists(m.subscribers, h) ==> AgpsSubscriber(h, wait, false) in n.subscribers)
      && (forall s: AgpsSubscriber :: s.connHandle != h ==> (s in n.subscribers <==> s in m.subscribers))
      && n.state != Released
      && (m.state == Acquired ==> Talk(n.atl, h) == Open)
  {
    RunIsSafe(inputs);
    var m, s := Run(inputs), AgpsSubscriber(h, wait, false);
    ListingMembers(m, s);
    assert Step(m, RequestATL(h, wait)).subscribers == Listing(m, s).subscribers;
    if m.state == Acquired {
      assert TalkFits(m, h);
      WelcomeIsHeard(m, s);
    }
  }

  lemma RunOneMore(inputs: seq<Input>, input: Input)
    ensures Run(inputs + [input]) == Step(Run(inputs), input)
  {
    assert (inputs + [input])[..|inputs|] == inputs;
  }

  /** The machine after h, its only subscriber, asked; and after it was released. */
  function OneAsked(h: int): Machine {
    Machine(Pending, [AgpsSubscriber(h, true, false)], [Listed(h)], [SentRequest])
  }

  function OneClosing(h: int): Machine {
    Machine(Releasing, [AgpsSubscriber(h, true, true)], [Listed(h)], [SentRequest, SentRelease])
  }

  lemma FirstRequest(h: int)
    ensures Step(INITIAL, RequestATL(h, true)) == OneAsked(h)
  {
  }

  lemma OnlyRelease(h: int)
    ensures Step(OneAsked(h), ReleaseATL(h)) == OneClosing(h)
  {
    var s := AgpsSubscriber(h, true, false);
    assert Find([s], h).Some? && Find([s], h).value == s;
    assert Deactivated([s], h) == [s.(isInactive := true)];
  }

  lemma RequestIsDropped(h: int, wait: bool)
    ensures Step(OneClosing(h), RequestATL(h, wait)) == OneClosing(h)
  {
    assert AgpsSubscriber(h, true, true) in OneClosing(h).subscribers;
  }

  lemma OnlyClose(h: int)
    ensures Step(OneClosing(h), Closed) ==
      Machine(Released, [], [Listed(h), CloseStatus(h)], [SentRequest, SentRelease, GotReleased])
  {
    var subs := [AgpsSubscriber(h, true, true)];
    assert subs[..0] == [];
    assert Spared(subs, InactiveSubscribers) == [];
    assert Notices(subs, InactiveSubscribers, ReleasedEvent) == [CloseStatus(h)];
  }

  /** A run in which a request is dropped: its handle is told closed, and the machine ends
      up idle without having asked for a connection again. */
  lemma RequestWhileClosingIsDropped(h: int, wait: bool)
    ensures var dropped := [RequestATL(h, true), ReleaseATL(h)] + [RequestATL(h, wait)];
      && Run(dropped) == OneClosing(h)
      && Run(dropped + [Closed]) ==
           Machine(Released, [], [Listed(h), CloseStatus(h)], [SentRequest, SentRelease, GotReleased])
  {
    var first, released := [RequestATL(h, true)], [RequestATL(h, true), ReleaseATL(h)];
    assert [] + first == first && first + [ReleaseATL(h)] == released;
    RunOneMore([], RequestATL(h, true));
    FirstRequest(h);
    RunOneMore(first, ReleaseATL(h));
    OnlyRelease(h);
    RunOneMore(released, RequestATL(h, wait));
    RequestIsDropped(h, wait);
    RunOneMore(released + [RequestATL(h, wait)], Closed);
    OnlyClose(h);
  }

  lemma WelcomeIsHeard(m: Machine, s: AgpsSubscriber)
    requires TalkFits(m, s.connHandle) && m.state == Acquired
    ensures Talk(OnSubscribe(m, s).atl, s.connHandle) == Open
  {
    TalkAppend(m.atl, OpenStatus(s.connHandle, true), s.connHandle);
    ListingTalk(m.(atl := m.atl + [OpenStatus(s.connHandle, true)]), s, s.connHandle);
  }

  lemma ListingMembers(m: Machine, s: AgpsSubscriber)
    requires !s.isInactive
    ensures var subs := Listing(m, s).subscribers;
      && (Serves(subs, s.connHandle) <==> !AwaitsClose(m.subscribers, s.connHandle))
      && (forall t: AgpsSubscriber :: t.connHandle != s.connHandle ==> (t in subs <==> t in m.subscribers))
      && (!Lists(m.subscribers, s.connHandle) ==> s in subs)
  {
    assert !Lists(m.subscribers, s.connHandle) ==> s in Listing(m, s).subscribers;
  }

  /** A released handle is gone, or stays only as an inactive entry that waits for the
      connection to close, and then no notice is given at all; nobody else is touched. */
  lemma ReleaseIsFinal(m: Machine, h: int)
    requires Invariant(m)
    ensures var n := Step(m, ReleaseATL(h));
      && (forall s :: s in n.subscribers && s.connHandle == h ==> s.isInactive && s.waitForCloseComplete)
      && (forall s: AgpsSubscriber :: s.connHandle != h ==> (s in n.subscribers <==> s in m.subscribers))
      && (Lists(n.subscribers, h) ==> n.atl == m.atl)
  {
    var s := Find(m.subscribers, h);
    if s.Some? {
      LeaveIsFinal(m, s.value);
      assert m.state != Released;
      assert Step(m, ReleaseATL(h)).subscribers == Leave(m, s.value).subscribers;
      assert Step(m, ReleaseATL(h)).atl == Leave(m, s.value).atl;
    }
  }

  lemma LeaveIsFinal(m: Machine, s: AgpsSubscriber)
    requires ListFits(m) && s in m.subscribers
    ensures var h, left := s.connHandle, Leave(m, s);
      && (forall t :: t in left.subscribers && t.connHandle == h ==> t.isInactive && t.waitForCloseComplete)
      && (forall t: AgpsSubscriber :: t.connHandle != h ==> (t in left.subscribers <==> t in m.subscribers))
      && (Lists(left.subscribers, h) ==> left.atl == m.atl)
  {
    WithoutKeepsOthers(m.subscribers, s.connHandle);
    DeactivatedMembers(m.subscribers, s.connHandle);
    assert forall t :: t in m.subscribers && t.connHandle == s.connHandle ==> t == s;
  }

  function ReleaseEach(m: Machine, handles: seq<int>): Machine {
    if handles == [] then m else Step(ReleaseEach(m, handles[..|handles| - 1]), ReleaseATL(handles[|handles| - 1]))
  }

  /** Restarts included, a connection that is asked for or up has an active subscriber or
      none at all. */
  ghost predicate Manned(m: Machine) {
    (m.state == Pending || m.state == Acquired) && m.subscribers != [] ==> AnyActive(m.subscribers)
  }

  lemma SubscribeMans(m: Machine, s: AgpsSubscriber)
    requires Invariant(m) && Manned(m) && !s.isInactive
    ensures Manned(OnSubscribe(m, s))
  {
    assert !Lists(m.subscribers, s.connHandle) ==> s in Listing(m, s).subscribers;
    if m.subscribers == [] {
      assert OnSubscribe(m, s).subscribers == Listing(m, s).subscribers;
    } else if m.state == Pending || m.state == Acquired {
      var t :| t in m.subscribers && !t.isInactive;
      assert t in OnSubscribe(m, s).subscribers;
    }
  }

  lemma StepMans(m: Machine, input: Input)
    requires Invariant(m) && Manned(m)
    ensures Manned(Step(m, input))
  {
    match input
    case RequestATL(h, wait) => SubscribeMans(m, AgpsSubscriber(h, wait, false));
    case ReleaseATL(_) =>
    case OpenSuccess =>
    case OpenFailed =>
    case Closed =>
    case ModemSSR =>
  }

  lemma {:induction false} RunIsManned(inputs: seq<Input>)
    ensures Manned(Run(inputs))
    decreases |inputs|
  {
    if inputs != [] {
      RunIsManned(inputs[..|inputs| - 1]);
      RunIsSafe(inputs[..|inputs| - 1]);
      StepMans(Run(inputs[..|inputs| - 1]), inputs[|inputs| - 1]);
    }
  }

  /** The machine waits for a connection on behalf of nobody. */
  predicate Stranded(m: Machine) { m.state == Pending && m.subscribers == [] }

  lemma ReleaseStrandsNobody(m: Machine, h: int)
    ensures Stranded(Step(m, ReleaseATL(h))) <==> Stranded(m)
  {
  }

  lemma {:induction false} ReleaseEachDeactivates(m: Machine, handles: seq<int>)
    requires Invariant(m) && Manned(m)
    ensures Invariant(ReleaseEach(m, handles)) && Manned(ReleaseEach(m, handles))
    ensures Stranded(ReleaseEach(m, handles)) <==> Stranded(m)
    ensures forall s :: s in ReleaseEach(m, handles).subscribers && !s.isInactive ==>
      s in m.subscribers && s.connHandle !in handles
    decreases |handles|
  {
    if handles != [] {
      var front, h := handles[..|handles| - 1], handles[|handles| - 1];
      ReleaseEachDeactivates(m, front);
      StepKeeps(ReleaseEach(m, front), ReleaseATL(h));
      StepMans(ReleaseEach(m, front), ReleaseATL(h));
      ReleaseStrandsNobody(ReleaseEach(m, front), h);
      ReleaseIsFinal(ReleaseEach(m, front), h);
      assert handles == front + [h];
    }
  }

  lemma ClosingDrains(m: Machine)
    requires ListFits(m) && Manned(m) && !AnyActive(m.subscribers)
    ensures Step(m, Closed).subscribers == []
    ensures Step(m, Closed).state == if Stranded(m) then Pending else Released
  {
    var spared := Spared(m.subscribers, InactiveSubscribers);
    SparedAreUnaddressed(m.subscribers, InactiveSubscribers);
    MemberOf(spared);
  }

  /** Nothing leaks: once every listed handle has been released and the framework has
      reported the connection closed, the list is empty and every conversation is over, and
      the machine is idle and the link down, exactly if it was not waiting for a connection
      on behalf of nobody. */
  lemma ReleasingEverybodyDrains(inputs: seq<Input>, handles: seq<int>, h: int)
    requires forall s :: s in Run(inputs).subscribers ==> s.connHandle in handles
    ensures var m := Step(ReleaseEach(Run(inputs), handles), Closed);
      && m.subscribers == [] && Talk(m.atl, h) == Absent
      && (m.state == Released <==> !Stranded(Run(inputs)))
      && (LinkOf(m.nif) == Down <==> !Stranded(Run(inputs)))
  {
    RunIsSafe(inputs);
    RunIsManned(inputs);
    var r := ReleaseEach(Run(inputs), handles);
    ReleaseEachDeactivates(Run(inputs), handles);
    var m := Step(r, Closed);
    StepKeeps(r, Closed);
    assert !AnyActive(r.subscribers);
    ClosingDrains(r);
    assert TalkFits(m, h);
  }

  /** Only a modem restart strands the machine. */
  lemma NobodyIsStranded(inputs: seq<Input>)
    requires RestartsFindIdle(inputs)
    ensures !Stranded(Run(inputs))
  {
    RunIsAttended(inputs);
  }

  // ----- conservation of notices

  function Listings(log: seq<AtlNotice>, h: int): nat {
    if log == [] then 0 else Listings(log[..|log| - 1], h) + (if log[|log| - 1] == Listed(h) then 1 else 0)
  }

  function Endings(log: seq<AtlNotice>, h: int): nat {
    if log == [] then 0
    else
      Endings(log[..|log| - 1], h)
      + (if log[|log| - 1] == CloseStatus(h) || log[|log| - 1] == OpenStatus(h, false) then 1 else 0)
  }

  function Losses(log: seq<AtlNotice>, h: int): nat {
    if log == [] then 0 else Losses(log[..|log| - 1], h) + (if log[|log| - 1] == Dropped(h) then 1 else 0)
  }

  lemma {:induction false} TalkConserves(log: seq<AtlNotice>, h: int)
    requires Talk(log, h) != Broken
    ensures Listings(log, h) ==
      Endings(log, h) + Losses(log, h) + (if Talk(log, h) == Waiting || Talk(log, h) == Open then 1 else 0)
    decreases |log|
  {
    if log != [] {
      TalkConserves(log[..|log| - 1], h);
    }
  }

  /** Every time a handle enters the list it gets one closing notice (closed or
      open-failure) or is lost to a modem restart, unless it is still listed. */
  lemma NoticesAreConserved(inputs: seq<Input>, h: int)
    ensures var m := Run(inputs);
      Listings(m.atl, h) == Endings(m.atl, h) + Losses(m.atl, h) + (if Lists(m.subscribers, h) then 1 else 0)
  {
    ConversationsAreWellFormed(inputs, h);
    TalkConserves(Run(inputs).atl, h);
  }

  lemma {:induction false} LossesAppend(log: seq<AtlNotice>, more: seq<AtlNotice>, h: int)
    requires forall n :: n in more ==> !n.Dropped?
    ensures Losses(log + more, h) == Losses(log, h)
    decreases |more|
  {
    if more == [] {
      assert log + more == log;
    } else {
      LossesAppend(log, more[..|more| - 1], h);
      assert (log + more)[..|log + more| - 1] == log + more[..|more| - 1];
      assert more[|more| - 1] in more;
    }
  }

  lemma {:induction false} NoticesDropNobody(subs: seq<AgpsSubscriber>, a: Audience, e: AgpsEvent)
    ensures forall n :: n in Notices(subs, a, e) ==> !n.Dropped?
    decreases |subs|
  {
    if subs != [] {
      NoticesDropNobody(subs[..|subs| - 1], a, e);
    }
  }

  /** Every step but a modem restart only appends notices, none of them a loss. */
  lemma StepLosesNobody(m: Machine, input: Input, h: int)
    requires input != ModemSSR
    ensures Losses(Step(m, input).atl, h) == Losses(m.atl, h)
  {
    var n := Step(m, input);
    match input
    case RequestATL(_, _) => FewMoreNotices(m, n, h);
    case ReleaseATL(_) => FewMoreNotices(m, n, h);
    case _ =>
      NoticesDropNobody(m.subscribers, AllSubscribers, DeniedEvent);
      NoticesDropNobody(m.subscribers, AllSubscribers, ReleasedEvent);
      NoticesDropNobody(m.subscribers, InactiveSubscribers, ReleasedEvent);
      NoticesDropNobody(m.subscribers, ActiveSubscribers, GrantedEvent);
      FewMoreNotices(m, n, h);
  }

  lemma FewMoreNotices(m: Machine, n: Machine, h: int)
    requires m.atl <= n.atl && forall k :: |m.atl| <= k < |n.atl| ==> !n.atl[k].Dropped?
    ensures Losses(n.atl, h) == Losses(m.atl, h)
  {
    LossesAppend(m.atl, n.atl[|m.atl|..], h);
    assert n.atl == m.atl + n.atl[|m.atl|..];
  }

  /** Without a modem restart every list entry is closed by exactly one notice. */
  lemma {:induction false} NoticesAreConservedWithoutRestart(inputs: seq<Input>, h: int)
    requires ModemSSR !in inputs
    ensures var m := Run(inputs);
      Listings(m.atl, h) == Endings(m.atl, h) + (if Lists(m.subscribers, h) then 1 else 0)
  {
    NobodyIsLost(inputs, h);
    NoticesAreConserved(inputs, h);
  }

  lemma {:induction false} NobodyIsLost(inputs: seq<Input>, h: int)
    requires ModemSSR !in inputs
    ensures Losses(Run(inputs).atl, h) == 0
    decreases |inputs|
  {
    if inputs != [] {
      NobodyIsLost(inputs[..|inputs| - 1], h);
      StepLosesNobody(Run(inputs[..|inputs| - 1]), inputs[|inputs| - 1], h);
    }
  }
}
