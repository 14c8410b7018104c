/** What the emergency machine's notices and its traffic with the client of the data service
    keep to, over every run, and where exactly they fail. */
module DsSafety {
  import opened AgpsProtocol
  import opened AgpsSafety
  import opened DsMachine

  /** What it has in common with the base machine. */
  function AsMachine(m: Ds): Machine { Machine(m.state, m.subscribers, m.atl, m.nif) }

  // ----- conversations

  ghost predicate DsTalks(m: Ds) { forall h :: TalkFits(AsMachine(m), h) }

  lemma {:induction false} PlainNotices(subs: seq<AgpsSubscriber>, e: AgpsEvent, delete: bool, a: Audience)
    requires e != DeniedEvent
    ensures DsNotices(subs, e, delete, a) == Notices(subs, a, e)
    decreases |subs|
  {
    if subs != [] {
      PlainNotices(subs[..|subs| - 1], e, delete, a);
    }
  }

  lemma {:induction false} DeniedAreDropped(subs: seq<AgpsSubscriber>)
    ensures DsNotices(subs, DeniedEvent, true, AllSubscribers) == Drops(subs)
    decreases |subs|
  {
    if subs != [] {
      DeniedAreDropped(subs[..|subs| - 1]);
    }
  }

  /** Where everybody listed is active, everybody listed only waits. */
  lemma IdleWaits(subs: seq<AgpsSubscriber>, c: Conversation, h: int)
    requires ConversationFits(Released, subs, c, h) && forall s :: s in subs ==> !s.isInactive
    ensures ConversationFits(Pending, subs, c, h)
  {
    if s: AgpsSubscriber :| s in subs && s.connHandle == h {
      assert !s.isInactive;
    }
  }

  lemma IdleListingTalk(m: Ds, s: AgpsSubscriber, h: int)
    requires DsFits(m) && TalkFits(AsMachine(m), h) && !s.isInactive && m.state == Released
    ensures TalkFits(AsMachine(DsListing(m, s)), h)
    ensures forall t :: t in DsListing(m, s).subscribers ==> !t.isInactive
  {
    DsListingKeeps(m, s);
    ListingTalkFits(AsMachine(m), s, h);
    assert AsMachine(DsListing(m, s)) == Listing(AsMachine(m), s);
  }

  lemma IdleRequestLists(m: Ds, s: AgpsSubscriber, attempt: Attempt)
    requires m.state == Released
    ensures var n, listed := DsSubscribe(m, s, attempt), DsListing(m, s);
      n.subscribers == listed.subscribers && n.atl == listed.atl && (n.state == Released || n.state == Pending)
  {
    AttemptIsSilent(DsListing(m, s), attempt);
  }

  lemma IdleRequestTalk(m: Ds, s: AgpsSubscriber, attempt: Attempt, h: int)
    requires DsFits(m) && TalkFits(AsMachine(m), h) && !s.isInactive && m.state == Released
    ensures TalkFits(AsMachine(DsSubscribe(m, s, attempt)), h)
  {
    var listed := DsListing(m, s);
    IdleListingTalk(m, s, h);
    IdleWaits(listed.subscribers, Talk(listed.atl, h), h);
    IdleRequestLists(m, s, attempt);
  }

  lemma AttemptIsSilent(m: Ds, attempt: Attempt)
    ensures var n := Attempted(m, attempt);
      n.state == m.state && n.subscribers == m.subscribers && n.atl == m.atl
  {
  }

  lemma RequestTalk(m: Ds, s: AgpsSubscriber, attempt: Attempt, h: int)
    requires DsFits(m) && TalkFits(AsMachine(m), h) && !s.isInactive
    ensures TalkFits(AsMachine(DsSubscribe(m, s, attempt)), h)
  {
    match m.state
    case Released => IdleRequestTalk(m, s, attempt, h);
    case Acquired => WelcomeTalkFits(AsMachine(m), s, h);
    case _ => ListingTalkFits(AsMachine(m), s, h);
  }

  lemma ReleaseTalk(m: Ds, s: AgpsSubscriber, canStop: bool, h: int)
    requires DsFits(m) && TalkFits(AsMachine(m), h) && s in m.subscribers && m.state != Released
    ensures TalkFits(AsMachine(DsUnsubscribe(m, s, canStop)), h)
  {
    UnsubscribeTalk(AsMachine(m), s, h);
    var n, base := DsUnsubscribe(m, s, canStop), OnUnsubscribe(AsMachine(m), s);
    assert n.state == base.state && n.subscribers == base.subscribers && n.atl == base.atl;
  }

  lemma DsGrantedTalk(m: Ds, h: int)
    requires DsFits(m) && TalkFits(AsMachine(m), h)
    ensures TalkFits(AsMachine(DsGranted(m)), h)
  {
    GrantedTalk(AsMachine(m), h);
    PlainNotices(m.subscribers, GrantedEvent, false, ActiveSubscribers);
    var n, base := DsGranted(m), OnGranted(AsMachine(m));
    assert n.state == base.state && n.subscribers == base.subscribers && n.atl == base.atl;
  }

  lemma DsAfterReleaseTalk(m: Ds, attempt: Attempt, h: int)
    requires DsFits(m) && TalkFits(AsMachine(m), h) && m.state == Releasing
    ensures TalkFits(AsMachine(DsAfterRelease(m, attempt)), h)
  {
    AfterReleaseTalk(AsMachine(m), h);
    PlainNotices(m.subscribers, ReleasedEvent, true, InactiveSubscribers);
    var told := DsBroadcast(m, ReleasedEvent, true, InactiveSubscribers);
    AttemptIsSilent(told.(state := Pending), attempt);
    var n, base := DsAfterRelease(m, attempt), AfterRelease(AsMachine(m));
    assert n.state == base.state && n.subscribers == base.subscribers && n.atl == base.atl;
  }

  lemma DsDeniedTalk(m: Ds, attempt: Attempt, h: int)
    requires DsFits(m) && TalkFits(AsMachine(m), h)
    ensures TalkFits(AsMachine(DsDenied(m, attempt)), h)
  {
    var heard := m.(nif := m.nif + [GotDenied]);
    if m.state == Pending {
      NobodyIsSpared(m.subscribers);
      DeniedAreDropped(m.subscribers);
      TalkDrops(m.atl, m.subscribers, h);
      EndedFits(m.state, m.subscribers, Talk(m.atl, h), Dropped(h), h);
    } else if m.state == Releasing {
      DsAfterReleaseTalk(heard, attempt, h);
    }
  }

  lemma DsClosedDownTalk(m: Ds, attempt: Attempt, h: int)
    requires DsFits(m) && TalkFits(AsMachine(m), h)
    ensures TalkFits(AsMachine(DsClosedDown(m, attempt)), h)
  {
    var heard := m.(nif := m.nif + [GotReleased]);
    if m.state == Acquired {
      TalkClosesAll(AsMachine(m), ReleasedEvent, h);
      PlainNotices(m.subscribers, ReleasedEvent, true, AllSubscribers);
      var n, base := DsClosedDown(m, attempt), Broadcast(AsMachine(m), ReleasedEvent, true, AllSubscribers);
      assert n.subscribers == base.subscribers && n.atl == base.atl;
    } else if m.state == Releasing {
      DsAfterReleaseTalk(heard, attempt, h);
    }
  }

  lemma DsDropAllTalk(m: Ds, client: bool, h: int)
    requires DsFits(m) && TalkFits(AsMachine(m), h)
    ensures TalkFits(AsMachine(DsDropAll(m, client)), h)
  {
    TalkDrops(m.atl, m.subscribers, h);
    EndedFits(m.state, m.subscribers, Talk(m.atl, h), Dropped(h), h);
  }

  /** The release of a listed handle finds the machine in Released. */
  predicate ReleasesIdle(m: Ds, input: DsInput) {
    input.DsRelease? && m.state == Released && Lists(m.subscribers, input.handle)
  }

  lemma StepTalk(m: Ds, input: DsInput, h: int)
    requires DsFits(m) && TalkFits(AsMachine(m), h) && !ReleasesIdle(m, input)
    ensures TalkFits(AsMachine(DsStep(m, input)), h)
  {
    match input
    case DsRequest(k, attempt) => RequestTalk(m, AgpsSubscriber(k, true, false), attempt, h);
    case DsRelease(k, canStop) =>
      var s := Find(m.subscribers, k);
      if s.Some? { ReleaseTalk(m, s.value, canStop, h); }
    case DsOpened => DsGrantedTalk(m, h);
    case DsFailed(attempt) => DsDeniedTalk(m, attempt, h);
    case DsClosed(attempt) =>
      DsDeniedTalk(m, attempt, h);
      DsClosedDownTalk(m, attempt, h);
    case DsRestart(client) => DsDropAllTalk(m, client, h);
  }

  /** A handle that was told closed while it stays listed. */
  lemma IdleReleaseBreaksTalk(m: Ds, h: int, canStop: bool)
    requires DsFits(m) && TalkFits(AsMachine(m), h) && m.state == Released && Lists(m.subscribers, h)
    ensures !TalkFits(AsMachine(DsStep(m, DsRelease(h, canStop))), h)
  {
    TalkAppend(m.atl, CloseStatus(h), h);
  }

  ghost predicate AlwaysTalks(inputs: seq<DsInput>)
    decreases |inputs|
  {
    DsTalks(DsRun(inputs)) && (inputs == [] || AlwaysTalks(inputs[..|inputs| - 1]))
  }

  predicate NeverReleasesIdle(inputs: seq<DsInput>) {
    inputs == [] ||
    (NeverReleasesIdle(inputs[..|inputs| - 1]) && !ReleasesIdle(DsRun(inputs[..|inputs| - 1]), inputs[|inputs| - 1]))
  }

  lemma TalksStep(m: Ds, input: DsInput)
    requires DsFits(m) && DsTalks(m)
    ensures DsTalks(DsStep(m, input)) <==> !ReleasesIdle(m, input)
  {
    if ReleasesIdle(m, input) {
      assert TalkFits(AsMachine(m), input.handle);
      IdleReleaseBreaksTalk(m, input.handle, input.canStop);
    } else {
      forall h
        ensures TalkFits(AsMachine(DsStep(m, input)), h)
      {
        assert TalkFits(AsMachine(m), h);
        StepTalk(m, input, h);
      }
    }
  }

  /** All through a run every handle hears only what fits the state and its entry, exactly
      if no release of a listed handle in it found the machine in Released. */
  lemma {:induction false} DsConversationsAreWellFormed(inputs: seq<DsInput>)
    ensures AlwaysTalks(inputs) <==> NeverReleasesIdle(inputs)
    decreases |inputs|
  {
    if inputs == [] {
      assert DsTalks(DsRun(inputs));
    } else {
      var front := inputs[..|inputs| - 1];
      DsConversationsAreWellFormed(front);
      if AlwaysTalks(front) {
        DsRunIsSafe(front);
        TalksStep(DsRun(front), inputs[|inputs| - 1]);
      }
    }
  }

  // ----- conservation of notices, in every run

  /** What the step tells the modem. */
  function Told(m: Ds, input: DsInput): seq<AtlNotice> { DsStep(m.(atl := []), input).atl }

  /** Apart from the notices, n is bare, and bare has the notices that come after log. */
  predicate Appends(log: seq<AtlNotice>, n: Ds, bare: Ds) {
    n.atl == log + bare.atl && n.subscribers == bare.subscribers
  }

  lemma SubscribeOnlyAppends(m: Ds, s: AgpsSubscriber, attempt: Attempt)
    ensures Appends(m.atl, DsSubscribe(m, s, attempt), DsSubscribe(m.(atl := []), s, attempt))
  {
    AttemptIsSilent(DsListing(m, s), attempt);
    AttemptIsSilent(DsListing(m.(atl := []), s), attempt);
  }

  lemma LeaveOnlyAppends(m: Ds, s: AgpsSubscriber)
    ensures Appends(m.atl, DsLeave(m, s), DsLeave(m.(atl := []), s))
  {
  }

  lemma UnsubscribeOnlyAppends(m: Ds, s: AgpsSubscriber, canStop: bool)
    ensures Appends(m.atl, DsUnsubscribe(m, s, canStop), DsUnsubscribe(m.(atl := []), s, canStop))
  {
    LeaveOnlyAppends(m, s);
  }

  lemma GrantedOnlyAppends(m: Ds)
    ensures Appends(m.atl, DsGranted(m), DsGranted(m.(atl := [])))
  {
  }

  lemma AfterReleaseOnlyAppends(m: Ds, attempt: Attempt)
    ensures Appends(m.atl, DsAfterRelease(m, attempt), DsAfterRelease(m.(atl := []), attempt))
  {
  }

  lemma DeniedOnlyAppends(m: Ds, attempt: Attempt)
    ensures Appends(m.atl, DsDenied(m, attempt), DsDenied(m.(atl := []), attempt))
  {
    AfterReleaseOnlyAppends(m.(nif := m.nif + [GotDenied]), attempt);
  }

  lemma ClosedDownOnlyAppends(m: Ds, attempt: Attempt)
    ensures Appends(m.atl, DsClosedDown(m, attempt), DsClosedDown(m.(atl := []), attempt))
  {
    AfterReleaseOnlyAppends(m.(nif := m.nif + [GotReleased]), attempt);
  }

  lemma StepOnlyAppends(m: Ds, input: DsInput)
    ensures Appends(m.atl, DsStep(m, input), DsStep(m.(atl := []), input))
  {
    match input
    case DsRequest(h, attempt) => SubscribeOnlyAppends(m, AgpsSubscriber(h, true, false), attempt);
    case DsRelease(h, canStop) =>
      var s := Find(m.subscribers, h);
      if s.Some? { UnsubscribeOnlyAppends(m, s.value, canStop); }
    case DsOpened => GrantedOnlyAppends(m);
    case DsFailed(attempt) => DeniedOnlyAppends(m, attempt);
    case DsClosed(attempt) =>
      DeniedOnlyAppends(m, attempt);
      ClosedDownOnlyAppends(m, attempt);
    case DsRestart(_) =>
  }

  /** How many conversations with h a log leaves open. */
  function Balance(log: seq<AtlNotice>, h: int): int { Listings(log, h) - Endings(log, h) - Losses(log, h) }

  lemma {:induction false} BalanceAppend(log: seq<AtlNotice>, more: seq<AtlNotice>, h: int)
    ensures Balance(log + more, h) == Balance(log, h) + Balance(more, h)
    decreases |more|
  {
    if more == [] {
      assert log + more == log;
    } else {
      BalanceAppend(log, more[..|more| - 1], h);
      assert (log + more)[..|log + more| - 1] == log + more[..|more| - 1];
    }
  }

  /** A log in which h was told what fits the state and its entry. */
  function FittingLog(m: Ds, h: int): seq<AtlNotice> {
    if !Lists(m.subscribers, h) then []
    else if m.state == Acquired then [Listed(h)] + [OpenStatus(h, true)]
    else [Listed(h)]
  }

  lemma LogFits(m: Ds, h: int)
    ensures TalkFits(AsMachine(m.(atl := FittingLog(m, h))), h)
  {
    TalkAppend([], Listed(h), h);
    TalkAppend([Listed(h)], OpenStatus(h, true), h);
    assert [] + [Listed(h)] == [Listed(h)];
  }

  lemma FittingTalkBalances(m: Ds, h: int)
    requires TalkFits(AsMachine(m), h)
    ensures Balance(m.atl, h) == if Lists(m.subscribers, h) then 1 else 0
  {
    TalkConserves(m.atl, h);
  }

  predicate ReleasesIdly(m: Ds, input: DsInput, h: int) { ReleasesIdle(m, input) && input.handle == h }

  /** How many conversations with h should be open. */
  function Entries(m: Ds, h: int): nat { if Lists(m.subscribers, h) then 1 else 0 }

  lemma CloseBalances(k: int, h: int)
    ensures Balance([CloseStatus(k)], h) == if k == h then -1 else 0
  {
    var told := [CloseStatus(k)];
    assert told[..|told| - 1] == [];
    assert Listings(told, h) == 0;
    assert Losses(told, h) == 0;
    assert Endings(told, h) == if k == h then 1 else 0;
  }

  lemma IdleReleaseBalances(m: Ds, input: DsInput, h: int)
    requires ReleasesIdle(m, input)
    ensures DsStep(m, input).subscribers == m.subscribers
    ensures Balance(Told(m, input), h) == if input.handle == h then -1 else 0
  {
    assert Told(m, input) == [CloseStatus(input.handle)];
    CloseBalances(input.handle, h);
  }

  lemma UsualStepBalances(m: Ds, input: DsInput, h: int)
    requires DsFits(m) && !ReleasesIdle(m, input)
    ensures Balance(Told(m, input), h) == Entries(DsStep(m, input), h) - Entries(m, h)
  {
    var log := FittingLog(m, h);
    var fitting := m.(atl := log);
    LogFits(m, h);
    FittingTalkBalances(fitting, h);
    StepTalk(fitting, input, h);
    FittingTalkBalances(DsStep(fitting, input), h);
    StepOnlyAppends(m, input);
    StepOnlyAppends(fitting, input);
    assert fitting.(atl := []) == m.(atl := []);
    assert DsStep(fitting, input).atl == log + Told(m, input);
    BalanceAppend(log, Told(m, input), h);
  }

  lemma StepBalances(m: Ds, input: DsInput, h: int)
    requires DsFits(m)
    ensures Balance(Told(m, input), h) + (if ReleasesIdly(m, input, h) then 1 else 0) ==
      Entries(DsStep(m, input), h) - Entries(m, h)
  {
    if ReleasesIdle(m, input) {
      IdleReleaseBalances(m, input, h);
    } else {
      UsualStepBalances(m, input, h);
    }
  }

  /** How often h was told closed for a release that was forgotten. */
  function IdleReleases(inputs: seq<DsInput>, h: int): nat {
    if inputs == [] then 0
    else
      var front, last := inputs[..|inputs| - 1], inputs[|inputs| - 1];
      IdleReleases(front, h) + if ReleasesIdly(DsRun(front), last, h) then 1 else 0
  }

  /** After every run the closing notices of a handle and its losses, to a restart or to the
      normal machine, are its entries into the list, but for one still listed, and one notice
      more for each release that was confirmed and forgotten. */
  lemma {:induction false} DsNoticesAreConserved(inputs: seq<DsInput>, h: int)
    ensures var m := DsRun(inputs);
      Listings(m.atl, h) + IdleReleases(inputs, h) ==
      Endings(m.atl, h) + Losses(m.atl, h) + (if Lists(m.subscribers, h) then 1 else 0)
    decreases |inputs|
  {
    if inputs != [] {
      var front, last := inputs[..|inputs| - 1], inputs[|inputs| - 1];
      var m := DsRun(front);
      DsNoticesAreConserved(front, h);
      DsRunIsSafe(front);
      StepBalances(m, last, h);
      StepOnlyAppends(m, last);
      BalanceAppend(m.atl, Told(m, last), h);
    }
  }

  // ----- the call

  /** A call is being set up in Pending, is up in Acquired, and there is none otherwise. */
  ghost predicate CallFits(m: Ds) { LinkOf(m.nif) == ExpectedLink(m.state) }

  lemma {:induction false} LinkHangUps(log: seq<NifTraffic>, subs: seq<AgpsSubscriber>, e: AgpsEvent, a: Audience)
    requires LinkOf(log) == Down
    ensures LinkOf(log + HangUps(subs, e, a)) == Down
    decreases |subs|
  {
    if subs == [] {
      assert log + HangUps(subs, e, a) == log;
    } else {
      var front, last := subs[..|subs| - 1], subs[|subs| - 1];
      LinkHangUps(log, front, e, a);
      if IsAddressed(a, last) && e == ReleasedEvent {
        LinkAppend(log + HangUps(front, e, a), HungUp);
        assert log + HangUps(subs, e, a) == log + HangUps(front, e, a) + [HungUp];
      } else {
        assert HangUps(subs, e, a) == HangUps(front, e, a);
      }
    }
  }

  /** The call that was to be opened for those who asked during the release did not start,
      which the machine does not look at. */
  predicate MissesCall(m: Ds, input: DsInput) {
    (input.DsFailed? || input.DsClosed?) && m.state == Releasing && AnyActive(m.subscribers) && input.attempt != Sent
  }

  /** Nobody is left to serve, but the call cannot be stopped. */
  predicate LeavesCallUp(m: Ds, input: DsInput) {
    && input.DsRelease? && !input.canStop && (m.state == Pending || m.state == Acquired)
    && var s := Find(m.subscribers, input.handle);
       s.Some? && !AnyActive(DsLeave(m, s.value).subscribers)
  }

  /** The client of the data service is restarted during a call, which the machine ignores. */
  predicate RestartsBusy(m: Ds, input: DsInput) {
    input.DsRestart? && input.client && (m.state == Pending || m.state == Acquired)
  }

  /** The step parts the machine from its call. */
  predicate LosesTrack(m: Ds, input: DsInput) {
    MissesCall(m, input) || LeavesCallUp(m, input) || RestartsBusy(m, input)
  }

  lemma AttemptLink(m: Ds, attempt: Attempt)
    requires LinkOf(m.nif) == Down
    ensures LinkOf(Attempted(m, attempt).nif) == if Succeeds(m, attempt) then Asked else Down
  {
    LinkAppend(m.nif, SentRequest);
  }

  lemma BroadcastLink(m: Ds, e: AgpsEvent, delete: bool, a: Audience)
    requires LinkOf(m.nif) == Down
    ensures LinkOf(DsBroadcast(m, e, delete, a).nif) == Down
  {
    LinkHangUps(m.nif, m.subscribers, e, a);
  }

  lemma RequestLink(m: Ds, h: int, attempt: Attempt)
    requires DsFits(m) && CallFits(m)
    ensures CallFits(DsStep(m, DsRequest(h, attempt)))
  {
    var s := AgpsSubscriber(h, true, false);
    DsListingKeeps(m, s);
    if m.state == Released {
      AttemptLink(DsListing(m, s), attempt);
      AttemptIsSilent(DsListing(m, s), attempt);
    }
  }

  lemma UnsubscribeLink(m: Ds, s: AgpsSubscriber, canStop: bool)
    requires CallFits(m)
    ensures CallFits(DsUnsubscribe(m, s, canStop)) <==>
      canStop || m.state == Released || m.state == Releasing || AnyActive(DsLeave(m, s).subscribers)
  {
    var left := DsLeave(m, s);
    assert left.nif == m.nif && left.state == m.state;
    assert left.subscribers == [] ==> !AnyActive(left.subscribers);
    LinkAppend(m.nif, SentRelease);
  }

  lemma ReleaseLink(m: Ds, h: int, canStop: bool)
    requires CallFits(m)
    ensures CallFits(DsStep(m, DsRelease(h, canStop))) <==> !LeavesCallUp(m, DsRelease(h, canStop))
  {
    var s := Find(m.subscribers, h);
    if s.Some? {
      UnsubscribeLink(m, s.value, canStop);
    }
  }

  lemma DsAfterReleaseLink(m: Ds, attempt: Attempt)
    requires m.state == Releasing && CallFits(m)
    ensures CallFits(DsAfterRelease(m, attempt)) <==> !AnyActive(m.subscribers) || attempt == Sent
  {
    var told := DsBroadcast(m, ReleasedEvent, true, InactiveSubscribers);
    BroadcastLink(m, ReleasedEvent, true, InactiveSubscribers);
    SparedAreUnaddressed(m.subscribers, InactiveSubscribers);
    assert AnyActive(told.subscribers) <==> AnyActive(m.subscribers);
    AttemptLink(told.(state := Pending), attempt);
    AttemptIsSilent(told.(state := Pending), attempt);
  }

  lemma DeniedLink(m: Ds, attempt: Attempt)
    requires CallFits(m)
    ensures CallFits(DsDenied(m, attempt)) <==> !MissesCall(m, DsFailed(attempt))
  {
    var heard := m.(nif := m.nif + [GotDenied]);
    LinkAppend(m.nif, GotDenied);
    if m.state == Pending {
      BroadcastLink(heard.(state := Released), DeniedEvent, true, AllSubscribers);
    } else if m.state == Releasing {
      DsAfterReleaseLink(heard, attempt);
    }
  }

  lemma ClosedDownLink(m: Ds, attempt: Attempt)
    requires CallFits(m) && m.state != Pending
    ensures CallFits(DsClosedDown(m, attempt)) <==> !MissesCall(m, DsClosed(attempt))
  {
    var heard := m.(nif := m.nif + [GotReleased]);
    LinkAppend(m.nif, GotReleased);
    if m.state == Acquired {
      BroadcastLink(heard.(state := Released), ReleasedEvent, true, AllSubscribers);
    } else if m.state == Releasing {
      DsAfterReleaseLink(heard, attempt);
    }
  }

  lemma ClosedLink(m: Ds, attempt: Attempt)
    requires CallFits(m)
    ensures CallFits(DsReleased(m, attempt)) <==> !MissesCall(m, DsClosed(attempt))
  {
    if m.state == Pending {
      DeniedLink(m, attempt);
    } else {
      ClosedDownLink(m, attempt);
    }
  }

  lemma GrantSendsNothing(m: Ds)
    ensures DsGranted(m).nif == m.nif + [GotGranted]
    ensures DsGranted(m).state == if m.state == Pending then Acquired else m.state
  {
  }

  lemma GrantedLink(m: Ds)
    requires CallFits(m)
    ensures CallFits(DsGranted(m))
  {
    LinkAppend(m.nif, GotGranted);
    GrantSendsNothing(m);
  }

  lemma RestartLink(m: Ds, client: bool)
    requires CallFits(m)
    ensures CallFits(DsDropAll(m, client)) <==> !RestartsBusy(m, DsRestart(client))
  {
    LinkAppend(m.nif, ClientRestarted);
    assert m.nif + [] == m.nif;
    assert DsDropAll(m, client).nif == if client then m.nif + [ClientRestarted] else m.nif;
  }

  lemma CallStep(m: Ds, input: DsInput)
    requires DsFits(m) && CallFits(m)
    ensures CallFits(DsStep(m, input)) <==> !LosesTrack(m, input)
  {
    match input
    case DsRequest(h, attempt) => RequestLink(m, h, attempt);
    case DsRelease(h, canStop) => ReleaseLink(m, h, canStop);
    case DsOpened => GrantedLink(m);
    case DsFailed(attempt) => DeniedLink(m, attempt);
    case DsClosed(attempt) => ClosedLink(m, attempt);
    case DsRestart(client) => RestartLink(m, client);
  }

  /** In Pending, but no call is being set up. */
  ghost predicate WaitsForNothing(m: Ds) { m.state == Pending && LinkOf(m.nif) == Down }

  lemma AfterReleaseWithoutCall(m: Ds, attempt: Attempt)
    requires m.state == Releasing && CallFits(m) && AnyActive(m.subscribers) && attempt != Sent
    ensures WaitsForNothing(DsAfterRelease(m, attempt))
  {
    var told := DsBroadcast(m, ReleasedEvent, true, InactiveSubscribers);
    BroadcastLink(m, ReleasedEvent, true, InactiveSubscribers);
    SparedAreUnaddressed(m.subscribers, InactiveSubscribers);
    assert AnyActive(told.subscribers);
    AttemptLink(told.(state := Pending), attempt);
    AttemptIsSilent(told.(state := Pending), attempt);
  }

  function AnswerOf(input: DsInput): NifTraffic { if input.DsFailed? then GotDenied else GotReleased }

  lemma MissingEndsRelease(m: Ds, input: DsInput)
    requires MissesCall(m, input)
    ensures DsStep(m, input) == DsAfterRelease(m.(nif := m.nif + [AnswerOf(input)]), input.attempt)
  {
  }

  lemma MissingLeavesNoCall(m: Ds, input: DsInput)
    requires CallFits(m) && MissesCall(m, input)
    ensures WaitsForNothing(DsStep(m, input))
  {
    var heard := m.(nif := m.nif + [AnswerOf(input)]);
    assert CallFits(heard) by { LinkAppend(m.nif, AnswerOf(input)); }
    AfterReleaseWithoutCall(heard, input.attempt);
    MissingEndsRelease(m, input);
  }

  predicate OnlyRequests(inputs: seq<DsInput>) { forall k :: 0 <= k < |inputs| ==> inputs[k].DsRequest? }

  function DsStepAll(m: Ds, inputs: seq<DsInput>): Ds {
    if inputs == [] then m else DsStep(DsStepAll(m, inputs[..|inputs| - 1]), inputs[|inputs| - 1])
  }

  lemma {:induction false} RequestsInPendingAskNothing(m: Ds, requests: seq<DsInput>)
    requires m.state == Pending && OnlyRequests(requests)
    ensures var n := DsStepAll(m, requests); n.state == Pending && n.nif == m.nif
    decreases |requests|
  {
    if requests != [] {
      RequestsInPendingAskNothing(m, requests[..|requests| - 1]);
    }
  }

  /** Then the machine waits for a call nobody set up, and no number of further requests,
      such as those of the retry timer, asks for one. */
  lemma MissedCallIsNotRetried(m: Ds, input: DsInput, requests: seq<DsInput>)
    requires CallFits(m) && MissesCall(m, input) && OnlyRequests(requests)
    ensures WaitsForNothing(DsStepAll(DsStep(m, input), requests))
    ensures DsStepAll(DsStep(m, input), requests).nif == DsStep(m, input).nif
  {
    MissingLeavesNoCall(m, input);
    RequestsInPendingAskNothing(DsStep(m, input), requests);
  }

  /** The machine after h asked and its call was opened, after the modem restarted together
      with the client of the data service, and after k asked. */
  function CallUp(h: int): Ds {
    Ds(Acquired, [AgpsSubscriber(h, true, false)], 0, [], [Listed(h), OpenStatus(h, true)], [SentRequest, GotGranted])
  }

  function CallLost(h: int): Ds {
    Ds(Acquired, [], 0, [], [Listed(h), OpenStatus(h, true), Dropped(h)], [SentRequest, GotGranted, ClientRestarted])
  }

  function WelcomedInVain(h: int, k: int): Ds {
    CallLost(h).(subscribers := [AgpsSubscriber(k, true, false)],
                 atl := CallLost(h).atl + [OpenStatus(k, true), Listed(k)])
  }

  lemma FirstCallIsAsked(h: int)
    ensures DsStep(DS_INITIAL, DsRequest(h, Sent)) ==
      Ds(Pending, [AgpsSubscriber(h, true, false)], 0, [], [Listed(h)], [SentRequest])
  {
  }

  lemma OneActiveIsGranted(s: AgpsSubscriber)
    requires !s.isInactive
    ensures DsNotices([s], GrantedEvent, false, ActiveSubscribers) == [OpenStatus(s.connHandle, true)]
  {
    assert [s][..0] == [];
  }

  lemma FirstCallOpens(h: int)
    ensures DsRun([DsRequest(h, Sent)] + [DsOpened]) == CallUp(h)
  {
    DsRunOneMore([], DsRequest(h, Sent));
    assert [] + [DsRequest(h, Sent)] == [DsRequest(h, Sent)];
    DsRunOneMore([DsRequest(h, Sent)], DsOpened);
    FirstCallIsAsked(h);
    OneActiveIsGranted(AgpsSubscriber(h, true, false));
  }

  lemma RestartTakesCallDown(h: int)
    ensures DsStep(CallUp(h), DsRestart(true)) == CallLost(h)
  {
    var subs := [AgpsSubscriber(h, true, false)];
    assert subs[..0] == [];
    assert Drops(subs) == [Dropped(h)];
  }

  lemma RequestIsWelcomed(h: int, k: int, attempt: Attempt)
    ensures DsStep(CallLost(h), DsRequest(k, attempt)) == WelcomedInVain(h, k)
  {
  }

  lemma OpenedCallIsUp(h: int)
    ensures LinkOf(CallUp(h).nif) == Up
  {
    LinkAppend([], SentRequest);
    LinkAppend([] + [SentRequest], GotGranted);
    assert [] + [SentRequest] + [GotGranted] == CallUp(h).nif;
  }

  lemma LostCallIsDown(h: int)
    ensures LinkOf(CallLost(h).nif) == Down
  {
    OpenedCallIsUp(h);
    LinkAppend(CallUp(h).nif, ClientRestarted);
    assert CallUp(h).nif + [ClientRestarted] == CallLost(h).nif;
  }

  /** A run in which a handle is told open-success although no call is up: the machine was
      Acquired when the modem restarted, and still is. */
  lemma OpenSuccessWithoutCall(h: int, k: int, attempt: Attempt)
    ensures var restarted := [DsRequest(h, Sent)] + [DsOpened] + [DsRestart(true)];
      && DsRun(restarted) == CallLost(h)
      && DsRun(restarted + [DsRequest(k, attempt)]) == WelcomedInVain(h, k)
      && LinkOf(WelcomedInVain(h, k).nif) == Down
  {
    var up := [DsRequest(h, Sent)] + [DsOpened];
    FirstCallOpens(h);
    DsRunOneMore(up, DsRestart(true));
    RestartTakesCallDown(h);
    DsRunOneMore(up + [DsRestart(true)], DsRequest(k, attempt));
    RequestIsWelcomed(h, k, attempt);
    LostCallIsDown(h);
  }

  ghost predicate CallAlwaysFits(inputs: seq<DsInput>)
    decreases |inputs|
  {
    CallFits(DsRun(inputs)) && (inputs == [] || CallAlwaysFits(inputs[..|inputs| - 1]))
  }

  predicate NeverLosesTrack(inputs: seq<DsInput>) {
    inputs == [] ||
    (var front, last := inputs[..|inputs| - 1], inputs[|inputs| - 1];
     NeverLosesTrack(front) && !LosesTrack(DsRun(front), last))
  }

  /** All through a run a call is under way exactly in Pending and Acquired, and is asked for
      and stopped in turn, exactly if every attempt made at the end of a release started the
      call, every call nobody was left to use could be stopped, and the client of the data
      service was never restarted during a call. */
  lemma {:induction false} CallFollowsState(inputs: seq<DsInput>)
    ensures CallAlwaysFits(inputs) <==> NeverLosesTrack(inputs)
    decreases |inputs|
  {
    if inputs != [] {
      var front := inputs[..|inputs| - 1];
      CallFollowsState(front);
      if CallAlwaysFits(front) {
        DsRunIsSafe(front);
        CallStep(DsRun(front), inputs[|inputs| - 1]);
      }
    }
  }
}
