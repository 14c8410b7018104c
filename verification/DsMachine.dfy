/** The AGPS machine for emergency calls. It differs from the base machine in that opening
    the data call can fail at once, in which case it stays in Released with subscribers
    listed, retries a few times and then hands a subscriber over to the normal machine. */
module DsMachine {
  import opened Optional
  import opened AgpsProtocol
  import opened AgpsSafety

  const MAX_START_DATA_CALL_RETRIES: nat := 4

  /** What the client of the data service makes of an attempt to start the call. */
  datatype Attempt = NotRegistered | Busy(timerStarted: bool) | Unsupported | Sent | Unrecognized

  /** fallbacks are the handles passed on to the normal machine; atl and nif are the notices
      and the traffic with the client of the data service, as in the base machine. */
  datatype Ds = Ds(
    state: AgpsState, subscribers: seq<AgpsSubscriber>, retries: nat, fallbacks: seq<int>,
    atl: seq<AtlNotice>, nif: seq<NifTraffic>)

  const DS_INITIAL := Ds(Released, [], 0, [], [], [])

  /** The attempts are those the step makes if it comes to opening the data call; canStop
      says whether the function to stop the call is registered, and client whether the client
      of the data service is restarted along with the modem. */
  datatype DsInput =
    | DsRequest(handle: int, attempt: Attempt)
    | DsRelease(handle: int, canStop: bool)
    | DsOpened
    | DsFailed(attempt: Attempt)
    | DsClosed(attempt: Attempt)
    | DsRestart(client: bool)

  function FirstActive(subs: seq<AgpsSubscriber>): (s: Option<AgpsSubscriber>)
    ensures s.Some? <==> AnyActive(subs)
    ensures s.Some? ==> s.value in subs && !s.value.isInactive
  {
    if subs == [] then None
    else if !subs[0].isInactive then Some(subs[0])
    else
      assert subs == [subs[0]] + subs[1..];
      FirstActive(subs[1..])
  }

  function FallBack(m: Ds, h: int): Ds {
    m.(retries := 0, fallbacks := m.fallbacks + [h])
  }

  /** Attempts to open the call for the first active subscriber, if there is one. */
  function Attempted(m: Ds, attempt: Attempt): Ds {
    var first := FirstActive(m.subscribers);
    if first == None then m
    else
      match attempt
      case NotRegistered => FallBack(m, first.value.connHandle)
      case Unsupported => FallBack(m, first.value.connHandle)
      case Busy(_) =>
        if m.retries + 1 > MAX_START_DATA_CALL_RETRIES then FallBack(m, first.value.connHandle)
        else m.(retries := m.retries + 1)
      case Sent => m.(nif := m.nif + [SentRequest])
      case Unrecognized => m
  }

  predicate Succeeds(m: Ds, attempt: Attempt) {
    attempt == Sent && AnyActive(m.subscribers)
  }

  /** Whoever is denied is passed on without the modem being told. */
  function DsNoticeOf(e: AgpsEvent, h: int, delete: bool): seq<AtlNotice> {
    if e != DeniedEvent then NoticeOf(e, h) else if delete then [Dropped(h)] else []
  }

  /** Being denied means being passed on. */
  function PostOf(e: AgpsEvent, h: int): seq<int> { if e == DeniedEvent then [h] else [] }

  /** Being told of the close goes with an order to give up the call. */
  function HangUpOf(e: AgpsEvent): seq<NifTraffic> { if e == ReleasedEvent then [HungUp] else [] }

  function DsNotices(subs: seq<AgpsSubscriber>, e: AgpsEvent, delete: bool, a: Audience): seq<AtlNotice> {
    if subs == [] then []
    else
      var last := subs[|subs| - 1];
      DsNotices(subs[..|subs| - 1], e, delete, a)
      + (if IsAddressed(a, last) then DsNoticeOf(e, last.connHandle, delete) else [])
  }

  function Posts(subs: seq<AgpsSubscriber>, e: AgpsEvent, a: Audience): (posts: seq<int>)
    ensures e != DeniedEvent ==> posts == []
  {
    if subs == [] then []
    else
      var last := subs[|subs| - 1];
      Posts(subs[..|subs| - 1], e, a) + (if IsAddressed(a, last) then PostOf(e, last.connHandle) else [])
  }

  function HangUps(subs: seq<AgpsSubscriber>, e: AgpsEvent, a: Audience): (orders: seq<NifTraffic>)
    ensures e != ReleasedEvent ==> orders == []
  {
    if subs == [] then []
    else HangUps(subs[..|subs| - 1], e, a) + (if IsAddressed(a, subs[|subs| - 1]) then HangUpOf(e) else [])
  }

  /** Passing somebody on gives back the retries. */
  function DsBroadcast(m: Ds, e: AgpsEvent, delete: bool, a: Audience): Ds {
    m.(subscribers := Left(m.subscribers, delete, a),
       atl := m.atl + DsNotices(m.subscribers, e, delete, a),
       nif := m.nif + HangUps(m.subscribers, e, a),
       retries := if Posts(m.subscribers, e, a) != [] then 0 else m.retries,
       fallbacks := m.fallbacks + Posts(m.subscribers, e, a))
  }

  function DsListing(m: Ds, s: AgpsSubscriber): Ds {
    if Lists(m.subscribers, s.connHandle) then m
    else m.(subscribers := m.subscribers + [s], atl := m.atl + [Listed(s.connHandle)])
  }

  function DsSubscribe(m: Ds, s: AgpsSubscriber, attempt: Attempt): Ds {
    match m.state
    case Released =>
      var listed := DsListing(m, s);
      var tried := Attempted(listed, attempt);
      if Succeeds(listed, attempt) then tried.(state := Pending) else tried
    case Acquired => DsListing(m.(atl := m.atl + [OpenStatus(s.connHandle, true)]), s)
    case _ => DsListing(m, s)
  }

  function DsLeave(m: Ds, s: AgpsSubscriber): Ds {
    if s.waitForCloseComplete then m.(subscribers := Deactivated(m.subscribers, s.connHandle))
    else m.(atl := m.atl + [CloseStatus(s.connHandle)], subscribers := Without(m.subscribers, s.connHandle))
  }

  function StopCall(m: Ds, canStop: bool): Ds {
    if canStop then m.(nif := m.nif + [SentRelease]) else m
  }

  /** In Released the close is confirmed but the entry stays. */
  function DsUnsubscribe(m: Ds, s: AgpsSubscriber, canStop: bool): Ds {
    match m.state
    case Released => m.(atl := m.atl + [CloseStatus(s.connHandle)])
    case Releasing =>
      var left := DsLeave(m, s);
      if left.subscribers == [] then left.(state := Released) else left
    case _ =>
      var left := DsLeave(m, s);
      if left.subscribers == [] then StopCall(left.(state := Released), canStop)
      else if !AnyActive(left.subscribers) then StopCall(left.(state := Releasing), canStop)
      else left
  }

  function DsGranted(m0: Ds): Ds {
    var m := m0.(nif := m0.nif + [GotGranted]);
    if m.state == Pending then DsBroadcast(m.(state := Acquired), GrantedEvent, false, ActiveSubscribers) else m
  }

  function DsAfterRelease(m: Ds, attempt: Attempt): Ds {
    var n := DsBroadcast(m, ReleasedEvent, true, InactiveSubscribers);
    if AnyActive(n.subscribers) then Attempted(n.(state := Pending), attempt) else n.(state := Released)
  }

  function DsDenied(m0: Ds, attempt: Attempt): Ds {
    var m := m0.(nif := m0.nif + [GotDenied]);
    match m.state
    case Pending => DsBroadcast(m.(state := Released), DeniedEvent, true, AllSubscribers)
    case Releasing => DsAfterRelease(m, attempt)
    case _ => m
  }

  /** The inherited handler, which does nothing while the call is being set up. */
  function DsClosedDown(m0: Ds, attempt: Attempt): Ds {
    var m := m0.(nif := m0.nif + [GotReleased]);
    match m.state
    case Acquired => DsBroadcast(m.(state := Released), ReleasedEvent, true, AllSubscribers)
    case Releasing => DsAfterRelease(m, attempt)
    case _ => m
  }

  /** Closed while the call is being set up means that it was denied. */
  function DsReleased(m: Ds, attempt: Attempt): Ds {
    if m.state == Pending then DsDenied(m, attempt) else DsClosedDown(m, attempt)
  }

  /** The modem restarts, and with it the client of the data service if that is configured. */
  function DsDropAll(m: Ds, client: bool): Ds {
    m.(atl := m.atl + Drops(m.subscribers), subscribers := [],
       nif := m.nif + (if client then [ClientRestarted] else []))
  }

  /** An event that reaches the machine while current is its current subscriber. */
  function DsHandle(m: Ds, e: AgpsEvent, current: Option<AgpsSubscriber>, canStop: bool, attempt: Attempt): Ds
    requires e == SubscribeEvent || e == UnsubscribeEvent ==> current.Some?
  {
    match e
    case SubscribeEvent => DsSubscribe(m, current.value, attempt)
    case UnsubscribeEvent => DsUnsubscribe(m, current.value, canStop)
    case GrantedEvent => DsGranted(m)
    case ReleasedEvent => DsReleased(m, attempt)
    case DeniedEvent => DsDenied(m, attempt)
  }

  function DsStep(m: Ds, input: DsInput): Ds {
    match input
    case DsRequest(h, attempt) => DsSubscribe(m, AgpsSubscriber(h, true, false), attempt)
    case DsRelease(h, canStop) =>
      var s := Find(m.subscribers, h);
      if s.Some? then DsUnsubscribe(m, s.value, canStop) else m
    case DsOpened => DsGranted(m)
    case DsFailed(attempt) => DsDenied(m, attempt)
    case DsClosed(attempt) => DsReleased(m, attempt)
    case DsRestart(client) => DsDropAll(m, client)
  }

  function DsRun(inputs: seq<DsInput>): Ds {
    if inputs == [] then DS_INITIAL else DsStep(DsRun(inputs[..|inputs| - 1]), inputs[|inputs| - 1])
  }

  lemma DsRunOneMore(inputs: seq<DsInput>, input: DsInput)
    ensures DsRun(inputs + [input]) == DsStep(DsRun(inputs), input)
  {
    assert (inputs + [input])[..|inputs|] == inputs;
  }

  // ----- safety

  /** In Released no entry waits for a close. */
  ghost predicate DsFits(m: Ds) {
    && Distinct(m.subscribers)
    && m.retries <= MAX_START_DATA_CALL_RETRIES
    && (forall s :: s in m.subscribers && s.isInactive ==> s.waitForCloseComplete && m.state != Released)
  }

  lemma AttemptKeeps(m: Ds, attempt: Attempt)
    requires DsFits(m)
    ensures DsFits(Attempted(m, attempt)) && Attempted(m, attempt).subscribers == m.subscribers
  {
  }

  lemma DsListingKeeps(m: Ds, s: AgpsSubscriber)
    requires DsFits(m) && !s.isInactive
    ensures DsFits(DsListing(m, s)) && Lists(DsListing(m, s).subscribers, s.connHandle)
    ensures m.state == Released ==> AnyActive(DsListing(m, s).subscribers)
  {
    if !Lists(m.subscribers, s.connHandle) {
      DistinctAppend(m.subscribers, s);
      assert s in DsListing(m, s).subscribers;
    }
  }

  lemma DsSubscribeKeeps(m: Ds, s: AgpsSubscriber, attempt: Attempt)
    requires DsFits(m) && !s.isInactive
    ensures DsFits(DsSubscribe(m, s, attempt))
    ensures DsSubscribe(m, s, attempt).subscribers == DsListing(m, s).subscribers
    ensures Lists(DsListing(m, s).subscribers, s.connHandle)
  {
    DsListingKeeps(m, s);
    AttemptKeeps(DsListing(m, s), attempt);
  }

  lemma DsLeaveKeeps(m: Ds, s: AgpsSubscriber, canStop: bool)
    requires DsFits(m) && s in m.subscribers
    ensures DsFits(DsUnsubscribe(m, s, canStop))
  {
    if s.waitForCloseComplete {
      OnlyEntry(m.subscribers, s);
      DeactivatedMembers(m.subscribers, s.connHandle);
    } else {
      WithoutKeepsOthers(m.subscribers, s.connHandle);
    }
  }

  lemma DsReleaseKeeps(m: Ds, h: int, canStop: bool)
    requires DsFits(m)
    ensures DsFits(DsStep(m, DsRelease(h, canStop)))
  {
    var s := Find(m.subscribers, h);
    if s.Some? {
      DsLeaveKeeps(m, s.value, canStop);
    }
  }

  lemma DsAfterReleaseKeeps(m: Ds, attempt: Attempt)
    requires DsFits(m) && m.state == Releasing
    ensures DsFits(DsAfterRelease(m, attempt))
    ensures DsAfterRelease(m, attempt).state == Released ==> DsAfterRelease(m, attempt).subscribers == []
  {
    var n := DsBroadcast(m, ReleasedEvent, true, InactiveSubscribers);
    SparedAreUnaddressed(m.subscribers, InactiveSubscribers);
    MemberOf(n.subscribers);
    AttemptKeeps(n.(state := Pending), attempt);
  }

  lemma DsClosingAllKeeps(m: Ds, e: AgpsEvent)
    requires DsFits(m)
    ensures var n := DsBroadcast(m.(state := Released), e, true, AllSubscribers);
      DsFits(n) && n.subscribers == [] && n.state == Released
  {
    NobodyIsSpared(m.subscribers);
  }

  lemma DsDeniedKeeps(m: Ds, attempt: Attempt)
    requires DsFits(m)
    ensures DsFits(DsDenied(m, attempt)) && (IdleIsEmpty(m) ==> IdleIsEmpty(DsDenied(m, attempt)))
  {
    var heard := m.(nif := m.nif + [GotDenied]);
    match m.state
    case Pending => DsClosingAllKeeps(heard, DeniedEvent);
    case Releasing => DsAfterReleaseKeeps(heard, attempt);
    case _ =>
  }

  lemma DsReleasedKeeps(m: Ds, attempt: Attempt)
    requires DsFits(m)
    ensures DsFits(DsReleased(m, attempt)) && (IdleIsEmpty(m) ==> IdleIsEmpty(DsReleased(m, attempt)))
  {
    var heard := m.(nif := m.nif + [GotReleased]);
    match m.state
    case Pending => DsDeniedKeeps(m, attempt);
    case Acquired => DsClosingAllKeeps(heard, ReleasedEvent);
    case Releasing => DsAfterReleaseKeeps(heard, attempt);
    case Released =>
  }

  lemma DsStepKeeps(m: Ds, input: DsInput)
    requires DsFits(m)
    ensures DsFits(DsStep(m, input))
  {
    match input
    case DsRequest(h, attempt) => DsSubscribeKeeps(m, AgpsSubscriber(h, true, false), attempt);
    case DsRelease(h, canStop) => DsReleaseKeeps(m, h, canStop);
    case DsOpened =>
    case DsFailed(attempt) => DsDeniedKeeps(m, attempt);
    case DsClosed(attempt) => DsReleasedKeeps(m, attempt);
    case DsRestart(_) =>
  }

  /** In every reachable state the retry counter is between zero and its maximum, handles
      are listed once, and no entry waits for a close in Released. */
  lemma {:induction false} DsRunIsSafe(inputs: seq<DsInput>)
    ensures DsFits(DsRun(inputs))
    decreases |inputs|
  {
    if inputs != [] {
      DsRunIsSafe(inputs[..|inputs| - 1]);
      DsStepKeeps(DsRun(inputs[..|inputs| - 1]), inputs[|inputs| - 1]);
    }
  }

  // ----- subscribers in Released

  ghost predicate IdleIsEmpty(m: Ds) { m.state == Released ==> m.subscribers == [] }

  /** A request that finds the machine in Released and does not get the call started. */
  predicate FailsToOpen(m: Ds, input: DsInput) {
    m.state == Released && input.DsRequest? && input.attempt != Sent
  }

  lemma RequestLeavesIdle(m: Ds, h: int, attempt: Attempt)
    requires DsFits(m)
    ensures IdleIsEmpty(DsStep(m, DsRequest(h, attempt))) <==> !FailsToOpen(m, DsRequest(h, attempt))
  {
    var s := AgpsSubscriber(h, true, false);
    DsListingKeeps(m, s);
    AttemptKeeps(DsListing(m, s), attempt);
  }

  lemma IdleStep(m: Ds, input: DsInput)
    requires DsFits(m) && IdleIsEmpty(m)
    ensures IdleIsEmpty(DsStep(m, input)) <==> !FailsToOpen(m, input)
  {
    match input
    case DsRequest(h, attempt) => RequestLeavesIdle(m, h, attempt);
    case DsRelease(_, _) =>
    case DsOpened =>
    case DsFailed(attempt) => DsDeniedKeeps(m, attempt);
    case DsClosed(attempt) => DsReleasedKeeps(m, attempt);
    case DsRestart(_) =>
  }

  ghost predicate AlwaysIdleEmpty(inputs: seq<DsInput>)
    decreases |inputs|
  {
    IdleIsEmpty(DsRun(inputs)) && (inputs == [] || AlwaysIdleEmpty(inputs[..|inputs| - 1]))
  }

  predicate NeverFailsToOpen(inputs: seq<DsInput>) {
    inputs == [] ||
    (NeverFailsToOpen(inputs[..|inputs| - 1]) && !FailsToOpen(DsRun(inputs[..|inputs| - 1]), inputs[|inputs| - 1]))
  }

  /** The base machine's rule that nobody is listed in Released holds all through a run of
      this machine exactly if no request in Released failed to start the call. */
  lemma {:induction false} IdleIsEmptyWhileOpensSucceed(inputs: seq<DsInput>)
    ensures AlwaysIdleEmpty(inputs) <==> NeverFailsToOpen(inputs)
    decreases |inputs|
  {
    if inputs != [] {
      var front := inputs[..|inputs| - 1];
      IdleIsEmptyWhileOpensSucceed(front);
      if AlwaysIdleEmpty(front) {
        DsRunIsSafe(front);
        IdleStep(DsRun(front), inputs[|inputs| - 1]);
      }
    }
  }

  // ----- requests and releases

  /** A request is served exactly if its handle does not still wait for the close of an
      earlier one; then it is dropped. */
  lemma DsRequestIsServed(m: Ds, h: int, attempt: Attempt)
    requires DsFits(m)
    ensures var n := DsStep(m, DsRequest(h, attempt));
      && (Serves(n.subscribers, h) <==> !AwaitsClose(m.subscribers, h))
      && (AwaitsClose(m.subscribers, h) ==> n.subscribers == m.subscribers && n.state == m.state)
  {
    var s := AgpsSubscriber(h, true, false);
    DsSubscribeKeeps(m, s, attempt);
    if AwaitsClose(m.subscribers, h) {
      var t :| t in m.subscribers && t.connHandle == h;
      assert t.isInactive;
    } else {
      assert !Lists(m.subscribers, h) ==> s in DsListing(m, s).subscribers;
    }
  }

  /** So it is after any run. */
  lemma DsRequestIsServedInRuns(inputs: seq<DsInput>, h: int, attempt: Attempt)
    ensures Serves(DsRun(inputs + [DsRequest(h, attempt)]).subscribers, h) <==>
      !AwaitsClose(DsRun(inputs).subscribers, h)
  {
    DsRunIsSafe(inputs);
    DsRunOneMore(inputs, DsRequest(h, attempt));
    DsRequestIsServed(DsRun(inputs), h, attempt);
  }

  /** A listed handle that is released is no longer served exactly if the machine was not
      in Released; there the release is confirmed and forgotten. */
  lemma ReleaseTakesEffect(m: Ds, h: int, canStop: bool)
    requires DsFits(m) && Lists(m.subscribers, h)
    ensures !Serves(DsStep(m, DsRelease(h, canStop)).subscribers, h) <==> m.state != Released
  {
    var s := Find(m.subscribers, h).value;
    if m.state == Released {
      assert s in m.subscribers && !s.isInactive;
    } else {
      OnlyEntry(m.subscribers, s);
      if s.waitForCloseComplete {
        DeactivatedMembers(m.subscribers, h);
      } else {
        WithoutKeepsOthers(m.subscribers, h);
      }
      assert DsStep(m, DsRelease(h, canStop)).subscribers == DsLeave(m, s).subscribers;
    }
  }

  /** So it is after any run that listed the handle. */
  lemma ReleaseTakesEffectInRuns(inputs: seq<DsInput>, h: int, canStop: bool)
    requires Lists(DsRun(inputs).subscribers, h)
    ensures !Serves(DsRun(inputs + [DsRelease(h, canStop)]).subscribers, h) <==> DsRun(inputs).state != Released
  {
    DsRunIsSafe(inputs);
    DsRunOneMore(inputs, DsRelease(h, canStop));
    ReleaseTakesEffect(DsRun(inputs), h, canStop);
  }

  /** A handle released while the machine waits to retry is told closed, and is listed and
      active afterwards. */
  lemma ReleaseWhileRetryingIsIgnored(h: int, timerStarted: bool, canStop: bool)
    ensures DsRun([DsRequest(h, Busy(timerStarted))] + [DsRelease(h, canStop)]) ==
      Ds(Released, [AgpsSubscriber(h, true, false)], 1, [], [Listed(h), CloseStatus(h)], [])
  {
    var busy := [DsRequest(h, Busy(timerStarted))];
    DsRunOneMore([], busy[0]);
    DsRunOneMore(busy, DsRelease(h, canStop));
    assert [] + [busy[0]] == busy;
  }

  // ----- retries

  /** The step attempts to open the call and hears that the data service is busy. */
  predicate HearsBusy(m: Ds, input: DsInput) {
    match input
    case DsRequest(_, attempt) => m.state == Released && attempt.Busy?
    case DsFailed(attempt) => m.state == Releasing && AnyActive(m.subscribers) && attempt.Busy?
    case DsClosed(attempt) => m.state == Releasing && AnyActive(m.subscribers) && attempt.Busy?
    case _ => false
  }

  predicate HandsOver(m: Ds, input: DsInput) { DsStep(m, input).fallbacks != m.fallbacks }

  function BusySinceHandover(inputs: seq<DsInput>): nat {
    if inputs == [] then 0
    else
      var front, last := inputs[..|inputs| - 1], inputs[|inputs| - 1];
      if HandsOver(DsRun(front), last) then 0
      else BusySinceHandover(front) + if HearsBusy(DsRun(front), last) then 1 else 0
  }

  lemma AfterReleaseCounts(m: Ds, attempt: Attempt)
    requires m.state == Releasing
    ensures var n := DsAfterRelease(m, attempt);
      if n.fallbacks != m.fallbacks then n.retries == 0
      else n.retries == m.retries + if AnyActive(m.subscribers) && attempt.Busy? then 1 else 0
  {
    SparedAreUnaddressed(m.subscribers, InactiveSubscribers);
    assert AnyActive(Spared(m.subscribers, InactiveSubscribers)) <==> AnyActive(m.subscribers);
  }

  lemma RequestCounts(m: Ds, h: int, attempt: Attempt)
    requires DsFits(m)
    ensures var input := DsRequest(h, attempt);
      DsStep(m, input).retries == if HandsOver(m, input) then 0 else m.retries + if HearsBusy(m, input) then 1 else 0
  {
    DsListingKeeps(m, AgpsSubscriber(h, true, false));
  }

  lemma DeniedCounts(m: Ds, attempt: Attempt)
    ensures var n := DsDenied(m, attempt);
      n.retries == if n.fallbacks != m.fallbacks then 0
                   else m.retries + if HearsBusy(m, DsFailed(attempt)) then 1 else 0
  {
    if m.state == Releasing {
      AfterReleaseCounts(m.(nif := m.nif + [GotDenied]), attempt);
    }
  }

  lemma ClosedDownCounts(m: Ds, attempt: Attempt)
    ensures var n := DsClosedDown(m, attempt);
      n.retries == if n.fallbacks != m.fallbacks then 0
                   else m.retries + if HearsBusy(m, DsClosed(attempt)) then 1 else 0
  {
    if m.state == Releasing {
      AfterReleaseCounts(m.(nif := m.nif + [GotReleased]), attempt);
    }
  }

  lemma StepCounts(m: Ds, input: DsInput)
    requires DsFits(m)
    ensures DsStep(m, input).retries ==
      if HandsOver(m, input) then 0 else m.retries + if HearsBusy(m, input) then 1 else 0
  {
    match input
    case DsRequest(h, attempt) => RequestCounts(m, h, attempt);
    case DsRelease(_, _) =>
    case DsOpened =>
    case DsFailed(attempt) => DeniedCounts(m, attempt);
    case DsClosed(attempt) =>
      DeniedCounts(m, attempt);
      ClosedDownCounts(m, attempt);
    case DsRestart(_) =>
  }

  /** After any run the counter is the number of times the data service was busy since
      somebody was last handed over. Nothing else resets it: not a call that starts, is
      opened, denied to nobody or closed, nor a modem restart. */
  lemma {:induction false} RetriesCountBusy(inputs: seq<DsInput>)
    ensures DsRun(inputs).retries == BusySinceHandover(inputs)
    decreases |inputs|
  {
    if inputs != [] {
      var front := inputs[..|inputs| - 1];
      RetriesCountBusy(front);
      DsRunIsSafe(front);
      StepCounts(DsRun(front), inputs[|inputs| - 1]);
    }
  }

  predicate AllBusy(inputs: seq<DsInput>) {
    forall k :: 0 <= k < |inputs| ==> inputs[k].DsRequest? && inputs[k].attempt.Busy?
  }

  /** What n requests in a row leave while the data service is busy. */
  predicate AfterBusy(m: Ds, n: nat) {
    m.state == Released && m.retries == n % 5 && |m.fallbacks| == n / 5
  }

  /** While the data service is busy one request in five hands a subscriber over, whoever
      asks. */
  lemma {:induction false} EveryFifthBusyRequestFallsBack(inputs: seq<DsInput>)
    requires AllBusy(inputs)
    ensures AfterBusy(DsRun(inputs), |inputs|)
    decreases |inputs|
  {
    if inputs != [] {
      var front, last := inputs[..|inputs| - 1], inputs[|inputs| - 1];
      EveryFifthBusyRequestFallsBack(front);
      DsRunIsSafe(front);
      OneMoreBusyRequest(DsRun(front), last.handle, last.attempt, |front|);
    }
  }

  lemma OneMoreBusyRequest(m: Ds, h: int, attempt: Attempt, n: nat)
    requires DsFits(m) && AfterBusy(m, n) && attempt.Busy?
    ensures AfterBusy(DsStep(m, DsRequest(h, attempt)), n + 1)
  {
    BusyRequestCounts(m, h, attempt);
    FifthStep(n);
  }

  lemma BusyRequestCounts(m: Ds, h: int, attempt: Attempt)
    requires DsFits(m) && m.state == Released && attempt.Busy?
    ensures var n := DsStep(m, DsRequest(h, attempt));
      && n.state == Released
      && n.retries == (if m.retries == MAX_START_DATA_CALL_RETRIES then 0 else m.retries + 1)
      && |n.fallbacks| == |m.fallbacks| + if m.retries == MAX_START_DATA_CALL_RETRIES then 1 else 0
  {
    DsListingKeeps(m, AgpsSubscriber(h, true, false));
  }

  lemma FifthStep(n: nat)
    ensures (n + 1) % 5 == if n % 5 == 4 then 0 else n % 5 + 1
    ensures (n + 1) / 5 == if n % 5 == 4 then n / 5 + 1 else n / 5
  {
  }
}
