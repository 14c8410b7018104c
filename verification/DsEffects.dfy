/** What each input does to the emergency machine, said outright. */
module DsEffects {
  import opened Optional
  import opened AgpsProtocol
  import opened AgpsSafety
  import opened AgpsEffects
  import opened DsMachine
  import opened DsSafety

  // ----- an attempt to start the call

  /** The attempt hands the handle over to the normal machine: there is no way to start the
      call, or the data service was busy once too often. */
  predicate HandsOverNow(retries: nat, attempt: Attempt) {
    attempt == NotRegistered || attempt == Unsupported || (attempt.Busy? && retries == MAX_START_DATA_CALL_RETRIES)
  }

  /** An attempt on behalf of first turns the retries and the handles handed over of m into
      those of n. */
  predicate Tries(m: Ds, n: Ds, first: int, attempt: Attempt) {
    var over := HandsOverNow(m.retries, attempt);
    && n.fallbacks == m.fallbacks + (if over then [first] else [])
    && n.retries == if over then 0 else if attempt.Busy? then m.retries + 1 else m.retries
  }

  predicate TriesNothing(m: Ds, n: Ds) { n.retries == m.retries && n.fallbacks == m.fallbacks }

  lemma {:induction false} FirstActiveAt(subs: seq<AgpsSubscriber>, k: nat)
    requires k < |subs| && !subs[k].isInactive && forall j :: 0 <= j < k ==> subs[j].isInactive
    ensures FirstActive(subs) == Some(subs[k])
    decreases k
  {
    if k > 0 {
      FirstActiveAt(subs[1..], k - 1);
    }
  }

  lemma AttemptEffect(m: Ds, k: nat, attempt: Attempt)
    requires k < |m.subscribers| && !m.subscribers[k].isInactive && m.retries <= MAX_START_DATA_CALL_RETRIES
    requires forall j :: 0 <= j < k ==> m.subscribers[j].isInactive
    ensures var n := Attempted(m, attempt);
      && Tries(m, n, m.subscribers[k].connHandle, attempt)
      && n.state == m.state && n.subscribers == m.subscribers && n.atl == m.atl
      && n.nif == m.nif + (if attempt == Sent then [SentRequest] else [])
  {
    FirstActiveAt(m.subscribers, k);
  }

  // ----- the inputs

  /** A request lists a new handle as active and last. In Released one attempt is made for
      the first entry, and the machine becomes Pending exactly if the call is being started. */
  lemma DsRequestEffect(m: Ds, h: int, attempt: Attempt)
    requires DsFits(m)
    ensures var n, listed := DsStep(m, DsRequest(h, attempt)), exists s :: s in m.subscribers && s.connHandle == h;
      && n.subscribers == m.subscribers + (if listed then [] else [AgpsSubscriber(h, true, false)])
      && n.atl == m.atl + (if m.state == Acquired then [OpenStatus(h, true)] else [])
                  + (if listed then [] else [Listed(h)])
      && n.state == (if m.state == Released && attempt == Sent then Pending else m.state)
      && n.nif == m.nif + (if m.state == Released && attempt == Sent then [SentRequest] else [])
      && n.subscribers != []
      && if m.state == Released then Tries(m, n, n.subscribers[0].connHandle, attempt) else TriesNothing(m, n)
  {
    var s := AgpsSubscriber(h, true, false);
    if m.state == Released {
      var listed := DsListing(m, s);
      DsListingKeeps(m, s);
      assert listed.subscribers[0] in listed.subscribers;
      AttemptEffect(listed, 0, attempt);
    }
  }

  lemma DsLeavingEffect(m: Ds, k: nat, canStop: bool)
    requires DsFits(m) && k < |m.subscribers| && m.state != Released
    ensures var subs, s := m.subscribers, m.subscribers[k];
      var n, others := DsUnsubscribe(m, s, canStop), OthersActive(m.subscribers, k);
      && TriesNothing(m, n)
      && n.subscribers == LeftBehind(subs, k)
      && n.atl == m.atl + (if s.waitForCloseComplete then [] else [CloseStatus(s.connHandle)])
      && n.nif == m.nif + (if m.state != Releasing && !others && canStop then [SentRelease] else [])
      && n.state == (if |subs| == 1 && !s.waitForCloseComplete then Released
                     else if others then m.state else Releasing)
  {
    var left := DsLeave(m, m.subscribers[k]);
    LeavingLeaves(m.subscribers, k);
    assert left.subscribers == LeftBehind(m.subscribers, k);
    assert left.subscribers == [] ==> !AnyActive(left.subscribers);
  }

  /** A release of the handle of entry k. In Released it is confirmed and nothing changes.
      Otherwise the modem is told that it is closed exactly if it does not wait for the
      close, and the call is stopped, if it can be, exactly if it was being set up or up and
      nobody else is active. */
  lemma DsReleaseEffect(m: Ds, k: nat, canStop: bool)
    requires DsFits(m) && k < |m.subscribers|
    ensures var subs, s := m.subscribers, m.subscribers[k];
      var n, others := DsStep(m, DsRelease(s.connHandle, canStop)), OthersActive(m.subscribers, k);
      && TriesNothing(m, n)
      && if m.state == Released
         then n == m.(atl := m.atl + [CloseStatus(s.connHandle)])
         else
           && n.subscribers == LeftBehind(subs, k)
           && n.atl == m.atl + (if s.waitForCloseComplete then [] else [CloseStatus(s.connHandle)])
           && n.nif == m.nif + (if m.state != Releasing && !others && canStop then [SentRelease] else [])
           && n.state == (if |subs| == 1 && !s.waitForCloseComplete then Released
                          else if others then m.state else Releasing)
  {
    FindAt(m.subscribers, k);
    if m.state != Released {
      DsLeavingEffect(m, k, canStop);
    }
  }

  lemma DsReleaseOfNobody(m: Ds, h: int, canStop: bool)
    requires forall s :: s in m.subscribers ==> s.connHandle != h
    ensures DsStep(m, DsRelease(h, canStop)) == m
  {
  }

  lemma PlainBroadcast(m: Ds, e: AgpsEvent, delete: bool, a: Audience, notice: int -> AtlNotice)
    requires e != DeniedEvent && forall h :: NoticeOf(e, h) == [notice(h)]
    ensures var n := DsBroadcast(m, e, delete, a);
      && n.state == m.state && TriesNothing(m, n)
      && n.atl == m.atl + Notes(Audible(m.subscribers, a), notice)
      && n.subscribers == (if delete then Inaudible(m.subscribers, a) else m.subscribers)
      && (e != ReleasedEvent ==> n.nif == m.nif)
  {
    PlainNotices(m.subscribers, e, delete, a);
    NoticesAreNotes(m.subscribers, a, e, notice);
    SparedAreInaudible(m.subscribers, a);
  }

  /** A grant makes a pending machine acquired and tells the active entries; in any other
      state nothing happens. */
  lemma DsGrantEffect(m: Ds)
    ensures var n := DsStep(m, DsOpened);
      && n.nif == m.nif + [GotGranted] && n.subscribers == m.subscribers && TriesNothing(m, n)
      && n.state == (if m.state == Pending then Acquired else m.state)
      && n.atl == m.atl + (if m.state == Pending then Notes(Those(m.subscribers, false), ToldOpen) else [])
  {
    var heard := m.(nif := m.nif + [GotGranted], state := Acquired);
    PlainBroadcast(heard, GrantedEvent, false, ActiveSubscribers, ToldOpen);
  }

  /** n orders to give up the call. */
  function Orders(n: nat): seq<NifTraffic> { seq(n, _ => HungUp) }

  lemma {:induction false} HangUpsAreOrders(subs: seq<AgpsSubscriber>, a: Audience)
    ensures HangUps(subs, ReleasedEvent, a) == Orders(|Audible(subs, a)|)
    decreases |subs|
  {
    if subs != [] {
      var front, last := subs[..|subs| - 1], subs[|subs| - 1];
      HangUpsAreOrders(front, a);
      ThoseOneMore(front, last, true);
      ThoseOneMore(front, last, false);
      assert front + [last] == subs;
    }
  }

  lemma CloseNoticesGiveUp(m: Ds, a: Audience)
    ensures DsBroadcast(m, ReleasedEvent, true, a).nif == m.nif + Orders(|Audible(m.subscribers, a)|)
  {
    HangUpsAreOrders(m.subscribers, a);
  }

  /** What a close and a denial do in Releasing: whoever waited for the close is told and
      unlisted, each with an order to give up the call, and an attempt is made for the first
      of those left, if any. */
  predicate DsEndsRelease(m: Ds, n: Ds, t: NifTraffic, attempt: Attempt) {
    var gone, left := Those(m.subscribers, true), Those(m.subscribers, false);
    && n.subscribers == left && n.atl == m.atl + Notes(gone, ToldClosed)
    && n.state == (if left != [] then Pending else Released)
    && n.nif == m.nif + [t] + Orders(|gone|) + (if left != [] && attempt == Sent then [SentRequest] else [])
    && if left != [] then Tries(m, n, left[0].connHandle, attempt) else TriesNothing(m, n)
  }

  /** The end of a release, once the entries that waited for it are gone. */
  function Resumed(told: Ds, attempt: Attempt): Ds {
    if AnyActive(told.subscribers) then Attempted(told.(state := Pending), attempt) else told.(state := Released)
  }

  lemma ResumedEnds(m: Ds, told: Ds, t: NifTraffic, attempt: Attempt)
    requires m.retries <= MAX_START_DATA_CALL_RETRIES && TriesNothing(m, told)
    requires var gone, left := Those(m.subscribers, true), Those(m.subscribers, false);
      && told.subscribers == left && told.atl == m.atl + Notes(gone, ToldClosed)
      && told.nif == m.nif + [t] + Orders(|gone|)
    ensures DsEndsRelease(m, Resumed(told, attempt), t, attempt)
  {
    AnyOfThose(m.subscribers);
    if told.subscribers != [] {
      AllOfThose(m.subscribers, false, 0);
      AttemptEffect(told.(state := Pending), 0, attempt);
    }
  }

  lemma DsAfterReleaseEnds(m: Ds, t: NifTraffic, attempt: Attempt)
    requires m.retries <= MAX_START_DATA_CALL_RETRIES
    ensures DsEndsRelease(m, DsAfterRelease(m.(nif := m.nif + [t]), attempt), t, attempt)
  {
    var heard := m.(nif := m.nif + [t]);
    PlainBroadcast(heard, ReleasedEvent, true, InactiveSubscribers, ToldClosed);
    CloseNoticesGiveUp(heard, InactiveSubscribers);
    ResumedEnds(m, DsBroadcast(heard, ReleasedEvent, true, InactiveSubscribers), t, attempt);
  }

  /** Everybody is told closed and given up. */
  predicate DsEndsAll(m: Ds, n: Ds) {
    n == m.(state := Released, subscribers := [], atl := m.atl + Notes(m.subscribers, ToldClosed),
            nif := m.nif + [GotReleased] + Orders(|m.subscribers|))
  }

  function HandlesIn(subs: seq<AgpsSubscriber>): seq<int> {
    seq(|subs|, k requires 0 <= k < |subs| => subs[k].connHandle)
  }

  /** Everybody is handed over to the normal machine, in order, and the modem is told nothing. */
  predicate HandsAllOver(m: Ds, n: Ds) {
    n == Ds(Released, [], if m.subscribers == [] then m.retries else 0, m.fallbacks + HandlesIn(m.subscribers),
            m.atl + Notes(m.subscribers, Lost), m.nif + [GotDenied])
  }

  lemma {:induction false} PostsInOrder(subs: seq<AgpsSubscriber>)
    ensures Posts(subs, DeniedEvent, AllSubscribers) == HandlesIn(subs)
    decreases |subs|
  {
    if subs != [] {
      PostsInOrder(subs[..|subs| - 1]);
    }
  }

  lemma DeniedHandsOver(m: Ds, attempt: Attempt)
    requires m.state == Pending
    ensures HandsAllOver(m, DsDenied(m, attempt))
  {
    PostsInOrder(m.subscribers);
    DeniedAreDropped(m.subscribers);
    DropsAreNotes(m.subscribers);
    NobodyIsSpared(m.subscribers);
    assert HandlesIn(m.subscribers) == [] <==> m.subscribers == [];
  }

  /** A denial hands everybody waiting over, or ends a release; otherwise nothing happens. */
  lemma DsDenialEffect(m: Ds, attempt: Attempt)
    requires DsFits(m)
    ensures var n := DsStep(m, DsFailed(attempt));
      match m.state
      case Releasing => DsEndsRelease(m, n, GotDenied, attempt)
      case Pending => HandsAllOver(m, n)
      case _ => n == m.(nif := m.nif + [GotDenied])
  {
    match m.state
    case Releasing => DsAfterReleaseEnds(m, GotDenied, attempt);
    case Pending => DeniedHandsOver(m, attempt);
    case _ =>
  }

  lemma ForcedCloseEnds(m: Ds, attempt: Attempt)
    requires m.state == Acquired
    ensures DsEndsAll(m, DsClosedDown(m, attempt))
  {
    var heard := m.(nif := m.nif + [GotReleased], state := Released);
    PlainBroadcast(heard, ReleasedEvent, true, AllSubscribers, ToldClosed);
    CloseNoticesGiveUp(heard, AllSubscribers);
  }

  /** A close while the call is being set up counts as a denial. It ends a release, and
      forced in Acquired it ends all; in Released nothing happens. */
  lemma DsCloseEffect(m: Ds, attempt: Attempt)
    requires DsFits(m)
    ensures var n := DsStep(m, DsClosed(attempt));
      match m.state
      case Releasing => DsEndsRelease(m, n, GotReleased, attempt)
      case Pending => HandsAllOver(m, n)
      case Acquired => DsEndsAll(m, n)
      case Released => n == m.(nif := m.nif + [GotReleased])
  {
    match m.state
    case Releasing => DsAfterReleaseEnds(m, GotReleased, attempt);
    case Pending => DeniedHandsOver(m, attempt);
    case Acquired => ForcedCloseEnds(m, attempt);
    case Released =>
  }

  /** A modem restart empties the list; nobody is told, and only a restart of the client
      that goes with it concerns the call. */
  lemma DsRestartEffect(m: Ds, client: bool)
    ensures DsStep(m, DsRestart(client)) ==
      m.(subscribers := [], atl := m.atl + Notes(m.subscribers, Lost),
         nif := m.nif + (if client then [ClientRestarted] else []))
  {
    DropsAreNotes(m.subscribers);
  }
}
