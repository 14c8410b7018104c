/** What each input does to the machine, said outright: which entries stay, who is told what,
    in which order, what the framework is sent, and the state afterwards. */
module AgpsEffects {
  import opened Optional
  import opened AgpsProtocol
  import opened AgpsSafety

  // ----- parts of the list, in order

  /** The entries that are inactive, or those that are not. */
  function Those(subs: seq<AgpsSubscriber>, inactive: bool): seq<AgpsSubscriber> {
    if subs == [] then []
    else if subs[0].isInactive == inactive then [subs[0]] + Those(subs[1..], inactive)
    else Those(subs[1..], inactive)
  }

  lemma {:induction false} ThoseOneMore(front: seq<AgpsSubscriber>, last: AgpsSubscriber, inactive: bool)
    ensures Those(front + [last], inactive) ==
      Those(front, inactive) + (if last.isInactive == inactive then [last] else [])
    decreases |front|
  {
    if front != [] {
      ThoseOneMore(front[1..], last, inactive);
      assert (front + [last])[1..] == front[1..] + [last];
    }
  }

  /** One notice for each entry, in order. */
  function Notes(entries: seq<AgpsSubscriber>, notice: int -> AtlNotice): seq<AtlNotice> {
    seq(|entries|, k requires 0 <= k < |entries| => notice(entries[k].connHandle))
  }

  function ToldOpen(h: int): AtlNotice { OpenStatus(h, true) }
  function ToldFailed(h: int): AtlNotice { OpenStatus(h, false) }
  function ToldClosed(h: int): AtlNotice { CloseStatus(h) }
  function Lost(h: int): AtlNotice { Dropped(h) }

  function Audible(subs: seq<AgpsSubscriber>, a: Audience): seq<AgpsSubscriber> {
    match a
    case AllSubscribers => subs
    case InactiveSubscribers => Those(subs, true)
    case ActiveSubscribers => Those(subs, false)
  }

  function Inaudible(subs: seq<AgpsSubscriber>, a: Audience): seq<AgpsSubscriber> {
    match a
    case AllSubscribers => []
    case InactiveSubscribers => Those(subs, false)
    case ActiveSubscribers => Those(subs, true)
  }

  lemma {:induction false} SparedAreInaudible(subs: seq<AgpsSubscriber>, a: Audience)
    ensures Spared(subs, a) == Inaudible(subs, a)
    decreases |subs|
  {
    if subs != [] {
      var front, last := subs[..|subs| - 1], subs[|subs| - 1];
      SparedAreInaudible(front, a);
      ThoseOneMore(front, last, true);
      ThoseOneMore(front, last, false);
      assert front + [last] == subs;
    }
  }

  lemma NotesOneMore(entries: seq<AgpsSubscriber>, last: AgpsSubscriber, notice: int -> AtlNotice)
    ensures Notes(entries + [last], notice) == Notes(entries, notice) + [notice(last.connHandle)]
  {
  }

  lemma {:induction false} NoticesAreNotes(
    subs: seq<AgpsSubscriber>, a: Audience, e: AgpsEvent, notice: int -> AtlNotice)
    requires forall h :: NoticeOf(e, h) == [notice(h)]
    ensures Notices(subs, a, e) == Notes(Audible(subs, a), notice)
    decreases |subs|
  {
    if subs != [] {
      var front, last := subs[..|subs| - 1], subs[|subs| - 1];
      NoticesAreNotes(front, a, e, notice);
      ThoseOneMore(front, last, true);
      ThoseOneMore(front, last, false);
      NotesOneMore(Audible(front, a), last, notice);
      assert front + [last] == subs;
      assert Audible(subs, a) == Audible(front, a) + (if IsAddressed(a, last) then [last] else []);
    }
  }

  lemma {:induction false} DropsAreNotes(subs: seq<AgpsSubscriber>)
    ensures Drops(subs) == Notes(subs, Lost)
    decreases |subs|
  {
    if subs != [] {
      var front, last := subs[..|subs| - 1], subs[|subs| - 1];
      DropsAreNotes(front);
      NotesOneMore(front, last, Lost);
      assert front + [last] == subs;
    }
  }

  lemma {:induction false} AnyOfThose(subs: seq<AgpsSubscriber>)
    ensures AnyActive(subs) <==> Those(subs, false) != []
    ensures AnyActive(Those(subs, false)) <==> Those(subs, false) != []
    decreases |subs|
  {
    if subs != [] {
      AnyOfThose(subs[1..]);
      assert subs == [subs[0]] + subs[1..];
      if Those(subs, false) != [] {
        AllOfThose(subs, false, 0);
        assert Those(subs, false)[0] in Those(subs, false);
      }
    }
  }

  lemma {:induction false} AllOfThose(subs: seq<AgpsSubscriber>, inactive: bool, k: nat)
    requires k < |Those(subs, inactive)|
    ensures Those(subs, inactive)[k].isInactive == inactive
    decreases |subs|
  {
    if subs[0].isInactive != inactive {
      AllOfThose(subs[1..], inactive, k);
    } else if k > 0 {
      AllOfThose(subs[1..], inactive, k - 1);
    }
  }

  // ----- the inputs

  /** A request lists a new handle, as active and last; in Acquired it is told open-success
      first; and the framework is asked for a connection exactly in Released. */
  lemma RequestEffect(m: Machine, h: int, wait: bool)
    ensures var n, listed := Step(m, RequestATL(h, wait)), exists s :: s in m.subscribers && s.connHandle == h;
      && n.state == (if m.state == Released then Pending else m.state)
      && n.subscribers == m.subscribers + (if listed then [] else [AgpsSubscriber(h, wait, false)])
      && n.atl == m.atl + (if m.state == Acquired then [OpenStatus(h, true)] else [])
                  + (if listed then [] else [Listed(h)])
      && n.nif == m.nif + (if m.state == Released then [SentRequest] else [])
  {
  }

  lemma {:induction false} WithoutAt(subs: seq<AgpsSubscriber>, k: nat)
    requires Distinct(subs) && k < |subs|
    ensures Without(subs, subs[k].connHandle) == subs[..k] + subs[k + 1..]
    decreases |subs|
  {
    var front, h := subs[..|subs| - 1], subs[k].connHandle;
    if k < |front| {
      WithoutAt(front, k);
      assert subs[..k] + subs[k + 1..] == front[..k] + front[k + 1..] + [subs[|subs| - 1]];
    } else {
      WithoutNobody(front, h);
    }
  }

  lemma {:induction false} WithoutNobody(subs: seq<AgpsSubscriber>, h: int)
    requires forall i :: 0 <= i < |subs| ==> subs[i].connHandle != h
    ensures Without(subs, h) == subs
    decreases |subs|
  {
    if subs != [] {
      WithoutNobody(subs[..|subs| - 1], h);
    }
  }

  lemma FindAt(subs: seq<AgpsSubscriber>, k: nat)
    requires Distinct(subs) && k < |subs|
    ensures Find(subs, subs[k].connHandle) == Some(subs[k])
  {
    var s := Find(subs, subs[k].connHandle);
    assert subs[k] in subs;
    OnlyEntry(subs, subs[k]);
  }

  /** The list once the handle of entry k is released: if it waits for the close, it stays
      where it is, as inactive, and otherwise it goes. All others stay as they are. */
  function LeftBehind(subs: seq<AgpsSubscriber>, k: nat): seq<AgpsSubscriber>
    requires k < |subs|
  {
    if subs[k].waitForCloseComplete then subs[k := subs[k].(isInactive := true)] else subs[..k] + subs[k + 1..]
  }

  predicate OthersActive(subs: seq<AgpsSubscriber>, k: nat) {
    exists i :: 0 <= i < |subs| && i != k && !subs[i].isInactive
  }

  lemma LeavingLeaves(subs: seq<AgpsSubscriber>, k: nat)
    requires Distinct(subs) && k < |subs|
    ensures var s := subs[k];
      LeftBehind(subs, k) ==
        if s.waitForCloseComplete then Deactivated(subs, s.connHandle) else Without(subs, s.connHandle)
    ensures AnyActive(LeftBehind(subs, k)) <==> OthersActive(subs, k)
    ensures LeftBehind(subs, k) == [] <==> |subs| == 1 && !subs[k].waitForCloseComplete
  {
    WithoutAt(subs, k);
    OthersLeft(subs, k);
    assert Deactivated(subs, subs[k].connHandle) == subs[k := subs[k].(isInactive := true)];
  }

  lemma OthersLeft(subs: seq<AgpsSubscriber>, k: nat)
    requires k < |subs|
    ensures AnyActive(LeftBehind(subs, k)) <==> OthersActive(subs, k)
  {
    var left := LeftBehind(subs, k);
    if i :| 0 <= i < |subs| && i != k && !subs[i].isInactive {
      assert left[if i < k || subs[k].waitForCloseComplete then i else i - 1] in left;
    }
  }

  lemma LeavingEffect(m: Machine, k: nat)
    requires Distinct(m.subscribers) && k < |m.subscribers| && m.state != Released
    ensures var subs, s := m.subscribers, m.subscribers[k];
      var n, others := OnUnsubscribe(m, s), OthersActive(m.subscribers, k);
      && n.subscribers == LeftBehind(subs, k)
      && n.atl == m.atl + (if s.waitForCloseComplete then [] else [CloseStatus(s.connHandle)])
      && n.nif == m.nif + (if m.state != Releasing && !others then [SentRelease] else [])
      && n.state == (if |subs| == 1 && !s.waitForCloseComplete then Released
                     else if others then m.state else Releasing)
  {
    var left := Leave(m, m.subscribers[k]);
    LeavingLeaves(m.subscribers, k);
    assert left.subscribers == LeftBehind(m.subscribers, k);
    assert left.subscribers == [] ==> !AnyActive(left.subscribers);
  }

  /** A release of the handle of entry k tells the modem that it is closed exactly if it does
      not wait for the close, and nobody else anything. The framework is asked to release the
      connection exactly if it was asked for or up and no other handle is active. */
  lemma ReleaseEffect(m: Machine, k: nat)
    requires ListFits(m) && k < |m.subscribers|
    ensures var subs, s := m.subscribers, m.subscribers[k];
      var n, others := Step(m, ReleaseATL(s.connHandle)), OthersActive(m.subscribers, k);
      && n.subscribers == LeftBehind(subs, k)
      && n.atl == m.atl + (if s.waitForCloseComplete then [] else [CloseStatus(s.connHandle)])
      && n.nif == m.nif + (if m.state != Releasing && !others then [SentRelease] else [])
      && n.state == (if |subs| == 1 && !s.waitForCloseComplete then Released
                     else if others then m.state else Releasing)
  {
    FindAt(m.subscribers, k);
    LeavingEffect(m, k);
  }

  /** The release of a handle that is not listed does nothing. */
  lemma ReleaseOfNobody(m: Machine, h: int)
    requires forall s :: s in m.subscribers ==> s.connHandle != h
    ensures Step(m, ReleaseATL(h)) == m
  {
  }

  /** A grant makes a pending machine acquired and tells the active entries; in any other
      state nothing happens. */
  lemma GrantEffect(m: Machine)
    ensures var n := Step(m, OpenSuccess);
      && n.nif == m.nif + [GotGranted] && n.subscribers == m.subscribers
      && n.state == (if m.state == Pending then Acquired else m.state)
      && n.atl == m.atl + (if m.state == Pending then Notes(Those(m.subscribers, false), ToldOpen) else [])
  {
    NoticesAreNotes(m.subscribers, ActiveSubscribers, GrantedEvent, ToldOpen);
  }

  /** What both a close and a denial do in Releasing: whoever waited for the close is told and
      unlisted, and a new connection is asked for exactly if somebody is left. */
  predicate EndsRelease(m: Machine, n: Machine, t: NifTraffic) {
    var left := Those(m.subscribers, false);
    && n.subscribers == left && n.atl == m.atl + Notes(Those(m.subscribers, true), ToldClosed)
    && n.state == (if left != [] then Pending else Released)
    && n.nif == m.nif + [t] + (if left != [] then [SentRequest] else [])
  }

  lemma AfterReleaseEnds(m: Machine, t: NifTraffic)
    ensures EndsRelease(m, AfterRelease(m.(nif := m.nif + [t])), t)
  {
    NoticesAreNotes(m.subscribers, InactiveSubscribers, ReleasedEvent, ToldClosed);
    SparedAreInaudible(m.subscribers, InactiveSubscribers);
    AnyOfThose(m.subscribers);
  }

  /** Everybody is told, the list is empty and the machine idle. */
  predicate EndsAll(m: Machine, n: Machine, t: NifTraffic, notice: int -> AtlNotice) {
    n == Machine(Released, [], m.atl + Notes(m.subscribers, notice), m.nif + [t])
  }

  lemma EverybodyIsTold(m: Machine, t: NifTraffic, e: AgpsEvent, notice: int -> AtlNotice)
    requires forall h :: NoticeOf(e, h) == [notice(h)]
    ensures EndsAll(m, Broadcast(m.(nif := m.nif + [t], state := Released), e, true, AllSubscribers), t, notice)
  {
    NoticesAreNotes(m.subscribers, AllSubscribers, e, notice);
    SparedAreInaudible(m.subscribers, AllSubscribers);
  }

  /** A close ends a release, and forced in Acquired it ends all; otherwise nothing happens. */
  lemma CloseEffect(m: Machine)
    ensures var n := Step(m, Closed);
      match m.state
      case Releasing => EndsRelease(m, n, GotReleased)
      case Acquired => EndsAll(m, n, GotReleased, ToldClosed)
      case _ => n == m.(nif := m.nif + [GotReleased])
  {
    match m.state
    case Releasing => AfterReleaseEnds(m, GotReleased);
    case Acquired => EverybodyIsTold(m, GotReleased, ReleasedEvent, ToldClosed);
    case _ =>
  }

  /** A denial tells everybody waiting open-failure, or ends a release; otherwise nothing
      happens. */
  lemma DenialEffect(m: Machine)
    ensures var n := Step(m, OpenFailed);
      match m.state
      case Releasing => EndsRelease(m, n, GotDenied)
      case Pending => EndsAll(m, n, GotDenied, ToldFailed)
      case _ => n == m.(nif := m.nif + [GotDenied])
  {
    match m.state
    case Releasing => AfterReleaseEnds(m, GotDenied);
    case Pending => EverybodyIsTold(m, GotDenied, DeniedEvent, ToldFailed);
    case _ =>
  }

  /** A modem restart empties the list and changes nothing else; nobody is told. */
  lemma RestartEffect(m: Machine)
    ensures Step(m, ModemSSR) == m.(subscribers := [], atl := m.atl + Notes(m.subscribers, Lost))
  {
    DropsAreNotes(m.subscribers);
  }
}
