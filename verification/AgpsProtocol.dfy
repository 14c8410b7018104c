/** The AGPS data-connection protocol of one network interface, on values.

    The step functions below follow the event handlers of the base state machine
    branch by branch. The rest of the module says what those handlers are for:
    each subscriber sees a well-formed conversation, each list entry ends in
    exactly one closing notice, and the framework is never asked to open a
    connection that is open or to close one that is closed. */
module AgpsProtocol {
  import opened Optional

  datatype AgpsState = Released | Pending | Acquired | Releasing

  datatype AgpsEvent = SubscribeEvent | UnsubscribeEvent | GrantedEvent | ReleasedEvent | DeniedEvent

  datatype AgpsSubscriber = AgpsSubscriber(connHandle: int, waitForCloseComplete: bool, isInactive: bool)

  /** Which list entries a broadcast is meant for. */
  datatype Audience = AllSubscribers | InactiveSubscribers | ActiveSubscribers

  /** What happens to one connection handle: it enters the list, the modem is told
      open-success, open-failure or closed, or the entry goes without the modem being told,
      because the modem restarted or because another machine is asked instead. */
  datatype AtlNotice =
    | Listed(handle: int)
    | OpenStatus(handle: int, success: bool)
    | CloseStatus(handle: int)
    | Dropped(handle: int)

  /** Traffic with the owner of the data connection, in both directions. The last two only
      the emergency machine sends: the order to give up a call, and the restart of the client
      of the data service, which stops and gives up any call. */
  datatype NifTraffic =
    | SentRequest | SentRelease
    | GotGranted | GotReleased | GotDenied
    | HungUp | ClientRestarted

  datatype Machine = Machine(
    state: AgpsState,
    subscribers: seq<AgpsSubscriber>,
    atl: seq<AtlNotice>,
    nif: seq<NifTraffic>)

  const INITIAL: Machine := Machine(Released, [], [], [])

  // ----- the subscriber list

  predicate Lists(subs: seq<AgpsSubscriber>, h: int) {
    exists s :: s in subs && s.connHandle == h
  }

  /** Some entry of h is active. */
  predicate Serves(subs: seq<AgpsSubscriber>, h: int) {
    exists s :: s in subs && s.connHandle == h && !s.isInactive
  }

  ghost predicate Distinct(subs: seq<AgpsSubscriber>) {
    forall i, j :: 0 <= i < j < |subs| ==> subs[i].connHandle != subs[j].connHandle
  }

  predicate AnyActive(subs: seq<AgpsSubscriber>) {
    exists s :: s in subs && !s.isInactive
  }

  predicate AnyInactive(subs: seq<AgpsSubscriber>) {
    exists s :: s in subs && s.isInactive
  }

  /** The first entry with handle h. */
  function Find(subs: seq<AgpsSubscriber>, h: int): (s: Option<AgpsSubscriber>)
    ensures s.Some? <==> Lists(subs, h)
    ensures s.Some? ==> s.value in subs && s.value.connHandle == h
  {
    if subs == [] then None
    else if subs[0].connHandle == h then Some(subs[0])
    else
      var rest := Find(subs[1..], h);
      assert subs == [subs[0]] + subs[1..];
      rest
  }

  function Without(subs: seq<AgpsSubscriber>, h: int): seq<AgpsSubscriber> {
    if subs == [] then []
    else Without(subs[..|subs| - 1], h) + (if subs[|subs| - 1].connHandle == h then [] else [subs[|subs| - 1]])
  }

  function Deactivated(subs: seq<AgpsSubscriber>, h: int): seq<AgpsSubscriber> {
    seq(|subs|, i requires 0 <= i < |subs| =>
      if subs[i].connHandle == h then subs[i].(isInactive := true) else subs[i])
  }

  predicate IsAddressed(a: Audience, s: AgpsSubscriber) {
    a == AllSubscribers || (a == InactiveSubscribers && s.isInactive) || (a == ActiveSubscribers && !s.isInactive)
  }

  predicate Addresses(subs: seq<AgpsSubscriber>, a: Audience, h: int) {
    exists s :: s in subs && s.connHandle == h && IsAddressed(a, s)
  }

  /** The entries a deleting broadcast to audience a leaves in the list. */
  function Spared(subs: seq<AgpsSubscriber>, a: Audience): seq<AgpsSubscriber> {
    if subs == [] then []
    else Spared(subs[..|subs| - 1], a) + (if IsAddressed(a, subs[|subs| - 1]) then [] else [subs[|subs| - 1]])
  }

  /** The list a broadcast leaves. */
  function Left(subs: seq<AgpsSubscriber>, delete: bool, a: Audience): seq<AgpsSubscriber> {
    if delete then Spared(subs, a) else subs
  }

  function NoticeOf(e: AgpsEvent, h: int): seq<AtlNotice> {
    match e
    case GrantedEvent => [OpenStatus(h, true)]
    case DeniedEvent => [OpenStatus(h, false)]
    case UnsubscribeEvent => [CloseStatus(h)]
    case ReleasedEvent => [CloseStatus(h)]
    case SubscribeEvent => []
  }

  function Notices(subs: seq<AgpsSubscriber>, a: Audience, e: AgpsEvent): seq<AtlNotice> {
    if subs == [] then []
    else
      var last := subs[|subs| - 1];
      Notices(subs[..|subs| - 1], a, e) + (if IsAddressed(a, last) then NoticeOf(e, last.connHandle) else [])
  }

  function Drops(subs: seq<AgpsSubscriber>): seq<AtlNotice> {
    if subs == [] then [] else Drops(subs[..|subs| - 1]) + [Dropped(subs[|subs| - 1].connHandle)]
  }

  // ----- the event handlers

  function Listing(m: Machine, s: AgpsSubscriber): Machine {
    if Lists(m.subscribers, s.connHandle) then m
    else m.(subscribers := m.subscribers + [s], atl := m.atl + [Listed(s.connHandle)])
  }

  function Request(m: Machine): Machine { m.(nif := m.nif + [SentRequest]) }

  function Release(m: Machine): Machine { m.(nif := m.nif + [SentRelease]) }

  function Broadcast(m: Machine, e: AgpsEvent, delete: bool, a: Audience): Machine {
    m.(atl := m.atl + Notices(m.subscribers, a, e),
       subscribers := Left(m.subscribers, delete, a))
  }

  function OnSubscribe(m: Machine, s: AgpsSubscriber): Machine {
    match m.state
    case Released => Request(Listing(m, s)).(state := Pending)
    case Pending => Listing(m, s)
    case Acquired => Listing(m.(atl := m.atl + [OpenStatus(s.connHandle, true)]), s)
    case Releasing => Listing(m, s)
  }

  /** Either mark s inactive, or tell it that its connection is closed and unlist it. */
  function Leave(m: Machine, s: AgpsSubscriber): Machine {
    if s.waitForCloseComplete then
      m.(subscribers := Deactivated(m.subscribers, s.connHandle))
    else
      m.(atl := m.atl + [CloseStatus(s.connHandle)], subscribers := Without(m.subscribers, s.connHandle))
  }

  function OnUnsubscribe(m: Machine, s: AgpsSubscriber): Machine {
    match m.state
    case Released => m.(atl := m.atl + [CloseStatus(s.connHandle)])
    case Releasing =>
      var left := Leave(m, s);
      if left.subscribers == [] then left.(state := Released) else left
    case _ =>
      var left := Leave(m, s);
      if left.subscribers == [] then Release(left.(state := Released))
      else if !AnyActive(left.subscribers) then Release(left.(state := Releasing))
      else left
  }

  function OnGranted(m0: Machine): Machine {
    var m := m0.(nif := m0.nif + [GotGranted]);
    if m.state == Pending then Broadcast(m.(state := Acquired), GrantedEvent, false, ActiveSubscribers) else m
  }

  /** The data connection went down while it was being released. */
  function AfterRelease(m: Machine): Machine {
    var n := Broadcast(m, ReleasedEvent, true, InactiveSubscribers);
    if AnyActive(n.subscribers) then Request(n.(state := Pending)) else n.(state := Released)
  }

  function OnReleased(m0: Machine): Machine {
    var m := m0.(nif := m0.nif + [GotReleased]);
    match m.state
    case Acquired => Broadcast(m.(state := Released), ReleasedEvent, true, AllSubscribers)
    case Releasing => AfterRelease(m)
    case _ => m
  }

  function OnDenied(m0: Machine): Machine {
    var m := m0.(nif := m0.nif + [GotDenied]);
    match m.state
    case Pending => Broadcast(m.(state := Released), DeniedEvent, true, AllSubscribers)
    case Releasing => AfterRelease(m)
    case _ => m
  }

  function OnDropAll(m: Machine): Machine {
    m.(atl := m.atl + Drops(m.subscribers), subscribers := [])
  }

  /** What reaches one machine through the manager. */
  datatype Input =
    | RequestATL(handle: int, wait: bool)
    | ReleaseATL(handle: int)
    | OpenSuccess
    | OpenFailed
    | Closed
    | ModemSSR

  function Step(m: Machine, input: Input): Machine {
    match input
    case RequestATL(h, wait) => OnSubscribe(m, AgpsSubscriber(h, wait, false))
    case ReleaseATL(h) =>
      var s := Find(m.subscribers, h);
      if s.Some? then OnUnsubscribe(m, s.value) else m
    case OpenSuccess => OnGranted(m)
    case OpenFailed => OnDenied(m)
    case Closed => OnReleased(m)
    case ModemSSR => OnDropAll(m)
  }

  function Run(inputs: seq<Input>): Machine {
    if inputs == [] then INITIAL else Step(Run(inputs[..|inputs| - 1]), inputs[|inputs| - 1])
  }

  // ----- what a subscriber may see

  /** Welcomed: told open-success, about to be listed. Waiting: listed, nothing heard.
      Open: listed and told open-success. Broken: a notice came at the wrong time. */
  datatype Conversation = Absent | Welcomed | Waiting | Open | Broken

  function Hear(c: Conversation, n: AtlNotice): Conversation {
    match c
    case Absent => (match n case Listed(_) => Waiting case OpenStatus(_, true) => Welcomed case _ => Broken)
    case Welcomed => if n.Listed? then Open else Broken
    case Waiting => (match n case Listed(_) => Broken case OpenStatus(_, true) => Open case _ => Absent)
    case Open =>
      (match n
       case OpenStatus(_, true) => Open
       case CloseStatus(_) => Absent
       case Dropped(_) => Absent
       case _ => Broken)
    case Broken => Broken
  }

  /** The conversation with handle h after the notices in log. */
  function Talk(log: seq<AtlNotice>, h: int): Conversation {
    if log == [] then Absent
    else
      var before := Talk(log[..|log| - 1], h);
      if log[|log| - 1].handle == h then Hear(before, log[|log| - 1]) else before
  }

  // ----- what the framework may see

  datatype Link = Down | Asked | Up | Misused

  function Carry(l: Link, t: NifTraffic): Link {
    match t
    case SentRequest => if l == Down then Asked else Misused
    case SentRelease => if l == Asked || l == Up then Down else Misused
    case GotGranted => if l == Asked then Up else l
    case GotReleased => if l == Up then Down else l
    case GotDenied => if l == Asked then Down else l
    case HungUp => if l == Misused then l else Down
    case ClientRestarted => if l == Misused then l else Down
  }

  function LinkOf(log: seq<NifTraffic>): Link {
    if log == [] then Down else Carry(LinkOf(log[..|log| - 1]), log[|log| - 1])
  }

  function ExpectedLink(s: AgpsState): Link {
    match s
    case Pending => Asked
    case Acquired => Up
    case _ => Down
  }

  // ----- the invariant

  /** The conversation c with handle h fits the state and the entry of h. */
  ghost predicate ConversationFits(state: AgpsState, subs: seq<AgpsSubscriber>, c: Conversation, h: int) {
    if !Lists(subs, h) then c == Absent
    else
      && (c == Waiting || c == Open)
      && (state == Pending ==> c == Waiting)
      && (forall s :: s in subs && s.connHandle == h && !s.isInactive ==> (c == Open <==> state == Acquired))
  }

  ghost predicate TalkFits(m: Machine, h: int) {
    ConversationFits(m.state, m.subscribers, Talk(m.atl, h), h)
  }

  ghost predicate ListFits(m: Machine) {
    && Distinct(m.subscribers)
    && (m.state == Released ==> m.subscribers == [])
    && (forall s :: s in m.subscribers && s.isInactive ==> s.waitForCloseComplete)
  }

  ghost predicate Invariant(m: Machine) {
    && ListFits(m)
    && (forall h :: TalkFits(m, h))
    && LinkOf(m.nif) == ExpectedLink(m.state)
  }

  /** What holds on top while the modem has not restarted. */
  ghost predicate Attended(m: Machine) {
    && (m.state == Pending || m.state == Acquired ==> AnyActive(m.subscribers))
    && (m.state == Releasing ==> AnyInactive(m.subscribers))
  }
}
