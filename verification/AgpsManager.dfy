/** The manager of the AGPS machines: which of them a call reaches. */
module AgpsManager {
  import opened Optional
  import opened AgpsProtocol
  import opened AgpsSafety
  import opened AgpsMachine
  import opened DsMachine
  import opened DsStateMachine

  /** Connection types as the modem names them. */
  datatype AgpsType = TypeInvalid | TypeAny | TypeSupl | TypeC2k | TypeWwanAny | TypeWifi | TypeSuplEs

  /** What the manager itself answers when no machine takes a call. */
  datatype Refusal = OpenRefused(handle: int, agpsType: AgpsType) | CloseRefused(handle: int)

  /** emergencyPdn is the configuration that gives emergency calls a machine of their own;
      clientRestarts counts how often the client of the data service was restarted. */
  datatype ManagerValue = ManagerValue(
    agnss: Option<Machine>, internet: Option<Machine>, ds: Option<Ds>,
    emergencyPdn: bool, refusals: seq<Refusal>, clientRestarts: nat)

  const FRESH_MANAGER := ManagerValue(None, None, None, true, [], 0)

  /** What the manager meets when it creates machines: whether the configured capabilities
      ask for more than the internet one, and whether the data service can be initialized. */
  datatype Setting = Setting(agpsCapable: bool, dsInitializes: bool)

  /** Entry points of the manager, and changes of the configuration. */
  datatype Call =
    | CreateCall(setting: Setting)
    | RequestCall(handle: int, agpsType: AgpsType, setting: Setting, attempt: Attempt)
    | ReleaseCall(handle: int, canStop: bool)
    | OpenSuccessCall(agpsType: AgpsType, setting: Setting)
    | OpenFailedCall(agpsType: AgpsType, setting: Setting, attempt: Attempt)
    | ClosedCall(agpsType: AgpsType, setting: Setting, attempt: Attempt)
    | DataCallOpenedCall
    | DataCallClosedCall(attempt: Attempt)
    | ModemSSRCall
    | SetEmergencyPdnCall(on: bool)

  datatype Target = Agnss | Internet | Emergency

  function TargetOf(t: AgpsType, emergencyPdn: bool): Target {
    match t
    case TypeInvalid => Agnss
    case TypeSupl => Agnss
    case TypeSuplEs => if emergencyPdn then Emergency else Agnss
    case _ => Internet
  }

  function Created(v: ManagerValue, setting: Setting): ManagerValue {
    v.(internet := if v.internet == None then Some(INITIAL) else v.internet,
       agnss := if v.agnss == None && setting.agpsCapable then Some(INITIAL) else v.agnss,
       ds := if v.ds == None && setting.agpsCapable && v.emergencyPdn && setting.dsInitializes then Some(DS_INITIAL)
             else v.ds)
  }

  /** Looking for the emergency machine creates what is missing. */
  function Prepared(v: ManagerValue, t: AgpsType, setting: Setting): ManagerValue {
    if TargetOf(t, v.emergencyPdn) == Emergency && v.ds == None then Created(v, setting) else v
  }

  function StepOption(m: Option<Machine>, input: Input): Option<Machine> {
    match m case None => None case Some(v) => Some(Step(v, input))
  }

  function DsStepOption(m: Option<Ds>, input: DsInput): Option<Ds> {
    match m case None => None case Some(v) => Some(DsStep(v, input))
  }

  /** The input reaches the machine meant, if there is one. */
  function ReachTarget(v: ManagerValue, target: Target, input: Input, dsInput: DsInput): ManagerValue {
    match target
    case Agnss => v.(agnss := StepOption(v.agnss, input))
    case Internet => v.(internet := StepOption(v.internet, input))
    case Emergency => v.(ds := DsStepOption(v.ds, dsInput))
  }

  function Reach(v: ManagerValue, t: AgpsType, input: Input, dsInput: DsInput): ManagerValue {
    ReachTarget(v, TargetOf(t, v.emergencyPdn), input, dsInput)
  }

  predicate HasTarget(v: ManagerValue, t: AgpsType) {
    match TargetOf(t, v.emergencyPdn)
    case Agnss => v.agnss.Some?
    case Internet => v.internet.Some?
    case Emergency => v.ds.Some?
  }

  predicate ListedBy(m: Option<Machine>, h: int) { m.Some? && Lists(m.value.subscribers, h) }

  predicate ListedByDs(m: Option<Ds>, h: int) { m.Some? && Lists(m.value.subscribers, h) }

  function Requested(v: ManagerValue, h: int, t: AgpsType, attempt: Attempt): ManagerValue {
    if !HasTarget(v, t) then v.(refusals := v.refusals + [OpenRefused(h, t)])
    else Reach(v, t, RequestATL(h, t == TypeSuplEs), DsRequest(h, attempt))
  }

  /** Only the first machine that lists the handle hears of its release. */
  function ReleasedBy(v: ManagerValue, h: int, canStop: bool): ManagerValue {
    if ListedBy(v.agnss, h) then v.(agnss := StepOption(v.agnss, ReleaseATL(h)))
    else if ListedBy(v.internet, h) then v.(internet := StepOption(v.internet, ReleaseATL(h)))
    else if ListedByDs(v.ds, h) then v.(ds := DsStepOption(v.ds, DsRelease(h, canStop)))
    else v.(refusals := v.refusals + [CloseRefused(h)])
  }

  function Restarted(v: ManagerValue): ManagerValue {
    v.(agnss := StepOption(v.agnss, ModemSSR), internet := StepOption(v.internet, ModemSSR),
       ds := DsStepOption(v.ds, DsRestart(v.emergencyPdn)),
       clientRestarts := v.clientRestarts + if v.emergencyPdn then 1 else 0)
  }

  function ManagerStep(v: ManagerValue, call: Call): ManagerValue {
    match call
    case CreateCall(setting) => Created(v, setting)
    case RequestCall(h, t, setting, attempt) => Requested(Prepared(v, t, setting), h, t, attempt)
    case ReleaseCall(h, canStop) => ReleasedBy(v, h, canStop)
    case OpenSuccessCall(t, setting) => Reach(Prepared(v, t, setting), t, OpenSuccess, DsOpened)
    case OpenFailedCall(t, setting, attempt) => Reach(Prepared(v, t, setting), t, OpenFailed, DsFailed(attempt))
    case ClosedCall(t, setting, attempt) => Reach(Prepared(v, t, setting), t, Closed, DsClosed(attempt))
    case DataCallOpenedCall => v.(ds := DsStepOption(v.ds, DsOpened))
    case DataCallClosedCall(attempt) => v.(ds := DsStepOption(v.ds, DsClosed(attempt)))
    case ModemSSRCall => Restarted(v)
    case SetEmergencyPdnCall(on) => v.(emergencyPdn := on)
  }

  function ManagerRun(calls: seq<Call>): ManagerValue {
    if calls == [] then FRESH_MANAGER else ManagerStep(ManagerRun(calls[..|calls| - 1]), calls[|calls| - 1])
  }

  // ----- the machines see only runs of their own

  ghost predicate Reachable(m: Machine) { exists inputs :: Run(inputs) == m }

  ghost predicate DsReachable(m: Ds) { exists inputs :: DsRun(inputs) == m }

  /** The machine, if there is one, has only seen a run of its own inputs. */
  ghost predicate Safe(m: Option<Machine>) {
    m.Some? ==> Reachable(m.value) && Invariant(m.value)
  }

  ghost predicate DsSafe(m: Option<Ds>) {
    m.Some? ==> DsReachable(m.value) && DsFits(m.value)
  }

  ghost predicate AllSafe(v: ManagerValue) {
    Safe(v.agnss) && Safe(v.internet) && DsSafe(v.ds)
  }

  lemma StepStaysSafe(m: Option<Machine>, input: Input)
    requires Safe(m)
    ensures Safe(StepOption(m, input))
  {
    if m.Some? {
      var inputs :| Run(inputs) == m.value;
      assert (inputs + [input])[..|inputs|] == inputs;
      assert Run(inputs + [input]) == Step(m.value, input);
      StepKeeps(m.value, input);
    }
  }

  lemma DsStepStaysSafe(m: Option<Ds>, input: DsInput)
    requires DsSafe(m)
    ensures DsSafe(DsStepOption(m, input))
  {
    if m.Some? {
      var inputs :| DsRun(inputs) == m.value;
      DsRunOneMore(inputs, input);
      DsStepKeeps(m.value, input);
    }
  }

  lemma CreatedStaysSafe(v: ManagerValue, setting: Setting)
    requires AllSafe(v)
    ensures AllSafe(Created(v, setting))
  {
    assert Run([]) == INITIAL && DsRun([]) == DS_INITIAL;
    RunIsSafe([]);
    DsRunIsSafe([]);
  }

  lemma ReachStaysSafe(v: ManagerValue, t: AgpsType, input: Input, dsInput: DsInput)
    requires AllSafe(v)
    ensures AllSafe(Reach(v, t, input, dsInput))
  {
    match TargetOf(t, v.emergencyPdn)
    case Agnss => StepStaysSafe(v.agnss, input);
    case Internet => StepStaysSafe(v.internet, input);
    case Emergency => DsStepStaysSafe(v.ds, dsInput);
  }

  lemma PreparedStaysSafe(v: ManagerValue, t: AgpsType, setting: Setting)
    requires AllSafe(v)
    ensures AllSafe(Prepared(v, t, setting))
  {
    CreatedStaysSafe(v, setting);
  }

  lemma PreparedReachStaysSafe(v: ManagerValue, t: AgpsType, setting: Setting, input: Input, dsInput: DsInput)
    requires AllSafe(v)
    ensures AllSafe(Reach(Prepared(v, t, setting), t, input, dsInput))
  {
    PreparedStaysSafe(v, t, setting);
    ReachStaysSafe(Prepared(v, t, setting), t, input, dsInput);
  }

  predicate IsReport(call: Call) {
    call.OpenSuccessCall? || call.OpenFailedCall? || call.ClosedCall? || call.DataCallOpenedCall? ||
    call.DataCallClosedCall?
  }

  lemma ReportStaysSafe(v: ManagerValue, call: Call)
    requires AllSafe(v) && IsReport(call)
    ensures AllSafe(ManagerStep(v, call))
  {
    match call
    case OpenSuccessCall(t, setting) =>
      PreparedReachStaysSafe(v, t, setting, OpenSuccess, DsOpened);
    case OpenFailedCall(t, setting, attempt) =>
      PreparedReachStaysSafe(v, t, setting, OpenFailed, DsFailed(attempt));
    case ClosedCall(t, setting, attempt) =>
      PreparedReachStaysSafe(v, t, setting, Closed, DsClosed(attempt));
    case DataCallOpenedCall => DsStepStaysSafe(v.ds, DsOpened);
    case DataCallClosedCall(attempt) => DsStepStaysSafe(v.ds, DsClosed(attempt));
  }

  lemma ReleaseStaysSafe(v: ManagerValue, h: int, canStop: bool)
    requires AllSafe(v)
    ensures AllSafe(ReleasedBy(v, h, canStop))
  {
    StepStaysSafe(v.agnss, ReleaseATL(h));
    StepStaysSafe(v.internet, ReleaseATL(h));
    DsStepStaysSafe(v.ds, DsRelease(h, canStop));
  }

  lemma RestartStaysSafe(v: ManagerValue)
    requires AllSafe(v)
    ensures AllSafe(Restarted(v))
  {
    StepStaysSafe(v.agnss, ModemSSR);
    StepStaysSafe(v.internet, ModemSSR);
    DsStepStaysSafe(v.ds, DsRestart(v.emergencyPdn));
  }

  lemma ManagerStepStaysSafe(v: ManagerValue, call: Call)
    requires AllSafe(v)
    ensures AllSafe(ManagerStep(v, call))
  {
    match call
    case CreateCall(setting) => CreatedStaysSafe(v, setting);
    case RequestCall(h, t, setting, attempt) =>
      PreparedReachStaysSafe(v, t, setting, RequestATL(h, t == TypeSuplEs), DsRequest(h, attempt));
    case ReleaseCall(h, canStop) => ReleaseStaysSafe(v, h, canStop);
    case ModemSSRCall => RestartStaysSafe(v);
    case SetEmergencyPdnCall(_) =>
    case _ => ReportStaysSafe(v, call);
  }

  /** Whatever is called on the manager, and however the configuration changes, each of its
      three machines has only seen a run of its own inputs, so every theorem about runs
      applies to it. */
  lemma {:induction false} MachinesOnlyRun(calls: seq<Call>)
    ensures AllSafe(ManagerRun(calls))
    decreases |calls|
  {
    if calls != [] {
      MachinesOnlyRun(calls[..|calls| - 1]);
      ManagerStepStaysSafe(ManagerRun(calls[..|calls| - 1]), calls[|calls| - 1]);
    }
  }

  // ----- a release across the machines

  predicate ServedBy(m: Option<Machine>, h: int) { m.Some? && Serves(m.value.subscribers, h) }

  predicate ServedByDs(m: Option<Ds>, h: int) { m.Some? && Serves(m.value.subscribers, h) }

  /** Some machine still works for the handle. */
  predicate Served(v: ManagerValue, h: int) {
    ServedBy(v.agnss, h) || ServedBy(v.internet, h) || ServedByDs(v.ds, h)
  }

  lemma BaseReleaseTakesEffect(m: Machine, h: int)
    requires Invariant(m)
    ensures !Serves(Step(m, ReleaseATL(h)).subscribers, h)
  {
    ReleaseIsFinal(m, h);
  }

  /** A handle may be listed by several machines, as one handed over by the emergency
      machine is. Releasing it ends all work for it exactly if no machine asked later
      works for it, and the emergency machine, if it is the one asked, is not idle. */
  lemma ReleaseReachesOneMachine(calls: seq<Call>, h: int, canStop: bool)
    ensures var v := ManagerRun(calls);
      !Served(ManagerStep(v, ReleaseCall(h, canStop)), h) <==>
        if ListedBy(v.agnss, h) then !ServedBy(v.internet, h) && !ServedByDs(v.ds, h)
        else if ListedBy(v.internet, h) then !ServedByDs(v.ds, h)
        else ListedByDs(v.ds, h) ==> v.ds.value.state != Released
  {
    MachinesOnlyRun(calls);
    var v := ManagerRun(calls);
    if ListedBy(v.agnss, h) {
      BaseReleaseTakesEffect(v.agnss.value, h);
    } else if ListedBy(v.internet, h) {
      BaseReleaseTakesEffect(v.internet.value, h);
    } else if ListedByDs(v.ds, h) {
      ReleaseTakesEffect(v.ds.value, h, canStop);
    }
  }

  lemma CallOneMore(calls: seq<Call>, call: Call)
    ensures ManagerRun(calls + [call]) == ManagerStep(ManagerRun(calls), call)
  {
    assert (calls + [call])[..|calls|] == calls;
  }

  lemma UnsupportedHandsOver(h: int)
    ensures DsStep(DS_INITIAL, DsRequest(h, Unsupported)) ==
      Ds(Released, [AgpsSubscriber(h, true, false)], 0, [h], [Listed(h)], [])
  {
  }

  lemma FirstRequestIsListed(h: int)
    ensures Lists(Step(INITIAL, RequestATL(h, false)).subscribers, h)
  {
    assert AgpsSubscriber(h, false, false) in Step(INITIAL, RequestATL(h, false)).subscribers;
  }

  lemma ReleaseSkipsLaterMachines(v: ManagerValue, h: int, canStop: bool)
    requires ListedBy(v.agnss, h) && ServedByDs(v.ds, h)
    ensures Served(ManagerStep(v, ReleaseCall(h, canStop)), h)
  {
  }

  /** The manager with all machines created, after the emergency machine handed h over and
      after the normal machine took it as well. */
  function HandedOver(h: int): ManagerValue {
    var ds := Ds(Released, [AgpsSubscriber(h, true, false)], 0, [h], [Listed(h)], []);
    ManagerValue(Some(INITIAL), Some(INITIAL), Some(ds), true, [], 0)
  }

  function TakenTwice(h: int): ManagerValue {
    HandedOver(h).(agnss := Some(Step(INITIAL, RequestATL(h, false))))
  }

  const ALL_AVAILABLE := Setting(true, true)

  lemma HandoverRun(h: int)
    ensures HandedOver(h) ==
      ManagerRun([CreateCall(ALL_AVAILABLE), RequestCall(h, TypeSuplEs, ALL_AVAILABLE, Unsupported)])
  {
    var create, ask := CreateCall(ALL_AVAILABLE), RequestCall(h, TypeSuplEs, ALL_AVAILABLE, Unsupported);
    CallOneMore([], create);
    CallOneMore([create], ask);
    assert [] + [create] == [create] && [create] + [ask] == [create, ask];
    UnsupportedHandsOver(h);
  }

  /** A handle handed over because an attempt failed is listed twice once the normal machine
      has taken it, and is still worked for after its release. */
  lemma HandedOverHandleStaysServed(h: int, canStop: bool)
    ensures var handover := [CreateCall(ALL_AVAILABLE), RequestCall(h, TypeSuplEs, ALL_AVAILABLE, Unsupported)];
      var taken := handover + [RequestCall(h, TypeSupl, ALL_AVAILABLE, Sent)];
      && ManagerRun(taken).ds.Some? && ManagerRun(taken).ds.value.fallbacks == [h]
      && ListedBy(ManagerRun(taken).agnss, h) && ListedByDs(ManagerRun(taken).ds, h)
      && Served(ManagerRun(taken + [ReleaseCall(h, canStop)]), h)
  {
    var handover := [CreateCall(ALL_AVAILABLE), RequestCall(h, TypeSuplEs, ALL_AVAILABLE, Unsupported)];
    var askAgain := RequestCall(h, TypeSupl, ALL_AVAILABLE, Sent);
    HandoverRun(h);
    CallOneMore(handover, askAgain);
    assert ManagerStep(HandedOver(h), askAgain) == TakenTwice(h);
    CallOneMore(handover + [askAgain], ReleaseCall(h, canStop));
    FirstRequestIsListed(h);
    assert AgpsSubscriber(h, true, false) in TakenTwice(h).ds.value.subscribers;
    ReleaseSkipsLaterMachines(TakenTwice(h), h, canStop);
  }

  function InputOf(e: AgpsEvent): Input {
    match e case GrantedEvent => OpenSuccess case DeniedEvent => OpenFailed case _ => Closed
  }

  function DsInputOf(e: AgpsEvent, attempt: Attempt): DsInput {
    match e case GrantedEvent => DsOpened case DeniedEvent => DsFailed(attempt) case _ => DsClosed(attempt)
  }

  lemma EventIsInput(m: Ds, e: AgpsEvent, current: Option<AgpsSubscriber>, canStop: bool, attempt: Attempt)
    requires e != SubscribeEvent && e != UnsubscribeEvent
    ensures DsHandle(m, e, current, canStop, attempt) == DsStep(m, DsInputOf(e, attempt))
  {
  }

  class AgpsManager {
    var mAgnssNif: AgpsStateMachine?
    var mInternetNif: AgpsStateMachine?
    var mDsNif: DSStateMachine?
    var emergencyPdn: bool
    ghost var refusals: seq<Refusal>
    ghost var clientRestarts: nat

    ghost predicate Valid()
      reads this
    {
      && (mAgnssNif != null && mInternetNif != null ==> mAgnssNif != mInternetNif)
      && (mDsNif != null ==> mDsNif.base != mAgnssNif && mDsNif.base != mInternetNif)
    }

    /** All objects that belong to the machines. */
    ghost function Machines(): set<object>
      reads this
    {
      (if mAgnssNif == null then {} else {mAgnssNif})
      + (if mInternetNif == null then {} else {mInternetNif})
      + (if mDsNif == null then {} else {mDsNif, mDsNif.base})
    }

    ghost function Value(): ManagerValue
      reads this, Machines()
    {
      ManagerValue(
        if mAgnssNif == null then None else Some(mAgnssNif.Value()),
        if mInternetNif == null then None else Some(mInternetNif.Value()),
        if mDsNif == null then None else Some(mDsNif.Value()),
        emergencyPdn, refusals, clientRestarts)
    }

    constructor ()
      ensures Valid() && Value() == FRESH_MANAGER && Machines() == {}
    {
      mAgnssNif, mInternetNif, mDsNif, emergencyPdn := null, null, null, true;
      refusals, clientRestarts := [], 0;
    }

    method CreateAgpsStateMachines(setting: Setting)
      requires Valid()
      modifies this`mAgnssNif, this`mInternetNif, this`mDsNif
      ensures Valid() && Value() == Created(old(Value()), setting)
      ensures fresh(Machines() - old(Machines()))
    {
      if mInternetNif == null {
        mInternetNif := new AgpsStateMachine();
      }
      if setting.agpsCapable {
        if mAgnssNif == null {
          mAgnssNif := new AgpsStateMachine();
        }
        if mDsNif == null && emergencyPdn && setting.dsInitializes {
          mDsNif := new DSStateMachine();
        }
      }
    }

    /** Which machine is meant; looking for the emergency one may create it. */
    method GetAgpsStateMachine(t: AgpsType, setting: Setting) returns (target: Target, found: bool)
      requires Valid()
      modifies this`mAgnssNif, this`mInternetNif, this`mDsNif
      ensures Valid() && Value() == Prepared(old(Value()), t, setting) && target == TargetOf(t, emergencyPdn)
      ensures found == Has(target) == HasTarget(Value(), t)
      ensures fresh(Machines() - old(Machines()))
    {
      match t {
        case TypeInvalid => target := Agnss;
        case TypeSupl => target := Agnss;
        case TypeSuplEs =>
          if emergencyPdn {
            if mDsNif == null {
              CreateAgpsStateMachines(setting);
            }
            target := Emergency;
          } else {
            target := Agnss;
          }
        case _ => target := Internet;
      }
      found := match target
        case Agnss => mAgnssNif != null
        case Internet => mInternetNif != null
        case Emergency => mDsNif != null;
    }

    ghost predicate Has(target: Target)
      reads this
    {
      match target
      case Agnss => mAgnssNif != null
      case Internet => mInternetNif != null
      case Emergency => mDsNif != null
    }

    /** A new subscriber for the machine meant. */
    method Subscribe(target: Target, s: AgpsSubscriber, canStop: bool, attempt: Attempt)
      requires Valid() && Has(target) && !s.isInactive && (target == Emergency ==> s.waitForCloseComplete)
      modifies Machines()
      ensures Valid() && Machines() == old(Machines())
      ensures Value() == ReachTarget(
        old(Value()), target, Input.RequestATL(s.connHandle, s.waitForCloseComplete), DsRequest(s.connHandle, attempt))
    {
      match target
      case Agnss =>
        mAgnssNif.SetCurrentSubscriber(s);
        mAgnssNif.ProcessAgpsEvent(SubscribeEvent);
      case Internet =>
        mInternetNif.SetCurrentSubscriber(s);
        mInternetNif.ProcessAgpsEvent(SubscribeEvent);
      case Emergency =>
        mDsNif.base.SetCurrentSubscriber(s);
        mDsNif.ProcessAgpsEvent(SubscribeEvent, canStop, attempt);
    }

    method SubscribeOrRefuse(connHandle: int, t: AgpsType, target: Target, found: bool, canStop: bool, attempt: Attempt)
      requires Valid() && found == Has(target) == HasTarget(Value(), t) && target == TargetOf(t, emergencyPdn)
      modifies this`refusals, Machines()
      ensures Valid() && Machines() == old(Machines())
      ensures Value() == Requested(old(Value()), connHandle, t, attempt)
    {
      if found {
        Subscribe(target, AgpsSubscriber(connHandle, t == TypeSuplEs, false), canStop, attempt);
      } else {
        refusals := refusals + [OpenRefused(connHandle, t)];
      }
    }

    method RequestATL(connHandle: int, t: AgpsType, setting: Setting, canStop: bool, attempt: Attempt)
      requires Valid()
      modifies this, Machines()
      ensures Valid() && Value() == ManagerStep(old(Value()), RequestCall(connHandle, t, setting, attempt))
      ensures fresh(Machines() - old(Machines()))
    {
      var target, found := GetAgpsStateMachine(t, setting);
      SubscribeOrRefuse(connHandle, t, target, found, canStop, attempt);
    }

    /** The machine that lists the handle, looked for in order. */
    method FindSubscriber(connHandle: int) returns (target: Option<Target>, s: Option<AgpsSubscriber>)
      requires Valid()
      ensures var v := Value();
        target == if ListedBy(v.agnss, connHandle) then Some(Agnss)
                  else if ListedBy(v.internet, connHandle) then Some(Internet)
                  else if ListedByDs(v.ds, connHandle) then Some(Emergency) else None
      ensures target == Some(Agnss) ==> mAgnssNif != null && s == Find(mAgnssNif.mSubscriberList, connHandle)
      ensures target == Some(Internet) ==> mInternetNif != null && s == Find(mInternetNif.mSubscriberList, connHandle)
      ensures target == Some(Emergency) ==> mDsNif != null && s == Find(mDsNif.base.mSubscriberList, connHandle)
      ensures target.Some? ==> s.Some?
    {
      s := None;
      if mAgnssNif != null {
        s := mAgnssNif.GetSubscriber(connHandle);
        if s.Some? {
          return Some(Agnss), s;
        }
      }
      if mInternetNif != null {
        s := mInternetNif.GetSubscriber(connHandle);
        if s.Some? {
          return Some(Internet), s;
        }
      }
      if mDsNif != null {
        s := mDsNif.base.GetSubscriber(connHandle);
        if s.Some? {
          return Some(Emergency), s;
        }
      }
      return None, None;
    }

    method ReleaseFromClient(connHandle: int, s: AgpsSubscriber, canStop: bool, attempt: Attempt)
      requires Valid() && mDsNif != null && Find(mDsNif.base.mSubscriberList, connHandle) == Some(s)
      modifies Machines()
      ensures Valid() && Machines() == old(Machines())
      ensures Value() == old(Value()).(ds := DsStepOption(old(Value()).ds, DsRelease(connHandle, canStop)))
    {
      mDsNif.base.SetCurrentSubscriber(s);
      mDsNif.ProcessAgpsEvent(UnsubscribeEvent, canStop, attempt);
    }

    method ReleaseATL(connHandle: int, canStop: bool, attempt: Attempt)
      requires Valid()
      modifies this, Machines()
      ensures Valid() && Value() == ManagerStep(old(Value()), ReleaseCall(connHandle, canStop))
      ensures Machines() == old(Machines())
    {
      var target, subscriber := FindSubscriber(connHandle);
      match target
      case Some(Agnss) =>
        mAgnssNif.SetCurrentSubscriber(subscriber.value);
        mAgnssNif.ProcessAgpsEvent(UnsubscribeEvent);
      case Some(Internet) =>
        mInternetNif.SetCurrentSubscriber(subscriber.value);
        mInternetNif.ProcessAgpsEvent(UnsubscribeEvent);
      case Some(Emergency) =>
        ReleaseFromClient(connHandle, subscriber.value, canStop, attempt);
      case None =>
        refusals := refusals + [CloseRefused(connHandle)];
    }

    /** A report for the machine meant, which must exist: it is used without a check. */
    method Dispatch(target: Target, e: AgpsEvent, canStop: bool, attempt: Attempt)
      requires Valid() && Has(target) && e != SubscribeEvent && e != UnsubscribeEvent
      modifies Machines()
      ensures Valid() && Machines() == old(Machines())
      ensures Value() == ReachTarget(old(Value()), target, InputOf(e), DsInputOf(e, attempt))
    {
      match target
      case Agnss => mAgnssNif.ProcessAgpsEvent(e);
      case Internet => mInternetNif.ProcessAgpsEvent(e);
      case Emergency => DispatchToClient(e, canStop, attempt);
    }

    method DispatchToClient(e: AgpsEvent, canStop: bool, attempt: Attempt)
      requires Valid() && mDsNif != null && e != SubscribeEvent && e != UnsubscribeEvent
      modifies Machines()
      ensures Valid() && Machines() == old(Machines())
      ensures Value() == old(Value()).(ds := DsStepOption(old(Value()).ds, DsInputOf(e, attempt)))
    {
      EventIsInput(mDsNif.Value(), e, mDsNif.base.mCurrentSubscriber, canStop, attempt);
      mDsNif.ProcessAgpsEvent(e, canStop, attempt);
    }

    method ReportAtlOpenSuccess(t: AgpsType, setting: Setting, canStop: bool, attempt: Attempt)
      requires Valid() && HasTarget(Prepared(Value(), t, setting), t)
      modifies this, Machines()
      ensures Valid() && Value() == ManagerStep(old(Value()), OpenSuccessCall(t, setting))
    {
      var target, _ := GetAgpsStateMachine(t, setting);
      Dispatch(target, GrantedEvent, canStop, attempt);
    }

    method ReportAtlOpenFailed(t: AgpsType, setting: Setting, canStop: bool, attempt: Attempt)
      requires Valid() && HasTarget(Prepared(Value(), t, setting), t)
      modifies this, Machines()
      ensures Valid() && Value() == ManagerStep(old(Value()), OpenFailedCall(t, setting, attempt))
    {
      var target, _ := GetAgpsStateMachine(t, setting);
      Dispatch(target, DeniedEvent, canStop, attempt);
    }

    method ReportAtlClosed(t: AgpsType, setting: Setting, canStop: bool, attempt: Attempt)
      requires Valid() && HasTarget(Prepared(Value(), t, setting), t)
      modifies this, Machines()
      ensures Valid() && Value() == ManagerStep(old(Value()), ClosedCall(t, setting, attempt))
    {
      var target, _ := GetAgpsStateMachine(t, setting);
      Dispatch(target, ReleasedEvent, canStop, attempt);
    }

    method ReportDataCallOpened(canStop: bool, attempt: Attempt)
      requires Valid()
      modifies Machines()
      ensures Valid() && Value() == ManagerStep(old(Value()), DataCallOpenedCall)
    {
      if mDsNif != null {
        Dispatch(Emergency, GrantedEvent, canStop, attempt);
      }
    }

    method ReportDataCallClosed(canStop: bool, attempt: Attempt)
      requires Valid()
      modifies Machines()
      ensures Valid() && Value() == ManagerStep(old(Value()), DataCallClosedCall(attempt))
    {
      if mDsNif != null {
        Dispatch(Emergency, ReleasedEvent, canStop, attempt);
      }
    }

    method HandleModemSSR()
      requires Valid()
      modifies this`clientRestarts, Machines()
      ensures Valid() && Value() == ManagerStep(old(Value()), ModemSSRCall)
    {
      if mAgnssNif != null {
        mAgnssNif.DropAllSubscribers();
      }
      if mInternetNif != null {
        mInternetNif.DropAllSubscribers();
      }
      if mDsNif != null {
        mDsNif.DropAllSubscribers();
      }
      if emergencyPdn {
        clientRestarts := clientRestarts + 1;
        if mDsNif != null {
          mDsNif.LogClientRestart();
        }
      }
    }
  }
}
