/** What each call on the manager does, said outright: which machine takes which step, and
    that the others do not change. */
module ManagerEffects {
  import opened Optional
  import opened AgpsProtocol
  import opened AgpsEffects
  import opened DsMachine
  import opened DsEffects
  import opened AgpsManager

  /** Creation adds the internet machine always, the normal one if the capabilities ask for
      it, and the emergency one if in addition it is configured and the data service comes
      up. A machine that exists is kept. */
  lemma CreateEffect(v: ManagerValue, setting: Setting)
    ensures var n := ManagerStep(v, CreateCall(setting));
      && n.internet == (if v.internet.Some? then v.internet else Some(Machine(Released, [], [], [])))
      && n.agnss == (if v.agnss.Some? || !setting.agpsCapable then v.agnss else Some(Machine(Released, [], [], [])))
      && n.ds == (if v.ds.Some? || !setting.agpsCapable || !v.emergencyPdn || !setting.dsInitializes then v.ds
                  else Some(Ds(Released, [], 0, [], [], [])))
      && n == ManagerValue(n.agnss, n.internet, n.ds, v.emergencyPdn, v.refusals, v.clientRestarts)
  {
  }

  /** The emergency machine is meant. */
  predicate ForEmergency(v: ManagerValue, t: AgpsType) { t == TypeSuplEs && v.emergencyPdn }

  /** The normal machine is meant; for emergency calls it is if the configuration is off. */
  predicate ForNormal(v: ManagerValue, t: AgpsType) {
    t == TypeSupl || t == TypeInvalid || (t == TypeSuplEs && !v.emergencyPdn)
  }

  predicate ForInternet(t: AgpsType) { t == TypeAny || t == TypeC2k || t == TypeWwanAny || t == TypeWifi }

  /** The manager once a call has looked for the machine: missing machines are created first
      if the emergency machine is meant and there is none. */
  function LookedUp(v: ManagerValue, t: AgpsType, setting: Setting): ManagerValue {
    if ForEmergency(v, t) && v.ds == None then ManagerStep(v, CreateCall(setting)) else v
  }

  /** A request goes to the machine of its type and to no other, and waits for the close
      exactly if it is for an emergency; it is refused exactly if that machine is missing. */
  lemma RequestRoute(v: ManagerValue, h: int, t: AgpsType, setting: Setting, attempt: Attempt)
    ensures ForEmergency(v, t) || ForNormal(v, t) || ForInternet(t)
    ensures var w, n := LookedUp(v, t, setting), ManagerStep(v, RequestCall(h, t, setting, attempt));
      if ForEmergency(v, t) && w.ds.Some?
      then n == w.(ds := Some(DsStep(w.ds.value, DsRequest(h, attempt))))
      else if ForNormal(v, t) && w.agnss.Some?
      then n == w.(agnss := Some(Step(w.agnss.value, RequestATL(h, t == TypeSuplEs))))
      else if ForInternet(t) && w.internet.Some?
      then n == w.(internet := Some(Step(w.internet.value, RequestATL(h, false))))
      else n == w.(refusals := w.refusals + [OpenRefused(h, t)])
  {
  }

  /** What a report for a type does: the machine meant takes the step and no other. */
  predicate Reports(w: ManagerValue, n: ManagerValue, t: AgpsType, input: Input, dsInput: DsInput) {
    && (ForEmergency(w, t) && w.ds.Some? ==> n == w.(ds := Some(DsStep(w.ds.value, dsInput))))
    && (ForNormal(w, t) && w.agnss.Some? ==> n == w.(agnss := Some(Step(w.agnss.value, input))))
    && (ForInternet(t) && w.internet.Some? ==> n == w.(internet := Some(Step(w.internet.value, input))))
  }

  /** A report of the modem goes to the machine of its type and to no other. */
  lemma ReportRoute(v: ManagerValue, t: AgpsType, setting: Setting, attempt: Attempt)
    ensures var w := LookedUp(v, t, setting);
      && Reports(w, ManagerStep(v, OpenSuccessCall(t, setting)), t, OpenSuccess, DsOpened)
      && Reports(w, ManagerStep(v, OpenFailedCall(t, setting, attempt)), t, OpenFailed, DsFailed(attempt))
      && Reports(w, ManagerStep(v, ClosedCall(t, setting, attempt)), t, Closed, DsClosed(attempt))
  {
  }

  /** Reports of the data service concern the emergency machine alone. */
  lemma DataCallRoute(v: ManagerValue, attempt: Attempt)
    ensures ManagerStep(v, DataCallOpenedCall) ==
      if v.ds.Some? then v.(ds := Some(DsStep(v.ds.value, DsOpened))) else v
    ensures ManagerStep(v, DataCallClosedCall(attempt)) ==
      if v.ds.Some? then v.(ds := Some(DsStep(v.ds.value, DsClosed(attempt)))) else v
  {
  }

  predicate Has(subs: seq<AgpsSubscriber>, h: int) { exists k :: 0 <= k < |subs| && subs[k].connHandle == h }

  /** A release goes to the first of the normal, the internet and the emergency machine that
      lists the handle, and is answered as failed exactly if none does. */
  lemma ReleaseRoute(v: ManagerValue, h: int, canStop: bool)
    ensures var n := ManagerStep(v, ReleaseCall(h, canStop));
      n == if v.agnss.Some? && Has(v.agnss.value.subscribers, h)
           then v.(agnss := Some(Step(v.agnss.value, ReleaseATL(h))))
           else if v.internet.Some? && Has(v.internet.value.subscribers, h)
           then v.(internet := Some(Step(v.internet.value, ReleaseATL(h))))
           else if v.ds.Some? && Has(v.ds.value.subscribers, h)
           then v.(ds := Some(DsStep(v.ds.value, DsRelease(h, canStop))))
           else v.(refusals := v.refusals + [CloseRefused(h)])
  {
    assert v.agnss.Some? ==> (ListedBy(v.agnss, h) <==> Has(v.agnss.value.subscribers, h));
    assert v.internet.Some? ==> (ListedBy(v.internet, h) <==> Has(v.internet.value.subscribers, h));
    assert v.ds.Some? ==> (ListedByDs(v.ds, h) <==> Has(v.ds.value.subscribers, h));
  }

  /** A modem restart empties the lists of all machines there are, telling nobody and
      leaving their states alone; the client of the data service is restarted exactly if the
      emergency machine is configured. */
  lemma RestartRoute(v: ManagerValue)
    ensures var n := ManagerStep(v, ModemSSRCall);
      && n.agnss == (match v.agnss case None => None case Some(m) => Some(Emptied(m)))
      && n.internet == (match v.internet case None => None case Some(m) => Some(Emptied(m)))
      && n.ds == (match v.ds case None => None case Some(m) => Some(DsEmptied(m, v.emergencyPdn)))
      && n.clientRestarts == v.clientRestarts + (if v.emergencyPdn then 1 else 0)
      && n.emergencyPdn == v.emergencyPdn && n.refusals == v.refusals
  {
    if v.agnss.Some? { RestartEffect(v.agnss.value); }
    if v.internet.Some? { RestartEffect(v.internet.value); }
    if v.ds.Some? { DsRestartEffect(v.ds.value, v.emergencyPdn); }
  }

  function Emptied(m: Machine): Machine { m.(subscribers := [], atl := m.atl + Notes(m.subscribers, Lost)) }

  function DsEmptied(m: Ds, client: bool): Ds {
    m.(subscribers := [], atl := m.atl + Notes(m.subscribers, Lost),
       nif := m.nif + (if client then [ClientRestarted] else []))
  }
}
