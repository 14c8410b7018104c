# Verified model of the location and sensor HAL logic

The repository is a set of Android hardware abstraction layers. Most of it moves data
between interfaces; a handful of state machines and data structures in it are only right
if an invariant holds over whole runs. This project models those and proves the
invariants with Dafny. `dafny verify dfyconfig.toml` checks everything.

The source's objects are classes here, and its loops are loops; each method is proved
against a function on values that describes the same step, and the theorems are about
those functions, over every input, every run or every interleaving. The modules called
`Effects`, and `MultiHalDelivery`, say outright what each step does, without those functions.

| Part | Files |
|---|---|
| AGPS data-connection protocol, the variant for emergency calls, and their manager | `AgpsProtocol`, `AgpsSafety`, `AgpsEffects`, `AgpsMachine`, `DsMachine`, `DsSafety`, `DsEffects`, `DsStateMachine`, `AgpsManager`, `ManagerEffects` |
| Tracking sessions sharing one positioning engine | `TrackingMultiplex`, `TrackingEffects`, `GnssAdapter`, `SessionId` |
| Sensor multi-HAL: ring buffer, round-robin reader, threads and condition variables | `SensorRing`, `SensorEventQueue`, `MultiHalScan`, `MultiHal`, `MultiHalProtocol`, `MultiHalDelivery` |
| Size-annotated heap with removal by address | `LocHeapTree`, `LocHeapNodes` |
| Message framing over datagrams | `LocIpcFraming`, `LocIpc` |
| Data item subscriptions, kept in two tables | `SetMaps`, `Subscriptions`, `OsObserver` |
| Client session dictionary | `SessionDictionary`, `SessionEffects`, `LocationAPIClient` |
| De-duplicated bounded status reports and the network types in use | `StatusReport`, `NetworkInfo` |
| The bounded adapter array | `AdapterTable`, `LocApi` |

## What the code does that its comments do not say

Where a property turned out false the code is modelled as it is, and a theorem says
exactly when the property holds.

* `LocUnorderedSetMap::update` is documented to return the values removed from the entry;
  it returns the values the entry had and keeps. So `updateSubscription` keeps the two
  subscription tables converse exactly if the client had no subscription before
  (`Subscriptions.UpdateKeepsConverse`, and over whole runs `Subscriptions.RunsStayConverse`);
  a client that widens its subscription is no longer sent what it already subscribed to
  (`Subscriptions.WideningSilencesTheOldItem`). As documented, it would keep them converse
  in every run (`Subscriptions.DocumentedRunsStayConverse`).
* The receiver of `LocIpc` reuses one buffer and scans past the datagram that arrived. A
  long message arrives exactly if the byte left behind its header is not a digit
  (`LocIpcFraming.LongMessageArrives`), and a short one exactly if it is not empty and what
  then lies in the buffer does not begin with the mark (`LocIpcFraming.ShortMessageArrives`).
  Over whole runs the condition is one on the messages alone, and exact
  (`LocIpcFraming.TrafficArrives`).
* `LocHeap.h` speaks of removing by rank; the code removes by address and uses ranks only
  to skip subtrees, which is complete (`LocHeapTree.RemoveIsComplete`).
* A request is dropped if its handle still waits for the close of an earlier one:
  `addSubscriber` finds the handle listed and leaves its entry inactive. In every reachable
  state a request is served exactly if its handle does not wait for a close
  (`AgpsSafety.RequestIsServed`, for the emergency machine
  `DsMachine.DsRequestIsServedInRuns`). While the connection is still up the handle is told
  open-success all the same. `AgpsSafety.RequestWhileClosingIsDropped` is a run in which the
  machine ends up idle, with the handle told closed and nothing requested.
* The emergency machine keeps the base machine's rule that nobody is listed in the released
  state exactly while no request there fails to start the call
  (`DsMachine.IdleIsEmptyWhileOpensSucceed`). There a release is confirmed to the modem and
  forgotten: a listed handle that is released stops being served exactly if the machine is
  not in the released state (`DsMachine.ReleaseTakesEffect`, after any run
  `DsMachine.ReleaseTakesEffectInRuns`), and `DsMachine.ReleaseWhileRetryingIsIgnored` is a
  run in which it does not. So a handle can be told closed while it stays listed: what the
  handles hear fits their entries all through a run exactly if no release of a listed handle
  found the machine in the released state (`DsSafety.DsConversationsAreWellFormed`), and
  `DsSafety.DsNoticesAreConserved` accounts for these notices in every run.
* At the end of a release the emergency machine does not look at whether the new call it
  needs was started, and when nobody is left it cannot end a call without a function to stop
  it. A modem restart with the emergency configuration on takes the call down, while the
  machine stays in its state. A call is under way exactly in the pending and acquired states,
  all through a run, exactly if none of these three went wrong (`DsSafety.CallFollowsState`).
  After a missed call the machine waits, and no number of requests starts one
  (`DsSafety.MissedCallIsNotRetried`); after a restart in the acquired state the next handle
  is told open-success with no call up (`DsSafety.OpenSuccessWithoutCall`).
* A modem restart also leaves a normal machine in its state. If it was waiting for a
  connection, it then waits on behalf of nobody, and a close does not bring it back to idle;
  `AgpsSafety.ReleasingEverybodyDrains` shows that nothing else keeps it from getting there.
* A handle the emergency machine hands over because an attempt failed stays on its list,
  unlike one that was denied, and is then listed twice; but the manager tells only the first
  machine that lists it of its release. `AgpsManager.ReleaseReachesOneMachine` says when that
  is enough, and `AgpsManager.HandedOverHandleStaysServed` is a run in which it is not.
* Retries of the emergency machine are given back only when somebody is handed over, not
  when a call starts (`DsMachine.RetriesCountBusy`).
* `addAdapter` drops an eleventh adapter without notice
  (`AdapterTable.NoneMissingWhileRoom`).
* A status report collates a network item only with an earlier one, so a first item that
  reports a disconnection is shown as if connected (`NetworkInfo.ExactFromTheFirstItem`).
* `restartSessions` does not look at the engine's answer: a failed restart leaves engine
  and sessions apart (`TrackingMultiplex.RestartSyncs`). Over runs of any length the engine
  follows the sessions throughout exactly if it never lost its state while there were some
  and no start replaced, under an id that came round again, the one session that set the
  interval by one with a larger interval (`TrackingMultiplex.EngineFollowsThroughout`).

## Model

| member | source | states |
|---|---|---|
| AgpsSafety.RunIsSafe | hardware/gps/gnss/Agps.cpp:72-290 | After every run, modem restarts included: listed handles are distinct, Released means nobody is listed, inactive entries wait for the close, every handle's conversation fits the state, and the link to the framework is asked for or up exactly in Pending and Acquired |
| AgpsSafety.RunIsAttended | hardware/gps/gnss/Agps.cpp:72-290 | All through a run Pending and Acquired have an active subscriber and Releasing an inactive one, if and only if every modem restart in it found the machine Released |
| AgpsSafety.ConversationsAreWellFormed | hardware/gps/gnss/Agps.cpp:351-386 | No handle ever hears a notice out of turn; in particular open-failure never follows open-success for one entry; an active entry was told open-success exactly if the connection is up |
| AgpsSafety.FrameworkTrafficAlternates | hardware/gps/gnss/Agps.cpp:296-312 | The framework is sent a request only when no connection is outstanding and a release only when one is; outstanding is the same as Pending or Acquired |
| AgpsSafety.RequestIsServed | hardware/gps/gnss/Agps.cpp:398-417 | In every reachable state a request makes its handle served if and only if the handle does not still wait for a close, and otherwise changes neither list nor state; nobody else is touched, the machine is not idle afterwards, and the handle is told open-success if the connection is up, served or not |
| AgpsSafety.RequestWhileClosingIsDropped | hardware/gps/gnss/Agps.cpp:398-417 | A handle that asks, is released and asks again before the close is dropped: the close leaves the machine idle and empty, the handle told closed, and no second connection requested |
| AgpsSafety.ReleaseIsFinal | hardware/gps/gnss/Agps.cpp:116-178 | A released handle is gone, or remains only as an inactive entry that waits for the close and then no notice is given to anybody; nobody else is touched |
| AgpsSafety.ReleasingEverybodyDrains | hardware/gps/gnss/Agps.cpp:116-248 | After any run, releasing all listed handles and hearing closed leaves no entry and no open conversation, and the machine idle with the link down if and only if it was not Pending with an empty list |
| AgpsSafety.NobodyIsStranded | hardware/gps/gnss/Agps.cpp:501-512 | It is not, unless a modem restart found the machine busy |
| AgpsSafety.TalkConserves | hardware/gps/gnss/Agps.cpp:351-386 | In every well-formed log of one handle, entries into the list equal closing notices and losses plus one while a conversation is under way |
| AgpsSafety.NoticesAreConserved | hardware/gps/gnss/Agps.cpp:316-436 | Over every run each entry into the list ends in exactly one closing notice or one loss to a restart, unless still listed |
| AgpsSafety.NoticesAreConservedWithoutRestart | hardware/gps/gnss/Agps.cpp:316-436 | Without a restart each entry ends in exactly one closing notice, unless still listed |
| AgpsSafety.NobodyIsLost | hardware/gps/gnss/Agps.cpp:501-512 | Only a modem restart drops an entry without a notice |
| AgpsSafety.SubscribeKeeps | hardware/gps/gnss/Agps.cpp:72-114 | Subscribing keeps the invariant in each of the four states |
| AgpsSafety.UnsubscribeKeeps | hardware/gps/gnss/Agps.cpp:116-178 | Unsubscribing a listed entry keeps the invariant |
| AgpsSafety.GrantedKeeps | hardware/gps/gnss/Agps.cpp:180-201 | A grant keeps the invariant, expected or not |
| AgpsSafety.ReleasedKeeps | hardware/gps/gnss/Agps.cpp:203-248 | A release, also one forced in Acquired, keeps the invariant |
| AgpsSafety.DeniedKeeps | hardware/gps/gnss/Agps.cpp:250-290 | A denial keeps the invariant in every state |
| AgpsSafety.AfterReleaseKeeps | hardware/gps/gnss/Agps.cpp:225-241 | The end of a release closes the waiting entries and asks for a new connection exactly if somebody is still active |
| AgpsSafety.DropAllKeeps | hardware/gps/gnss/Agps.cpp:501-512 | Dropping everybody keeps the invariant |
| AgpsSafety.StepKeeps | hardware/gps/gnss/Agps.cpp:40-70 | Whatever reaches the machine keeps the invariant |
| AgpsSafety.TalkBroadcast | hardware/gps/gnss/Agps.cpp:316-349 | A broadcast reaches each addressed entry exactly once and nobody else |
| AgpsProtocol.Find | hardware/gps/gnss/Agps.cpp:471-484 | The lookup finds an entry exactly if the handle is listed |
| AgpsEffects.RequestEffect | hardware/gps/gnss/Agps.cpp:72-114 | A request lists a new handle, active and last, and a listed one not again; it is told open-success exactly in Acquired, and the framework is asked exactly in Released |
| AgpsEffects.ReleaseEffect | hardware/gps/gnss/Agps.cpp:116-178 | A released handle that waits for the close stays in its place, inactive, and nobody is told; any other goes and is told closed; all other entries stay; the framework is asked to release exactly if the connection was asked for or up and no other handle is active; and the state in each case |
| AgpsEffects.ReleaseOfNobody | hardware/gps/gnss/Agps.cpp:471-484 | Releasing a handle that is not listed changes nothing |
| AgpsEffects.GrantEffect | hardware/gps/gnss/Agps.cpp:180-201 | A grant in Pending tells the active entries, in order and nobody else, and makes the machine Acquired; in other states it does nothing |
| AgpsEffects.CloseEffect | hardware/gps/gnss/Agps.cpp:203-248 | A close in Releasing tells and unlists the inactive entries in order, and asks for a connection exactly if somebody is left; in Acquired it tells and unlists all; in other states it does nothing |
| AgpsEffects.DenialEffect | hardware/gps/gnss/Agps.cpp:250-290 | A denial in Pending tells and unlists everybody, in Releasing it does what a close does, in other states nothing |
| AgpsEffects.RestartEffect | hardware/gps/gnss/Agps.cpp:501-512 | A modem restart loses all entries, telling nobody, and changes nothing else |
| AgpsMachine.AgpsStateMachine.ProcessAgpsEventSubscribe | hardware/gps/gnss/Agps.cpp:72-114 | The handler on the object takes the protocol's subscribe step |
| AgpsMachine.AgpsStateMachine.ProcessAgpsEventUnsubscribe | hardware/gps/gnss/Agps.cpp:116-178 | The handler on the object takes the protocol's unsubscribe step |
| AgpsMachine.AgpsStateMachine.ProcessAgpsEventGranted | hardware/gps/gnss/Agps.cpp:180-201 | The handler on the object takes the protocol's grant step |
| AgpsMachine.AgpsStateMachine.ProcessAgpsEventReleased | hardware/gps/gnss/Agps.cpp:203-248 | The handler on the object takes the protocol's release step |
| AgpsMachine.AgpsStateMachine.ProcessAgpsEventDenied | hardware/gps/gnss/Agps.cpp:250-290 | The handler on the object takes the protocol's denial step |
| AgpsMachine.AgpsStateMachine.NotifyAllSubscribers | hardware/gps/gnss/Agps.cpp:316-349 | The loop that erases entries while it walks the list notifies each addressed entry once, in order, and unlists exactly those |
| AgpsMachine.AgpsStateMachine.NotifyEventToSubscriber | hardware/gps/gnss/Agps.cpp:351-386 | One notice to the one entry, which is unlisted if asked |
| AgpsMachine.AgpsStateMachine.AddSubscriber | hardware/gps/gnss/Agps.cpp:398-417 | A handle is listed at most once |
| AgpsMachine.AgpsStateMachine.DeleteSubscriber | hardware/gps/gnss/Agps.cpp:419-436 | The erasing loop removes the entries of that handle and no others |
| AgpsMachine.AgpsStateMachine.DropAllSubscribers | hardware/gps/gnss/Agps.cpp:501-512 | Every entry goes, none is notified |
| DsMachine.DsRunIsSafe | hardware/gps/gnss/Agps.cpp:582-649 | In every reachable state of the emergency machine retries are between 0 and 4, handles are listed once, and in Released no entry waits for a close |
| DsMachine.IdleIsEmptyWhileOpensSucceed | hardware/gps/gnss/Agps.cpp:72-88 | Nobody is listed in Released all through a run if and only if no request in Released failed to start the call |
| DsMachine.DsRequestIsServed | hardware/gps/gnss/Agps.cpp:398-417 | The emergency machine serves a request if and only if its handle does not still wait for a close, and otherwise leaves list and state as they are |
| DsMachine.DsRequestIsServedInRuns | hardware/gps/gnss/Agps.cpp:769-795 | So it is after any run |
| DsMachine.ReleaseTakesEffect | hardware/gps/gnss/Agps.cpp:116-178 | A listed handle that is released is no longer served if and only if the machine was not in Released |
| DsMachine.ReleaseTakesEffectInRuns | hardware/gps/gnss/Agps.cpp:797-829 | So it is after any run that listed the handle |
| DsMachine.ReleaseWhileRetryingIsIgnored | hardware/gps/gnss/Agps.cpp:120-124 | After a request the data service was busy for, a handle that is released is told closed, and stays listed and active |
| DsMachine.RetriesCountBusy | hardware/gps/gnss/Agps.cpp:615-632 | After any run the counter is the number of times the data service was busy since somebody was last handed over, and nothing else resets it |
| DsMachine.EveryFifthBusyRequestFallsBack | hardware/gps/gnss/Agps.cpp:615-632 | While the data service is busy exactly one request in five hands a subscriber over, whoever asks |
| DsMachine.DsAfterReleaseKeeps | hardware/gps/gnss/Agps.cpp:225-241 | The end of a release leaves an idle machine only with an empty list |
| DsEffects.AttemptEffect | hardware/gps/gnss/Agps.cpp:582-649 | An attempt is made for the first active entry; which outcome hands it over, uses a retry or asks for the call, and that nothing else changes |
| DsEffects.DsRequestEffect | hardware/gps/gnss/Agps.cpp:72-88 | A request lists a new handle, and in Released makes one attempt for the first entry; the machine becomes Pending exactly if the call is being started |
| DsEffects.DsReleaseEffect | hardware/gps/gnss/Agps.cpp:116-178 | In Released a release is only confirmed; otherwise a handle that waits for the close stays in its place, inactive, with nobody told, and any other goes and is told closed; the call is stopped, if it can be, exactly if it was being set up or up and no other handle is active |
| DsEffects.DsReleaseOfNobody | hardware/gps/gnss/Agps.cpp:471-484 | Releasing a handle that is not listed changes nothing |
| DsEffects.DsGrantEffect | hardware/gps/gnss/Agps.cpp:180-201 | The opened call is told to the active entries in order, exactly in Pending |
| DsEffects.DsDenialEffect | hardware/gps/gnss/Agps.cpp:651-694 | In Pending everybody is handed over in order, told nothing and unlisted; in Releasing the inactive entries are told closed and given up, and an attempt is made for the first of those left |
| DsEffects.DsCloseEffect | hardware/gps/gnss/Agps.cpp:522-536 | A close counts as a denial in Pending, ends the release in Releasing, tells and gives up everybody in Acquired, and does nothing in Released |
| DsEffects.DsRestartEffect | hardware/gps/gnss/Agps.cpp:886-912 | A restart loses all entries, telling nobody, and takes the client along exactly if it is configured |
| DsSafety.DsConversationsAreWellFormed | hardware/gps/gnss/Agps.cpp:651-694 | All through a run of the emergency machine every handle hears only what fits the state and its entry, if and only if no release of a listed handle found the machine in Released |
| DsSafety.DsNoticesAreConserved | hardware/gps/gnss/Agps.cpp:651-694 | After every run the entries of a handle into the list are its closing notices and its losses, to a restart or the normal machine, less one notice for each release in Released, plus one if it is still listed |
| DsSafety.CallFollowsState | hardware/gps/gnss/Agps.cpp:225-241 | All through a run a call is asked for or up exactly in Pending and Acquired, if and only if every attempt made for those who asked during a release started the call, every call nobody was left to use could be stopped, and no modem restart took the client of the data service along during a call |
| DsSafety.MissedCallIsNotRetried | hardware/gps/gnss/Agps.cpp:225-241 | If the attempt at the end of a release did not start the call, the machine is Pending with no call under way, and no number of further requests, such as those of the retry timer, changes either |
| DsSafety.OpenSuccessWithoutCall | hardware/gps/gnss/Agps.cpp:886-912 | After a restart of modem and client in Acquired the machine is Acquired with an empty list and no call, and the next handle to ask is told open-success |
| DsStateMachine.DSStateMachine.ProcessAgpsEvent | hardware/gps/gnss/Agps.cpp:522-536 | The object takes the steps of the machine on values, with all notices, retries, requests handed over and traffic about the call; closed counts as denied while the call is being set up |
| DsStateMachine.DSStateMachine.ProcessAgpsEventSubscribe | hardware/gps/gnss/Agps.cpp:72-114 | The inherited handler with the overridden opening attempt lists the subscriber and becomes Pending exactly if the call is being started; in Acquired the subscriber is told open-success |
| DsStateMachine.DSStateMachine.ProcessAgpsEventUnsubscribe | hardware/gps/gnss/Agps.cpp:116-178 | In Released the close is confirmed and the list stays as it is; otherwise the subscriber is told closed and unlisted, or waits for the close, and the call is stopped, if it can be, once nobody is left to serve |
| DsStateMachine.DSStateMachine.ProcessAgpsEventGranted | hardware/gps/gnss/Agps.cpp:180-201 | Only a machine that waits for the call acquires it, and tells each active subscriber once |
| DsStateMachine.DSStateMachine.ProcessAgpsEventReleased | hardware/gps/gnss/Agps.cpp:203-248 | The inherited handler with the overridden operations takes the release step, with one close notice and one order to give up the call for each subscriber closed |
| DsStateMachine.DSStateMachine.ProcessAgpsEventDenied | hardware/gps/gnss/Agps.cpp:250-290 | A machine that waits for the call passes everybody listed on to the normal machine; one that is releasing ends the release, with its close notices |
| DsStateMachine.DSStateMachine.NotifyAllSubscribers | hardware/gps/gnss/Agps.cpp:316-349 | The erasing walk with the overridden notice notifies each entry addressed once, in order, unlists exactly those if asked, and if denied passes each on |
| DsStateMachine.DSStateMachine.NotifyEventToSubscriber | hardware/gps/gnss/Agps.cpp:651-694 | Denied gives back the retries and posts one request without a notice; every other event is one notice, and released also gives up the call |
| DsStateMachine.DSStateMachine.RequestOrReleaseDataConn | hardware/gps/gnss/Agps.cpp:582-649 | Which outcome of an attempt counts as success, uses up a retry or hands the first active subscriber over; without a function to stop the call a release is an attempt |
| DsStateMachine.DSStateMachine.RetryCallback | hardware/gps/gnss/Agps.cpp:557-575 | The timer posts a request for the first active subscriber if there is one |
| AgpsManager.MachinesOnlyRun | hardware/gps/gnss/Agps.cpp:702-912 | Whatever is called on the manager, and however the emergency configuration changes, each of its three machines has only seen a run of its own inputs and satisfies its invariant |
| AgpsManager.ReleaseReachesOneMachine | hardware/gps/gnss/Agps.cpp:797-829 | After any calls, releasing a handle ends all work for it if and only if no machine asked later works for it and the emergency machine, if it is the one asked, is not Released |
| AgpsManager.HandedOverHandleStaysServed | hardware/gps/gnss/Agps.cpp:634-638 | After an attempt that is not supported the handle is handed over and stays listed; taken by the normal machine as well, it is still worked for after its release |
| ManagerEffects.CreateEffect | hardware/gps/gnss/Agps.cpp:702-736 | Exactly which machines are created, in their first state, and that those there are kept |
| ManagerEffects.RequestRoute | hardware/gps/gnss/Agps.cpp:738-795 | For each type and configuration, which one machine takes the request, with which wait flag, that the other two do not change, and that it is refused exactly if that machine is missing |
| ManagerEffects.ReportRoute | hardware/gps/gnss/Agps.cpp:849-884 | For each type and configuration, which one machine hears of open-success, open-failed and closed, and that the other two do not change |
| ManagerEffects.DataCallRoute | hardware/gps/gnss/Agps.cpp:831-847 | Reports of the data service concern the emergency machine alone |
| ManagerEffects.ReleaseRoute | hardware/gps/gnss/Agps.cpp:797-829 | Which machine a release reaches, that the others do not change, and that it is answered as failed exactly if none lists the handle |
| ManagerEffects.RestartRoute | hardware/gps/gnss/Agps.cpp:886-912 | A modem restart empties all three lists and leaves the states alone; the client of the data service is restarted exactly if configured |
| AgpsManager.AgpsManager.CreateAgpsStateMachines | hardware/gps/gnss/Agps.cpp:702-736 | Missing machines are created as the capabilities, the configuration and the data service allow, and existing ones kept |
| AgpsManager.AgpsManager.RequestATL | hardware/gps/gnss/Agps.cpp:769-795 | A request reaches the machine of its type, which for the emergency type may be created first, or is refused at once |
| AgpsManager.AgpsManager.ReleaseATL | hardware/gps/gnss/Agps.cpp:797-829 | A release reaches the first of the three machines that lists the handle or is answered as failed |
| AgpsManager.AgpsManager.ReportDataCallClosed | hardware/gps/gnss/Agps.cpp:840-847 | The end of the data call reaches the emergency machine, if there is one |
| AgpsManager.AgpsManager.HandleModemSSR | hardware/gps/gnss/Agps.cpp:886-912 | A modem restart empties the lists of all three machines and, if the configuration asks for it, restarts the client of the data service, which stops and gives up the call of the emergency machine |
| TrackingMultiplex.EngineFollowsSessions | hardware/gps/gnss/GnssAdapter.cpp:1363-1571 | After any run of starts, updates, stops, client removals, engine losses and restarts, with engine calls failing anywhere, the engine runs exactly if a session exists, at the minimum interval over all of them; provided lost state was restored and ids did not run out |
| TrackingMultiplex.EngineFollowsThroughout | hardware/gps/gnss/GnssAdapter.cpp:1363-1571 | All through any run, however long, the engine runs exactly if a session exists, at the minimum interval, if and only if no loss of its state found sessions and no accepted start replaced the only session at the minimum by one with a larger interval |
| TrackingMultiplex.EngineFollowsWithinAPeriod | hardware/gps/gnss/GnssAdapter.cpp:1363-1571 | Within one period of the session ids they agree all through a run if and only if every loss of the engine's state found no sessions |
| TrackingMultiplex.StartStaysSynced | hardware/gps/gnss/GnssAdapter.cpp:1387-1410 | A start under a fresh key keeps the engine at what recomputing from scratch would give |
| TrackingMultiplex.UpdateStaysSynced | hardware/gps/gnss/GnssAdapter.cpp:1511-1571 | An update does, also one that raises the interval that was the smallest |
| TrackingMultiplex.StopStaysSynced | hardware/gps/gnss/GnssAdapter.cpp:1592-1644 | A stop does, also the last one and one of the smallest interval |
| TrackingMultiplex.StopClientStaysSynced | hardware/gps/gnss/GnssAdapter.cpp:1043-1058 | Removing a client does, in any order of its sessions and with any of the stops failing |
| TrackingMultiplex.StopClientEndsItsSessions | hardware/gps/gnss/GnssAdapter.cpp:1043-1058 | If the engine cooperates removing a client ends its sessions and no others |
| TrackingMultiplex.RestartSyncs | hardware/gps/gnss/GnssAdapter.cpp:1113-1134 | After a restart engine and sessions agree if and only if they did before or there are sessions and the engine accepted |
| TrackingMultiplex.StartUnderKeyInUse | hardware/gps/gnss/GnssAdapter.cpp:1371-1375 | A start under a key in use keeps them in agreement if and only if the new interval is at most the minimum or another session has that minimum |
| TrackingMultiplex.MinOfOneMore | hardware/gps/gnss/GnssAdapter.cpp:1394-1406 | Comparing with the old minimum is enough to know the new one |
| TrackingMultiplex.NextIdIsFresh | hardware/gps/core/LocAdapterBase.cpp:53-61 | Within a period of the generator the next key is in no session |
| TrackingMultiplex.ProcessAllIssuesIds | hardware/gps/gnss/GnssAdapter.cpp:1363-1375 | Over every run all keys come from the generator and all stored options are filled in |
| TrackingEffects.StartEffect | hardware/gps/gnss/GnssAdapter.cpp:1363-1410 | The session is stored exactly if there is a callback, the options are filled in, and some session has an interval as short or the engine does as told; when the engine is told, and what; nothing else changes; and the error in each case |
| TrackingEffects.UpdateEffect | hardware/gps/gnss/GnssAdapter.cpp:1511-1571 | The new options are stored exactly if the session is known, they are filled in, and the engine needed no restart or does as told; when it is restarted, and that it is at the minimum of the sessions as they become; and the error in each case |
| TrackingEffects.StopEffect | hardware/gps/gnss/GnssAdapter.cpp:1592-1644 | The session goes exactly if it is known and the engine needed no change or does as told; when the engine is stopped or restarted, and at which interval; and the error in each case |
| TrackingEffects.StopClientEffect | hardware/gps/gnss/GnssAdapter.cpp:1043-1058 | Removing a client touches only its sessions, and one stays only if the engine had to be told and did not do as told |
| TrackingEffects.EngineUpEffect | hardware/gps/gnss/GnssAdapter.cpp:1113-1134 | A restart changes the engine and nothing else, exactly if there are sessions and it does as told |
| TrackingEffects.ProcessEffect | hardware/gps/gnss/GnssAdapter.cpp:1363-1376 | A start takes the next id, which is new, whether it is accepted or not |
| GnssAdapter.GnssAdapter.SmallestIntervalOptions | hardware/gps/gnss/GnssAdapter.cpp:1394-1401 | The scan with its size-is-zero convention yields the minimum interval of the sessions it looks at |
| GnssAdapter.GnssAdapter.StartTrackingMultiplex | hardware/gps/gnss/GnssAdapter.cpp:1386-1410 | The object does what the operation on values does |
| GnssAdapter.GnssAdapter.UpdateTrackingMultiplex | hardware/gps/gnss/GnssAdapter.cpp:1534-1571 | The object does what the operation on values does |
| GnssAdapter.GnssAdapter.StopTrackingMultiplex | hardware/gps/gnss/GnssAdapter.cpp:1612-1644 | The object does what the operation on values does |
| GnssAdapter.GnssAdapter.ProcStartTracking | hardware/gps/gnss/GnssAdapter.cpp:1363-1378 | A session is stored exactly if the start was accepted; each refusal has its own error |
| GnssAdapter.GnssAdapter.ProcUpdateTracking | hardware/gps/gnss/GnssAdapter.cpp:1511-1528 | An unknown session is ignored, a refused update changes nothing |
| GnssAdapter.GnssAdapter.ProcStopTracking | hardware/gps/gnss/GnssAdapter.cpp:1592-1606 | A session is dropped exactly if the engine followed |
| GnssAdapter.GnssAdapter.StopClientSessions | hardware/gps/gnss/GnssAdapter.cpp:1043-1058 | The loop that erases while it walks the map stops the client's sessions one after the other |
| GnssAdapter.GnssAdapter.RestartSessions | hardware/gps/gnss/GnssAdapter.cpp:1113-1134 | The engine is started at the minimum interval if there are sessions |
| SessionId.IdsAreFreshWithinAPeriod | hardware/gps/core/LocAdapterBase.cpp:55-61 | Ids are never zero, and two calls give the same id if and only if they are a multiple of 0xFFFFFFFE calls apart |
| SessionId.CounterIsClosedForm | hardware/gps/core/LocAdapterBase.cpp:55-61 | The wrapping 32-bit counter has a closed form |
| SensorRing.RegionIsReserved | hardware/sensors/SensorEventQueue.cpp:39-59 | A requested region is contiguous, begins where the next event goes, is unreadable, is as long as possible, and is empty exactly for a full queue or an empty request |
| SensorRing.RegionIsUnreadable | hardware/sensors/SensorEventQueue.cpp:39-59 | No slot of a region handed to a writer is one the reader may see |
| SensorRing.FillIsInvisible | hardware/sensors/SensorEventQueue.cpp:39-59 | Filling the region outside the lock changes nothing for the reader |
| SensorRing.DequeueTakesOldest | hardware/sensors/SensorEventQueue.cpp:69-81 | Dequeuing removes exactly the oldest event and keeps every reserved region reserved |
| SensorRing.MarkAppends | hardware/sensors/SensorEventQueue.cpp:61-63 | Marking appends exactly the events in the first slots of the region |
| SensorRing.RegionSurvivesReader | hardware/sensors/SensorEventQueue.cpp:39-81 | A region obtained before any number of dequeues is still good, and marking it appends exactly what was written to what the reader has left |
| SensorEventQueue.SensorEventQueue.GetWritableRegion | hardware/sensors/SensorEventQueue.cpp:39-59 | The array version computes the region of the ring |
| SensorEventQueue.SensorEventQueue.MarkAsWritten | hardware/sensors/SensorEventQueue.cpp:61-63 | The contents grow by exactly the marked slots |
| SensorEventQueue.SensorEventQueue.Peek | hardware/sensors/SensorEventQueue.cpp:69-72 | The oldest event, or none |
| SensorEventQueue.SensorEventQueue.Dequeue | hardware/sensors/SensorEventQueue.cpp:74-81 | The contents lose their head, regions stay reserved, and waiting writers are woken exactly if the queue was full |
| MultiHalScan.HandlesRoundTrip | hardware/sensors/multihal.cpp:89-131 | A global handle leads back to the module and sensor it was given out for, and -1 is given exactly for sensors never registered |
| MultiHalScan.ScanIsFaithful | hardware/sensors/multihal.cpp:345-371 | A scan passes on at most maxReads events, fewer only if it left every queue empty; from each module it takes the oldest and passes on all but the dropped ones, in order |
| MultiHalScan.LookTracks | hardware/sensors/multihal.cpp:354-371 | Each look at one queue keeps the account of what was taken, passed on and left, for every queue |
| MultiHalScan.FinishProgresses | hardware/sensors/multihal.cpp:354-371 | The round robin ends, and so many empty queues in a row as there are queues means that all are empty |
| MultiHalScan.NoRoomReadsNothing | hardware/sensors/multihal.cpp:353-380 | A reader that asks for no events is given none although events may be there |
| MultiHal.SensorsPollContext.PollLocked | hardware/sensors/multihal.cpp:345-385 | What poll does under the lock reads what the scan on values passes on, into the caller's buffer, and announces waiting exactly if there was nothing |
| MultiHal.SensorsPollContext.ScanQueues | hardware/sensors/multihal.cpp:354-371 | The inner loop over the queue objects passes on exactly what the scan on values does |
| MultiHal.SensorsPollContext.LookAtNext | hardware/sensors/multihal.cpp:355-370 | One round of the loop: peek, remap, keep or drop, dequeue, advance |
| MultiHalProtocol.NoLostWakeups | hardware/sensors/multihal.cpp:140-177 | In every interleaving a reader waiting with no signal pending has announced it and all queues are empty, and a writer waiting with none pending has a full queue; so they never both wait in vain |
| MultiHalProtocol.EventsArriveInOrder | hardware/sensors/multihal.cpp:323-385 | In every interleaving, per module, what was written is what was consumed followed by what is queued, and what poll returned is what was consumed without the dropped events, in order |
| MultiHalProtocol.PollReturnsSomething | hardware/sensors/multihal.cpp:345-385 | Whenever the reader has the mutex, in a call of poll or out of its wait, it returns with 1 to as many events as it asked for, or waits for as many with every queue empty |
| MultiHalProtocol.RegionIsPrivate | hardware/sensors/multihal.cpp:152-167 | While a device fills its region outside the lock no other thread writes that queue's slots or moves the region; what is committed is what the device wrote |
| MultiHalProtocol.WaitersAreServed | hardware/sensors/multihal.cpp:148-173 | A commit signals a waiting reader, and while the reader waits in vain every writer gets a region to fill |
| MultiHalProtocol.ActKeeps | hardware/sensors/multihal.cpp:140-177 | Every atomic step of every thread keeps the invariant of the pipeline |
| MultiHalDelivery.ScanDelivers | hardware/sensors/multihal.cpp:323-343 | Of the events a scan takes from a module it passes on those of registered sensors and the meta-data events, in order, each under a handle that leads back to its module and sensor, and otherwise unchanged |
| MultiHalDelivery.EventsKeepTheirSensor | hardware/sensors/multihal.cpp:323-385 | So does everything poll ever returned, in every interleaving |
| MultiHalDelivery.LookGoesOn | hardware/sensors/multihal.cpp:369-370 | The next look goes to the next queue, around the end |
| MultiHalDelivery.ScanIsFair | hardware/sensors/multihal.cpp:354-371 | In a scan no module gives more than one event more than a module that still has some |
| MultiHalDelivery.EnterEffect | hardware/sensors/multihal.cpp:140-160 | A writer with the mutex waits exactly if its queue is full and otherwise gets the largest region there is |
| MultiHalDelivery.CommitEffect | hardware/sensors/multihal.cpp:160-177 | A commit adds the events to the queue and signals the reader exactly if it waits; one without events changes nothing |
| MultiHalDelivery.ReadWakes | hardware/sensors/multihal.cpp:345-385 | The reader wakes exactly the writers that wait at a queue that was full and gave it events |
| LocHeapTree.TopRanksHighest | hardware/gps/utils/LocHeap.cpp:195-220 | In a tree that passes the check the size is the number of elements and nothing outranks the top |
| LocHeapTree.PushElements | hardware/gps/utils/LocHeap.cpp:107-124 | Push adds exactly the pushed object |
| LocHeapTree.PushKeepsOrder | hardware/gps/utils/LocHeap.cpp:107-124 | Push keeps the check at every node; the new top is the higher of the two |
| LocHeapTree.PopElements | hardware/gps/utils/LocHeap.cpp:134-164 | Pop removes exactly the top |
| LocHeapTree.PopKeepsOrder | hardware/gps/utils/LocHeap.cpp:134-164 | Pop keeps the check at every node |
| LocHeapTree.RemoveIsComplete | hardware/gps/utils/LocHeap.cpp:170-193 | Remove finds an object if and only if it is stored, although it skips subtrees by rank |
| LocHeapTree.RemoveElements | hardware/gps/utils/LocHeap.cpp:170-193 | Remove takes out one occurrence of what it found and otherwise leaves every node as it is |
| LocHeapTree.RemoveKeepsOrder | hardware/gps/utils/LocHeap.cpp:170-193 | Remove keeps the check at every node |
| LocHeapTree.DrainSorts | hardware/gps/utils/LocHeap.cpp:245-254 | Popping until empty lists every element once, highest rank first |
| LocHeapTree.PushesBalance | hardware/gps/utils/LocHeap.cpp:107-124 | A heap built by pushes holds what was pushed and has subtrees that differ by at most one at every node |
| LocHeapTree.PushedHeapIsShallow | hardware/gps/utils/LocHeap.cpp:107-124 | A heap built by pushes with height h holds at least 2 to the power h - 1 objects |
| LocHeapTree.ObjectsAreConserved | hardware/gps/utils/LocHeap.cpp:228-267 | After any operations the heap is consistent, and what it was given is what it holds and what it gave back |
| LocHeapTree.PushTakesSide | hardware/gps/utils/LocHeap.cpp:107-124 | The object goes to the missing or smaller subtree, the left one in doubt, and the other is left alone |
| LocHeapTree.PopTakesSide | hardware/gps/utils/LocHeap.cpp:134-164 | The left top moves up exactly if it is alone or strictly outranks the right one; the other subtree is left alone |
| LocHeapTree.RemoveTakesLeft | hardware/gps/utils/LocHeap.cpp:170-193 | An object in the left subtree is taken from there, and nothing else changes |
| LocHeapTree.RemoveTakesRight | hardware/gps/utils/LocHeap.cpp:170-193 | An object only in the right subtree is taken from there, and nothing else changes |
| LocHeapNodes.LocHeapNode.Push | hardware/gps/utils/LocHeap.cpp:107-124 | The linked nodes do in place what push does on trees, with a node of their own for the new object |
| LocHeapNodes.LocHeapNode.Pop | hardware/gps/utils/LocHeap.cpp:134-164 | The linked nodes do in place what pop does on trees; the node given back has no children |
| LocHeapNodes.LocHeapNode.Remove | hardware/gps/utils/LocHeap.cpp:170-193 | The linked nodes do in place what remove does on trees; a node given back has no children |
| LocHeapNodes.LocHeap.Push | hardware/gps/utils/LocHeap.cpp:228-235 | The heap object gains the pushed object |
| LocHeapNodes.LocHeap.Pop | hardware/gps/utils/LocHeap.cpp:245-254 | The heap object gives back its top, if it has one |
| LocHeapNodes.LocHeap.Remove | hardware/gps/utils/LocHeap.cpp:256-267 | The heap object gives back the object if it is stored |
| LocIpcFraming.ShortMessageArrives | hardware/gps/utils/LocIpc.cpp:105-114 | A short message arrives as it is if and only if it is not empty and the buffer with it on top does not begin with the mark |
| LocIpcFraming.ShortMessageArrivesAlways | hardware/gps/utils/LocIpc.cpp:105-114 | Whatever is left in the buffer, it arrives if and only if it neither begins with the mark nor is the beginning of it |
| LocIpcFraming.LongMessageArrives | hardware/gps/utils/LocIpc.cpp:116-130 | A long message is put together exactly if and only if the byte left behind its header is not a digit; otherwise the receiver keeps collecting |
| LocIpcFraming.ScanHeader | hardware/gps/utils/LocIpc.cpp:119-119 | The announced length is read back exactly, and a stale digit always makes it larger |
| LocIpcFraming.ScanPrinted | hardware/gps/utils/LocIpc.cpp:175-175 | Scanning a printed number continues with what follows it |
| LocIpcFraming.ScanAnything | hardware/gps/utils/LocIpc.cpp:117-119 | What else the scan makes of what follows the mark: white space, signs, too large numbers and no digits |
| LocIpcFraming.FramesMakeUpTheMessage | hardware/gps/utils/LocIpc.cpp:167-196 | A short message is sent as it is; a long one as the mark with its length and pieces that make it up again, each but the last a full buffer |
| LocIpcFraming.PiecesAreCollected | hardware/gps/utils/LocIpc.cpp:120-123 | Pieces are collected until exactly the announced length |
| LocIpcFraming.TrafficArrives | hardware/gps/utils/LocIpc.cpp:103-131 | Messages of any number, length and content are complete, in order and the receiver idle after each of them if and only if each was clean after the datagrams sent before it, a condition on the messages and the first contents of the buffer alone |
| LocIpcFraming.BufferHoldsLatest | hardware/gps/utils/LocIpc.cpp:104-123 | Each byte of the reused buffer is that of the latest datagram long enough to reach it |
| LocIpcFraming.CleanIsDelivered | hardware/gps/utils/LocIpc.cpp:105-130 | After any datagrams a message is delivered if and only if it is clean after them |
| LocIpcFraming.DigitsSwallowTheNextLongMessage | hardware/gps/utils/LocIpc.cpp:117-130 | After a long message of digits two buffers long, which arrives, the next long message does not and the receiver keeps collecting |
| LocIpc.Send | hardware/gps/utils/LocIpc.cpp:167-196 | The sending loop produces the frames of the message |
| LocIpc.CollectLong | hardware/gps/utils/LocIpc.cpp:118-123 | The collecting loop stops as soon as the length is reached |
| LocIpc.StartListeningBlocking | hardware/gps/utils/LocIpc.cpp:103-131 | The receiving loops over the reused buffer hand on what the receiver on values does |
| SetMaps.LocUnorderedSetMap.TrimOrRemove | hardware/gps/utils/LocUnorderedSetMap.h:131-140 | The entries of all keys lose the values, emptied entries go, and the emptied keys and the values taken are reported exactly |
| SetMaps.LocUnorderedSetMap.AddAll | hardware/gps/utils/LocUnorderedSetMap.h:164-171 | The entries of all keys gain the values, and exactly the new keys are reported |
| SetMaps.LocUnorderedSetMap.Update | hardware/gps/utils/LocUnorderedSetMap.h:176-187 | The entry is replaced; what is reported as gone are the values it had and keeps, and what is left are those it did not have |
| SetMaps.TrimSet | hardware/gps/utils/LocUnorderedSetMap.h:44-51 | The trimming loop takes out exactly the common values |
| SetMaps.RemoveAndReturnInterset | hardware/gps/utils/LocUnorderedSetMap.h:57-70 | The common elements are taken out of both sets |
| Subscriptions.UpdateKeepsConverse | hardware/gps/core/SystemStatusOsObserver.cpp:149-167 | From converse tables an update leads to converse tables if and only if the client had no subscription |
| Subscriptions.DocumentedUpdateKeepsConverse | hardware/gps/utils/LocUnorderedSetMap.h:173-187 | With the values the client gives up, as documented, it always would |
| Subscriptions.RunsStayConverse | hardware/gps/core/SystemStatusOsObserver.cpp:103-281 | The tables are converse all through a run if and only if updates in it came only from clients without a subscription |
| Subscriptions.DocumentedRunsStayConverse | hardware/gps/utils/LocUnorderedSetMap.h:173-187 | As documented, the tables would be converse after every run of any requests |
| Subscriptions.RunsLeaveNoEmptyEntry | hardware/gps/core/SystemStatusOsObserver.cpp:103-281 | No run, updates included, leaves an empty entry in either table |
| Subscriptions.WideningSilencesTheOldItem | hardware/gps/core/SystemStatusOsObserver.cpp:149-167 | A client that widens its subscription is no longer sent its old item |
| Subscriptions.FrameworkFollowsItems | hardware/gps/core/SystemStatusOsObserver.cpp:103-281 | What the tables report for the framework after each request are exactly the items that got their first client and those that lost their last; it is passed on if a subscription object is set and no data is requested |
| Subscriptions.NotifyIsExact | hardware/gps/core/SystemStatusOsObserver.cpp:308-341 | With converse tables each client is sent exactly the updated items it subscribed to, and is called back exactly if there are any |
| Subscriptions.SubscribeMeans | hardware/gps/core/SystemStatusOsObserver.cpp:103-106 | A subscription adds the same pairs to both relations |
| Subscriptions.ReplaceMeans | hardware/gps/core/SystemStatusOsObserver.cpp:149-171 | What an update does to each relation, given the values it reports as gone |
| Subscriptions.UpdateMeans | hardware/gps/core/SystemStatusOsObserver.cpp:149-171 | An update gives the client exactly the items, and leaves it in the entries of those it did not have and of those it gave up |
| Subscriptions.UnsubscribeMeans | hardware/gps/core/SystemStatusOsObserver.cpp:221-228 | An unsubscription removes the same pairs from both relations |
| Subscriptions.UnsubscribeAllMeans | hardware/gps/core/SystemStatusOsObserver.cpp:260-267 | A client that leaves is in neither relation |
| OsObserver.UpdatedMeans | hardware/gps/core/SystemStatusOsObserver.cpp:308-315 | Of a batch of arrivals an item counts as updated if and only if some handled arrival brought other data than the cache held before the batch |
| OsObserver.CacheIsLatest | hardware/gps/core/SystemStatusOsObserver.cpp:485-513 | The cache holds the data of the latest handled arrival |
| OsObserver.CallBacksMean | hardware/gps/core/SystemStatusOsObserver.cpp:308-341 | Whatever the tables hold, a client is called back with an item exactly if it wants it, the item was updated, and it is in the entry of some updated item |
| OsObserver.NewsReachesItsSubscribers | hardware/gps/core/SystemStatusOsObserver.cpp:308-341 | With converse tables a client is called back with an item if and only if it subscribed to it and the batch brought news of it, at its latest data |
| OsObserver.SystemStatusOsObserver.Subscribe | hardware/gps/core/SystemStatusOsObserver.cpp:103-124 | The handler updates both tables, sends what is cached, and asks the framework for the data or for the new items |
| OsObserver.SystemStatusOsObserver.UpdateSubscription | hardware/gps/core/SystemStatusOsObserver.cpp:149-199 | The handler does to the tables and the framework what the operation on values does, and sends only items new to the client |
| OsObserver.SystemStatusOsObserver.Unsubscribe | hardware/gps/core/SystemStatusOsObserver.cpp:221-242 | The handler does what the operation on values does |
| OsObserver.SystemStatusOsObserver.UnsubscribeAll | hardware/gps/core/SystemStatusOsObserver.cpp:260-282 | The handler does what the operation on values does |
| OsObserver.SystemStatusOsObserver.SetSubscriptionObj | hardware/gps/core/SystemStatusOsObserver.cpp:70-80 | The framework is asked to watch, and for the data of, everything subscribed to before it was there |
| OsObserver.SystemStatusOsObserver.Notify | hardware/gps/core/SystemStatusOsObserver.cpp:308-341 | The handler caches the arrivals and calls back each client with exactly the items on both tables |
| SessionDictionary.RunsStayWellformed | hardware/gps/location/LocationAPIClientBase.cpp:378-556 | Forward and backward maps are inverse, every session has its entity, and the session is the tracking one exactly in fix mode, all through a run, if and only if the engine always issued a session that is not zero and not another client's |
| SessionDictionary.GeneratedSessionsAreFresh | hardware/gps/core/LocAdapterBase.cpp:53-61 | Sessions the generator issues in turn satisfy that, if those the starts and updates carry come from within one period |
| SessionDictionary.NoSessionIsForgotten | hardware/gps/location/LocationAPIClientBase.cpp:378-556 | Every session started is stored under its kind until it is asked to stop or reported ended after that start, also if its number is issued again; and the engine is only asked about sessions it was asked to start and has not reported ended, as the kind they are |
| SessionDictionary.StartKeeps | hardware/gps/location/LocationAPIClientBase.cpp:378-435 | A start keeps the dictionary well formed if and only if the session issued is free |
| SessionDictionary.UpdateKeeps | hardware/gps/location/LocationAPIClientBase.cpp:469-556 | So does an update, which needs a new session only between tracking and batching |
| SessionDictionary.UpdateKeepsOrSwapsSession | hardware/gps/location/LocationAPIClientBase.cpp:483-547 | An update keeps the session or puts the one just issued in its place, and changes no other client's |
| SessionDictionary.RequestsConcernOwnSession | hardware/gps/location/LocationAPIClientBase.cpp:437-556 | A stop or update asks the engine about the client's own session only, as the kind it is, and the new mode is what the client has afterwards |
| SessionDictionary.EndKeeps | hardware/gps/location/LocationAPIClientBase.cpp:884-888 | The end of a session keeps the dictionary well formed |
| SessionDictionary.CompletionDrops | hardware/gps/location/LocationAPIClientBase.cpp:825-846 | Trip completion drops exactly the reported sessions in that mode |
| SessionDictionary.CompletionReports | hardware/gps/location/LocationAPIClientBase.cpp:825-846 | It reports each of their client ids once and no others |
| SessionDictionary.SetKeepsLinks | hardware/gps/location/LocationAPIClientBase.h:289-295 | Storing keeps the maps inverse if and only if id and session are free for each other |
| SessionDictionary.RmByIdKeepsLinks | hardware/gps/location/LocationAPIClientBase.h:303-309 | Removing by id keeps them inverse and touches no other id, known or not |
| SessionDictionary.RmBySessionKeepsLinks | hardware/gps/location/LocationAPIClientBase.h:310-316 | Removing by session keeps them inverse if and only if the session is stored or no client has id zero |
| SessionDictionary.RemovalsAgree | hardware/gps/location/LocationAPIClientBase.h:303-316 | Both removals of a stored pair do the same |
| SessionDictionary.RemovalUndoesSet | hardware/gps/location/LocationAPIClientBase.h:289-309 | Storing a new pair and removing it leaves the dictionary as it was |
| SessionEffects.StartEffect | hardware/gps/location/LocationAPIClientBase.cpp:378-435 | A start under a new id asks the engine for the kind of the mode and stores the session issued as that kind in all three maps; under a known id nothing changes |
| SessionEffects.StopEffect | hardware/gps/location/LocationAPIClientBase.cpp:437-467 | A stop asks the engine to stop the client's own session, as the kind it is, and keeps it stored; of an unknown id it does nothing |
| SessionEffects.StopInRuns | hardware/gps/location/LocationAPIClientBase.cpp:437-467 | So it is after any run in which sessions were issued free |
| SessionEffects.UpdateEffect | hardware/gps/location/LocationAPIClientBase.cpp:469-556 | What an update asks of the engine and what the three maps hold afterwards, in each of the four cases |
| SessionEffects.EndEffect | hardware/gps/location/LocationAPIClientBase.cpp:884-888 | The end of a session drops it from all three maps and no other; of an unknown session it does nothing |
| SessionEffects.TripsEffect | hardware/gps/location/LocationAPIClientBase.cpp:825-846 | Completion drops exactly the trips reported, ends them in the order of their first reports, and returns their clients in that order |
| LocationAPIClient.BiDict.Set | hardware/gps/location/LocationAPIClientBase.h:289-295 | All three maps are written |
| LocationAPIClient.BiDict.RmById | hardware/gps/location/LocationAPIClientBase.h:303-309 | The entries that indexing creates are gone again at the end |
| LocationAPIClient.BiDict.RmBySession | hardware/gps/location/LocationAPIClientBase.h:310-316 | The entries that indexing creates are gone again at the end |
| LocationAPIClient.BiDict.GetExtById | hardware/gps/location/LocationAPIClientBase.h:337-350 | An unknown id yields the zero entity and stays behind in the forward map |
| LocationAPIClient.LocationAPIClientBase.LocAPIStartSession | hardware/gps/location/LocationAPIClientBase.cpp:378-435 | The object takes the start step and returns the error of the source in each case |
| LocationAPIClient.LocationAPIClientBase.LocAPIUpdateSessionOptions | hardware/gps/location/LocationAPIClientBase.cpp:469-556 | The object takes the update step and returns the error of the source in each case |
| LocationAPIClient.LocationAPIClientBase.LocAPIStopSession | hardware/gps/location/LocationAPIClientBase.cpp:437-467 | The engine is asked to stop the client's own session, which stays until the response |
| LocationAPIClient.LocationAPIClientBase.RemoveSession | hardware/gps/location/LocationAPIClientBase.cpp:884-888 | The session is dropped if it is known |
| LocationAPIClient.LocationAPIClientBase.BeforeBatchingStatusCb | hardware/gps/location/LocationAPIClientBase.cpp:825-846 | The loop that removes while it looks up returns the ids of the completed trips |
| StatusReport.ReportIsLatestHistory | hardware/gps/core/SystemStatus.cpp:1270-1285 | The bounded report is always the last five entries of the unbounded history |
| StatusReport.HistoryCollapsesRuns | hardware/gps/core/SystemStatus.cpp:1270-1285 | The history of plain items has one entry for each maximal run of equal items: the first of the run, at the time stamp of its last |
| StatusReport.RecordedLast | hardware/gps/core/SystemStatus.cpp:1270-1285 | Repeated or not, the newest entry compares as the newest item collated |
| StatusReport.ItemReport.SetIteminReport | hardware/gps/core/SystemStatus.cpp:1270-1285 | The vector updated in place is the report of the stream, and the result says whether the item was new |
| NetworkInfo.ReportShowsTypes | hardware/gps/core/SystemStatus.h:475-489 | The newest entry shows the fold of union on connect, difference on disconnect and clearing on a disconnect without types |
| NetworkInfo.ReportShowsTypesInUse | hardware/gps/core/SystemStatus.h:475-489 | It shows a type if and only if some item connected it, or the very first named it, and no later item ended it |
| NetworkInfo.ExactFromTheFirstItem | hardware/gps/core/SystemStatus.h:475-489 | Over all streams that begin with an item, it shows exactly the types in use if and only if that item is a connection or names no type |
| AdapterTable.RunsStayDistinct | hardware/gps/core/LocApiBase.cpp:161-207 | After any adds and removals the list is free of duplicates, fits the array and holds only adapters that should be there |
| AdapterTable.NoneMissingWhileRoom | hardware/gps/core/LocApiBase.cpp:161-171 | All through a run no adapter is missing if and only if there were never more than ten |
| AdapterTable.AddingKeeps | hardware/gps/core/LocApiBase.cpp:161-171 | Adding keeps the list free of duplicates and adds exactly the adapter if there is room |
| AdapterTable.RemovingKeeps | hardware/gps/core/LocApiBase.cpp:173-207 | Removing takes out exactly the adapter and keeps all others |
| AdapterTable.RemovedAt | hardware/gps/core/LocApiBase.cpp:179-199 | The last adapter takes the place of the one removed, and all others keep theirs |
| LocApi.LocApiBase.AddAdapter | hardware/gps/core/LocApiBase.cpp:161-171 | The array stays a prefix without holes; the modem is opened with the adapter's mask exactly if it was added |
| LocApi.LocApiBase.RemoveAdapter | hardware/gps/core/LocApiBase.cpp:173-207 | The array stays a prefix without holes; the modem is closed if and only if it became empty, and otherwise opened with what the remaining adapters ask for |
| LocApi.LocApiBase.TakeOut | hardware/gps/core/LocApiBase.cpp:179-199 | The shift moves the last adapter into the hole |
| LocApi.LocApiBase.GetEvtMask | hardware/gps/core/LocApiBase.cpp:139-146 | The mask has an event if and only if a listed adapter wants it and it is not excluded |

## Left out

- Sockets, threads, dynamic loading, callbacks into other processes, logging and clocks: they appear as inputs, answers or traces.
- AgpsProtocol: subscribers are values found by their handle; the source passes pointers to list entries and to a request on the stack.
- AgpsMachine.AgpsStateMachine.DeleteSubscriber: when the code is handed the list's own entry it goes on comparing later entries with it after it has deleted it, which C++ does not define; it is read as comparing with that entry's handle.
- DsMachine: the requests posted for the normal machine are recorded, and their arrival there is one more call on the manager.
- AgpsManager: reports of the modem use the machine meant without a check that it exists, which is asked of their callers.
- Bearer and APN data of the AGPS machines, which are only passed through.
- TrackingMultiplex: intervals only, not position modes, because on ties the engine may keep an older mode; the ULP proxy never takes over, so starts and stops it drives are not part of the model.
- TrackingMultiplex.EngineFollowsSessions: is stated within one period of the session id generator; EngineFollowsThroughout has no such bound.
- AgpsManager.AgpsManager.HandleModemSSR: the code calls the functions of the client of the data service without asking whether they are registered; they are taken to be, and the answer of the initialization that follows is not looked at, as in the code.
- GnssAdapter: the order in which the session map is walked when a client is removed is a parameter.
- MultiHalProtocol: one reader at a time asking for at least one event; a reader that asks for none is described by NoRoomReadsNothing.
- MultiHalScan: whether a meta-data event is dropped is decided by its sensor field alone, as in the code, so one with an unknown inner handle is passed on.
- LocHeapNodes: objects are identified by their address and have a rank that does not change; the comparison of ranks is that of integers.
- LocIpcFraming: one sender, no datagram lost or reordered, every send complete; a number scanned at the very end of the buffer ends there, where the code reads on.
- SetMaps.RemoveAndReturnInterset: the code erases the element its loop stands on and goes on from it, which C++ does not define; it is read as its comment says, taking the common elements out of both sets.
- SetMaps.LocUnorderedSetMap.TrimOrRemove: the code reads the key of an entry it has just erased, which C++ does not define; it is read as that key.
- Subscriptions: the set of items the framework watches is not claimed to equal the items subscribed to, because requests for data subscribe without telling it.
- OsObserver: whether the system status takes an item is an input, and copying an item over the cached one changes it exactly if the data differ.
- turnOn and turnOff of the observer.
- SessionDictionary: the request queues of the client base, batching modes and options, and the geofence dictionary.
- LocationAPIClient: each call runs as a whole; the locks inside the dictionary are not modelled.
- StatusReport: an item is a compared part, the rest and its time stamp; the many item types and their comparisons are parameters. Reports filled with default items and the NMEA tokenizer are not part of the model.
- NetworkInfo: the bits of the 64-bit type mask are a set of network types; writing the collated mask back to the source item is not modelled.
- AdapterTable: opening and closing are the requests made; event masks are sets of events.
- Geofences, position data, NI handling, enum conversions, and the camera, light, power and thermal code.
