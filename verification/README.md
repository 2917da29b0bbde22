# Verified model of the GPS stack

This project models the stateful cores of the GPS stack under `gps/` and proves what the rest of
the stack relies on. `dafny verify dfyconfig.toml` checks all of it.

| directory | models | main results |
|---|---|---|
| `timer/` | the timer heap, its two containers, the poll thread, client timers and their shared locks | the heap in place refines a tree value; removal is complete although it prunes; no wakeup is lost and no delegate dangles or leaks, over every interleaving; every started timer is due as long after its own start as asked; left alone, the service comes to rest, and then no timeout has elapsed |
| `gnss/` | the tracking multiplexer of `GnssAdapter` | over all runs, exactly when the engine runs at the minimum of the saved sessions, or is off |
| `subscription/` | `LocUnorderedSetMap` and `SystemStatusOsObserver` | over all runs the two subscription maps have exactly what was subscribed and not unsubscribed since, and exactly when the framework is in step; after any batch the cache has the latest reports, and exactly what is new is delivered |
| `agps/` | the base AGPS state machine and its manager | over all runs, exactly when state and subscriber list agree; who is told what, and how often |
| `ipc/` | the datagram framing of `LocIpc` | exactly which messages arrive unchanged, alone and in conversations |
| `location/` | session ids, `BiDict`, and the sessions of `LocationAPIClientBase` | ids, sessions and entities stay a bijection; exactly when responses meet the requests they belong to; exactly when adding geofences keeps theirs one; removal moves exactly the known ones |
| `core/` | the report window of `SystemStatus`, the adapter array of `LocApiBase` | the window is the tail of an unbounded log; the array stays packed |

How the model is built:

* Classes with fields stand for the source's classes, and their methods change the fields in place,
  with the source's loops. Each is proved against a function on values, and the properties are
  lemmas about those functions. `LocHeap` is a pointer tree of node objects; a ghost snapshot of the
  tree says which object holds what.
* The timer service is a step system: every `start`, `stop` and destruction of a `LocTimer`, every
  message, every pop of the expiry loop, the read of `mClient` in `expire()` and the call on the client
  it read, the arming of the kernel timer after its poll was added, and each of the three actions of the poll thread (disarm, unpoll, send) is one
  step, and a run is any sequence of enabled steps. The steps use the same functions the container's
  methods are proved against.
* Clocks, engine and socket outcomes, the ids handed out by lower layers, and the framework's
  answers are parameters or free choices, so every result holds for all of them.
* Bit masks of events and of network types are sets of bit numbers. Machine integers are written
  out where their width matters: the 32-bit session id counter, and `int` in the timer comparison.

Where the properties are conditional, the condition is part of the result:

* The timer comparison has the right sign exactly if the seconds, modulo 2^32, lie in the half that
  their sign asks for (`TimerClock.RanksRightAtAnyDistance`); below 2^32 seconds apart, exactly if the
  difference fits in an `int`. `TimerClock.RanksWrapsAround` shows what happens beyond.
* A start command for a session key that is already saved leaves the engine matched in exactly the
  cases that `TrackingMultiplexer.StartMatchesIff` lists.
* After an engine restart, `RestartSessions` restores the match if its engine call succeeds. If it
  fails, the engine stays off, and a later command restores the match exactly if it asks the engine
  (`StartAsks`, `UpdateAsks`, `StopAsks`); a start at or above the minimum succeeds without asking.
* A framework object is in step from the first time it is set until it is replaced. Set again, it may
  hold items that nobody wants any more, because the others were unregistered elsewhere meanwhile;
  `Subscriptions.InStepIff` says when, and `Subscriptions.SetAgainOutOfStep` is such a run.
* Adding geofences keeps their dictionary a bijection exactly if no id is given twice or known
  already, when the sessions are new ones. The source does not check; an id that is added twice
  leaves its first session running where no removal reaches it (`Geofences.AddedTwiceLeaks`,
  `Geofences.LeakedStays`). Removal is proved for such dictionaries too.
* A modem restart empties the subscriber list of an AGPS machine but keeps its state. State and list
  agree after it exactly if the machine was released, and else again from the next event that
  reconciles them: a request while pending or acquired, the end or denial of the connection that the
  state still stands for, or, while releasing, a subscriber that leaves waiting or as the last one
  (`AgpsSafety.Reconciles`). `AgpsSafety.AgreementIff` says so for all runs.
* A response names only its session and is handed to the oldest request. As long as no session leaves
  the dictionary while another of its calls is unanswered, that is its own request, and then a session
  leaves exactly if its `locAPIStartSession` failed or its stop succeeded; one that an update started
  stays bound even if that start fails. Otherwise a request is left behind for good, and can take out
  a session that was started well (`SessionRuns.SessionLost`).
* `expire()` reads the client without its lock. Its callback is for the timer that was popped exactly
  if the client has not been stopped since (`TimerGuarantees.CallbackIsForPoppedIff`).
* The first network report counts as a connection even if it says that the network is down, since
  `collate` is not called for it.
* The listener's buffer keeps the bytes of the last message behind those of a shorter one. A long
  message is heard exactly if the byte left behind its header is no digit, and a short one exactly if
  it does not, with the bytes left behind it, start with the header or the abort text. On a fresh
  buffer, which is all zeros, only short messages that start that way themselves are lost.
  `LocIpc.StaleDigit` and `LocIpc.StaleHeader` are conversations that lose a message.

Where documentation and code disagree, the code is modelled:

* `gps/utils/LocHeap.h:84-88` says that `remove` finds an element that ranks the same; the code
  compares addresses, and equal rank is not enough.
* `gps/utils/LocHeap.cpp:34` says that `mSize` leaves out the node itself; every node is created
  with size 1 and counts itself.
* `gps/utils/LocUnorderedSetMap.h` reads the key through an iterator after erasing its entry; the
  model takes the key that was erased.
* `gps/gnss/Agps.cpp:419-436` goes on comparing with the subscriber it was given after deleting it,
  which in `releaseATL` is the list's own element; the model compares with the handle it had.

## Model

| member | source | states |
|---|---|---|
| HeapTree.TopIsHighest | gps/utils/LocHeap.cpp:237-243 | in an ordered tree nothing outranks the top |
| HeapTree.PushAddsOne | gps/utils/LocHeap.cpp:107-124 | push adds exactly the new element to the multiset of data, in any tree |
| HeapTree.PushKeepsSizes | gps/utils/LocHeap.cpp:107-124 | push keeps every stored size exact, and the count grows by one |
| HeapTree.PushKeepsOrder | gps/utils/LocHeap.cpp:107-124 | push keeps heap order for every total preorder, and the new top is the higher of old top and new element |
| HeapTree.PopTakesTop | gps/utils/LocHeap.cpp:134-160 | the datum swapped down to the detached leaf node is the old top |
| HeapTree.PopRemovesOne | gps/utils/LocHeap.cpp:134-160 | pop takes exactly the top out of the multiset of data |
| HeapTree.PopKeepsSizes | gps/utils/LocHeap.cpp:134-160 | pop keeps every stored size exact |
| HeapTree.PopKeepsOrder | gps/utils/LocHeap.cpp:134-160 | pop keeps heap order, even if the top was out of order, as it is after the swap |
| HeapTree.RemoveIsComplete | gps/utils/LocHeap.cpp:170-193 | remove returns the element if and only if it is in the tree, although subtrees are pruned |
| HeapTree.RemoveMissChangesNothing | gps/utils/LocHeap.cpp:170-193 | a remove that finds nothing leaves any tree as it was |
| HeapTree.RemoveTakesOne | gps/utils/LocHeap.cpp:170-193 | a successful remove takes out exactly that element once |
| HeapTree.RemoveKeepsSizes | gps/utils/LocHeap.cpp:170-193 | remove keeps all stored sizes exact on the way back up |
| HeapTree.RemoveKeepsOrder | gps/utils/LocHeap.cpp:170-193 | remove keeps heap order, and a top that is not removed stays the top |
| HeapTree.CheckNodesDecides | gps/utils/LocHeap.cpp:197-220 | checkNodes is true exactly on trees with exact sizes and no child above its parent |
| HeapTree.PopAllYieldsContents | gps/utils/LocHeap.cpp:245-254 | popping until empty yields all data, each as often as it was there |
| HeapTree.PopAllSorts | gps/utils/LocHeap.cpp:245-254 | and yields them in non-increasing rank order |
| HeapTree.PushKeepsBalance | gps/utils/LocHeap.cpp:107-124 | push keeps right size <= left size <= right size + 1 at every node |
| HeapTree.PushedTreesBalanced | gps/utils/LocHeap.cpp:228-235 | every tree built by pushes only is balanced in that sense |
| HeapTree.HeightBounds | gps/utils/LocHeap.cpp:107-124 | a balanced tree of height h has at least 2^(h-1) and fewer than 2^h nodes |
| HeapTree.PushedHeight | gps/utils/LocHeap.cpp:107-124 | n pushes give a tree of height h with 2^(h-1) <= n < 2^h |
| LocHeap.LocHeapNode.Push | gps/utils/LocHeap.cpp:107-124 | the in-place push on node objects yields the tree value of the pure push, and adds just the new node object |
| LocHeap.LocHeapNode.Pop | gps/utils/LocHeap.cpp:134-160 | the in-place pop yields the pure pop, detaching one node object that holds the old top |
| LocHeap.LocHeapNode.Remove | gps/utils/LocHeap.cpp:170-193 | the in-place search by object yields the pure remove, and detaches at most one node object |
| LocHeap.LocHeapNode.CheckNodes | gps/utils/LocHeap.cpp:197-220 | on node objects, true if and only if sizes and order are right |
| LocHeap.LocHeap.Push | gps/utils/LocHeap.cpp:228-235 | the heap object's contents become the pure push of the old contents |
| LocHeap.LocHeap.Pop | gps/utils/LocHeap.cpp:245-254 | contents and result are those of the pure pop, and an empty heap yields nothing |
| LocHeap.LocHeap.Remove | gps/utils/LocHeap.cpp:256-267 | contents and result are those of the pure remove |
| LocHeap.LocHeap.CheckTree | gps/utils/LocHeap.cpp:270-272 | decides well-formedness of the whole heap, the empty one included |
| TimerClock.RanksIsReverseChronological | gps/utils/LocTimer.cpp:509-523 | from -2^31 to below 2^31 seconds the comparison does not overflow, and its sign is that of reverse chronological order |
| TimerClock.RanksRightIff | gps/utils/LocTimer.cpp:509-523 | less than 2^32 seconds apart, the sign is right if and only if the difference is at least -2^31 and below 2^31 |
| TimerClock.RanksRightAtAnyDistance | gps/utils/LocTimer.cpp:509-523 | at any distance, exactly when the sign is right |
| TimerClock.RanksWrapsAround | gps/utils/LocTimer.cpp:509-523 | a time 2^31 seconds later ranks as the earlier one |
| TimerClock.FutureTimeIsExact | gps/utils/LocTimer.cpp:553-564 | the due time is normalized and exactly ms milliseconds ahead, with no 32-bit overflow |
| TimerStarts.StartIsDueInTime | gps/utils/LocTimer.cpp:553-576 | over all runs, a start of an idle client is possible and makes one new delegate, due exactly ms milliseconds after the clock of the call, for the container asked for, and queues its push |
| TimerStarts.ClientsMayCall | gps/utils/LocTimer.cpp:553-591 | a start of a running client changes nothing, and any client may stop and go at any time |
| TimerStarts.DelegateWasStarted | gps/utils/LocTimer.cpp:553-576 | over all runs, every live delegate was made by one start of its owner, whose timeout and container it carries |
| TimerStarts.OwnerStays | gps/utils/LocTimer.cpp:479-507 | no step changes which client a delegate was started for |
| TimerStarts.InItsContainer | gps/utils/LocTimer.cpp:566-576 | over all runs, a heap holds only live delegates whose own start asked for its container |
| TimerStarts.NoTimeoutHasElapsed | gps/utils/LocTimer.cpp:283-591 | at rest, no running client waits longer than the timeout of its own start |
| TimerContainer.TimerRanksIsTotal | gps/utils/LocTimer.cpp:509-523 | the ranking of delegates is a total preorder, reverse chronological |
| TimerContainer.DrainDuePopsDue | gps/utils/LocTimer.cpp:363-377 | the conditional pops take exactly the due timers, in order, and leave only later ones |
| TimerContainer.DrainLeavesLater | gps/utils/LocTimer.cpp:363-377 | whatever the first pop was, only strictly later timers are left, and all data are conserved |
| TimerContainer.DrainFiresDue | gps/utils/LocTimer.cpp:363-377 | the first pop is the top, and every later pop is due |
| TimerContainer.ExpiryDrain | gps/utils/LocTimer.cpp:363-377 | one expiry pops exactly the due timers if the top is due, at most the first pop is early, all else conserved |
| TimerContainer.LocTimerContainer.UpdateSoonestTime | gps/utils/LocTimer.cpp:283-311 | if the top has changed, or always if called with NULL, the kernel timer is armed for the top and polled, or disarmed and unpolled without one; else nothing changes |
| TimerContainer.RearmedWatches | gps/utils/LocTimer.cpp:283-311 | what the specification of updateSoonestTime computes in each case |
| TimerContainer.PushWatches | gps/utils/LocTimer.cpp:313-329 | a push keeps a container armed for its top and polled |
| TimerContainer.RemoveWatches | gps/utils/LocTimer.cpp:331-353 | so does a remove, of the top, of another timer, or of one that is not there |
| TimerContainer.LocTimerContainer.PushProc | gps/utils/LocTimer.cpp:313-329 | the container after a push message is the model's next value, with new node objects only; a container armed for its top and polled stays so |
| TimerContainer.LocTimerContainer.RemoveProc | gps/utils/LocTimer.cpp:331-353 | the container after a remove message is the model's next value, with no new node objects; a container armed for its top and polled stays so |
| TimerContainer.LocTimerContainer.PopIfOutRanks | gps/utils/LocTimer.cpp:387-394 | pops the top if and only if it is due |
| TimerContainer.LocTimerContainer.ExpireProc | gps/utils/LocTimer.cpp:358-385 | the expiry message drains the heap as specified, terminates, and leaves the container armed for its new top and polled, whatever it was before, with no new node objects |
| TimerContainer.LocTimerContainer.ExpireLoop | gps/utils/LocTimer.cpp:363-377 | the loop after the first pop equals the recursive drain |
| TimerWakeup.NoLostWakeup | gps/utils/LocTimer.cpp:283-474 | in every reachable state a non-empty heap is polled, and armed or being armed for its top, or the poll thread is on its way, or an expiry is queued or in progress |
| TimerWakeup.PushFollowsTop | gps/utils/LocTimer.cpp:283-329 | after a push the top is polled and to be armed, unless it is unchanged |
| TimerWakeup.RemoveFollowsTop | gps/utils/LocTimer.cpp:331-353 | after a remove the top is polled and to be armed, unless it is unchanged or none is left |
| TimerWakeup.ArmKeepsWakeup | gps/utils/LocTimer.cpp:299-308 | arming keeps the invariant even if the poll thread has disarmed and unpolled since the poll was added |
| TimerWakeup.StepKeepsWakeup | gps/utils/LocTimer.cpp:283-474 | every step of every party keeps the wakeup invariant |
| TimerWakeup.ArmingIsRearming | gps/utils/LocTimer.cpp:283-311 | the two steps of updateSoonestTime in the step system, taken one after the other, are those of the object |
| TimerWakeup.MessagesAreProcs | gps/utils/LocTimer.cpp:313-353 | a push or remove message leaves its container as the object's method does |
| TimerWakeup.ExpiryEndsAsProc | gps/utils/LocTimer.cpp:358-385 | so does the end of an expiry |
| TimerLifetime.StepKeepsLife | gps/utils/LocTimer.cpp:313-591 | every step keeps: each delegate is in as many places as it may be, removal comes after push, clients and delegates agree |
| TimerLifetime.RunsKeepLife | gps/utils/LocTimer.cpp:313-591 | so does every run |
| TimerLifetime.StepKeepsHand | gps/utils/LocTimer.cpp:526-540 | every step keeps: the popped delegate is attached exactly until the client that was read is stopped |
| TimerLifetime.StopDetaches | gps/utils/LocTimer.cpp:491-507 | a stop detaches the timer that runs for the client, and no other |
| TimerLifetime.RemoveClears | gps/utils/LocTimer.cpp:331-353 | when a remove message has run, its delegate is in no queue, heap or hand |
| TimerGuarantees.DelegateLifetime | gps/utils/LocTimer.cpp:313-353 | pushed once, at most one remove message and at most one free, in that order, never freed while in a heap |
| TimerGuarantees.NoDanglingPointer | gps/utils/LocTimer.cpp:479-540 | whatever a queue, heap, popped slot or client points at is live |
| TimerGuarantees.NoLeak | gps/utils/LocTimer.cpp:491-507 | a live delegate is its client's running timer, or its removal is queued |
| TimerGuarantees.RunningTimerIsWatched | gps/utils/LocTimer.cpp:283-591 | a running timer is on its way into the heap, or just popped, or its container is awake or being armed, or the kernel wakes the poll thread no later than it is due |
| TimerProgress.ExpiryIsDrain | gps/utils/LocTimer.cpp:363-377 | over all runs, whatever clients and the poll thread do meanwhile, an expiry has popped, when it ends, the drain of the heap it found |
| TimerProgress.ExpiryStarts | gps/utils/LocTimer.cpp:358-370 | an expiry begins with the clock read when its message runs, the container of its message and the heap it finds there, and pops the top first |
| TimerProgress.ExpiryGoesOn | gps/utils/LocTimer.cpp:363-377 | every later pop keeps these, and brings the loop one step closer to the drain |
| TimerProgress.ServiceStepWorks | gps/utils/LocTimer.cpp:283-474 | every step of the message thread and the poll thread lessens the work that is left |
| TimerProgress.ServiceComesToRest | gps/utils/LocTimer.cpp:283-474 | while no client calls, the service takes at most that many steps, in any order and at any clock |
| TimerProgress.RestsOrWorks | gps/utils/LocTimer.cpp:283-474 | short of rest, one of the service's threads can take a step |
| TimerProgress.AtRestAllAreServed | gps/utils/LocTimer.cpp:283-591 | at rest no running timer is due, and every other one has been freed |
| TimerGuarantees.StartsAreAnswered | gps/utils/LocTimer.cpp:526-591 | successful starts = successful stops + callbacks + 1 if running |
| TimerGuarantees.StepsAnswerExactly | gps/utils/LocTimer.cpp:526-591 | which steps count as start, stop and callback: a callback is made to the client that was read, if that has a timer running by then |
| TimerGuarantees.CallbackIsForPoppedIff | gps/utils/LocTimer.cpp:526-540 | the callback is for the popped timer if and only if the client has not been stopped since it was read; only a client stopped since can be gone |
| TimerGuarantees.ReadIsOwner | gps/utils/LocTimer.cpp:526-532 | what was read is none or the owner of the popped delegate, which is still allocated |
| TimerGuarantees.StoppedAndStartedInBetween | gps/utils/LocTimer.cpp:526-591 | a client that stops and starts in between gets the callback, and its new timer is stopped |
| TimerGuarantees.ClientOfDelegateLives | gps/utils/LocTimer.cpp:479-507 | the client that a live delegate points at is live, runs that delegate, and is the one whose lock it shares |
| TimerGuarantees.LockCountsItsUsers | gps/utils/LocSharedLock.h:42-57 | the lock exists exactly while its timer or a delegate does, and its count is their number |
| TrackingMultiplexer.MatchIsUnique | gps/gnss/GnssAdapter.cpp:1488-1532 | a session map determines the engine state that matches it |
| TrackingMultiplexer.StartMatchesIff | gps/gnss/GnssAdapter.cpp:1488-1532 | exactly when a successful start leaves the engine at the minimum |
| TrackingMultiplexer.StartOverSlowerSession | gps/gnss/GnssAdapter.cpp:1464-1511 | reusing a saved key with a longer interval breaks the match |
| TrackingMultiplexer.MinAfterUpdate | gps/gnss/GnssAdapter.cpp:1636-1672 | the smaller of new interval and minimum of the others is the new minimum |
| TrackingMultiplexer.AsksIff | gps/gnss/GnssAdapter.cpp:1488-1761 | the engine is asked exactly if a start lowers the minimum, or if an updated or stopped session is the only one or one that the minimum depended on, or comes to |
| MultiplexerRuns.EngineAlwaysMatches | gps/gnss/GnssAdapter.cpp:1441-1761 | over every run of messages without an engine restart, whose session ids are within a period, the engine matches the saved sessions |
| MultiplexerRuns.EngineMatchesIff | gps/gnss/GnssAdapter.cpp:1195-1761 | with engine restarts: exactly if it has accepted a call since the last restart that met sessions |
| MultiplexerRuns.StepMatchesAfter | gps/gnss/GnssAdapter.cpp:1441-1761 | no message loses the match, and one restores it exactly if the engine accepts a call of it |
| MultiplexerRuns.StartIsNew | gps/core/LocAdapterBase.cpp:53-61 | ids of generateSessionId within a period never meet a saved session of their own |
| MultiplexerRuns.SavedWereStarted | gps/gnss/GnssAdapter.cpp:1361-1375 | every saved session has the id of some start of the run |
| Gnss.GnssAdapter.StartTrackingMultiplex | gps/gnss/GnssAdapter.cpp:1488-1532 | the engine is asked exactly when the new interval is below all saved ones |
| Gnss.GnssAdapter.UpdateTrackingMultiplex | gps/gnss/GnssAdapter.cpp:1636-1672 | exactly when the engine is asked, for the minimum of the updated sessions, and that success then means a match from any engine state |
| Gnss.GnssAdapter.StopTrackingMultiplex | gps/gnss/GnssAdapter.cpp:1714-1761 | exactly when the engine is asked, for the minimum of the remaining sessions or to stop, and that success then means a match from any engine state |
| Gnss.GnssAdapter.StartTrackingCommand | gps/gnss/GnssAdapter.cpp:1441-1485 | responses, saved sessions and engine for all outcomes; failure changes nothing; when the match survives, and when it is restored with the engine off |
| Gnss.GnssAdapter.UpdateTrackingCommand | gps/gnss/GnssAdapter.cpp:1589-1634 | the match survives every outcome, a failure leaves sessions and engine alone, and when the match is restored with the engine off |
| Gnss.GnssAdapter.StopTrackingCommand | gps/gnss/GnssAdapter.cpp:1675-1711 | the match survives every outcome, a failed engine call keeps the session, and when the match is restored with the engine off |
| Gnss.GnssAdapter.StopOne | gps/gnss/GnssAdapter.cpp:1136-1143 | one round of the loop: the whole new state, and whether the engine refused a call |
| Gnss.GnssAdapter.StopClientSessions | gps/gnss/GnssAdapter.cpp:1132-1147 | each session of the client is stopped once, and kept exactly if its engine call failed; as many are kept as calls failed |
| Gnss.GnssAdapter.RemoveClientCommand | gps/gnss/GnssAdapter.cpp:1111-1130 | the client goes, and each of its sessions but those whose engine call failed, as many as calls failed; the match survives |
| Gnss.GnssAdapter.RestartSessions | gps/gnss/GnssAdapter.cpp:1211-1235 | from any engine state the minimum is asked for, and the engine then matches if and only if it did before or the call succeeded |
| LocUnorderedSetMap.TrimSet | gps/utils/LocUnorderedSetMap.h:43-51 | splits a set into what is left and what was removed |
| LocUnorderedSetMap.LocUnorderedSetMap.TrimOrRemove | gps/utils/LocUnorderedSetMap.h:123-139 | the values leave every key, emptied keys leave the map, and both are reported exactly |
| LocUnorderedSetMap.LocUnorderedSetMap.Add | gps/utils/LocUnorderedSetMap.h:157-171 | the values join every key, nothing is added for no values, and the new keys are reported exactly |
| LocUnorderedSetMap.LocUnorderedSetMap.Remove | gps/utils/LocUnorderedSetMap.h:119-122 | the key goes, and the result says whether it was there |
| LocUnorderedSetMap.LocUnorderedSetMap.GetKeys | gps/utils/LocUnorderedSetMap.h:111-117 | exactly the keys |
| LocUnorderedSetMap.LocUnorderedSetMap.AddEntry | gps/utils/LocUnorderedSetMap.h:143-155 | the values join one key, and the result says whether the key is new |
| LocUnorderedSetMap.LocUnorderedSetMap.TrimOrRemoveEntry | gps/utils/LocUnorderedSetMap.h:80-88 | the values leave one key, which goes if nothing is left, and what was lost is reported |
| LocUnorderedSetMap.LocUnorderedSetMap.GetValSet | gps/utils/LocUnorderedSetMap.h:105-108 | the values of a key, or none |
| LocUnorderedSetMap.AfterAdd | gps/utils/LocUnorderedSetMap.h:143-155 | who has which value after an add |
| LocUnorderedSetMap.AfterTrim | gps/utils/LocUnorderedSetMap.h:80-88 | who has which value after a trim, and no empty set is left |
| LocUnorderedSetMap.GoneIsLost | gps/utils/LocUnorderedSetMap.h:123-139 | a value is reported as removed exactly if some key had it and has it no longer |
| LocUnorderedSetMap.AddKeepsPairing | gps/core/SystemStatusOsObserver.cpp:92-126 | adding to both maps keeps them inverse and without empty sets |
| LocUnorderedSetMap.TrimKeepsPairing | gps/core/SystemStatusOsObserver.cpp:222-246 | trimming one map and then exactly what it lost from the other keeps them inverse |
| LocUnorderedSetMap.RemoveKeepsPairing | gps/core/SystemStatusOsObserver.cpp:261-282 | so does removing a client and then trimming what it had |
| Subscriptions.RunsAreOk | gps/core/SystemStatusOsObserver.cpp:62-282 | over all runs the maps are inverse without empty sets, and the framework object has at least what is wanted |
| Subscriptions.WantsIff | gps/core/SystemStatusOsObserver.cpp:92-282 | over all runs, both maps have a client for an item exactly if some request subscribed it and no later one unsubscribed it; an item is wanted exactly if some client is entered for it |
| Subscriptions.StepWantsIff | gps/core/SystemStatusOsObserver.cpp:92-282 | which pairs one request gives and takes, and that all others stay |
| Subscriptions.StepKeeps | gps/core/SystemStatusOsObserver.cpp:62-282 | every request keeps that, and under one object nothing becomes stale |
| Subscriptions.StaleSinceSet | gps/core/SystemStatusOsObserver.cpp:62-282 | which items are registered although nobody wants them: those the object had before and nobody has wanted since |
| Subscriptions.InStepIff | gps/core/SystemStatusOsObserver.cpp:62-282 | after any run, exactly when the registered items are the keys of the item-to-clients map |
| Subscriptions.FirstSetStaysInStep | gps/core/SystemStatusOsObserver.cpp:62-282 | an object set for the first time is in step until it is replaced |
| Subscriptions.SetAgainOutOfStep | gps/core/SystemStatusOsObserver.cpp:62-90 | a run after which an object that was set again is not in step |
| Subscriptions.SetAgainIsStale | gps/core/SystemStatusOsObserver.cpp:62-90 | how that happens from any state: an item loses its last client while another object is set |
| Subscriptions.OthersUntold | gps/core/SystemStatusOsObserver.cpp:62-282 | a request tells nothing to any object but the one set by then |
| Subscriptions.NothingToRemove | gps/core/SystemStatusOsObserver.cpp:261-282 | a client that wants nothing is in no map, so skipping it is right |
| ItemCache.SentIffEntryChanged | gps/core/SystemStatusOsObserver.cpp:541-572 | an id is sent exactly if some item of the batch changed its cache entry |
| ItemCache.SentIsCached | gps/core/SystemStatusOsObserver.cpp:541-572 | whatever is sent is in the cache, and nothing leaves the cache |
| ItemCache.CacheIsLatest | gps/core/SystemStatusOsObserver.cpp:541-572 | after any batch, an item that is known or was cached has the value of its last accepted report, or else its old entry; no other is cached |
| ItemCache.SentIffNews | gps/core/SystemStatusOsObserver.cpp:541-572 | an id is sent exactly if some accepted report of it differs from the last accepted one before it, or else from the old entry, or had neither |
| ItemCache.LastValueIsLast | gps/core/SystemStatusOsObserver.cpp:541-572 | the last accepted report of an id is the one with no accepted one after it |
| ItemCache.BatchIsReports | gps/core/SystemStatusOsObserver.cpp:344-374 | the batch that notify builds has the reports that can be created, and nothing else of an id |
| ItemCache.NotifyCaches | gps/core/SystemStatusOsObserver.cpp:297-374 | what a call of notify leaves in the cache, said of the reported items alone |
| ItemCache.NotifySends | gps/core/SystemStatusOsObserver.cpp:297-374 | of which items it sends word, said of the reported items alone |
| OsObserver.SystemStatusOsObserver.SetSubscriptionObj | gps/core/SystemStatusOsObserver.cpp:62-90 | the whole new state, null objects ignored; the framework is in step exactly if the object had nothing else registered |
| OsObserver.SystemStatusOsObserver.Subscribe | gps/core/SystemStatusOsObserver.cpp:92-138 | the whole new state, other objects' registrations included; the framework stays in step, and cached items are sent at once |
| OsObserver.SystemStatusOsObserver.HandleSubscribeReq | gps/core/SystemStatusOsObserver.cpp:102-126 | maps, registrations and the cached items that are sent |
| OsObserver.SystemStatusOsObserver.Unsubscribe | gps/core/SystemStatusOsObserver.cpp:213-252 | the whole new state, other objects' registrations included, and the framework stays in step |
| OsObserver.SystemStatusOsObserver.UnsubscribeAll | gps/core/SystemStatusOsObserver.cpp:254-292 | the whole new state, other objects' registrations included, and the framework stays in step |
| OsObserver.SystemStatusOsObserver.HandleNotify | gps/core/SystemStatusOsObserver.cpp:309-342 | a client is called exactly once if it has a changed item, else not, with exactly its changed items |
| OsObserver.SystemStatusOsObserver.Notify | gps/core/SystemStatusOsObserver.cpp:297-374 | the same for the batch that notify builds |
| OsObserver.SystemStatusOsObserver.UpdateCache | gps/core/SystemStatusOsObserver.cpp:541-572 | the new cache, and whether the entry was added or changed |
| OsObserver.SystemStatusOsObserver.ClientsOf | gps/core/SystemStatusOsObserver.cpp:319-325 | by the pairing, exactly the clients whose own items meet the changed ones |
| OsObserver.SystemStatusOsObserver.SendToAll | gps/core/SystemStatusOsObserver.cpp:327-339 | each of these clients is called once, with its own changed items |
| OsObserver.SystemStatusOsObserver.SendCachedDataItems | gps/core/SystemStatusOsObserver.cpp:513-539 | one call with the cached values of the items, or none if nothing is cached |
| AgpsSafety.RunsAreOk | gps/gnss/Agps.cpp:72-290 | over all runs state and list agree; with modem restarts, released still implies an empty list, and handles are distinct |
| AgpsSafety.StepKeeps | gps/gnss/Agps.cpp:72-290 | each event keeps that |
| AgpsSafety.AgreementIff | gps/gnss/Agps.cpp:72-290 | after any run, restarts included, state and list agree if and only if each restart of a machine that was not released was followed by a reconciling event |
| AgpsSafety.StepAgreesIff | gps/gnss/Agps.cpp:72-290 | which events separate state and list, which reconcile them, and that all others leave agreement as it was |
| AgpsSafety.RestartLeavesStateBehind | gps/gnss/Agps.cpp:887-900 | a run in which the state outlives the list |
| AgpsSafety.LeaversAreToldOnce | gps/gnss/Agps.cpp:316-386 | in any step, a subscriber that leaves gets one terminal callback, open-failed or close-success, and one that stays gets none |
| AgpsSafety.LeaversOfRunsAreToldOnce | gps/gnss/Agps.cpp:316-386 | the same at the end of any run |
| AgpsCallbacks.LeaverIsToldHow | gps/gnss/Agps.cpp:203-386 | which one: one that leaves by a denial while pending is told once that the open failed and of no close, one that leaves otherwise, but for modem restarts, once of the close and of no failed open |
| AgpsCallbacks.LeaverOfRunIsToldHow | gps/gnss/Agps.cpp:203-386 | the same at the end of any run |
| AgpsCallbacks.StepTells | gps/gnss/Agps.cpp:72-386 | which callbacks each input makes, with which handle and outcome, each exactly once, and that it makes no others |
| AgpsCallbacks.StepLists | gps/gnss/Agps.cpp:72-386 | who is on the list after each input, and as what |
| AgpsCallbacks.StepState | gps/gnss/Agps.cpp:72-386 | the next state in every state, by who is active, waits and is left |
| AgpsSafety.NotedOnce | gps/gnss/Agps.cpp:316-349 | notifying and erasing while iterating tells each subscriber concerned once |
| AgpsSafety.ActiveAreToldIffAcquired | gps/gnss/Agps.cpp:180-201 | over all runs an active subscriber has been told open-success since joining if and only if the machine is acquired |
| Agps.AgpsStateMachine.ProcessSubscribe | gps/gnss/Agps.cpp:72-114 | the subscribe event in all four states |
| Agps.AgpsStateMachine.ProcessUnsubscribe | gps/gnss/Agps.cpp:116-178 | the unsubscribe event in all four states |
| Agps.AgpsStateMachine.ProcessGranted | gps/gnss/Agps.cpp:180-201 | only a pending machine is granted, and its active subscribers are told |
| Agps.AgpsStateMachine.ProcessReleased | gps/gnss/Agps.cpp:203-248 | the released event in all four states |
| Agps.AgpsStateMachine.ProcessDenied | gps/gnss/Agps.cpp:250-290 | the denied event in all four states |
| Agps.AgpsStateMachine.NotifyAllSubscribers | gps/gnss/Agps.cpp:316-349 | who is told and who is erased, in list order, while iterating |
| Agps.AgpsStateMachine.AddSubscriber | gps/gnss/Agps.cpp:398-417 | a handle that is already there is not added twice |
| Agps.AgpsStateMachine.DeleteSubscriber | gps/gnss/Agps.cpp:419-436 | every subscriber with the handle leaves, and the others stay in order |
| Agps.AgpsStateMachine.AnyActiveSubscribers | gps/gnss/Agps.cpp:438-448 | true if and only if there is an active subscriber |
| Agps.AgpsStateMachine.GetSubscriber | gps/gnss/Agps.cpp:472-485 | the first subscriber with the handle, if there is one |
| Agps.AgpsManager.CreateAgpsStateMachines | gps/gnss/Agps.cpp:703-737 | missing machines are created in their initial state, and existing ones are kept |
| Agps.AgpsManager.GetAgpsStateMachine | gps/gnss/Agps.cpp:739-768 | which machine serves which type |
| Agps.AgpsManager.RequestATL | gps/gnss/Agps.cpp:770-796 | the machine of the type takes the request, the other is untouched, and all stay justified |
| Agps.AgpsManager.ReleaseATL | gps/gnss/Agps.cpp:798-830 | the first machine that has the handle takes the release, or a failed close is reported |
| Agps.AgpsManager.ReportAtlOpenSuccess | gps/gnss/Agps.cpp:850-867 | the machine of the type is granted |
| Agps.AgpsManager.ReportAtlOpenFailed | gps/gnss/Agps.cpp:869-876 | the machine of the type is denied |
| Agps.AgpsManager.ReportAtlClosed | gps/gnss/Agps.cpp:878-885 | the machine of the type is released |
| Agps.AgpsManager.HandleModemSSR | gps/gnss/Agps.cpp:887-900 | every machine loses its subscribers and keeps its state |
| Decimal.ReadUndoesPrint | gps/utils/LocIpc.cpp:209-211 | the printed length reads back as itself |
| Decimal.ReadBackIff | gps/utils/LocIpc.cpp:120-126 | followed by other bytes, it does if and only if the next byte is no digit |
| LocIpc.SendData | gps/utils/LocIpc.cpp:199-235 | what goes out for every sequence of partial sends: the message, or header and pieces that add up to it |
| LocIpc.LocIpcListener.RecvFrom | gps/utils/LocIpc.cpp:100-107 | a datagram is cut to the room there is |
| LocIpc.LocIpcListener.ListenRound | gps/utils/LocIpc.cpp:100-138 | one round of the listener: abort, plain message, or collected long message |
| LocIpc.LocIpcListener.CollectLoop | gps/utils/LocIpc.cpp:120-138 | the inner loop fills the message or gives up |
| LocIpc.LocIpcListener.Listen | gps/utils/LocIpc.cpp:100-138 | all messages handed to onReceive, in order |
| LocIpc.CollectPieces | gps/utils/LocIpc.cpp:120-138 | pieces that add up to the announced length yield their concatenation, however they are cut, and what follows is left alone |
| LocIpc.CollectTooFew | gps/utils/LocIpc.cpp:120-138 | pieces that add up to less yield nothing |
| LocIpc.CollectBroken | gps/utils/LocIpc.cpp:126-138 | pieces followed by a failure or an empty datagram before the announced length yield nothing |
| LocIpc.BrokenEnds | gps/utils/LocIpc.cpp:126-138 | a long message that is broken off ends the listening: neither it nor anything after it is heard |
| LocIpc.AbortEnds | gps/utils/LocIpc.cpp:112-118 | so does the abort text |
| LocIpc.FailureEnds | gps/utils/LocIpc.cpp:100-110 | so does a failed receive |
| LocIpc.EmptyIsSkipped | gps/utils/LocIpc.cpp:100-111 | an empty datagram changes nothing that is heard |
| LocIpc.CutToBuffer | gps/utils/LocIpc.cpp:100-119 | of a datagram longer than the buffer, the buffer's length is heard |
| LocIpc.LongMessageIff | gps/utils/LocIpc.cpp:100-138 | whatever the buffer held, a long message arrives unchanged if and only if the stale byte behind the header is no digit |
| LocIpc.ShortMessageIff | gps/utils/LocIpc.cpp:100-119 | whatever the buffer held, a short message arrives unchanged if and only if it does not, with the bytes left behind it, start with the header or the abort text |
| LocIpc.RoundTripIff | gps/utils/LocIpc.cpp:199-235 | sent with any piece sizes to a fresh listener, exactly which messages arrive unchanged |
| LocIpc.ConversationIff | gps/utils/LocIpc.cpp:100-138 | of any sequence of messages a listener has heard exactly what was sent, after each, if and only if each is clean after the one before |
| LocIpc.CleanConversationHeard | gps/utils/LocIpc.cpp:100-138 | then the whole sequence is heard, in order |
| LocIpc.StaleHeader | gps/utils/LocIpc.cpp:100-119 | two short messages of which the second is lost |
| LocIpc.StaleDigit | gps/utils/LocIpc.cpp:120-138 | a short message after which every long one of four digits' length is lost |
| SessionIds.IdClosedForm | gps/core/LocAdapterBase.cpp:53-61 | the id of call n in closed form |
| SessionIds.IdsRepeatOnlyAfterFullPeriod | gps/core/LocAdapterBase.cpp:53-61 | no id is 0 or 0xFFFFFFFF, and two calls agree exactly if they are a multiple of 2^32 - 2 apart |
| SessionIds.LocAdapterBase.GenerateSessionId | gps/core/LocAdapterBase.cpp:53-61 | the wrapping counter yields the id of its call number |
| BiDict.BindKeepsBijectionIff | gps/location/LocationAPIClientBase.h:291-297 | set keeps the dictionary a bijection if and only if id and session are not bound elsewhere |
| BiDict.TakeFromPart | gps/location/LocationAPIClientBase.h:312-318 | removing a session takes out exactly its id, session and value |
| BiDict.BiDict.Set | gps/location/LocationAPIClientBase.h:291-297 | all three maps are written, older inverse entries stay |
| BiDict.BiDict.RmById | gps/location/LocationAPIClientBase.h:305-311 | a known id goes with its session, and an unknown one only erases session 0 |
| BiDict.BiDict.RmBySession | gps/location/LocationAPIClientBase.h:312-318 | a known session goes with its id, and an unknown one only erases id 0 |
| Sessions.UpdateKeepsOk | gps/location/LocationAPIClientBase.cpp:468-555 | an update rebinds one id to a session that matches its new mode, keeps the bijection, and leaves all other sessions alone |
| Sessions.SwitchRuns | gps/location/LocationAPIClientBase.cpp:483-540 | an update that changes the kind of session stops the old one and starts the new one, and else leaves running what runs |
| Sessions.ReboundSessions | gps/location/LocationAPIClientBase.cpp:468-555 | and just those sessions are the ones bound then |
| Sessions.RemoveKeepsOk | gps/location/LocationAPIClientBase.cpp:887-891 | removing a session keeps the bijection and the entities |
| Sessions.GeneratedIdIsFresh | gps/core/LocAdapterBase.cpp:53-61 | generated ids are fresh while no session in use is 2^32 - 2 calls old |
| SessionRuns.InOrderIff | gps/location/LocationAPIClientBase.cpp:377-582 | over all runs with new sessions the dictionary is sound, and queue and calls are in order if and only if no session left while another of its calls was unanswered |
| SessionRuns.StepKeepsIff | gps/location/LocationAPIClientBase.cpp:377-582 | which events keep queue and calls in order; once lost, order never comes back |
| SessionRuns.AnswerRemovesIff | gps/location/LocationAPIClientBase.h:383-447 | in order, an answer meets its own request, and exactly which failed starts and successful stops take their session out |
| SessionRuns.FailedUpdateStays | gps/location/LocationAPIClientBase.h:440-447 | a session that an update started stays bound although its start failed |
| SessionRuns.SessionLost | gps/location/LocationAPIClientBase.cpp:893-914 | a run in which a session that was started well is taken out by a request left behind |
| SessionRuns.StopLeftBehind | gps/location/LocationAPIClientBase.cpp:893-914 | a start that fails after its session was stopped leaves the stop's request behind |
| SessionRuns.NextSessionLost | gps/location/LocationAPIClientBase.cpp:893-914 | and that request takes out the next session |
| Sessions.LocationAPIClient.StartSession | gps/location/LocationAPIClientBase.cpp:377-434 | error cases, and on success the new dictionary with the mode asked for, the request that is queued and the call that is made; if the sessions bound were those running on LocationAPI, they still are |
| Sessions.LocationAPIClient.StopSession | gps/location/LocationAPIClientBase.cpp:436-466 | the active session of the id is stopped, so that it no longer runs, and a request queued; the dictionary waits for the response |
| Sessions.LocationAPIClient.UpdateSessionOptions | gps/location/LocationAPIClientBase.cpp:468-555 | error cases, the new dictionary, the one request that is queued, and which sessions are stopped, started or updated; if the sessions bound were those running on LocationAPI, they still are |
| Sessions.LocationAPIClient.GetBatchedLocations | gps/location/LocationAPIClientBase.cpp:557-582 | error cases, the call and the request that is queued |
| Sessions.LocationAPIClient.OnResponse | gps/location/LocationAPIClientBase.cpp:853-866 | a response of a known session takes the oldest request, whose kind decides whether the session leaves |
| Sessions.LocationAPIClient.RemoveSession | gps/location/LocationAPIClientBase.cpp:887-891 | a known session leaves, an unknown one changes nothing |
| Sessions.LocationAPIClient.OnStartResponse | gps/location/LocationAPIClientBase.h:386-391 | a failed start removes its session, a successful one keeps it |
| Sessions.LocationAPIClient.OnStopResponse | gps/location/LocationAPIClientBase.h:398-403 | a successful stop removes its session, a failed one keeps it |
| Sessions.LocationAPIClient.OnBatchingStatus | gps/location/LocationAPIClientBase.cpp:828-849 | when trips are completed they leave, their ids are reported once each in order, everything else stays |
| Sessions.CompletedAre | gps/location/LocationAPIClientBase.cpp:828-849 | the reported ids are exactly those bound to a trip session in the list |
| Sessions.CompletedInOrder | gps/location/LocationAPIClientBase.cpp:828-849 | in the order of the list |
| Sessions.CompletedOnce | gps/location/LocationAPIClientBase.cpp:828-849 | and each once |
| Sessions.LocationAPIClient.AddGeofences | gps/location/LocationAPIClientBase.cpp:583-607 | the dictionary after the loop, nothing on failure, and that new sessions leave every id linked to its own |
| Sessions.LocationAPIClient.RemoveGeofences | gps/location/LocationAPIClientBase.cpp:609-648 | the known ids, and only they, move to the other dictionary, and their sessions fill the array's front without gaps, even where an id was added twice |
| Sessions.LocationAPIClient.TransferGeofence | gps/location/LocationAPIClientBase.cpp:625-632 | one round: a known id moves with its session and mask, an unknown one changes nothing |
| Geofences.AddKeepsOkIff | gps/location/LocationAPIClientBase.cpp:583-607 | for any ids and sessions, exactly when adding keeps the dictionary a bijection |
| Geofences.AddFreshKeepsOkIff | gps/location/LocationAPIClientBase.cpp:583-607 | with new sessions: exactly when no id is given twice or known |
| Geofences.BindAllBinds | gps/location/LocationAPIClientBase.cpp:597-599 | the last pair of an id, the last of a session, and the last mask of a session win |
| Geofences.AddKeepsLinked | gps/location/LocationAPIClientBase.cpp:583-607 | new sessions never unlink an id, whatever the ids |
| Geofences.AddedTwiceLeaks | gps/location/LocationAPIClientBase.cpp:583-607 | an id that is added twice loses its first session |
| Geofences.LeakedStays | gps/location/LocationAPIClientBase.cpp:609-648 | no removal by id reaches a session that was lost |
| Geofences.OkIffNoneLeaked | gps/location/LocationAPIClientBase.h:291-318 | a linked dictionary is a bijection if and only if no session was lost |
| Geofences.LeftKeepsBijection | gps/location/LocationAPIClientBase.cpp:625-633 | removal keeps ids linked, and a bijection one |
| Geofences.TransferAllMoves | gps/location/LocationAPIClientBase.cpp:625-633 | what the loop leaves and moves, whatever the order and repetitions of the ids |
| Geofences.LeftAndGone | gps/location/LocationAPIClientBase.cpp:609-648 | nothing is lost or changed: each id and each session, with its mask, is on exactly one side |
| Geofences.KnownAre | gps/location/LocationAPIClientBase.cpp:609-648 | the array holds just the sessions of the known ids |
| Geofences.KnownInOrder | gps/location/LocationAPIClientBase.cpp:609-648 | in the order of the ids |
| Geofences.KnownOnce | gps/location/LocationAPIClientBase.cpp:609-648 | and each once, even if an id is given twice |
| ReportWindow.Report.SetItemInReport | gps/core/SystemStatus.cpp:1308-1323 | the window stays the last five entries of the log, the result says whether the log grew, and the newest entry is what the report collates to, at its time |
| ReportWindow.Report.SetDefaultItemInReport | gps/core/SystemStatus.cpp:1325-1332 | a default item is always added, unchanged, as the newest entry |
| ReportWindow.Report.GetItemInReport | gps/core/SystemStatus.cpp:1334-1342 | the latest-only query returns the log's last entry, at the time it was last reported |
| ReportWindow.PushSlides | gps/core/SystemStatus.cpp:1317-1321 | pushing and dropping the front of the window is pushing to the log |
| ReportWindow.DefaultIsLatest | gps/core/SystemStatus.cpp:1325-1342 | a default item adds exactly its own value to the log |
| ReportWindow.ReportIsLatest | gps/core/SystemStatus.cpp:1308-1323 | a reported item adds exactly what it collates to, and nothing if that equals the newest entry |
| ReportWindow.NoEntryRepeats | gps/core/SystemStatus.cpp:1308-1323 | without default items no log entry equals its predecessor |
| ReportWindow.LatestNetworkTypes | gps/core/SystemStatus.h:488-505 | the newest network entry has exactly the types connected by some report and disconnected by none since, although reports are dropped |
| AdapterArray.AddKeepsPacked | gps/core/LocApiBase.cpp:158-167 | filling the first hole adds one adapter and keeps the array packed and free of duplicates |
| AdapterArray.MoveLastKeepsOthers | gps/core/LocApiBase.cpp:174-192 | moving the last adapter into the gap keeps exactly the other adapters, packed |
| AdapterArray.LocApiBase.AddAdapter | gps/core/LocApiBase.cpp:158-167 | for any capacity: adds a new adapter if there is room, keeps all others in place, and asks for a reopen only then |
| AdapterArray.LocApiBase.RemoveAdapter | gps/core/LocApiBase.cpp:169-203 | for any capacity: ends, removes exactly that adapter, and closes if and only if none is left |
| AdapterArray.LocApiBase.GetEvtMask | gps/core/LocApiBase.cpp:136-143 | the union over the adapters minus the excluded events |

## Left out

- What the call on a client does that was destroyed after `expire()` had read it: the model makes it do nothing, and `TimerGuarantees.CallbackIsForPoppedIff` says that only a client stopped since can be gone.
- Address reuse: delegates and clients are known by fresh ids.
- Failing kernel timers (`timerfd_create`, `timerfd_settime`) and epoll errors.
- Times outside one boot: due times are positive and below 2^31 seconds.
- The single poll thread serves the two containers one after the other; the model lets them overlap, which only adds runs.
- Fair scheduling: the progress results bound the steps the service takes and say what holds when it rests, not that its threads are scheduled, and not how long a step takes.
- A removed delegate is freed in the step that takes it out of the heap, before the kernel timer is armed again, not after.
- Early firing: a queued expiry pops its first timer unconditionally, so "no timer fires early" does not hold; the drain result says how many can.
- Engine modes: with equal intervals an update can leave the engine in a mode that no session has, so only the interval is claimed.
- The configuration commands that are sent when the engine comes up, before the message that restarts the sessions.
- The ULP start and stop path, and the client event mask of `GnssAdapter`.
- `updateSubscription` and `LocUnorderedSetMap::update`: they return the common values where the dropped ones are meant, and the inverse maps do not survive that.
- `turnOn` and `turnOff` of the framework, and the backhaul calls.
- The data item factory and `SystemStatus::eventDataItemNotify` are parameters: which ids are known, and which items are accepted.
- `DSStateMachine`, which keeps a subscriber in the released state when a data call cannot start, and the APN and bearer payload of AGPS callbacks.
- Framework reports to the AGPS manager before its machines are created: the source dereferences the machine of the type, so it is required to exist.
- Round trips of empty IPC messages: the listener skips them (`LocIpc.EmptyIsSkipped`); and blanks or signs that `%zu` would skip behind a header that no sender prints.
- `EINTR`, sockets that lose or reorder datagrams, and lengths beyond 32 bits.
- Agps.AgpsStateMachine.DeleteSubscriber: compares with the handle the subscriber had, where the source goes on reading the deleted subscriber itself.
- Sessions.LocationAPIClient.RemoveGeofences: states what is compacted and moved, not the guard on the request queue and the request that is then pushed.
- Responses to sessions of the tracking queue, which is asked first, responses out of the order of the calls, the callbacks that map sessions back to ids, pausing, resuming and modifying geofences, and `locAPIRemoveAllGeofences`, which passes sessions where ids are expected.
- Geofence sessions that `LocationAPI` would hand out a second time while the first is in use; `Geofences.AddKeepsOkIff` covers them, removal does not.
- The mutexes around `BiDict` and `LocationAPIClientBase`.
- `collate` of the network item also writes through to the object it was made from; that object is not part of the model.
- The parsers that fill `SystemStatus`, unit conversions and enum tables.
- Camera, audio, biometrics, touch, init, power, Bluetooth and the HIDL wrappers.
