# Verified models of the IPC/RPC subsystem

This project models the stateful cores of the communication subsystem and proves what they
keep over whole runs. Line numbers refer to the repository's own files.

| files | what they model |
|---|---|
| `DBinderTypes`, `DBinderClient` | the client half of the C++ `DBinderService`: registry, tags, sessions, waiters, callbacks and the callers of `MakeRemoteBinder`, as a state machine |
| `DBinderClientInvariant`, `DBinderClientRuns`, `DBinderClientOutcome`, `DBinderClientWitness` | what every step keeps, safety over all runs, exactly when a successful call has a session, and runs in which it has none |
| `DBinderClientEffects` | what the steps do to the containers, field by field and without the definitions of the state machine: replies, shared calls, tries, clean-up, notices and callbacks |
| `DBinderService` | the same client half as an object with fields, loops and erasing walks; each operation is proved to be its step of the state machine |
| `DBinderServer`, `DBinderServerRuns`, `DBinderServerEffects`, `DBinderLoader` | the server half: the queue of requests that wait for a system ability, exactly when each of them gets its own answer, what a turn and an answer are on message fields, and the queue as an object |
| `DBinderSystem`, `DBinderSystemEffects` | any number of devices over a network that may lose, repeat and reorder; a whole negotiation as steps of such a system |
| `SmallDBinder`, `SmallDBinderInvariant`, `SmallDBinderRuns`, `SmallDBinderSessions`, `SmallDBinderWitness`, `SmallDBinderEffects`, `SmallDBinderLists` | the C client of small systems: threads, node mutexes, conditions and three lists; wake-ups, sessions, runs that go wrong and one that succeeds, what a step decides, and the list functions |
| `IntrusiveList` | the circular doubly linked list on the heap |
| `DeathTable`, `IpcSkeleton` | handles and death recipients of a C process, as a state machine and as objects that hang in the heap list and hold a fixed handler array |
| `ThreadPool`, `SessionHandshake`, `DatabusName` | the counters of the C thread pool, the session-ready handshake, the printed session name |
| `Sequences` | sequences without a set of members |

How the models are cut:

- A step of a C++ caller is what it does between two waits or two turns of the polling loop; the
  reference test, the deletion and the detaching of a failing call are three steps, because no
  lock is held from one to the next. A message handler, a notice or a callback operation is one
  step. What the outside world decides (clock, transport, ability manager, drivers, memory) is
  part of the event.
- In the C client a step is what a thread does between two points where another thread can see
  the difference: the node mutex, the condition, the lists and the sequence counter are explicit,
  the two lookups of a reply's check and the attaching of its session are three steps, and so
  are the two halves of a clean-up.
- Objects are told apart by identity, so an address is never used twice and nothing is freed.
- Strings are sequences of characters; the conversion between 16-bit and 8-bit service names is
  the identity.
- A registered stub is referenced by the registry and by every caller under way, which is what the
  reference-count test before the clean-up of a failed call (`dbinder_service.cpp:410`) can see.

Results that differ from what one may expect of the code:

- A successful call can return a stub without a session, although no notice removed the stub.
  Callers may join a stub between the reference test of a failing call and its deletion, and
  after a death notice a failing call for an older stub may delete a newer one with its key.
  `DBinderClientWitness` has a run of each, and `DBinderClientOutcome` says exactly when a
  session is there and proves that nothing else can take it away.
- When a request is refused while an older one for the same ability waits, the older one leaves
  the queue and is never answered, and the refused record stays in it; it is answered a second
  time later, and may then even be granted if no listener was there to mark it.
  `DBinderServerRuns` proves that this is the only way a request loses its answer.
- The code that would announce a token is overwritten before the reply is sent, so no token arrives.
- A session name with a NUL inside is granted by the server and dropped by the client.
- `ProcessAddDeathRecipient` returns ERR_NONE for a handle that is not listed, and keeps a
  recipient whose registration the driver refused.
- The C client reads its sequence counter after releasing the mutex, so two callers can get the
  same number; a reply then wakes only the newer of them.
- Two handlers of replies for one C stub can both pass the check and list two sessions; a failing
  call drops only one of them.
- The C client checks only the binder object of a reply, so a late reply can leave a session for
  a stub that is gone.
- A negative user or process id makes the session name too long for its buffer, and no name is made.

## Model

The main results come first, then the operations and what supports them.

| member | source | states |
|---|---|---|
| `DBinderClientOutcome.SuccessfulCallHasSession` | dbinder/dbinder_service/src/dbinder_service.cpp:366-420 | a call that returns DBINDER_OK, fresh or shared, returns a stub with a session if and only if no death notice removed that stub and no failing call dropped its session; always while it is registered, and when a reply woke the call |
| `DBinderClientOutcome.QuietKeyHasSession` | dbinder/dbinder_service/src/dbinder_service.cpp:366-420 | as long as no notice concerns the key and no call begins for it while a failing call for it stands between its reference test and its deletion, every successful call for the key has a session |
| `DBinderClientWitness.RaceWithoutNotice` | dbinder/dbinder_service/src/dbinder_service.cpp:405-413 | a run without any notice in which a call succeeds without a session: it joined between the test and the deletion |
| `DBinderClientWitness.NoticeWithoutRace` | dbinder/dbinder_service/src/dbinder_service.cpp:405-413 | a run in which a call succeeds without a session because a failing call for an older stub deleted the newer one by key |
| `DBinderClientRuns.FinishedStubHasSession` | dbinder/dbinder_service/src/dbinder_service.cpp:572-623 | in every state of every run a registered stub whose negotiation is finished has a session |
| `DBinderClientRuns.DeletedStubStaysDeleted` | dbinder/dbinder_service/src/dbinder_service.cpp:208-245 | once a stub left the registry, no late or repeated message registers it again or gives it a session |
| `DBinderSystem.SessionsComeFromOwnRequests` | dbinder/dbinder_service/src/dbinder_service.cpp:1136-1196 | before a tag counter wraps, every session was made from a granted reply to a request of that very stub to the device it names |
| `DBinderSystem.AnswersComeFromRequests` | dbinder/dbinder_service/src/dbinder_service.cpp:717-734 | every reply or error in flight carries the number, tag, device ids and caller of an earlier request and goes back to its sender |
| `DBinderSystem.NegotiationCompletes` | dbinder/dbinder_service/src/dbinder_service.cpp:480-518 | request, queue, grant, reply, session and wake-up composed: the call that sent the request succeeds with the session the server granted |
| `DBinderSystem.GrantedRoundTrip` | dbinder/dbinder_service/src/dbinder_service.cpp:873-891 | a granted reply stores exactly the stub index and session name of the server if the name holds no NUL, and no session if it does; every waiter of the number can wake |
| `DBinderClientRuns.SessionNumberNeverDecreases` | dbinder/dbinder_service/src/dbinder_service.cpp:1167-1196 | while a stub keeps its session entry, the sequence number stored there never decreases |
| `DBinderClientRuns.SessionReplaced` | dbinder/dbinder_service/src/dbinder_service.cpp:1136-1196 | the session of a stub that keeps one changes in a step if and only if the step handles a valid reply under a live tag of the stub whose index, name, ports, type or device ids differ and whose number is not smaller |
| `DBinderClientRuns.EntriesHaveWaiters` | dbinder/dbinder_service/src/dbinder_service.cpp:520-623 | every waiter entry was made by a call still waiting on exactly that lock, number and device, and is not ready |
| `DBinderClientRuns.DeviceDeathForgetsDevice` | dbinder/dbinder_service/src/dbinder_service.cpp:1417-1453 | a device notice that passes its guards leaves nothing of the registered stubs of the device (tags, sessions, proxies, recipients) and every entry of every other stub as it was |
| `DBinderClientRuns.CallbacksMatchRecipients` | dbinder/dbinder_service/src/dbinder_service_stub.cpp:200-279 | a proxy has a callback entry if and only if it has a death recipient, in every run |
| `DBinderServerRuns.OneAnswerEachIffUndisturbed` | dbinder/dbinder_service/src/dbinder_service.cpp:765-801 | in every run each queued record waits unanswered until it leaves the queue and is then answered exactly once, if and only if no request was ever refused while an older one of its device and ability was pending |
| `DBinderServerRuns.StepAnswersWhatLeaves` | dbinder/dbinder_service/src/dbinder_service.cpp:649-715 | in every step of every run the records answered are those that leave the queue, if and only if the step displaces none |
| `DBinderServerRuns.DisplacedIsLost` | dbinder/dbinder_service/src/dbinder_service.cpp:784-798 | a displaced record is never pending again and gets no further answer |
| `DBinderServerRuns.RequestIsLost` | dbinder/dbinder_service/src/dbinder_service.cpp:784-798 | a run in which a request leaves the queue without ever being answered |
| `DBinderSystem.ServersConserve` | dbinder/dbinder_service/src/dbinder_service.cpp:668-801 | on every device of every run requests queued are answers attempted plus requests pending |
| `DBinderLoader.AbilityLoader.LoadSystemAbilityComplete` | dbinder/dbinder_service/src/dbinder_service.cpp:668-715 | ends with exactly the records of other devices or abilities pending, in their order, each record asked by that device for that ability answered once, and one reply to that device for each answer that gets through |
| `DBinderSystem.RefusedRecordCanBeGranted` | dbinder/dbinder_service/src/dbinder_service.cpp:717-726 | a refused record that stayed queued can be granted later if and only if no listener was there to mark it and it was a databus request from a legal device |
| `DBinderSystem.TokensNeverArrive` | dbinder/dbinder_service/src/dbinder_service.cpp:717-726 | no session ever carries a token: the success code overwrites the code that would announce one |
| `DBinderService.DBinderService.CallerStep` | dbinder/dbinder_service/src/dbinder_service.cpp:366-623 | each operation of a caller on the object, loops included, is its step of the state machine and keeps the invariant |
| `DBinderService.DBinderService.OutsideStep` | dbinder/dbinder_service/src/dbinder_service.cpp:1028-1453 | each message handler, notice and callback operation on the object is its step of the state machine and keeps the invariant |
| `SmallDBinderRuns.NoLostWakeUp` | dbinder/c/src/dbinder_service.c:640-650 | when a handler signals a node whose request is out and whose wait has not timed out, its owner is already past the send and is on its way out afterwards |
| `SmallDBinderRuns.HandledReplyReachesCaller` | dbinder/c/src/dbinder_service.c:625-650 | a reply looked up after the send and before the timeout, whose number has no newer waiter, finds its caller in the wait, on its way out or awake when it signals, and leaves it on its way out or awake |
| `SmallDBinderSessions.HandledReplySucceeds` | dbinder/c/src/dbinder_service.c:322-377 | from the lookup of a reply that found or made a session for the caller's stub, that caller succeeds unless its wait fails or times out before or a failing call on the stub dropped the session |
| `SmallDBinderSessions.SuccessHasSession` | dbinder/c/src/dbinder_service.c:831-872 | ERR_NONE is returned only with a session listed for the stub returned |
| `SmallDBinderSessions.FailureLeavesNothing` | dbinder/c/src/dbinder_service.c:851-864 | a failed call leaves its stub unlisted for good, and no session for it if and only if the stub had at most one and gained none during the clean-up, as long as no other failing call drops one meanwhile |
| `SmallDBinderSessions.UndisturbedFailure` | dbinder/c/src/dbinder_service.c:851-864 | a failed call whose stub had at most one session and gained none during the clean-up leaves none, whatever other failing calls do |
| `SmallDBinderSessions.OneSessionPerStub` | dbinder/c/src/dbinder_service.c:683-745 | no stub ever has two sessions if and only if no reply is attached to a stub that already has one |
| `SmallDBinderSessions.DoubleNeedsTwoChecked` | dbinder/c/src/dbinder_service.c:683-745 | a doubled attach needs another handler that passed the check for the same stub at the same time and attached first |
| `SmallDBinderWitness.FailureLeavesSession` | dbinder/c/src/dbinder_service.c:704-745 | a run in which two handlers list two sessions for one stub and a failed call leaves one of them |
| `SmallDBinderSessions.SessionsHomed` | dbinder/c/src/dbinder_service.c:652-702 | in every run each session belongs to a listed stub, if and only if no reply was attached for an unlisted stub and no stub was unlisted with a session |
| `SmallDBinderWitness.LateReplyStrays` | dbinder/c/src/dbinder_service.c:652-702 | a run in which a reply for a cleaned-up stub makes a session |
| `SmallDBinderSessions.SessionsComeFromReplies` | dbinder/c/src/dbinder_service.c:704-745 | every session holds the stub, index, whole name, ports and device ids of a reply that arrived |
| `SmallDBinderRuns.LeavesWithItsNode` | dbinder/c/src/dbinder_service.c:322-377 | every exit takes exactly the caller's own node off the list |
| `SmallDBinderRuns.WaitersAreCallers` | dbinder/c/src/dbinder_service.c:273-286 | a node is listed if and only if its caller is between attaching and leaving |
| `SmallDBinderRuns.SameNumber` | dbinder/c/src/dbinder_service.c:379-387 | two callers read the same number if and only if a multiple of 2^32 advances, possibly none, lies between their reads |
| `SmallDBinderRuns.SharedNumber` | dbinder/c/src/dbinder_service.c:379-387 | a run in which two callers wait under one number and a reply with it finds only the newer one |
| `IntrusiveList.ForEachSafe` | utils/include/doubly_linked_list.h:94-98 | visits each member once and in order and ends, whichever of them the body deletes |
| `IntrusiveList.DeleteAllNode` | ipc/native/c/manager/src/ipc_process_skeleton.c:435-451 | ends with a head linked to itself and every node unlinked |
| `IntrusiveList.OneRing` | utils/include/doubly_linked_list.h:26-29 | the links and the head determine the contents |
| `DeathTable.HandleBalance` | ipc/native/c/manager/src/ipc_process_skeleton.c:172-267 | with an invoker, acquires minus releases of a handle is 1 if it is listed and 0 otherwise, and no handle is listed twice, in every run |
| `DeathTable.AnnouncedAtMostOnce` | ipc/native/c/manager/src/ipc_process_skeleton.c:319-336 | a node is registered with the driver at most once, and has been if it holds a recipient |
| `DeathTable.AnnouncedEverAfter` | ipc/native/c/manager/src/ipc_process_skeleton.c:319-336 | from the first recipient a node ever holds until its handle is released it has been registered exactly once, also when its recipients are gone again |
| `DeathTable.RecipientStays` | ipc/native/c/manager/src/ipc_process_skeleton.c:289-378 | a recipient stays in its slot until it is removed or its handle released, whatever else happens |
| `DeathTable.CallsExactly` | ipc/native/c/manager/src/ipc_process_skeleton.c:391-415 | each live recipient is called as often as slots hold it |
| `DeathTable.AddMeaning` | ipc/native/c/manager/src/ipc_process_skeleton.c:289-339 | when an add enters its recipient in a free slot, and exactly when it returns ERR_NONE; the two differ for unlisted handles and refused registrations |
| `ThreadPool.RunConserves` | ipc/native/c/manager/src/ipc_thread_pool.c:63-201 | idle + live = half the maximum per protocol, nothing negative, maximum even, in every run |
| `ThreadPool.LimitIsGreatest` | ipc/native/c/manager/src/ipc_skeleton.c:29-40 | the limit in force is the greatest one accepted, so at most 16 threads per protocol live |
| `SessionHandshake.SuccessWasAnnounced` | utils/src/rpc_session_handle.c:74-112 | a wait succeeds only for a session that some thread announced before |
| `SessionHandshake.AnnouncedFirstSucceeds` | utils/src/rpc_session_handle.c:74-112 | a wait that starts after the announcement succeeds at its first look and never blocks |
| `SessionHandshake.BlockedIsWoken` | utils/src/rpc_session_handle.c:114-138 | a thread blocked at the announcement stays woken and cannot time out until it looks again, and then succeeds |
| `DatabusName.CreateDatabusName` | dbinder/c/src/dbinder_stub.c:43-62 | with memory, succeeds if and only if neither number is negative, and then fills the buffer exactly |
| `DatabusName.NamesDiffer` | dbinder/c/src/dbinder_stub.c:53-58 | names are equal if and only if the callers are |
| `DBinderClientEffects.ReplySettlesSession` | dbinder/dbinder_service/src/dbinder_service.cpp:1136-1196 | a valid reply leaves a stub that has a session with exactly the fields of the reply when the stored number is not greater and any compared field differs, and otherwise with the old entry and number; a stub without a session gets exactly the fields of the reply |
| `DBinderClientEffects.OtherRepliesSettleNothing` | dbinder/dbinder_service/src/dbinder_service.cpp:1136-1196 | a reply that is valid for no registered stub changes no session |
| `DBinderClientEffects.FinishedNeedsNoRequest` | dbinder/dbinder_service/src/dbinder_service.cpp:544-597 | a shared call whose stub is finished sends nothing, changes nothing but its own frame, and succeeds at its next poll if the status is still finished then |
| `DBinderClientEffects.SharedCallWaitsOnLock` | dbinder/dbinder_service/src/dbinder_service.cpp:544-596 | while another caller negotiates a shared call sends nothing and waits on the very lock under its number, or polls again up to ten times |
| `DBinderClientEffects.UnnegotiatedIsAsked` | dbinder/dbinder_service/src/dbinder_service.cpp:520-542 | a caller that made its stub or finds it not negotiated waits on its own new lock with the request out, or fails and leaves the status where the next caller asks again |
| `DBinderClientEffects.CallsShareTheNumber` | dbinder/dbinder_service/src/dbinder_service.cpp:394-404 | in every run all calls for a stub work under the number the stub was given when it was registered |
| `DBinderClientEffects.TimesOutTwice` | dbinder/dbinder_service/src/dbinder_service.cpp:399-404 | in every run a call times out at most twice, and at most once before it fails |
| `DBinderClientEffects.RecipientIsEntered` | dbinder/dbinder_service/src/dbinder_service_stub.cpp:200-240 | an accepted recipient of an unlisted proxy is entered in both maps as given, any other in neither, and nothing else changes |
| `DBinderClientEffects.RecipientStaysListed` | dbinder/dbinder_service/src/dbinder_service_stub.cpp:200-279 | in every run an entered proxy stays listed for its stub with its recipient until it is removed, its client dies or a notice removes the stub |
| `DBinderServerEffects.DrainTakesWaiting` | dbinder/dbinder_service/src/dbinder_service.cpp:638-666 | draining a key leaves exactly the records of other devices or abilities, in order, and takes as many turns as there were records of that device and ability |
| `DBinderServerEffects.DrainAnswersEach` | dbinder/dbinder_service/src/dbinder_service.cpp:668-715 | a drain with one turn per waiting record answers each of those records once and no other, and sends the asking device one reply for each turn whose reply gets through |
| `DBinderServerEffects.UnavailableTakesOldest` | dbinder/dbinder_service/src/dbinder_service.cpp:784-798 | a request whose ability is not available takes the oldest one of its device and ability out of the queue and stays itself, marked with the error if a listener was there and as it came if not |
| `DBinderServerEffects.TurnAnswersOldest` | dbinder/dbinder_service/src/dbinder_service.cpp:649-715 | a turn answers the oldest request of that device for that ability, to its asker, under its number and tag, with the grant or the reason |
| `DBinderServerEffects.GrantedExactly` | dbinder/dbinder_service/src/dbinder_service.cpp:676-712 | a request is granted exactly when the ability is found and watched, the request is a databus one from a legal device, and the ability answers with an index and a usable name |
| `DBinderSystemEffects.NegotiationRuns` | dbinder/dbinder_service/src/dbinder_service.cpp:544-623 | four steps of a system carry a negotiation from the request on one device over queue and grant on another to the delivered reply, the session stored and the caller ready to wake |
| `SmallDBinderEffects.TwoTries` | dbinder/c/src/dbinder_service.c:847-864 | in every run a call makes at most two tries, gives up only after two, and succeeds in one of them |
| `SmallDBinderEffects.SessionNeedsKnownObject` | dbinder/c/src/dbinder_service.c:689-692 | no reply makes a session unless a stub with its binder object was listed before |
| `SmallDBinderEffects.UninterruptedHandler` | dbinder/c/src/dbinder_service.c:704-745 | a handler nobody interrupts attaches its session exactly when MakeSessionByReplyMessage asks for one, and otherwise goes on without |
| `SmallDBinderEffects.CallSucceeds` | dbinder/c/src/dbinder_service.c:322-377 | a run from the start in which a call is answered, woken and returns with the session of the reply and an empty waiter list |
| `ThreadPool.LiveIsSpawnedLessExited` | ipc/native/c/manager/src/ipc_thread_pool.c:145-181 | in every legal run the live threads of a protocol are the spawns that returned ERR_NONE less the exits |
| `ThreadPool.SpawnTakesSlot` | ipc/native/c/manager/src/ipc_thread_pool.c:145-181 | a spawn that returns ERR_NONE takes one idle slot of its protocol and adds one live thread, and any other spawn changes nothing |
| `DeathTable.DeadStaysDead` | ipc/native/c/manager/src/ipc_process_skeleton.c:391-397 | once a node is dead it stays dead in every run until its handle is released |
| `DeathTable.DeadHadObituary` | ipc/native/c/manager/src/ipc_process_skeleton.c:391-397 | a dead node had an obituary since it was listed |
| `SessionHandshake.HandshakeCompletes` | utils/src/rpc_session_handle.c:74-138 | in any state a wait for a session nobody announced blocks, an announcement of it wakes the waiter, and both threads succeed with the session ready |
| `DatabusName.NameTells` | dbinder/c/src/dbinder_stub.c:43-62 | reading the name back gives the user and then the process id |
| `DBinderClientInvariant.StepKeepsInv` | interfaces/innerkits/libdbinder/include/dbinder_service.h:405-417 | every step keeps the joint invariant of the containers: unique keys, injective tags never handed out twice, finished stubs have sessions, each waiter entry has its waiter, callbacks match recipients |
| `DBinderClientRuns.RunInv` | interfaces/innerkits/libdbinder/include/dbinder_service.h:405-417 | the joint invariant holds in every state of every run |
| `DBinderClientRuns.SessionChange` | dbinder/dbinder_service/src/dbinder_service.cpp:1136-1196 | a session appears or changes only through a valid reply whose tag is live for that registered stub, never through one with a smaller number |
| `DBinderClientRuns.AnswerReadiesWaiters` | dbinder/dbinder_service/src/dbinder_service.cpp:1050-1070 | a reply or an error makes every caller that waits on the entry of its number able to wake, and removes the entry |
| `DBinderClientRuns.TriesAreBounded` | dbinder/dbinder_service/src/dbinder_service.cpp:388-403 | no call tries more than twice or polls more than ten times in a try |
| `DBinderService.DBinderService.AddStubByTag` | dbinder/dbinder_service/src/dbinder_service.cpp:188-206 | returns the tag the stub already has, else enters it under the next one; a wrapped counter that hits a live tag yields 0 |
| `DBinderService.DBinderService.HasDBinderStub` | dbinder/dbinder_service/src/dbinder_service.cpp:233-245 | true if and only if the stub is registered |
| `DBinderService.DBinderService.DeleteDBinderStub` | dbinder/dbinder_service/src/dbinder_service.cpp:282-310 | removes exactly the stub registered under the key and its tags, and tells whether there was one |
| `DBinderService.DBinderService.DeleteStubsOf` | dbinder/dbinder_service/src/dbinder_service.cpp:312-340 | erasing while walking removes exactly the stubs of the service and their tags and keeps the order of the rest |
| `DBinderService.DBinderService.FindStubsOf` | dbinder/dbinder_service/src/dbinder_service.cpp:262-280 | finds every stub of the service once |
| `DBinderService.DBinderService.FindServicesByDeviceID` | dbinder/dbinder_service/src/dbinder_service.cpp:1455-1468 | exactly the service names registered for the device |
| `DBinderService.DBinderService.MakeRemoteBinder` | dbinder/dbinder_service/src/dbinder_service.cpp:366-387 | the call joins the registered stub of the key under its number, or registers a new one under the next number; bad parameters change nothing |
| `DBinderService.DBinderService.SendEntryToRemote` | dbinder/dbinder_service/src/dbinder_service.cpp:446-518 | takes a tag as soon as the message can be made and yields the request, or nothing when an id, the service name or the transport fails |
| `DBinderService.DBinderService.InvokerRemoteDBinderWhenRequest` | dbinder/dbinder_service/src/dbinder_service.cpp:520-542 | the whole object after the request equals the step of the state machine |
| `DBinderService.DBinderService.InvokerRemoteDBinder` | dbinder/dbinder_service/src/dbinder_service.cpp:572-596 | a call that made its stub or finds it unnegotiated sends a request, any other sends nothing and starts polling; the effects of both are FinishedNeedsNoRequest, SharedCallWaitsOnLock and UnnegotiatedIsAsked |
| `DBinderService.DBinderService.InvokerRemoteDBinderWhenWaitRsp` | dbinder/dbinder_service/src/dbinder_service.cpp:544-570 | one turn of the polling loop: finished, lock found, another turn, or failure at the tenth |
| `DBinderService.DBinderService.WaitTimedOut` | dbinder/dbinder_service/src/dbinder_service.cpp:599-610 | a timeout resets the status, removes the entry of the number and allows one retry |
| `DBinderService.DBinderService.WaitEnded` | dbinder/dbinder_service/src/dbinder_service.cpp:611-623 | a woken caller finishes the negotiation if and only if its stub has a session |
| `DBinderService.DBinderService.QueryStubPtr` | dbinder/dbinder_service/src/dbinder_service.cpp:1088-1095 | the registered stub a tag stands for, if any |
| `DBinderService.DBinderService.MakeSessionByReplyMessage` | dbinder/dbinder_service/src/dbinder_service.cpp:1136-1196 | detaching an older session and inserting without overwriting has the effect of the one decision the state machine takes, which ReplySettlesSession states on the fields |
| `DBinderService.DBinderService.OnRemoteReplyMessage` | dbinder/dbinder_service/src/dbinder_service.cpp:1060-1070 | session, wake-up and removal of the entry in one step |
| `DBinderService.DBinderService.OnRemoteErrorMessage` | dbinder/dbinder_service/src/dbinder_service.cpp:1050-1058 | wake-up and removal of the entry, and nothing else |
| `DBinderService.DBinderService.ProcessOnSessionClosed` | dbinder/dbinder_service/src/dbinder_service.cpp:1028-1048 | exactly the waiters of the network are erased and none of them stays ready |
| `DBinderService.DBinderService.AddDbinderDeathRecipient` | dbinder/dbinder_service/src/dbinder_service_stub.cpp:200-240 | while both maps have the same keys, as in every run, ERR_NONE if and only if the recipient was accepted and the proxy new; then both maps have the proxy as given; otherwise neither changes |
| `DBinderService.DBinderService.RemoveDbinderDeathRecipient` | dbinder/dbinder_service/src/dbinder_service_stub.cpp:242-279 | leaves both maps; ERR_NONE if and only if the proxy was there |
| `DBinderService.DBinderService.OnRemoteDied` | dbinder/dbinder_service/src/dbinder_death_recipient.cpp:24-60 | the death of a client removes its proxy from both maps |
| `DBinderService.DBinderService.ProcessCallbackProxy` | dbinder/dbinder_service/src/dbinder_service.cpp:1377-1390 | nested erasing walks remove exactly the proxies of the given stubs and their recipients |
| `DBinderService.DBinderService.NoticeCallbackProxy` | dbinder/dbinder_service/src/dbinder_service.cpp:1324-1348 | purges exactly the stubs of the service; true if and only if all of them had sessions |
| `DBinderService.DBinderService.NoticeServiceDie` | dbinder/dbinder_service/src/dbinder_service.cpp:1392-1415 | the purge behind its guards, with the three results |
| `DBinderService.DBinderService.NoticeDeviceDie` | dbinder/dbinder_service/src/dbinder_service.cpp:1417-1453 | service by service, exactly the stubs of the device are purged; ERR_NONE if and only if all had sessions |
| `DBinderLoader.AbilityLoader.PopLoadSaItem` | dbinder/dbinder_service/src/dbinder_service.cpp:649-666 | takes the first record asked by that device for that ability and keeps the order of the others |
| `DBinderLoader.AbilityLoader.QueueRefused` | dbinder/dbinder_service/src/dbinder_service.cpp:784-798 | after push, pop of the first match and marking in place, an older request of the key is gone and the refused record is still queued, marked |
| `DBinderLoader.AbilityLoader.OnRemoteInvokerMessage` | dbinder/dbinder_service/src/dbinder_service.cpp:765-801 | the queue, the histories and the error reply for every outcome of a request |
| `DBinderLoader.AbilityLoader.AnswerRequest` | dbinder/dbinder_service/src/dbinder_service.cpp:676-713 | the reply, the proxy table and the histories for every way a request can be answered |
| `DBinderLoader.AbilityLoader.OnRemoteInvokerDataBusMessage` | dbinder/dbinder_service/src/dbinder_service.cpp:893-937 | returns 0 with the filled reply, or the first reason to refuse with the record as it was |
| `DBinderServer.ReceiveConserves` | dbinder/dbinder_service/src/dbinder_service.cpp:765-801 | queued = answered + pending per device and ability survives a request, refused ones included |
| `DBinderServer.LoadConserves` | dbinder/dbinder_service/src/dbinder_service.cpp:668-715 | queued = answered + pending survives every turn of the loop |
| `DBinderServer.RefuseKeepsCount` | dbinder/dbinder_service/src/dbinder_service.cpp:784-798 | a refusal keeps the number of pending requests per key and the order of all other requests |
| `DBinderSystem.RequestGoesOut` | dbinder/dbinder_service/src/dbinder_service.cpp:446-542 | a request names sender, receiver, caller, ability and number, its tag addresses the caller's stub, and the caller waits on the entry of that number |
| `DBinderSystem.StepKeepsInv` | dbinder/dbinder_service/src/dbinder_service.cpp:997-1026 | every local step, delivery and load of any device keeps the invariant of the whole system |
| `IntrusiveList.DLListInit` | utils/include/doubly_linked_list.h:32-36 | an empty list is a head linked to itself |
| `IntrusiveList.DLListAdd` | utils/include/doubly_linked_list.h:45-51 | the node stands right behind the given member, all other links unchanged |
| `IntrusiveList.DLListInsert` | utils/include/doubly_linked_list.h:60-63 | the node comes first |
| `IntrusiveList.DLListTailInsert` | utils/include/doubly_linked_list.h:54-57 | the node comes last |
| `IntrusiveList.DLListDelete` | utils/include/doubly_linked_list.h:66-72 | exactly the node leaves, with null links |
| `IntrusiveList.ListDeInit` | utils/include/doubly_linked_list.h:101-112 | the node leaves and is a list of its own |
| `IntrusiveList.DLListEmpty` | utils/include/doubly_linked_list.h:75-78 | true if and only if there are no contents |
| `DeathTable.RemoveMeaning` | ipc/native/c/manager/src/ipc_process_skeleton.c:341-378 | a remove returns ERR_NONE if and only if it empties a used slot of a live node, and nothing else changes |
| `DeathTable.FreeSlotExists` | ipc/native/c/manager/src/ipc_process_skeleton.c:307-318 | a slot is free if and only if the counter is below the array size, and the first free one is never in use |
| `DeathTable.CallsCount` | ipc/native/c/manager/src/ipc_process_skeleton.c:391-415 | there are as many calls as live recipients |
| `IpcSkeleton.DeathCallback.AddHandler` | ipc/native/c/manager/src/ipc_process_skeleton.c:310-326 | the first free slot gets the recipient and the counter still equals the used slots; tells when the driver must be told |
| `IpcSkeleton.DeathCallback.RemoveHandler` | ipc/native/c/manager/src/ipc_process_skeleton.c:366-374 | the slot is emptied and the counter still equals the used slots |
| `IpcSkeleton.DeathCallback.CopyLive` | ipc/native/c/manager/src/ipc_process_skeleton.c:397-404 | every entry of the copy is a live recipient, in slot order |
| `IpcSkeleton.DeathCallback.SendObituary` | ipc/native/c/manager/src/ipc_process_skeleton.c:391-415 | marks the object dead and calls exactly the live recipients |
| `IpcSkeleton.IpcSkeleton.FirstAddObject` | ipc/native/c/manager/src/ipc_process_skeleton.c:223-253 | a new node comes first if and only if the handle was not listed and memory sufficed |
| `IpcSkeleton.IpcSkeleton.OnFirstStrongRef` | ipc/native/c/manager/src/ipc_process_skeleton.c:255-267 | only a positive handle that is new is listed and acquired |
| `IpcSkeleton.IpcSkeleton.DeleteHandle` | ipc/native/c/manager/src/ipc_process_skeleton.c:172-201 | the node of the handle leaves the list and the handle is released, or ERR_INVALID_PARAM |
| `IpcSkeleton.IpcSkeleton.ProcessAddDeathRecipient` | ipc/native/c/manager/src/ipc_process_skeleton.c:289-339 | state, result and callback id for every case of an add |
| `IpcSkeleton.IpcSkeleton.ProcessRemoveDeathRecipient` | ipc/native/c/manager/src/ipc_process_skeleton.c:341-378 | state and result for every case of a remove |
| `SmallDBinderInvariant.StepKeepsInv` | dbinder/c/src/dbinder_service.c:322-377 | the lists, the node mutexes, stubs and sessions keep their joint invariant under every step of every thread |
| `SmallDBinderRuns.FindsNewest` | dbinder/c/src/dbinder_service.c:625-638 | a reply finds a waiter of its number if and only if no newer waiter has that number |
| `SmallDBinderLists.GlobalLists.QueryDBinderStub` | dbinder/c/src/dbinder_service.c:145-160 | the first stub with the same service, device and binder object |
| `SmallDBinderLists.GlobalLists.HasDBinderStub` | dbinder/c/src/dbinder_service.c:652-665 | true if and only if some listed stub has the binder object |
| `SmallDBinderLists.GlobalLists.QuerySessionObject` | dbinder/c/src/dbinder_service.c:404-417 | a session of the stub if and only if one is listed |
| `SmallDBinderLists.GlobalLists.QueryThreadLockInfo` | dbinder/c/src/dbinder_service.c:625-638 | the first waiter of the number |
| `SmallDBinderLists.GlobalLists.IsValidReplyMessage` | dbinder/c/src/dbinder_service.c:683-702 | known binder object, no session yet, valid name |
| `SmallDBinderLists.GlobalLists.MakeSessionByReplyMessage` | dbinder/c/src/dbinder_service.c:704-745 | a session is listed first if and only if the reply is valid, its index not 0 and memory suffices |
| `SmallDBinderLists.GlobalLists.CleanUpFailedCall` | dbinder/c/src/dbinder_service.c:851-864 | the first session of the stub and the stub itself leave their lists |
| `SmallDBinderLists.GlobalLists.DetachThreadLockInfo` | dbinder/c/src/dbinder_service.c:281-286 | exactly the node leaves the list |
| `ThreadPool.SpawnRefusedWhenFull` | ipc/native/c/manager/src/ipc_thread_pool.c:145-181 | a spawn is refused as full if and only if as many threads are live as the greatest accepted limit |
| `ThreadPool.Counters.SpawnNewThread` | ipc/native/c/manager/src/ipc_thread_pool.c:145-181 | ERR_NONE takes one idle slot of the protocol, an error changes no counter |
| `ThreadPool.Counters.ThreadContextDestructor` | ipc/native/c/manager/src/ipc_thread_pool.c:63-77 | one slot back to idle |
| `ThreadPool.Counters.UpdateMaxThreadNum` | ipc/native/c/manager/src/ipc_thread_pool.c:183-201 | raises the maximum and both idle counters alike, never lowers them |
| `ThreadPool.Counters.SetMaxWorkThreadNum` | ipc/native/c/manager/src/ipc_skeleton.c:29-40 | accepts exactly 4 to 16 |
| `SessionHandshake.ReadyStays` | utils/src/rpc_session_handle.c:129-136 | readiness never reverts |
| `SessionHandshake.StepKeepsInv` | utils/src/rpc_session_handle.c:39-138 | one node per session id, and nobody waits on a ready node |
| `SessionHandshake.SessionIdList.FindOrNewSessionIdObject` | utils/src/rpc_session_handle.c:39-72 | the node of the id, made first in the list if and only if there was none |
| `SessionHandshake.SessionIdList.HandleNewConnection` | utils/src/rpc_session_handle.c:114-138 | the node of the id is ready; waiters are woken if and only if it was not before |
| `DatabusName.GetDigits` | dbinder/c/src/dbinder_stub.c:30-41 | the exact number of decimal digits of what is not negative, and 1 below |
| `DBinderClientOutcome.RunServed` | dbinder/dbinder_service/src/dbinder_service.cpp:342-420 | in every run the stub of each call that may still return it is registered, unless its key had a notice or a race; the invariant behind the quiet-key result |
| `DBinderClientRuns.ClearedStubIsAskedAgain` | dbinder/dbinder_service/src/dbinder_service_stub.cpp:421-432 | clearing the state makes the next caller of the stub ask again and costs neither the session nor a waiter |
| `DBinderService.DBinderService.TestReferences` | dbinder/dbinder_service/src/dbinder_service.cpp:410-410 | the outcome of the reference count decides whether the failed call deletes |
| `DBinderService.DBinderService.DeleteOfFailedCall` | dbinder/dbinder_service/src/dbinder_service.cpp:412-412 | the stub registered under the key goes, whichever it is, with its tags |
| `DBinderService.DBinderService.DetachOfFailedCall` | dbinder/dbinder_service/src/dbinder_service.cpp:413-413 | the session of the call's own stub goes |
| `DBinderLoader.AbilityLoader.Enqueue` | dbinder/dbinder_service/src/dbinder_service.cpp:784-798 | a request is queued under a new identity, or refused with its answer counted |
| `SmallDBinderSessions.StubListedOnce` | dbinder/c/src/dbinder_service.c:162-196 | no stub is listed twice |
| `SmallDBinderSessions.HomedStep` | dbinder/c/src/dbinder_service.c:652-702 | the condition of the run, step by step |
| `SmallDBinderSessions.SettledStep` | dbinder/c/src/dbinder_service.c:389-402 | a session stays listed until a failing call drops one of its stub |
| `SmallDBinderInvariant.DropSessionCount` | dbinder/c/src/dbinder_service.c:851-856 | dropping takes one session of that stub, if there is one, and no other |
| `IpcSkeleton.ObjectList.FindFirst` | ipc/native/c/manager/src/ipc_process_skeleton.c:181-190 | the walk over the heap list stops at the first object of the handle or back at the head |
| `IpcSkeleton.ObjectList.AddFirst` | ipc/native/c/manager/src/ipc_process_skeleton.c:250-250 | the object comes first on the heap list |
| `IpcSkeleton.ObjectList.Erase` | ipc/native/c/manager/src/ipc_process_skeleton.c:186-186 | exactly the object leaves the heap list |
| `DBinderClientEffects.AnswerTouchesOneWaiter` | dbinder/dbinder_service/src/dbinder_service.cpp:997-1026 | an answer readies the lock under its number, removes that entry and leaves every other waiter alone |
| `DBinderClientEffects.TagIsTaken` | dbinder/dbinder_service/src/dbinder_service.cpp:188-206 | a stub without tag is listed under the 64-bit counter unless a wrapped counter hits a tag in use, a stub with one keeps it |
| `DBinderClientEffects.TimeoutRetriesOnce` | dbinder/dbinder_service/src/dbinder_service.cpp:599-610 | a timeout removes the entry of the number and resets the status; the first is followed by one more try, the second is the failure |
| `DBinderClientEffects.WakingDecides` | dbinder/dbinder_service/src/dbinder_service.cpp:611-623 | a woken call succeeds exactly when its stub has a session, and otherwise resets the status |
| `DBinderClientEffects.ClosedWaitersTimeOut` | dbinder/dbinder_service/src/dbinder_service.cpp:1028-1048 | exactly the waiters of the closed network leave the table, and only the timeout is left to their callers |
| `DBinderClientEffects.DeletionTakesKey` | dbinder/dbinder_service/src/dbinder_service.cpp:412-412 | the stub registered under the key and its tags go, all else keeps its order and its tags |
| `DBinderClientEffects.DetachDropsOwn` | dbinder/dbinder_service/src/dbinder_service.cpp:413-413 | the session of the stub of the call goes and no other |
| `DBinderClientEffects.BeginShares` | dbinder/dbinder_service/src/dbinder_service.cpp:342-397 | a call for a registered key shares that stub under its number |
| `DBinderClientEffects.BeginRegisters` | dbinder/dbinder_service/src/dbinder_service.cpp:342-397 | a call for a new key registers a stub with that key and binder object last, under the next number, which is never 0 |
| `DBinderClientEffects.ServiceDeathForgetsService` | dbinder/dbinder_service/src/dbinder_service.cpp:1392-1415 | exactly the stubs of the service on the device are forgotten |
| `DBinderClientEffects.RecipientIsRemoved` | dbinder/dbinder_service/src/dbinder_service_stub.cpp:242-279 | a removed proxy is in neither map and no other is touched |
| `DBinderServerEffects.FirstIsOldest` | dbinder/dbinder_service/src/dbinder_service.cpp:638-666 | the record taken was asked by that device for that ability and no older one was |
| `DBinderServerEffects.AmendedNamesOneAbility` | dbinder/dbinder_service/src/dbinder_service.cpp:736-763 | both fields of an amended request name one valid ability, the stub index first, and nothing else changes |
| `DBinderServerEffects.AcceptedIsQueued` | dbinder/dbinder_service/src/dbinder_service.cpp:765-801 | a valid, distributed and available request is queued last and not answered yet |
| `DBinderServerEffects.RejectedIsToldWhy` | dbinder/dbinder_service/src/dbinder_service.cpp:765-801 | any other request is answered to its asker with the error code and its reason |
| `DBinderServerEffects.KnownStaysKnown` | dbinder/dbinder_service/src/dbinder_service.cpp:681-695 | an ability once watched needs no further registration |
| `DBinderServerEffects.UnwatchedStaysUnknown` | dbinder/dbinder_service/src/dbinder_service.cpp:676-695 | an ability that was not found or refused to be watched is no more known than before |
| `DBinderSystemEffects.StepTouchesOneDevice` | dbinder/dbinder_service/src/dbinder_service.cpp:997-1026 | a step on one device leaves every other device alone |
| `SmallDBinderEffects.SearchFindsFirst` | dbinder/c/src/dbinder_service.c:145-160 | the first listed stub with the three values is found, and nothing exactly when there is none |
| `SmallDBinderEffects.AttachesExactly` | dbinder/c/src/dbinder_service.c:652-745 | what a reply must say to make a session |
| `SmallDBinderEffects.RegisterDecides` | dbinder/c/src/dbinder_service.c:183-195 | a new stub is listed first, or without memory the call fails and nothing is listed |
| `SmallDBinderEffects.SendDecides` | dbinder/c/src/dbinder_service.c:342-346 | a request that does not go out fails the try |
| `SmallDBinderEffects.LookupDecides` | dbinder/c/src/dbinder_service.c:625-650 | a handler goes on with a listed node of its number or ends |
| `SmallDBinderEffects.ExitDecides` | dbinder/c/src/dbinder_service.c:367-376 | a try succeeds exactly when the wait reported no error and the stub has a session; node and mutex are gone either way |
| `SmallDBinderEffects.TimeoutIsFinal` | dbinder/c/src/dbinder_service.c:356-363 | a timeout leaves the wait for good and fails the try whatever sessions there are |
| `SmallDBinderEffects.SpuriousWakes` | dbinder/c/src/dbinder_service.c:356-367 | a wait that ends without a signal goes on like a signalled one |
| `SmallDBinderEffects.TimeoutFailsTry` | dbinder/c/src/dbinder_service.c:348-363 | a wait that timed out or could not start fails the try |
| `ThreadPool.ExitGivesSlot` | ipc/native/c/manager/src/ipc_thread_pool.c:63-77 | an exit turns one live thread of the protocol into an idle slot |
| `ThreadPool.LimitAddsSlots` | ipc/native/c/manager/src/ipc_thread_pool.c:183-201 | a greater accepted limit adds the difference to both idle counters |
| `DeathTable.FirstReferenceLists` | ipc/native/c/manager/src/ipc_process_skeleton.c:223-267 | a first reference lists a new node with no recipient in front |
| `DeathTable.BadAddRefused` | ipc/native/c/manager/src/ipc_process_skeleton.c:283-313 | an add without a function or without room for the id, or to a full node, changes nothing and returns ERR_INVALID_PARAM |
| `DeathTable.DeadRefuses` | ipc/native/c/manager/src/ipc_process_skeleton.c:302-309 | a dead node takes no recipient and says so |
| `SessionHandshake.EnterFindsOrMakes` | utils/src/rpc_session_handle.c:39-72 | a thread goes on with the node of its session, the listed one or a new one in front that is not ready |
| `SessionHandshake.LooksTellReadiness` | utils/src/rpc_session_handle.c:86-111 | what a look at the flag decides |
| `DatabusName.ReadsDecimal` | dbinder/c/src/dbinder_stub.c:30-41 | the digits read as a number give it back |
| `DatabusName.ServiceNumber` | dbinder/dbinder_service/src/dbinder_service.cpp:456-461 | a decimal service name is read as its number, when that fits 64 bits |

## Left out

- Sockets, softbus and the remote listener: sending succeeds, fails or is lost as the event says.
- The ability manager, proxies, parcels and listen threads: their answers are inputs.
- Real time: timeouts and the sleeps of the polling loop are steps that may come at any moment; the negotiation time stamp is not kept.
- Interleavings inside one C++ handler, a notice or the start of a call: each is one step, in particular the pushing, loading and popping of a refused request, and the registration of a stub with its number.
- Address reuse and freed memory, such as a C stub freed while another call still shares it, or a waiter node freed while a handler is about to lock it.
- The access token, marshalling, `SaveDBinderData` and `isInited_`: not part of this model.
- Failing `pthread_mutex_lock` calls, missing skeletons and null list pointers.
- Parameter checks of the C `MakeRemoteBinder` and the failing copies of bounded strings: a call starts with parameters that passed them.
- The server half of the C service, and its table of registered services.
- `ResetIpc` of the whole skeleton, and `DeleteDeathCallback` called by invokers that are not part of this model.
- Logging, event reports and tracing.
- 32-bit overflow of the sum of error codes in `NoticeDeviceDie` and of the doubled thread limit; accepted thread limits are at most 16.
- The retry loop of the C call and its wait are steps of the state machine, not a method, because other threads act in between.
- DBinderSystem.SessionsComeFromOwnRequests: holds until the 64-bit tag counter of the device wraps.
- IntrusiveList.ForEachSafe: the body may delete the current member; a body that deletes other members is not modelled.
- SmallDBinderSessions.FailureLeavesNothing: the exact condition is stated for a clean-up during which no other failing call drops a session of the same stub.
- DBinderClientOutcome.QuietKeyHasSession: goes one way; after a notice or a race for the key the session may still be there, and the exact condition on the stub itself is that of SuccessfulCallHasSession.
