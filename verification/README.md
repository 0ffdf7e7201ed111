# Verified models of SystemC components

This project models parts of the SystemC library and of its examples in Dafny and proves what
they are for, over all inputs, all reachable states or all runs.

| file | component |
|---|---|
| `Basics.dfy`, `NumberTheory.dfy`, `Rsa.dfy` | the RSA example: extended Euclid, modular exponentiation, Miller-Rabin, key set-up, cipher and decipher |
| `Events.dfy` | the kernel's event: one pending notification, the earlier one wins (section 5.10.8 of IEEE Std 1666-2011) |
| `TimeOrderedList.dfy`, `PeqModel.dfy`, `PeqRequests.dfy`, `PeqProgress.dfy`, `PeqObject.dfy` | the payload event queue with callback and phase (section 16.3 of IEEE Std 1666-2011) |
| `PriorityQueue.dfy`, `EventQueue.dfy`, `EventQueueObject.dfy` | `sc_event_queue` on the kernel's binary heap `sc_ppq` |
| `PortBinding.dfy` | completion of port binding at the end of elaboration |
| `UpdatePhase.dfy`, `AsyncUpdates.dfy`, `AsyncPhases.dfy` | the update phase of primitive channels, update requests from other threads, and both together |
| `TargetSocket.dfy` | the simple target socket's non-blocking to blocking conversion |
| `ScFifo.dfy` | `sc_fifo` |
| `RingSwitch.dfy`, `RingSwitchObject.dfy` | the multicast packet switch example |
| `Fir.dfy`, `FirRtl.dfy` | the FIR example, behavioural and register-transfer form |
| `SimpleBus.dfy`, `SimpleBusSlow.dfy`, `SimpleBusLocks.dfy`, `SimpleBusMemory.dfy`, `SimpleBusObject.dfy` | the simple bus example with its arbiter and memories: bursts, wait states, locks, data, and the objects |

How the models are built:

- A component that other processes or threads interleave with is a state machine: a state, the
  steps that run without interruption, and lemmas about every run. The object with its fields
  and loops is a class beside it whose methods are proved to be those steps. Histories and tags
  (what was sent, where a packet came from) are observations that no branch reads.
- Time is a natural number. A delta cycle ends with an update phase and delta notifications, as
  section 4.2.1 of IEEE Std 1666-2011 says; the delta count moves on only if some process ran in
  the cycle (src/sysc/kernel/sc_simcontext.cpp:613-614).
- Integers are mathematical. The 250-bit `bigint` of the RSA example is a subset type, so every
  store is proved to fit; the 8-, 17- and 19-bit integers of the filter and the 32-bit bus
  addresses wrap explicitly.
- Random numbers, the callbacks of an owner, the requests made by a channel's update, the answers
  of a slave and the choices of a scheduler are parameters, universally quantified.
- An assertion in the program that can fail is a `None` or a flag in the model.

Where the program does less than one would expect, the lemmas say exactly when:

- RSA recovers every message if and only if its two primes differ; the program does not compare them.
- `find_rel_prime` fails its assertion exactly for 0 and 3.
- `fec` of a payload event queue leaves everything pending covered if and only if no callback of a
  zero-delay or timed delivery notifies immediately; otherwise a payload is left behind. Over a run no
  payload is ever late if and only if neither the delta count nor time moves on while one is left behind.
- Cancelling an event queue between its trigger and `fire_event` leaves a surplus trigger. The assertion
  in `fire_event` fails exactly if that trigger, or the one it causes, meets only later entries; with
  no other notification: if some new delay is positive and at most one is zero.
- The target socket jams if and only if END_RESP comes inside a BEGIN_RESP call that then returns
  without completing.
- A packet leaves the switch's ring within four rotations if and only if it arrived with a destination;
  otherwise it never leaves.
- While the filter's controller outputs 4 every activation of the datapath shifts the sample in, under
  reset too. After a reset pulse the filter goes on as if newly started if and only if it is clean: the
  output was not 4 or the samples since the last activation under reset are zero in 8 bits, and no
  sample lost its first product to a pulse that the controller did not see.
- A burst on the simple bus moves exactly its words if and only if it ends before the last word of the
  address space: one that ends there does not end, one whose end address wraps usually ends after
  one word, and a burst of length 0 moves a word.
- A slow memory with zero wait states never answers; with r of them it answers on the r-th cycle.
- A burst asked with a lock holds it after its first word if and only if no cycle of another request
  ended before its first service (one may, if its lock had been set before). It is then served next;
  without it a request of higher priority breaks in. After the second word no burst has a lock, although
  the comment in the arbiter says that a locked burst cannot be broken into.

## Model

| member | source | states |
|---|---|---|
| `NumberTheory.GcdIsGreatest` | examples/sysc/rsa/rsa.cpp:172-178 | Euclid's recursion yields a common divisor that exactly the common divisors divide |
| `NumberTheory.FermatLittle` | examples/sysc/rsa/rsa.cpp:292-294 | a^(p-1) is 1 modulo every prime p that does not divide a, so the last test of the witness loop is sound |
| `NumberTheory.SquareRootsOfOne` | examples/sysc/rsa/rsa.cpp:284-286 | modulo a prime only 1 and -1 square to 1, so the test inside the loop is sound |
| `NumberTheory.DistinctPrimesMultiply` | examples/sysc/rsa/rsa.cpp:449-451 | what two distinct primes divide their product divides |
| `Rsa.NonNegative` | examples/sysc/rsa/rsa.cpp:159-167 | a truncated remainder becomes the mathematical remainder |
| `Rsa.EuclidStep` | examples/sysc/rsa/rsa.cpp:187-193 | unwinding the recursion keeps the Bezout identity; the intermediate product is at most a in size |
| `Rsa.Euclid` | examples/sysc/rsa/rsa.cpp:184-199 | d = gcd(a, b) = ax + by with x at most max(1, b) and y at most max(1, a) in size, so nothing stored is truncated |
| `Rsa.PowLeading` | examples/sysc/rsa/rsa.cpp:208-213 | one bit of square-and-multiply raises to the longer prefix of the exponent |
| `Rsa.ModularExp` | examples/sysc/rsa/rsa.cpp:202-216 | the loop over 250 bits computes a^b mod n for every base, negative ones included |
| `Rsa.Inverse` | examples/sysc/rsa/rsa.cpp:221-232 | an inverse in [0, n) exists and is returned exactly if a and n are relatively prime |
| `Rsa.InverseUnique` | examples/sysc/rsa/rsa.cpp:218-232 | that inverse is the only one in the range |
| `Rsa.LastCandidate` | examples/sysc/rsa/rsa.cpp:244-251 | some odd number below n is relatively prime to n, which bounds the search |
| `Rsa.FindRelPrime` | examples/sysc/rsa/rsa.cpp:239-254 | terminates with the least odd number from 3 on that is relatively prime to n; the assertion fails exactly for n = 0 and n = 3 |
| `Rsa.WitnessStep` | examples/sysc/rsa/rsa.cpp:267-290 | the loop runs through a^((n-1)/2^i) mod n |
| `Rsa.Witness` | examples/sysc/rsa/rsa.cpp:258-297 | true exactly if some a^((n-1)/2^k) is a nontrivial square root of 1 or a^(n-1) is not 1 modulo n |
| `Rsa.WitnessesOfPrime` | examples/sysc/rsa/rsa.cpp:256-297 | for an odd prime the witnesses are exactly its multiples, so a witness below n proves n composite |
| `Rsa.PrimeIffNoWitness` | examples/sysc/rsa/rsa.cpp:258-297 | n > 2 is prime if and only if no base from 1 to n - 1 is a witness |
| `Rsa.DivTest` | examples/sysc/rsa/rsa.cpp:302-319 | false exactly if an odd number up to the limit divides n |
| `Rsa.PrimePassesDivTest` | examples/sysc/rsa/rsa.cpp:302-319 | no prime is rejected by trial division |
| `Rsa.DivTestExact` | examples/sysc/rsa/rsa.cpp:299-319 | for odd n below 1025 squared trial division is a primality test, both ways |
| `Rsa.MillerRabin` | examples/sysc/rsa/rsa.cpp:329-359 | for every random input: n > 2 is accepted if and only if no small odd number divides it and none of the bases r mod (n - 1) + 1 of the fifty random numbers r is a witness; hence odd primes are accepted and for odd n below 1025 squared the answer is exact |
| `Rsa.MakeKeys` | examples/sysc/rsa/rsa.cpp:449-468 | the keys satisfy e*d = 1 modulo (p-1)(q-1) and every assertion of the set-up holds |
| `Rsa.RoundTrip` | examples/sysc/rsa/rsa.cpp:496-505 | for distinct odd primes deciphering undoes ciphering on every message below n, multiples of p or q included |
| `Rsa.EqualPrimesLoseMessage` | examples/sysc/rsa/rsa.cpp:441-451 | with p = q the message p deciphers to 0 |
| `Rsa.RecoversIffDistinct` | examples/sysc/rsa/rsa.cpp:441-508 | all messages are recovered if and only if the primes differ |
| `Rsa.Cipher` | examples/sysc/rsa/rsa.cpp:405-411 | msg^e mod n |
| `Rsa.Decipher` | examples/sysc/rsa/rsa.cpp:413-419 | msg^d mod n |
| `Rsa.RunRsa` | examples/sysc/rsa/rsa.cpp:449-508 | the program prints a recovered message for distinct primes; the debugging assertion on the message fails exactly if both primes divide the random number |
| `Events.NotifyAfter` | src/sysc/kernel/sc_event.cpp:103-148 | of the pending and the new notification the earlier one survives |
| `TimeOrderedLists.InsertPosition` | src/tlm_utils/peq_with_cb_and_phase.h:88-101 | the place after all entries not later determines the result of an insertion |
| `TimeOrderedLists.TimeOrderedList.TakeEmpty` | src/tlm_utils/peq_with_cb_and_phase.h:77-86 | an element outside both lists is recycled or allocated, contents unchanged |
| `TimeOrderedLists.TimeOrderedList.Locate` | src/tlm_utils/peq_with_cb_and_phase.h:88-93 | the cursor is the first strictly later entry |
| `TimeOrderedLists.TimeOrderedList.Redirect` | src/tlm_utils/peq_with_cb_and_phase.h:98-101 | only the link before the new element changes; the free list is untouched |
| `TimeOrderedLists.TimeOrderedList.Insert` | src/tlm_utils/peq_with_cb_and_phase.h:76-103 | the linked list with its free list holds the stable insertion by time |
| `TimeOrderedLists.TimeOrderedList.DeleteTop` | src/tlm_utils/peq_with_cb_and_phase.h:105-113 | the earliest entry goes, its element to the free list; on an empty list nothing |
| `TimeOrderedLists.TimeOrderedList.Reset` | src/tlm_utils/peq_with_cb_and_phase.h:70-74 | every element returns to the free list |
| `PeqModel.InsertKeepsSorted` | src/tlm_utils/peq_with_cb_and_phase.h:88-101 | pending payloads stay sorted by due time, ties by order of notification |
| `PeqModel.DeleteBeforeAsking` | src/tlm_utils/peq_with_cb_and_phase.h:272-277 | deleting the delivered payload after its callback is the same as before it, whatever the callback requests |
| `PeqModel.FecKeeps` | src/tlm_utils/peq_with_cb_and_phase.h:250-282 | `fec` delivers what is due and leaves the event armed for the earliest timed payload, whatever the callbacks ask; nothing immediate is left exactly if the late callbacks are quiet |
| `PeqModel.FecCounts` | src/tlm_utils/peq_with_cb_and_phase.h:250-282 | `fec` loses and duplicates no payload, whatever the callbacks ask |
| `PeqModel.FecKeepsIffQuietLate` | src/tlm_utils/peq_with_cb_and_phase.h:250-282 | in every good state and for every callback behaviour `fec` leaves everything pending covered by the event if and only if no callback of a zero-delay or timed delivery notifies immediately |
| `PeqModel.StepKeeps` | src/tlm_utils/peq_with_cb_and_phase.h:219-282 | the invariant is kept by every request, cancellation, `fec`, end of a delta cycle and advance of time, unless the last two happen while a payload is left behind |
| `PeqModel.NothingLost` | src/tlm_utils/peq_with_cb_and_phase.h:219-282 | over every run, whatever the callbacks ask: sent = delivered + pending + cancelled |
| `PeqModel.ExactlyOnceAndOnTime` | src/tlm_utils/peq_with_cb_and_phase.h:219-282 | over every run that does not move on while a payload is left behind: all deliveries on time and in order, no pending payload is passed by time, the event covers what is pending |
| `PeqModel.PunctualIffNeverLate` | src/tlm_utils/peq_with_cb_and_phase.h:219-282 | over every run no payload is ever pending after its moment if and only if the run never moves on while an immediate payload is left behind |
| `PeqModel.PassedMeansDelivered` | src/tlm_utils/peq_with_cb_and_phase.h:219-282 | a payload whose time or delta cycle has passed was delivered exactly once, at that moment; a zero-delay payload of delta cycle k in cycle k + 1 |
| `PeqModel.LateImmediateIsOverdue` | src/tlm_utils/peq_with_cb_and_phase.h:234-282 | in every good state any other immediate notification in a callback leaves its payload overdue at the end of the delta cycle, with nothing triggered for it |
| `PeqModel.ImmediateInCallbackStrandsPayload` | src/tlm_utils/peq_with_cb_and_phase.h:234-237 | a run in which it also strands a zero-delay payload: overdue with no event pending |
| `PeqRequests.ClockFollows` | src/tlm_utils/peq_with_cb_and_phase.h:219-282 | time and delta cycle after a run are those its steps say |
| `PeqRequests.SentAsRequested` | src/tlm_utils/peq_with_cb_and_phase.h:219-237 | over every run the i-th payload sent is that of the i-th request, those of callbacks included, and it is due at the moment of the request plus its delay: for delay 0 the next delta cycle, for an immediate request the current one |
| `PeqRequests.StepDelivers` | src/tlm_utils/peq_with_cb_and_phase.h:250-282 | only `fec` delivers, and a delivery bears the time and the delta cycle in which it is made |
| `PeqRequests.DeliveredAsRequested` | src/tlm_utils/peq_with_cb_and_phase.h:219-282 | over every punctual run a request whose moment has passed was delivered exactly once, at that moment, unless it was cancelled |
| `PeqRequests.DelayIsKept` | src/tlm_utils/peq_with_cb_and_phase.h:219-282 | a payload requested at time T with delay d > 0 is delivered at T + d |
| `PeqRequests.CancelEmpties` | src/tlm_utils/peq_with_cb_and_phase.h:240-246 | a cancellation leaves nothing pending and no event, and cancels what was pending |
| `PeqRequests.CancelledNeverDelivered` | src/tlm_utils/peq_with_cb_and_phase.h:240-246 | in every run what is cancelled is never delivered |
| `PeqProgress.EveryPayloadCanBeDelivered` | src/tlm_utils/peq_with_cb_and_phase.h:219-282 | from every state of a punctual run each pending payload has a punctual continuation that delivers it, without new requests unless one is left behind |
| `PeqObject.PayloadEventQueue.Notify` | src/tlm_utils/peq_with_cb_and_phase.h:219-232 | the object takes the notification step, whose payload and due moment `PeqRequests.SentAsRequested` gives from the request |
| `PeqObject.PayloadEventQueue.CancelAll` | src/tlm_utils/peq_with_cb_and_phase.h:240-246 | all lists and the event are emptied |
| `PeqObject.PayloadEventQueue.YieldImmediate` | src/tlm_utils/peq_with_cb_and_phase.h:251-253 | the loop delivers the immediate list, also what is added to it meanwhile |
| `PeqObject.PayloadEventQueue.YieldUneven` | src/tlm_utils/peq_with_cb_and_phase.h:256-260 | uneven delta cycle: deliver its list, re-arm for the even one |
| `PeqObject.PayloadEventQueue.YieldEven` | src/tlm_utils/peq_with_cb_and_phase.h:261-265 | even delta cycle: deliver its list, re-arm for the uneven one |
| `PeqObject.PayloadEventQueue.YieldTimed` | src/tlm_utils/peq_with_cb_and_phase.h:268-280 | deliver everything due now and re-arm for the earliest rest |
| `PeqObject.PayloadEventQueue.Fec` | src/tlm_utils/peq_with_cb_and_phase.h:250-282 | the imperative process refines the model's `Fec` |
| `PriorityQueues.RootIsFirst` | src/sysc/utils/sc_pq.h:54-55 | the root of a heap is the first of the sorted sequence with the same entries |
| `PriorityQueues.HoleUp` | src/sysc/utils/sc_pq.cpp:88-91 | moving a later parent down keeps the heap ordered but for the hole, and all entries |
| `PriorityQueues.HoleDown` | src/sysc/utils/sc_pq.cpp:99-112 | swapping with the earlier child keeps the heap ordered but below it, and all entries |
| `PriorityQueues.PriorityQueue.Grow` | src/sysc/utils/sc_pq.cpp:77-86 | the larger array holds the same entries |
| `PriorityQueues.PriorityQueue.Top` | src/sysc/utils/sc_pq.h:54-55 | the earliest entry |
| `PriorityQueues.PriorityQueue.Add` | src/sysc/utils/sc_pq.cpp:71-93 | the heap holds the sorted insertion, growing when full |
| `PriorityQueues.PriorityQueue.Heapify` | src/sysc/utils/sc_pq.cpp:95-117 | a heap whose root is out of order becomes a heap with the same entries |
| `PriorityQueues.PriorityQueue.ExtractTop` | src/sysc/utils/sc_pq.cpp:60-69 | returns the earliest entry; the heap holds the rest |
| `EventQueue.StepFollows` | src/sysc/communication/sc_event_queue.cpp:71-101 | every step keeps the queue sorted and its event as the calls so far imply, and the assertion fails exactly when they say so |
| `EventQueue.StepBalances` | src/sysc/communication/sc_event_queue.cpp:71-101 | every step keeps the balance between notifications, queue, cancellations, triggers and idle runs of `fire_event` |
| `EventQueue.FailsExactlyWhenBroken` | src/sysc/communication/sc_event_queue.cpp:71-101 | over every run, cancellations at any moment included: the assertion fails exactly if a surplus trigger meets only later entries; else the event stands for the earliest time exactly if there is no surplus trigger, and a passed time had one trigger per uncancelled notification and one per idle `fire_event`, all in different delta cycles |
| `EventQueue.OneTriggerPerNotification` | src/sysc/communication/sc_event_queue.h:15-27 | over every run without cancellation between trigger and `fire_event` a passed time had exactly one trigger per uncancelled notification, all in different delta cycles, and the assertion never failed |
| `EventQueue.CancelAfterTrigger` | src/sysc/communication/sc_event_queue.cpp:71-100 | after such a cancellation, new delays before `fire_event` and further ones before it runs again, the assertion fails exactly if the new delays are all positive, or have one zero that the further ones do not add to while some delay is positive |
| `EventQueue.FailingRun` | src/sysc/communication/sc_event_queue.cpp:71-95 | a run from the start in which the assertion fails |
| `EventQueue.AskedFollows` | src/sysc/communication/sc_event_queue.cpp:79-87 | every notification is recorded for the time at which it was made plus its delay |
| `EventQueue.OneTriggerPerRequest` | src/sysc/communication/sc_event_queue.cpp:79-101 | over every run without cancellation a passed time had exactly one trigger per notification made for it, told from the steps alone |
| `EventQueue.CancelEmpties` | src/sysc/communication/sc_event_queue.cpp:71-77 | a cancellation cancels everything queued and the event |
| `EventQueue.SilentAfterCancel` | src/sysc/communication/sc_event_queue.cpp:71-77 | after it nothing triggers until a new notification |
| `EventQueueObject.TimedEventQueue.Notify` | src/sysc/communication/sc_event_queue.cpp:79-87 | the queue with its heap takes the model's step on the sorted times |
| `EventQueueObject.TimedEventQueue.CancelAll` | src/sysc/communication/sc_event_queue.cpp:71-77 | the extraction loop empties the heap, and the event is cancelled |
| `EventQueueObject.TimedEventQueue.FireEvent` | src/sysc/communication/sc_event_queue.cpp:89-101 | the heap gives up its earliest time; the assertion and the re-armed event are the model's |
| `PortBinding.FlattenIgnoresRank` | src/sysc/communication/sc_port.cpp:466-473 | the flattening is a property of the binding graph alone |
| `PortBinding.Port.BindInterface` | src/sysc/communication/sc_port.cpp:274-290 | an interface is cached at once exactly until the first parent is bound |
| `PortBinding.Port.BindParent` | src/sysc/communication/sc_port.cpp:295-322 | a parent is appended and ceases to be a leaf; binding to itself changes nothing |
| `PortBinding.BindAll` | src/sysc/communication/sc_port.cpp:274-322 | any interleaving of bind calls leaves each port with its own calls in order, and exactly the childless ports as leaves |
| `PortBinding.Port.FirstParent` | src/sysc/communication/sc_port.cpp:406-415 | the first entry with a parent, or that there is none |
| `PortBinding.Port.OpenGap` | src/sysc/communication/sc_port.cpp:436-444 | growing and shifting in place keeps all entries before and after the gap |
| `PortBinding.Port.InsertParent` | src/sysc/communication/sc_port.cpp:417-451 | the parent's entries replace its entry in place; an unbound parent leaves an empty entry |
| `PortBinding.ExpandParent` | src/sysc/communication/sc_port.cpp:417-451 | one replacement extends the flattened prefix and moves none of the entries cached early |
| `PortBinding.Port.ExpandParents` | src/sysc/communication/sc_port.cpp:466-473 | completing parents first to last expands all bindings, other ports keeping their state |
| `PortBinding.Port.Publish` | src/sysc/communication/sc_port.cpp:475-514 | no cached interface is added twice, none is missed; leaves register once per entry |
| `PortBinding.Port.CompleteBinding` | src/sysc/communication/sc_port.cpp:456-557 | on every acyclic graph it terminates with the interfaces equal to the left-to-right flattening, unbound parents dropped, and registration only of leaves |
| `PortBinding.CompleteAll` | src/sysc/communication/sc_port.cpp:710-716 | every registered port is completed with the flattening of its bindings, whatever the order of the registry |
| `PortBinding.Elaborate` | src/sysc/communication/sc_port.cpp:274-557 | from any interleaving of acyclic bind calls to completed ports: each port has the flattening of its own calls and registers with it exactly if no other port was bound to it |
| `UpdatePhase.RequestAllMembers` | src/sysc/communication/sc_prim_channel.h:315-338 | a sequence of requests lists, once each, exactly the channels that were not busy |
| `UpdatePhase.NextListMembers` | src/sysc/communication/sc_prim_channel.cpp:337-345 | the next list is exactly the channels requested meanwhile that were not queued or already updated; a channel's request for itself is dropped |
| `UpdatePhase.Registry.RequestUpdate` | src/sysc/communication/sc_prim_channel.h:315-338 | the link is set exactly for listed or unprocessed channels |
| `UpdatePhase.Registry.UpdateFirst` | src/sysc/communication/sc_prim_channel.h:367-373 | the channel stays marked during its own update; the rest of the batch keeps its links |
| `UpdatePhase.Registry.UpdateBatch` | src/sysc/communication/sc_prim_channel.cpp:337-345 | a linked batch is updated first to last under arbitrary re-entrant requests, and the next list is as specified |
| `UpdatePhase.Registry.PerformUpdate` | src/sysc/communication/sc_prim_channel.cpp:325-346 | accepted requests join the list, and each batched channel is updated exactly once in list order |
| `AsyncUpdates.AcceptKeeps` | src/sysc/communication/sc_prim_channel.cpp:175-195 | the accept loop keeps the token invariant, so `trywait` finds a token |
| `AsyncUpdates.TokensConserved` | src/sysc/communication/sc_prim_channel.cpp:149-195 | under every interleaving of any number of threads: tokens = unprocessed requests but for a thread between push and post and the kernel between wait and post; no request lost or reordered; `trywait` never fails; a suspend that waited reports pending updates |
| `AsyncUpdates.SuspendedKernelWakes` | src/sysc/communication/sc_prim_channel.cpp:159-173 | a suspended kernel can proceed only with a request queued, and then at the latest once the appender has posted |
| `AsyncUpdates.SuspendWaits` | src/sysc/communication/sc_prim_channel.cpp:159-164 | under every interleaving a suspend waits on the semaphore if and only if it begins with a suspending channel attached, and then it returns only with a request queued; what it reports is whether one is |
| `AsyncUpdates.AppendedFollows` | src/sysc/communication/sc_prim_channel.cpp:166-173 | every append adds the channel with which its thread called |
| `AsyncPhases.AcceptedMeansUpdated` | src/sysc/communication/sc_prim_channel.cpp:175-195 | under every interleaving a phase updates, once each, exactly what was on the list and the asynchronous requests it accepts, and it accepts every request appended before it begins |
| `AsyncPhases.AcceptedInOnePhase` | src/sysc/communication/sc_prim_channel.cpp:325-346 | every accepted request belongs to exactly one phase |
| `AsyncPhases.EvaluatedIsUpdated` | src/sysc/communication/sc_prim_channel.cpp:325-346 | a channel that a process requests is updated in the next phase |
| `AsyncPhases.PerformPasses` | src/sysc/communication/sc_prim_channel.cpp:325-346 | a phase updates its list, and the next list is, once each, exactly the channels requested meanwhile that were not queued or already updated |
| `AsyncPhases.AppendedCanBeAccepted` | src/sysc/communication/sc_prim_channel.cpp:175-195 | from every idle state of a run, while no thread appends, a phase can accept all requests appended so far |
| `TargetSocket.GetHandle` | src/tlm_utils/simple_target_socket.h:391-403 | the first suspended handle, if any |
| `TargetSocket.StepConserves` | src/tlm_utils/simple_target_socket.h:253-446 | no step drops, duplicates or overwrites a transaction in flight |
| `TargetSocket.TransactionsConserved` | src/tlm_utils/simple_target_socket.h:381-446 | over every run that does not jam each accepted transaction is carried by one handle in one stage or has been responded to; at most one response awaits END_RESP; with none in progress blocked threads have a notification pending |
| `TargetSocket.InFlightCanMove` | src/tlm_utils/simple_target_socket.h:417-446 | no deadlock: some step is enabled unless all waits for the initiator's END_RESP |
| `TargetSocket.ResponsesAddUp` | src/tlm_utils/simple_target_socket.h:253-290 | over every run that does not jam, told from the steps alone: accepted is what was requested, and a response is in progress exactly while one that did not complete has not been ended by END_RESP |
| `TargetSocket.EveryTransactionCanBeServed` | src/tlm_utils/simple_target_socket.h:417-446 | from every state of a run that does not jam each transaction in flight can be responded to within eleven steps |
| `TargetSocket.EndRespEnds` | src/tlm_utils/simple_target_socket.h:286-289 | END_RESP leaves no response in progress or outstanding and notifies |
| `TargetSocket.FireEndOpensGate` | src/tlm_utils/simple_target_socket.h:430-433 | the notification brings every blocked thread back to the gate, and the next one there responds |
| `TargetSocket.EarlyEndRespJams` | src/tlm_utils/simple_target_socket.h:286-290 | END_RESP inside the backward call leaves a response nobody ends exactly if that call does not complete |
| `TargetSocket.JammedForEver` | src/tlm_utils/simple_target_socket.h:431-440 | a jammed socket never responds again |
| `TargetSocket.JammedIffDisorderly` | src/tlm_utils/simple_target_socket.h:286-290 | over every run the socket is jammed if and only if some BEGIN_RESP call in which END_RESP came returned without completing |
| `TargetSocket.JammedRun` | src/tlm_utils/simple_target_socket.h:253-290 | a run from the start that jams |
| `TargetSocket.FwProcess.NbTransportFw` | src/tlm_utils/simple_target_socket.h:253-296 | BEGIN_REQ schedules on a reused or new handle; END_RESP ends the response, as `TargetSocket.EndRespEnds` states; other phases change nothing |
| `TargetSocket.FwProcess.ReturnPath` | src/tlm_utils/simple_target_socket.h:430-444 | a thread blocks or responds as the model's steps say, with or without END_RESP inside the backward call; it jams the socket exactly if that comes and the call does not complete |
| `ScFifo.StepKeeps` | src/sysc/communication/sc_fifo.h:218-356 | each read, write and update keeps order, capacity and the absence of lost wake-ups |
| `ScFifo.ReadsFollowWrites` | src/sysc/communication/sc_fifo.h:218-356 | over every run reads are a prefix of the writes of earlier delta cycles, capacity is respected, and nobody stays blocked with data or space available |
| `ScFifo.LedgerTells` | src/sysc/communication/sc_fifo.h:218-356 | over every run what was written and read, what can be read now, the free space and who is blocked are those of a ledger of positions kept from the steps |
| `ScFifo.WrittenIsReadable` | src/sysc/communication/sc_fifo.h:340-356 | after every run that ends a delta cycle all that was written and not read can be read, in order, and all other places are free |
| `ScFifo.FifoChannel.BufWrite` | src/sysc/communication/sc_fifo.h:396-406 | stores at the write index, modulo the size |
| `ScFifo.FifoChannel.BufRead` | src/sysc/communication/sc_fifo.h:410-421 | returns and blanks the entry at the read index |
| `ScFifo.FifoChannel.NbWrite` | src/sysc/communication/sc_fifo.h:275-289 | the circular buffer takes the queue's write step; it succeeds exactly if space was free before this delta cycle's reads |
| `ScFifo.FifoChannel.NbRead` | src/sysc/communication/sc_fifo.h:242-256 | returns the oldest value visible in this delta cycle, or nothing |
| `ScFifo.FifoChannel.ReadOrBlock` | src/sysc/communication/sc_fifo.h:218-228 | blocks or reads; the assertion after the loop holds |
| `ScFifo.FifoChannel.WriteOrBlock` | src/sysc/communication/sc_fifo.h:261-271 | blocks or writes; the assertion after the loop holds |
| `ScFifo.FifoChannel.Update` | src/sysc/communication/sc_fifo.h:340-356 | the counters take the update step, which by `ScFifo.WrittenIsReadable` makes the cycle's writes readable and its reads free; it notifies the other side exactly if there were any |
| `RingSwitch.TickForm` | examples/sysc/pkt_switch/switch.cpp:183-224 | a tick rotates the ring, hands each output at most one packet and leaves the output queues empty |
| `RingSwitch.RegAtOutput` | examples/sysc/pkt_switch/switch.cpp:185-217 | a packet's place fixes its age, and it has left every output it met |
| `RingSwitch.RingShift` | examples/sysc/pkt_switch/switch.cpp:185-223 | the packet delivered to an output is the oldest of its flow in the ring |
| `RingSwitch.CycleKeeps` | examples/sysc/pkt_switch/switch.cpp:126-224 | one wake-up keeps order, capacity and accounting |
| `RingSwitch.FlowsKeepOrder` | examples/sysc/pkt_switch/switch.cpp:126-224 | over all arrival patterns what output j delivered from input i is a prefix of what was accepted, followed by ring and queue: no loss, duplication or overtaking |
| `RingSwitch.PacketsAccounted` | examples/sysc/pkt_switch/switch.cpp:126-224 | output queues are empty between ticks; packets = dropped + queued + loaded |
| `RingSwitch.WakeUpTakesAll` | examples/sysc/pkt_switch/switch.cpp:130-181 | over every run a wake-up counts each packet that arrives and drops it exactly if its queue holds four; then a free register takes the oldest packet queued at its input, and nothing else changes |
| `RingSwitch.TickComesLast` | examples/sysc/pkt_switch/switch.cpp:126-224 | a rotation in the same wake-up comes after that |
| `RingSwitch.LeavesWithinFourTicks` | examples/sysc/pkt_switch/switch.cpp:159-217 | for every packet in the ring, in every run and continuation: it was accepted from its input, and four rotations or more after loading it is in the ring if and only if it arrived without a destination |
| `RingSwitch.IdlerStays` | examples/sysc/pkt_switch/switch.cpp:192-217 | a packet without destination keeps its register at a tick |
| `RingSwitch.IdlerNeverLeaves` | examples/sysc/pkt_switch/switch.cpp:126-217 | a packet without destination that arrives at the idle switch occupies a register after every continuation |
| `RingSwitchObject.Fifo.PktIn` | examples/sysc/pkt_switch/fifo.cpp:40-44 | appends; flags follow the pointer |
| `RingSwitchObject.Fifo.PktOut` | examples/sysc/pkt_switch/fifo.cpp:46-59 | removes the oldest by shifting; flags follow the pointer |
| `RingSwitchObject.SwitchObject.ArriveAt` | examples/sysc/pkt_switch/switch.cpp:130-157 | count, then drop or queue |
| `RingSwitchObject.SwitchObject.LoadAt` | examples/sysc/pkt_switch/switch.cpp:159-181 | a free register takes the oldest queued packet |
| `RingSwitchObject.SwitchObject.EmitAt` | examples/sysc/pkt_switch/switch.cpp:192-217 | copy to the output queue, clear that destination, free the register after the last |
| `RingSwitchObject.RunCycle` | examples/sysc/pkt_switch/switch.cpp:126-224 | the program's loop body refines the model's cycle |
| `Fir.FilteredAt` | examples/sysc/fir/fir.cpp:59-77 | output n is the 16-tap convolution at n |
| `Fir.ImpulseResponse` | examples/sysc/fir/fir_const.h:38-53 | the results on an impulse are the sixteen coefficients, symmetric about the eighth, then zero |
| `Fir.NoWrap` | examples/sysc/fir/fir_const.h:38-53 | no partial sum leaves 19 bits, because the coefficients' magnitudes sum to 766 |
| `Fir.ProductFits` | examples/sysc/fir/fir.cpp:63-67 | no product leaves 17 bits |
| `Fir.AccumulatedIsConvolution` | examples/sysc/fir/fir.cpp:61-67 | the wrapped accumulation over the delay line is the convolution |
| `Fir.MoveUp` | examples/sysc/fir/fir.cpp:69-72 | the in-place loop moves the delay line up by one |
| `Fir.NextResult` | examples/sysc/fir/fir.cpp:60-77 | one sample: the convolution, and the delay line holds the new history |
| `Fir.Behavioural` | examples/sysc/fir/fir.cpp:41-79 | the process emits the filtered stream |
| `FirRtl.AddTapsContinues` | examples/sysc/fir/fir_data.cpp:68-93 | the additions of the four states chain to one accumulation |
| `FirRtl.EventKeeps` | examples/sysc/fir/fir_data.cpp:41-102 | clock edges and samples, held or changed with the accepting edge, keep the pipeline in step with the accepted samples |
| `FirRtl.AcceptedIsTaken` | examples/sysc/fir/fir_fsm.cpp:49-80 | the samples accepted are those offered as valid when the controller is free, told from the events alone |
| `FirRtl.RefinesBehavioural` | examples/sysc/fir/fir_fsm.cpp:41-83 | for every sequence of edges and samples from the start, each held from its accepting edge until its result, the results are the behavioural ones on the accepted samples, at most the last missing |
| `FirRtl.SilentFiltered` | examples/sysc/fir/fir.cpp:59-77 | earlier samples that are zero in the last 15 places change no result |
| `FirRtl.PulseStrays` | examples/sysc/fir/fir_data.cpp:41-102 | what the delay line and the accumulator hold after any reset pulse, whatever was before |
| `FirRtl.PulseResetsIfSeen` | examples/sysc/fir/fir_fsm.cpp:45-47 | a reset pulse with a clock edge after its first event puts the controller in its reset state; one without leaves it where that event put it |
| `FirRtl.LineAfterReset` | examples/sysc/fir/fir_data.cpp:46-52 | for every run and reset pulse the delay line is empty exactly if the controller's output is not 4 or the last 16 samples of the activations since the last one under reset are zero in 8 bits |
| `FirRtl.ResumesIffClean` | examples/sysc/fir/fir_fsm.cpp:41-83 | for every run and reset pulse, seen by the controller or not, all continuations give the behavioural results on the samples accepted since if and only if the filter is clean at its end |
| `FirRtl.ResetLeavesSample` | examples/sysc/fir/fir_data.cpp:46-99 | a run in which a reset leaves a sample in the line and writes two spurious results |
| `FirRtl.DataPath.Entry` | examples/sysc/fir/fir_data.cpp:41-102 | the datapath process in place refines the model's, in every state and under reset |
| `SimpleBus.ChoiceIsUnique` | examples/sysc/simple_bus/simple_bus_arbiter.cpp:64-104 | with one request per priority the three rules pick exactly one pending request |
| `SimpleBus.AskKeeps` | examples/sysc/simple_bus/simple_bus.cpp:213-271 | a new burst, of any start and length, starts with no word moved; other requests are untouched |
| `SimpleBus.HandledKeeps` | examples/sysc/simple_bus/simple_bus.cpp:285-347 | a slave answer moves the next word of the burst or none, and ends it at the first address past the end |
| `SimpleBus.ErrorExactly` | examples/sysc/simple_bus/simple_bus.cpp:285-347 | a request fails exactly if its address is no word address, no slave covers it or the slave says so; it moves a word exactly if the slave answers Okay |
| `SimpleBus.ServeKeeps` | examples/sysc/simple_bus/simple_bus.cpp:101-118 | a bus cycle keeps every burst so, whichever request is served |
| `SimpleBus.BurstsAreExact` | examples/sysc/simple_bus/simple_bus.cpp:213-347 | in every run, for every start and length: the k-th transfer is word k; a burst that has ended well has moved exactly its words at start + 4k if and only if it fits the address space with an address to spare; one that fits ends well exactly when all words are moved |
| `SimpleBus.WhereBurstsEnd` | examples/sysc/simple_bus/simple_bus.cpp:326-340 | how many words every aligned burst moves, wrapped end addresses included, and that one ending at the last word never ends |
| `SimpleBus.ExactIffFits` | examples/sysc/simple_bus/simple_bus.cpp:213-347 | with every answer Okay on mapped addresses an aligned burst ends well with exactly its words if and only if it fits |
| `SimpleBus.LastWordRun` | examples/sysc/simple_bus/simple_bus.cpp:326-340 | a run whose one-word burst at the last word goes on from address 0 |
| `SimpleBus.WrappedEndRun` | examples/sysc/simple_bus/simple_bus.cpp:230-340 | a run whose burst of three words ends well after one |
| `SimpleBusLocks.LockedAfterFirstWordIff` | examples/sysc/simple_bus/simple_bus.cpp:402-409 | in every run a burst under way has its lock set after its first word exactly if fewer cycles of other requests ended before its first service than its lock outlives; after the second word it has none |
| `SimpleBusLocks.EndingsCount` | examples/sysc/simple_bus/simple_bus.cpp:101-118 | what is counted: the bus cycles that end between a request and its first service |
| `SimpleBusLocks.LockedWordIsNext` | examples/sysc/simple_bus/simple_bus_arbiter.cpp:64-77 | in every run a burst under way whose lock is set is served next and no other |
| `SimpleBusLocks.UnlockedCanBeBrokenInto` | examples/sysc/simple_bus/simple_bus_arbiter.cpp:79-104 | a burst without lock is not served next once a master of higher priority asks |
| `SimpleBusLocks.RelockedGoesFirst` | examples/sysc/simple_bus/simple_bus_arbiter.cpp:79-88 | with no locked burst under way a pending request with a granted lock is served before all without one, whatever its priority |
| `SimpleBusLocks.LockProtectsOneMoreWord` | examples/sysc/simple_bus/simple_bus_arbiter.cpp:64-104 | after rule 1 the lock is gone, and on any table the next choice is the first other burst under way with a granted lock, else the pending request of highest priority |
| `SimpleBusLocks.LockedBurstBrokenInto` | examples/sysc/simple_bus/simple_bus_arbiter.cpp:64-104 | a run in which a locked burst of three words is broken into before the third |
| `SimpleBusLocks.LockLostWhileWaiting` | examples/sysc/simple_bus/simple_bus.cpp:402-409 | a run in which a burst asked with a lock is broken into before its second word |
| `SimpleBusSlow.SlowWordTiming` | examples/sysc/simple_bus/simple_bus_slow_mem.h:112-161 | in every run of the bus with r >= 1 wait states, whatever is interleaved: the first call for a word finds the count at -1, every following cycle is a call for the same request and address, and the answer Okay comes exactly on the r-th cycle after the first |
| `SimpleBusSlow.ZeroWaitStatesNeverAnswer` | examples/sysc/simple_bus/simple_bus_slow_mem.h:112-161 | with none the slave never answers Okay in any run |
| `SimpleBusMemory.WritesLand` | examples/sysc/simple_bus/simple_bus.cpp:285-347 | in every run a write burst that ended well has put the data its master asked to write at start + 4k, wherever nobody else wrote since |
| `SimpleBusMemory.ReadsFetch` | examples/sysc/simple_bus/simple_bus.cpp:285-347 | a read burst that ended well has the memory's data in the buffer, wherever nobody wrote since |
| `SimpleBusMemory.WrittenIsRead` | examples/sysc/simple_bus/simple_bus.cpp:285-347 | what one master wrote another reads |
| `SimpleBusMemory.RequestsAreForJobs` | examples/sysc/simple_bus/simple_bus.cpp:213-271 | in every run a request carries the start, length, direction and data of the last job its master asked for |
| `SimpleBusMemory.UnwrittenStays` | examples/sysc/simple_bus/simple_bus.cpp:285-347 | over every run memory changes only at addresses written |
| `SimpleBusMemory.DirectWriteLands` | examples/sysc/simple_bus/simple_bus.cpp:134-143 | what the direct interface writes stays in memory until the address is written again |
| `SimpleBusObject.PutMirrors` | examples/sysc/simple_bus/simple_bus_slow_mem.h:118-161 | a write at a word address changes that word and no other, in the slow memory's array or elsewhere |
| `SimpleBusObject.SlowMemory.Read` | examples/sysc/simple_bus/simple_bus_slow_mem.h:129-144 | starts, waits for or completes an access by the count |
| `SimpleBusObject.SlowMemory.Write` | examples/sysc/simple_bus/simple_bus_slow_mem.h:146-161 | the same; memory changes only on completion |
| `SimpleBusObject.BusObject.GetRequest` | examples/sysc/simple_bus/simple_bus.cpp:361-375 | one request per priority, found or added |
| `SimpleBusObject.BusObject.AskMethod` | examples/sysc/simple_bus/simple_bus.cpp:213-242 | the object takes the model's request step, lock rule included |
| `SimpleBusObject.BusObject.Arbitrate` | examples/sysc/simple_bus/simple_bus_arbiter.cpp:40-104 | the three loops choose by the three rules in turn |
| `SimpleBusObject.BusObject.CallSlave` | examples/sysc/simple_bus/simple_bus.cpp:308-314 | the slave that covers the address is called; the slow memory answers by its count |
| `SimpleBusObject.BusObject.HandleRequest` | examples/sysc/simple_bus/simple_bus.cpp:285-347 | misaligned and unmapped addresses, errors, waits and completed words with their data as in the model |
| `SimpleBusObject.BusObject.NextRequest` | examples/sysc/simple_bus/simple_bus.cpp:377-400 | a free bus takes the arbiter's choice exactly if something is pending |
| `SimpleBusObject.BusObject.GetSlave` | examples/sysc/simple_bus/simple_bus.cpp:349-359 | the first slave that covers the address, or none |
| `SimpleBusObject.BusObject.ClearAllLocks` | examples/sysc/simple_bus/simple_bus.cpp:402-409 | every lock is downgraded |
| `SimpleBusObject.BusObject.MainAction` | examples/sysc/simple_bus/simple_bus.cpp:101-118 | the process with its table, the slow memory's array and the other memory takes a step of the model's runs |
| `SimpleBusObject.BusObject.DirectWrite` | examples/sysc/simple_bus/simple_bus.cpp:134-143 | the direct interface writes at mapped word addresses and nowhere else |

## Left out

- The kernel (`sc_simcontext`, `sc_event`) and the integer types `sc_int` and `sc_bigint`: represented by what their users rely on.
- `find_prime` of the RSA example and the error probability of Miller-Rabin: the search is random; its result, two primes, is where the model starts.
- `cancel_all` called from a callback of the payload event queue: callbacks request notifications only.
- The reference to a list entry that the payload queue's `fec` holds during a callback: entries are values, so a vector that moves its storage meanwhile is not modelled.
- Port binding errors (duplicate interfaces, too many or too few bindings) and static sensitivity: a report ends elaboration or is suppressed; the model is of runs that go on.
- The condition variable inside the host semaphore, and attaching or detaching suspending channels beyond the flag they set.
- The blocking to non-blocking direction and the tagged variant of the target socket.
- `sc_fifo` construction with a size that is not positive, and the check for a second reader or writer port: error reports.
- The direct read of the simple bus: it changes nothing.
- Completion of blocking bursts on misaligned or unmapped addresses: those paths do not notify the waiting master; only the request's state is modelled.
- Binding a port after elaboration: reported as an error by the program.
- `Rsa.ModularExp`: exponents are non-negative and the modulus positive, as every caller guarantees.
- The comparison function of `sc_ppq` as a parameter and the pointers it stores: the heap holds times, compared as the event queue does.
- `SimpleBus.BurstsAreExact`: a master makes no new request while one of its own is pending, which the non-blocking calls assert and the blocking calls enforce by waiting.
- `FirRtl.RefinesBehavioural`: without reset; what a run does after a reset pulse is stated by `FirRtl.ResumesIffClean`.
- The remaining channels and utilities (mutex, semaphore, signals, clock, quantum keeper, other sockets) and examples: short state updates, printing, or plumbing that would add only easy members.
