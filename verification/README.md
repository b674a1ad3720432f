# RecoNIC data path: a Dafny model

This project models the part of RecoNIC that moves bytes between a user buffer and the
card, and proves properties of it for all inputs, all hardware behaviours and all runs.

* `QueueSpec`, `QueueInv`, `QueueRuns` describe a memory-mapped descriptor queue as a state
  machine: requests are cut into descriptors as ring space allows, hardware consumes what
  was published, and credits retire requests in order. Each event is one section of code
  that runs under the queue lock, or one move of the hardware. `Plan` says what a request
  means independently of ring space, `Ledger` how credits and charges balance, `Ring` how
  wrapped indices relate to free-running positions, `Scatter` how a byte offset finds its
  place in a scatter list.
* `Aftermath` is what a stop leaves behind when an interrupt still comes, and `Restart` a start
  on top of requests that a stop left linked. Runs may do both, any number of times; results
  about charges and credits are about epochs begun without charged requests, and `Restart`
  shows that they hold in no others.
* `Descq` is the queue as the driver keeps it: a class whose methods update indices, lists
  and the descriptor array in place, each proved to do what the state machine does. `Cursor`
  holds the facts about the loop variables of its two nested issue loops. Being valid includes
  being in a reachable state of the machine, so all results about runs hold of the object.
* `Processing` says what one processing or service call amounts to: a poll, rounds of issue, the
  doorbell. It leaves open only how far the hardware gets before each poll.
* `FlagLen` is the packed length word of a descriptor; `Stream` is the stream transmit path's way
  of cutting a request into packets and filling its ring, with its look-ahead.
* `Pool` is the character device's pool of queue ids: one shared access at a time, any
  number of threads.
* `Lifecycle` and `Device` are adding, starting, stopping and removing queues, handles,
  active counts, interrupt vectors and teardown; `Setup` is the network driver's bring-up,
  and which queue a pool id reaches.
* `Buffers` is the user library's allocator, `Transfer` its chunk loop together with the page
  split and mapping in the kernel, `EndToEnd` the whole path from a library call to consumed
  descriptors. `Bits` relates masks to arithmetic.

## Results worth knowing

Most properties hold as the code intends. Where one does not hold in general, the exact
condition is proved:

* The drained flag that a stop waits for can be trusted exactly when no c2h packet handler is
  set; this driver sets one on memory-mapped C2H queues too (`DrainedFlagSoundIff`).
* Batched requests are not counted in `work_req_pend`, so an interrupt can leave a half
  issued batch waiting (`InterruptResumesIff`, `BatchStrands`). A batched request whose
  buffer could not be mapped is called back and still queued (`CalledTwice`).
* A blocking request that was pending at a stop can be told a second outcome, exactly when the
  driver takes interrupts: the completion pass does not ask for the queue's state
  (`ToldAgainIff`). That second outcome can be a success that is none exactly when a callback
  request was pending ahead of it (`FalseSuccessIff`).
* Restarting a queue brings a refused request back, as descriptors or as a second outcome,
  exactly when its lists are not empty (`RestartSoundIff`), that is when a blocking request was
  linked at the stop (`StopStartSoundIff`).
* A waiting stop can end before its timeout exactly when the drained flag is up or something is
  pending (`StopEndsIff`); a single partly issued request is enough to make it hang (`StopHangs`).
* A start begins balanced accounts exactly when no linked request is charged for descriptors,
  and accounts that did not begin balanced never become so (`StartBalancedIff`,
  `ConservationIff`).
* In direct mode vector loads stay level exactly as long as stops take queues off fullest
  vectors (`LevelIff`).
* The start check on keyholes is exact for the mask arithmetic (`MaskIsModIff`), but a keyhole
  of 2^28 or more passes it and overflows the length field (`LengthsFitIff`).
* With memory-mapped queues the interface comes up exactly when there are 64 network receive
  queues (`QdmaStart`). Read ids of the pool then reach online queues; write ids do exactly when
  the network transmit queues fill all 64 places (`TokensOnlineIff`).
* A start of the interface that fails on a transmit queue leaves all receive queues online. With
  memory-mapped queues but no network receive queue a failed receive sweep leaves transmit
  queues online (`CleanFailureIff`).
* Teardown does not remove completion queues (`TeardownLeavesCmpt`).
* The device allocator's assertion misses sizes that wrap 64 bits (`AssertBoundsIff`).
* The seek position is a 64-bit signed number, so a transfer whose position would pass 2^63
  ends in -EIO although the size is unsigned (`ReadOrWrite`).

## Where the code and its comments differ

The model follows the code in each case.

* Comments reserve the first interrupt vectors for errors and user interrupts
  (`qdma_descq.c:752-756`), but data vectors start at 0 (`qdma_intr.c:654-656`).
* The batch entry point is documented to return bytes transferred (`libqdma_export.c:2506`)
  and returns 0.
* A comment asks for an assertion on device memory yet to be written (`reconic.c:255`); there
  is one, and it checks the offset after it may have wrapped.

## What the model assumes

* The scatter entries of a request add up to its count, none is empty except the single entry
  of an empty request, and its device addresses stay below 2^64. `SplitWellFormed` shows that the
  character device provides this. Bus addresses of mapped entries stay below 2^64 as well.
* Doorbell writes succeed; requests go to memory-mapped queues without descriptor bypass.
* No blocking request times out: a timeout unlinks a request whose descriptors may be
  outstanding, and a later request of that queue can then be told early that it is done. Every
  request of the character device carries a timeout of ten seconds.
* Hardware advances its index only up to the last published one and in steps of whole
  descriptors.
* The results of pinning, mapping, seeking, reading, programming a queue context and of the
  capability registers are parameters.
* A read or write call asks for at most 0x7ffff000 bytes, which is both the library's chunk size
  and the kernel's own limit.
* Interrupt vectors are set up exactly in the driver modes that count queues on them, and the
  resource manager's limit for a function equals the size of its queue tables.

## Model

| member | source | states |
|---|---|---|
| `QueueRuns.CreditConservation` | RecoNIC/drivers/onic-driver/libqdma/qdma_descq.c:792-871 | in every reachable state of an epoch begun without charged requests, the descriptors charged to pending requests plus those of the partly issued head equal what the hardware holds plus unpaid credit, and `avail` is exactly the ring's free slots |
| `QueueRuns.NoStrandedRequest` | RecoNIC/drivers/onic-driver/libqdma/qdma_descq.c:801-862 | in such an epoch the oldest pending request always owes more than the credit in hand, so when `cidx` reaches `pidx` nothing is pending |
| `QueueRuns.PendingIsIssued` | RecoNIC/drivers/onic-driver/libqdma/qdma_descq.c:119-126 | every pending request is issued up to its count, in every reachable state, restarts included |
| `QueueRuns.NoEarlyCompletion` | RecoNIC/drivers/onic-driver/libqdma/qdma_descq.c:110-127 | a request first told that it is done, in an epoch begun without charged requests, had all its descriptors returned by hardware; they are one stretch of the log and equal its one-shot plan, however many passes issued them; this stays so after a stop |
| `QueueRuns.RetiredIsReturned` | RecoNIC/drivers/onic-driver/libqdma/qdma_descq.c:836-857 | the same of requests carried over a start untouched, when they are told again in such an epoch |
| `QueueRuns.DoneMeansMoved` | RecoNIC/drivers/onic-driver/libqdma/qdma_descq.c:222-377 | the logged descriptors of such a request copy byte 0, 1, ... once each between its own bus and its own device address, from source to destination in the direction of the queue, and its bus addresses do not wrap unless a batch said they could not be mapped |
| `QueueRuns.CopiesAre` | RecoNIC/drivers/onic-driver/libqdma/qdma_descq.c:313-325 | read as raw source, destination and length, the descriptors of a stretch of transfers copy exactly its bytes, from device to host on a C2H queue and from host to device on an H2C one |
| `QueueRuns.RetiredInOrder` | RecoNIC/drivers/onic-driver/libqdma/qdma_descq.c:836-857 | requests retire in submission order, and an earlier one's descriptors come first |
| `QueueRuns.ExactlyOneOutcome` | RecoNIC/drivers/onic-driver/libqdma/libqdma_export.c:1954-1998 | over all runs, with late interrupts and restarts: a callback request is told at most one outcome and exactly one once its queue is stopped, so its callback ran once unless a batch had already run it for an unmappable buffer; only a blocking request refused by a stop is ever told more |
| `QueueRuns.RunExtends` | RecoNIC/drivers/onic-driver/libqdma/qdma_descq.c:1496-1540 | acceptances, outcomes and repeated outcomes are never withdrawn or rewritten later in a run |
| `QueueRuns.BlockedReturnsCount` | RecoNIC/drivers/onic-driver/libqdma/libqdma_export.c:2471-2485 | whichever outcome a blocked submitter reads, it returns its whole count or -EIO, never a part, although the no-callback branch does not compare offset and count |
| `QueueRuns.ToldWhat` | RecoNIC/drivers/onic-driver/libqdma/libqdma_export.c:1970-1997 | every outcome told is the whole count or a refusal, and a different one is told only after a refusal |
| `QueueRuns.HardwareSeesTheLog` | RecoNIC/drivers/onic-driver/libqdma/qdma_descq.c:379-384 | every slot between the hardware's position and the published one holds the descriptor meant for it, also after a stop; the doorbell never runs ahead |
| `QueueRuns.IssueSparesOwnedSlots` | RecoNIC/drivers/onic-driver/libqdma/qdma_descq.c:284-368 | an issue pass writes no slot from the consumer to the producer position |
| `QueueRuns.RepublishIsStale` | RecoNIC/drivers/onic-driver/libqdma/qdma_descq.c:866 | the doorbell rung at the end of a completion pass repeats the index last published, also after a restart |
| `QueueRuns.DrainedMeansDrained` | RecoNIC/drivers/onic-driver/libqdma/qdma_descq.c:1529-1537 | without a packet handler, in such an epoch, the drained flag at a lock release means nothing pending and nothing held by hardware |
| `QueueRuns.DrainedFlagSoundIff` | RecoNIC/drivers/onic-driver/libqdma/qdma_descq.c:1529-1540 | the flag is sound over all runs of such epochs if and only if no c2h packet handler is set (or the ring has one usable slot) |
| `QueueRuns.HandlerMisleads` | RecoNIC/drivers/onic-driver/onic_main.c:307-307 | with the handler, which this driver sets on memory-mapped C2H queues too, a run ends with the flag raised while hardware still holds a request's descriptor |
| `QueueRuns.OrderlyStop` | RecoNIC/drivers/onic-driver/libqdma/libqdma_export.c:1946-1998 | a stop that did not time out leaves hardware nothing to touch, and refuses only requests not fully issued |
| `QueueRuns.FlagDownHead` | RecoNIC/drivers/onic-driver/libqdma/qdma_descq.c:822-862 | the converse: an idle queue with the flag down always has a partly issued head, which holds the credit in hand |
| `QueueRuns.StopEndsIff` | RecoNIC/drivers/onic-driver/libqdma/libqdma_export.c:1954-1963 | a waiting stop can end before its timeout, by some run, if and only if the drained flag is up already or a request is pending |
| `QueueRuns.StopStuck` | RecoNIC/drivers/onic-driver/libqdma/libqdma_export.c:1954-1963 | with nothing pending and the flag down no run raises it, whatever the hardware still has to do, restarts or not |
| `QueueRuns.StopHangs` | RecoNIC/drivers/onic-driver/libqdma/qdma_descq.c:200-206 | a run to such a state with the hardware still at work on a partly issued request |
| `Aftermath.ToldAgainIff` | RecoNIC/drivers/onic-driver/libqdma/qdma_descq.c:1446-1454 | a request linked at a stop can be told something else before the next start if and only if it is blocking, was pending, and the driver takes interrupts, whose completion pass does not ask for the queue's state |
| `Aftermath.LateRetiresAll` | RecoNIC/drivers/onic-driver/libqdma/qdma_descq.c:836-862 | once hardware finishes after a stop, one late completion pass retires every request that stayed pending |
| `Aftermath.PendingEnds` | RecoNIC/drivers/onic-driver/libqdma/qdma_descq.c:822-862 | at a stop, the log position where a pending request ends equals what is returned, less the credit in hand, plus what it and those before it owe |
| `Aftermath.StopStale` | RecoNIC/drivers/onic-driver/libqdma/libqdma_export.c:1970-1997 | what stays pending after a stop are exactly the blocking requests that were pending |
| `Aftermath.LateWitness` | RecoNIC/drivers/onic-driver/libqdma/qdma_descq.c:1446-1454 | the shortest run that tells a blocking request both the refusal and its count |
| `Aftermath.FalseSuccessIff` | RecoNIC/drivers/onic-driver/libqdma/qdma_descq.c:836-862 | a blocking request pending at a stop can be told, before the next start, that it is done while hardware still has some of its descriptors if and only if a callback request was pending ahead of it and the hardware had not finished it at the stop |
| `Aftermath.SecondSuccessDone` | RecoNIC/drivers/onic-driver/libqdma/qdma_descq.c:836-862 | with no callback request ahead, a second outcome comes only after all descriptors of the request were returned, and these are its transfers |
| `Aftermath.LateSuccess` | RecoNIC/drivers/onic-driver/libqdma/qdma_descq.c:836-862 | a run with such a false success |
| `Aftermath.CalledTwice` | RecoNIC/drivers/onic-driver/libqdma/libqdma_export.c:2592-2602 | a run in which a batched request with a failed mapping, queued with the error value for an address, is called back twice |
| `Restart.RestartSoundIff` | RecoNIC/drivers/onic-driver/libqdma/libqdma_export.c:1985-1997 | a stopped queue can be started again without any run sending a refused request's descriptors or telling it a second outcome if and only if its lists are empty |
| `Restart.StopStartSoundIff` | RecoNIC/drivers/onic-driver/libqdma/libqdma_export.c:1985-1997 | stopping and starting at once is safe in that sense if and only if no blocking request is linked at the stop |
| `Restart.PendHaunts` | RecoNIC/drivers/onic-driver/libqdma/qdma_descq.c:836-862 | if one is still pending, enough new requests pay for it and it is told a second outcome |
| `Restart.RefusedThenIssued` | RecoNIC/drivers/onic-driver/libqdma/qdma_descq.c:222-224 | a run that ends with the descriptors of a refused request about to be sent |
| `Restart.ConservationIff` | RecoNIC/drivers/onic-driver/libqdma/qdma_descq.c:1311-1323 | in every reachable online state charges equal what the hardware holds plus unpaid credit if and only if the epoch began without charged requests; otherwise they exceed it throughout |
| `Restart.StartBalancedIff` | RecoNIC/drivers/onic-driver/libqdma/qdma_descq.c:1311-1323 | a start begins such an epoch if and only if nothing is pending and the head of the work list is not issued in part; it raises the drained flag in any case |
| `QueueRuns.InterruptResumesIff` | RecoNIC/drivers/onic-driver/libqdma/qdma_descq.c:1447-1453 | an interrupt-driven service goes on to issue if and only if the work list does not hold, modulo 2^32, as many requests as joined it uncounted, by a batch or over a restart |
| `QueueRuns.BatchStrands` | RecoNIC/drivers/onic-driver/libqdma/libqdma_export.c:2615-2620 | a run in which a batched request is left half issued on an idle queue that the interrupt service thinks has no work |
| `QueueRuns.RunKeeps` | RecoNIC/drivers/onic-driver/libqdma/qdma_descq.c:184-400 | the invariant holds over every run of submit, batch, issue, publish, hardware, completion, stop and start steps, late completions and restarts with linked requests included |
| `QueueInv.StepKeeps` | RecoNIC/drivers/onic-driver/libqdma/qdma_descq.c:184-400 | each single step keeps the invariant, for every hardware behaviour |
| `QueueInv.CompleteKeeps` | RecoNIC/drivers/onic-driver/libqdma/qdma_descq.c:792-871 | a completion pass keeps ring, list, ledger and outcome invariants, on an online or a stopped queue |
| `QueueInv.IssueKeeps` | RecoNIC/drivers/onic-driver/libqdma/qdma_descq.c:222-377 | an issue pass, whole or partial, keeps them too |
| `QueueInv.StopKeeps` | RecoNIC/drivers/onic-driver/libqdma/libqdma_export.c:1965-1998 | the end of a stop keeps them, and what was done stays done |
| `QueueInv.TellKeeps` | RecoNIC/drivers/onic-driver/libqdma/qdma_descq.c:1496-1527 | telling the oldest linked requests an outcome keeps who was told what in order |
| `QueueInv.StartKeeps` | RecoNIC/drivers/onic-driver/libqdma/qdma_descq.c:1311-1323 | a start keeps them, and without charged requests begins a balanced ledger |
| `Ledger.Conservation` | RecoNIC/drivers/onic-driver/libqdma/qdma_descq.c:822-862 | the balance between charges, credit and returned descriptors that a balanced ledger implies |
| `Ledger.PayKeeps` | RecoNIC/drivers/onic-driver/libqdma/qdma_descq.c:836-862 | paying credit to the oldest requests, also when it arrives while the last is partly issued, keeps the ledger balanced |
| `Ledger.PaySpec` | RecoNIC/drivers/onic-driver/libqdma/qdma_descq.c:836-862 | paying retires the longest prefix the credit covers and charges the remainder to the next request, leaving nothing over unless all is paid |
| `Ledger.PayAtLeast` | RecoNIC/drivers/onic-driver/libqdma/qdma_descq.c:836-862 | credit that covers what the first requests owe pays at least these |
| `Ledger.PayMore` | RecoNIC/drivers/onic-driver/libqdma/qdma_descq.c:836-862 | successive passes together pay oldest first, and what each request still owes says how much was paid |
| `Ledger.IssueAll` | RecoNIC/drivers/onic-driver/libqdma/qdma_descq.c:119-126 | completing the issue of the head moves its whole charge to the pending side |
| `Descq.Descq.Submit` | RecoNIC/drivers/onic-driver/libqdma/qdma_descq.h:556-568 | one request is appended to the work list and counted, or -EINVAL when the queue is not online |
| `Descq.Descq.RequestSubmit` | RecoNIC/drivers/onic-driver/libqdma/libqdma_export.c:2377-2492 | direction, mapping and state checks, then submission followed by a processing call: with space in the ring it publishes descriptors; on an interrupt queue it leaves no work or no space, on a polled one it begins with a poll; while a stop waits it only completes |
| `Descq.Descq.QueueBatch` | RecoNIC/drivers/onic-driver/libqdma/libqdma_export.c:2606-2621 | a batch is queued without counting it, together with requests already called back for a mapping failure |
| `Descq.Descq.BatchSubmit` | RecoNIC/drivers/onic-driver/libqdma/libqdma_export.c:2553-2626 | direction and callback checks on the first request, then the batch is queued and a processing call follows, which makes the same progress as for a single request |
| `Descq.Descq.RequestDone` | RecoNIC/drivers/onic-driver/libqdma/qdma_descq.c:1496-1540 | the head of the pending list leaves it with its outcome, and the drained flag is recomputed |
| `Descq.Descq.PayPending` | RecoNIC/drivers/onic-driver/libqdma/qdma_descq.c:836-862 | the completion loop equals the payment function on the pending list |
| `Descq.Descq.ReadWriteback` | RecoNIC/drivers/onic-driver/libqdma/qdma_descq.c:801-820 | the wrapped index difference is the true number of descriptors newly returned |
| `Descq.Descq.TakeCompletions` | RecoNIC/drivers/onic-driver/libqdma/qdma_descq.c:801-866 | the fields after a pass, in terms of what was newly returned |
| `Descq.Descq.CompletionStatus` | RecoNIC/drivers/onic-driver/libqdma/qdma_descq.c:792-871 | the whole completion pass equals the completion step, on a stopped queue as well when the driver takes interrupts |
| `Descq.Descq.FillEntry` | RecoNIC/drivers/onic-driver/libqdma/qdma_descq.c:302-344 | the inner loop writes exactly the next transfers of the plan, with the keyhole wrap, until the entry or the space ends |
| `Descq.Descq.FillSlots` | RecoNIC/drivers/onic-driver/libqdma/qdma_descq.c:284-354 | the outer loop fills slots with the next stretch of the plan from the byte offset reached |
| `Descq.Descq.Locate` | RecoNIC/drivers/onic-driver/libqdma/qdma_descq.c:236-275 | the scatter walk and the resumed device address put issue where the plan resumes; the out-of-range branch is never taken |
| `Descq.Descq.MarkPass` | RecoNIC/drivers/onic-driver/libqdma/qdma_descq.c:361-364 | first and last descriptor of a pass are marked, the others are not |
| `Descq.Descq.UpdateRequest` | RecoNIC/drivers/onic-driver/libqdma/qdma_descq.c:110-127 | bytes and descriptors are charged to the head; it moves to the pending list exactly when fully issued |
| `Descq.Descq.Issue` | RecoNIC/drivers/onic-driver/libqdma/qdma_descq.c:222-377 | one round of the processing loop equals the issue step |
| `Descq.Descq.IssueLoop` | RecoNIC/drivers/onic-driver/libqdma/qdma_descq.c:222-377 | the loop terminates by the number of descriptors still needed, although polling refills `avail`; it ends with no work or no space |
| `Descq.Descq.ProcRequest` | RecoNIC/drivers/onic-driver/libqdma/qdma_descq.c:184-400 | the processing call, in every mode and state: it polls first where it polls, publishes something new if there was work and space, on an interrupt queue leaves no work or no space, ends with everything published, only completes while a stop waits, and does nothing offline |
| `Processing.ProcessedMeans` | RecoNIC/drivers/onic-driver/libqdma/qdma_descq.c:184-400 | every trace a processing call may have is a run that keeps the invariant, and what progress each mode guarantees |
| `Processing.PartsTraced` | RecoNIC/drivers/onic-driver/libqdma/qdma_descq.c:217-393 | a poll, rounds of issue and the doorbell: something new is published if there was work and space, and all that was produced is published |
| `Processing.LeftOver` | RecoNIC/drivers/onic-driver/libqdma/qdma_descq.c:222-277 | in every mode work is left only if the ring was full as the loop ended, before the last poll |
| `Processing.InterruptUnique` | RecoNIC/drivers/onic-driver/libqdma/qdma_descq.c:184-400 | without polling the state found fixes the trace and the outcome of a processing call |
| `Processing.ServicedMeans` | RecoNIC/drivers/onic-driver/libqdma/qdma_descq.c:1436-1455 | the same for a service call: after an interrupt issue resumes exactly when requests are counted as queued |
| `Descq.Descq.Publish` | RecoNIC/drivers/onic-driver/libqdma/qdma_descq.c:379-384 | the doorbell is set to the producer index |
| `Descq.Descq.HardwareMoves` | RecoNIC/drivers/onic-driver/libqdma/qdma_descq.c:801-813 | the hardware returns any number of the descriptors it was told about, on an online or a stopped queue, and writes back how far it got |
| `Descq.Descq.ServiceCompletion` | RecoNIC/drivers/onic-driver/libqdma/qdma_descq.c:1436-1455 | the service call of polling and interrupt modes, whatever the queue's state: on an interrupt it completes, and if requests are then counted as queued it must issue until there is no work or no space, or complete once more while a stop waits; otherwise it does nothing else; in a polling mode it is a processing call |
| `Descq.Descq.StopBegin` | RecoNIC/drivers/onic-driver/libqdma/libqdma_export.c:1954-1957 | a stop refuses further issue and says whether to wait |
| `Descq.Descq.Flush` | RecoNIC/drivers/onic-driver/libqdma/libqdma_export.c:1970-1997 | callback requests of a list are refused with -ENXIO in order, blocking ones stay linked |
| `Descq.Descq.StopEnd` | RecoNIC/drivers/onic-driver/libqdma/libqdma_export.c:1965-1998 | the queue goes offline and both lists are flushed; every callback request ever accepted has then been told exactly one outcome |
| `Descq.Descq.ConfigComplete` | RecoNIC/drivers/onic-driver/libqdma/qdma_descq.c:1311-1323 | indices, credit and flag of an empty ring; the software copy of the published index is kept |
| `Descq.Descq.Start` | RecoNIC/drivers/onic-driver/libqdma/libqdma_export.c:1769-1829 | a start is refused when online or when the keyhole is no power of two; otherwise it equals the start step, whatever is still linked, and every slot of the new ring is zero |
| `Descq.IssueShrinks` | RecoNIC/drivers/onic-driver/libqdma/qdma_descq.c:222-277 | every issue pass strictly lowers the number of descriptors the work list still needs |
| `Descq.ObjectMoved` | RecoNIC/drivers/onic-driver/libqdma/qdma_descq.c:222-377 | every state of the queue object is reachable in the state machine, so a request it reports done has had each of its bytes copied once and in order, in the direction of the queue |
| `Cursor.FoundOffset` | RecoNIC/drivers/onic-driver/libqdma/qdma_descq.c:250-256 | for a request on the work list the scatter walk always finds an entry, so the error branch is unreachable |
| `Cursor.StartsAt` | RecoNIC/drivers/onic-driver/libqdma/qdma_descq.c:72-108 | the entry and offset the walk finds are where the plan's next transfer starts |
| `Cursor.NextXfer` | RecoNIC/drivers/onic-driver/libqdma/qdma_descq.c:302-333 | length and wrapped device address computed by the loop are those of the plan's next transfer |
| `Scatter.FindOffset` | RecoNIC/drivers/onic-driver/libqdma/qdma_descq.c:72-108 | from the byte offset alone: the unique entry holding that byte and the offset in it, or nothing exactly when the offset is past the list |
| `Scatter.EntryUnique` | RecoNIC/drivers/onic-driver/libqdma/qdma_descq.c:89-102 | no two entries hold the same byte |
| `Plan.ResumeFrom` | RecoNIC/drivers/onic-driver/libqdma/qdma_descq.c:236-275 | cutting a request's plan anywhere and resuming from the byte offset reached gives the rest of the plan |
| `Plan.StepOfPlan` | RecoNIC/drivers/onic-driver/libqdma/qdma_descq.c:222-377 | each transfer starts at the byte where the ones before it ended |
| `Plan.WholeCovers` | RecoNIC/drivers/onic-driver/libqdma/qdma_descq.c:302-344 | the plan moves bytes 0..count once each and in order, pairing byte k with its bus address and `ep_addr` + k (modulo the keyhole) |
| `Plan.KeyholeBound` | RecoNIC/drivers/onic-driver/libqdma/qdma_descq.c:305-311 | with a keyhole, no transfer reaches past the end of the aperture |
| `Bits.MaskIsMod` | RecoNIC/drivers/onic-driver/libqdma/qdma_descq.c:245-248 | masking the offset with aperture - 1 is reduction modulo the aperture, for apertures the start check accepts |
| `Bits.MaskIsModIff` | RecoNIC/drivers/onic-driver/libqdma/libqdma_export.c:1769-1779 | the power-of-two check at queue start accepts exactly the apertures for which masking is reduction |
| `Ring.WrappedDiffTrue` | RecoNIC/drivers/onic-driver/libqdma/qdma_descq.c:816-818 | the wrapped index difference is the true count below a full lap, and equal indices mean no difference |
| `Ring.WriteRingHits` | RecoNIC/drivers/onic-driver/libqdma/qdma_descq.c:335-341 | descriptors written with wrap-around are found at their slots |
| `Ring.WriteRingMisses` | RecoNIC/drivers/onic-driver/libqdma/qdma_descq.c:335-341 | slots from one lap back up to the start are untouched |
| `FlagLen.WordRoundTripIff` | RecoNIC/drivers/onic-driver/libqdma/qdma_descq.c:326-327 | the word packed from a descriptor's own fields gives back length and flags, the valid flag included, if and only if the length is below 2^28 |
| `FlagLen.LengthsFitIff` | RecoNIC/drivers/onic-driver/libqdma/libqdma_export.c:1769-1779 | every transfer of every request fits the length field if and only if the keyhole is below 2^28, which the start check does not ask |
| `FlagLen.HardwareReadsLength` | RecoNIC/drivers/onic-driver/libqdma/qdma_descq.c:361-364 | on such a queue each descriptor hardware may fetch has a word that says its length, in every reachable state, restarts included |
| `FlagLen.HardwareSeesValid` | RecoNIC/drivers/onic-driver/libqdma/qdma_descq.c:327 | in every reachable state the word of each descriptor hardware may fetch has its valid bit set |
| `FlagLen.PassMarks` | RecoNIC/drivers/onic-driver/libqdma/qdma_descq.c:361-364 | an issue pass marks its first and its last descriptor and no other, and stops only when the ring is full or the request fully issued |
| `Stream.TxRing.FillRequest` | RecoNIC/drivers/onic-driver/libqdma/qdma_descq.c:525-636 | from any byte offset, the descriptors filled in make hardware read the bytes of the request's scatter list once each and in order, up to its end or the end of the space; each is a whole packet or runs to the end of an entry, is marked and carries no other flag, and neither a slot hardware owns nor a free one beyond the slot looked ahead to changes |
| `Stream.TxRing.SplitEntry` | RecoNIC/drivers/onic-driver/libqdma/qdma_descq.c:568-624 | what is left of one entry is cut into packets until it or the space is used up, an empty entry into one empty piece, and the bytes read so far continue those before |
| `Stream.TxRing.Fill` | RecoNIC/drivers/onic-driver/libqdma/qdma_descq.c:558-629 | given pieces go into consecutive slots with their own source, length, mark and no flag, so their bytes are read once each and in order; neither a slot hardware owns nor a free one beyond the slot looked ahead to changes |
| `Stream.TxRing.WriteOne` | RecoNIC/drivers/onic-driver/libqdma/qdma_descq.c:573-622 | one piece fills its slot with its source, both lengths and the header mark, and the next slot's flags are cleared, except when the index wraps |
| `Stream.SpareSlot` | RecoNIC/drivers/onic-driver/libqdma/qdma_descq.c:614-622 | the slot looked ahead to is never one hardware owns or one just filled |
| `Stream.LookAheadIff` | RecoNIC/drivers/onic-driver/libqdma/qdma_descq.c:614-622 | looking ahead would reach an owned slot if and only if the ring were filled completely, which the slot left out of use prevents |
| `Pool.FillPool` | RecoNIC/drivers/onic-driver/onic_cdev.c:335-357 | the pool starts as the identity on 0..N-1 |
| `Pool.StepKeeps` | RecoNIC/drivers/onic-driver/onic_cdev.c:245-291 | each shared access of any thread keeps the pool invariant |
| `Pool.MutualExclusion` | RecoNIC/drivers/onic-driver/onic_cdev.c:266-291 | over every interleaving of any number of threads no two hold the same queue id, and ids are valid |
| `Pool.SlotsNeverClash` | RecoNIC/drivers/onic-driver/onic_cdev.c:245-258 | although takes and returns use different mutexes, a take reads only an unread slot and a return never writes an unread one |
| `Pool.Conservation` | RecoNIC/drivers/onic-driver/onic_cdev.c:204-227 | free, held and lost ids partition 0..N-1 |
| `Pool.QuiescentPool` | RecoNIC/drivers/onic-driver/onic_cdev.c:335-357 | when all operations are over the semaphore is back at N if and only if no operation returned early, and then the array is a permutation of 0..N-1 |
| `Lifecycle.DecodeInvertsHandle` | RecoNIC/drivers/onic-driver/libqdma/qdma_device.c:386-405 | decoding a handle inverts encoding it, and nothing else decodes |
| `Lifecycle.UsableIff` | RecoNIC/drivers/onic-driver/libqdma/libqdma_export.c:1257-1347 | on a consistent table the coded check with its one shared mode bit accepts exactly the queues that fit the index |
| `Lifecycle.AddSucceedsIff` | RecoNIC/drivers/onic-driver/libqdma/libqdma_export.c:1548-1623 | an add at an explicit index succeeds if and only if it is supported, in range and fits; the count limits never refuse it half way |
| `Lifecycle.RemoveUndoesAdd` | RecoNIC/drivers/onic-driver/libqdma/libqdma_export.c:987-1020 | removing a queue just added gives back all counts, loads and other entries |
| `Lifecycle.CountsNeverFloor` | RecoNIC/drivers/onic-driver/libqdma/qdma_access/qdma_resource_mgmt.c:698-742 | no active count and no vector load is ever lowered from zero |
| `Lifecycle.LifecycleSafety` | RecoNIC/drivers/onic-driver/libqdma/libqdma_export.c:1257-1347 | over every run of adds, removes, starts and stops: directions at an index agree on their mode, completion queues never meet streaming ones, counts equal the tables, online queues passed the aperture check |
| `Lifecycle.ApplyKeeps` | RecoNIC/drivers/onic-driver/libqdma/libqdma_export.c:1362-1660 | each call keeps the lifecycle invariant |
| `Lifecycle.LoadsSumToOnline` | RecoNIC/drivers/onic-driver/libqdma/libqdma_export.c:1812-1823 | over starts and stops the vector loads sum to the number of online queues |
| `Lifecycle.StartsStayLevel` | RecoNIC/drivers/onic-driver/libqdma/qdma_descq.c:743-787 | in direct mode a run without stops keeps vector loads within one of each other |
| `Lifecycle.StopLevelIff` | RecoNIC/drivers/onic-driver/libqdma/libqdma_export.c:2010-2020 | a stop keeps vector loads within one of each other if and only if it takes a queue off a vector that carries the most |
| `Lifecycle.LevelIff` | RecoNIC/drivers/onic-driver/libqdma/qdma_descq.c:743-787 | in direct mode a run keeps the loads level throughout if and only if all its stops do that |
| `Lifecycle.StopsUnbalance` | RecoNIC/drivers/onic-driver/libqdma/libqdma_export.c:2010-2020 | a run from an initialised device whose last stop leaves loads two and zero |
| `Lifecycle.FirstLeast` | RecoNIC/drivers/onic-driver/libqdma/qdma_descq.c:759-782 | the vector meant is in range, least loaded, and the first such |
| `Device.Device.constructor` | RecoNIC/drivers/onic-driver/libqdma/qdma_device.c:225-276 | all entries disabled and all counts zero |
| `Device.Device.GetDescqById` | RecoNIC/drivers/onic-driver/libqdma/qdma_device.c:387-423 | the entry a handle names by the decoding, or nothing when out of range or, on request, disabled |
| `Device.Device.GetIdFromDescq` | RecoNIC/drivers/onic-driver/libqdma/qdma_device.c:343-363 | the search finds the handle of every entry of its type; outside the two tables searched it gives -EINVAL |
| `Device.Device.IsUsable` | RecoNIC/drivers/onic-driver/libqdma/libqdma_export.c:1257-1347 | the branch-by-branch check decides whether the queue fits |
| `Device.Device.IncrementActive` | RecoNIC/drivers/onic-driver/libqdma/qdma_access/qdma_resource_mgmt.c:647-695 | a count is raised unless it would pass the maximum |
| `Device.Device.DecrementActive` | RecoNIC/drivers/onic-driver/libqdma/qdma_access/qdma_resource_mgmt.c:698-742 | a count is lowered unless it is zero |
| `Device.Device.QueueAdd` | RecoNIC/drivers/onic-driver/libqdma/libqdma_export.c:1363-1660 | the call equals the add step and returns the handle that decodes to the new queue |
| `Device.Device.QueueRemove` | RecoNIC/drivers/onic-driver/libqdma/libqdma_export.c:961-1020 | the call equals the remove step |
| `Device.Device.AllocIrq` | RecoNIC/drivers/onic-driver/libqdma/qdma_descq.c:743-787 | the scan with its early exit chooses the first least-loaded data vector |
| `Device.Device.QueueStart` | RecoNIC/drivers/onic-driver/libqdma/libqdma_export.c:1720-1829 | the call equals the start step |
| `Device.Device.QueueStop` | RecoNIC/drivers/onic-driver/libqdma/libqdma_export.c:1943-2020 | the call equals the stop step |
| `Device.Device.Cleanup` | RecoNIC/drivers/onic-driver/libqdma/qdma_device.c:287-325 | every queue of the two transfer directions is stopped and removed, completion queues are untouched |
| `Device.TeardownLeavesCmpt` | RecoNIC/drivers/onic-driver/libqdma/qdma_device.c:287-325 | after teardown the transfer counts are zero and the completion count is that of the completion queues added on their own, zero if and only if there were none |
| `Setup.Driver.RxQueueAdd` | RecoNIC/drivers/onic-driver/onic_main.c:279-349 | one receive queue is added by its index's mode; index 0 sets the base handle and index 64 the pool's base |
| `Setup.Driver.RxQueueSetup` | RecoNIC/drivers/onic-driver/onic_main.c:384-424 | when receive bring-up succeeds, and the tables and handles it leaves |
| `Setup.Driver.TxQueueSetup` | RecoNIC/drivers/onic-driver/onic_main.c:475-525 | when transmit bring-up succeeds, and the tables and handles it leaves |
| `Setup.Driver.Setup` | RecoNIC/drivers/onic-driver/onic_main.c:1414-1426 | on a fresh device bring-up succeeds if and only if the indices fit the tables and the receive network queues stay below the fixed index |
| `Setup.Driver.StartRange` | RecoNIC/drivers/onic-driver/onic_main.c:575-584 | queues are started by consecutive handles up to the first that is missing or cannot be set up, and which were |
| `Setup.Driver.QdmaStop` | RecoNIC/drivers/onic-driver/onic_main.c:525-566 | with the base handles of bring-up, or no receive queue online, exactly the online queues among the first of each direction are stopped |
| `Setup.Driver.QdmaStart` | RecoNIC/drivers/onic-driver/onic_main.c:570-602 | the interface comes up if and only if resources suffice and, when there are memory-mapped queues, the receive network queues are exactly 64; and which queues stay online when it does not |
| `Setup.CleanFailureIff` | RecoNIC/drivers/onic-driver/onic_main.c:575-598 | a failed start leaves every queue offline if and only if not all receive queues could be started; without network receive queues, if and only if the receive sweep, which then runs over transmit queues, started all it was to start or none |
| `Setup.TokensReachIff` | RecoNIC/drivers/onic-driver/onic_cdev.c:216 | after bring-up every pool id names its own memory-mapped queue: for reads if and only if there is a receive network queue, for writes if and only if the transmit network queues reach index 64 |
| `Setup.TokensOnlineIff` | RecoNIC/drivers/onic-driver/onic_cdev.c:216 | once the interface is up every read id reaches an online queue of its own, and every write id does if and only if the transmit network queues reach index 64 |
| `Setup.TransfersDriveDistinctQueues` | RecoNIC/drivers/onic-driver/onic_cdev.c:216 | with the interface up, concurrent transfers of one direction always drive different online memory-mapped queues of that direction |
| `Buffers.PlaceIsLeast` | RecoNIC/lib/reconic.c:215-225 | a buffer goes to the least free offset that obeys the page rule, so gaps are under 4096 |
| `Buffers.RunDisjoint` | RecoNIC/lib/reconic.c:204-263 | over every allocation run buffers are disjoint, those up to 4096 bytes stay in one page, larger ones start on one, gaps are under a page |
| `Buffers.AssertBoundsIff` | RecoNIC/lib/reconic.c:257 | the assertion after a device allocation bounds the buffer if and only if the size is at most 4 GB |
| `Buffers.AssertMisses` | RecoNIC/lib/reconic.c:252-257 | a size near 2^64 passes the assertion and makes a later buffer overlap an earlier one |
| `Buffers.DeviceRun` | RecoNIC/lib/reconic.c:236-258 | with sizes up to 4 GB, runs that pass the assertions never wrap and stay inside device memory |
| `Buffers.DeviceAddressRoundTrip` | RecoNIC/lib/memory_api.c:24 | a device address is recognised, and the memory API's mask gives its offset back |
| `Buffers.IsDeviceAddressIff` | RecoNIC/lib/reconic.c:105-113 | the addresses taken for device memory are exactly one window |
| `Buffers.DeviceBuffers` | RecoNIC/lib/reconic.c:236-258 | both over whole runs: disjoint, recognised, inside the device after masking |
| `Buffers.RnDev.AllocateRdmaBuffer` | RecoNIC/lib/reconic.c:204-266 | one allocation in either region: where the buffer lies, the new offset, and when the library gives up |
| `Transfer.MapUserBufToSgl` | RecoNIC/drivers/onic-driver/onic_cdev.c:108-185 | the page split of a user buffer and each of its error returns, lack of memory included |
| `Transfer.FillSgl` | RecoNIC/drivers/onic-driver/onic_cdev.c:163-182 | the filling loop produces exactly the page split |
| `Transfer.SglMap` | RecoNIC/drivers/onic-driver/libqdma/libqdma_export.c:2329-2361 | every entry gets its page's bus address plus its offset, or the mappings made are undone and -EIO returned |
| `Transfer.SglUnmap` | RecoNIC/drivers/onic-driver/libqdma/libqdma_export.c:2294-2315 | exactly the entries up to the first without a page lose their mapping |
| `Transfer.SplitWellFormed` | RecoNIC/drivers/onic-driver/onic_cdev.c:222-240 | the request built from a page split meets what the queue engine asks |
| `Transfer.ByteOfRequest` | RecoNIC/drivers/onic-driver/onic_cdev.c:163-182 | byte k of the request is byte k of the buffer, at its own place in its own page, and position + k |
| `Transfer.ReadOrWrite` | RecoNIC/lib/memory_api.c:18-75 | the chunk loop makes exactly the planned calls in order, stops at the first seek or call that falls short, and returns the size if and only if none does |
| `Transfer.ChunksTile` | RecoNIC/lib/memory_api.c:26-66 | each byte of the buffer is in exactly one chunk |
| `EndToEnd.CallMoves` | RecoNIC/drivers/onic-driver/onic_cdev.c:222-240 | a character-device call whose request is done has copied each byte of its part once and in order, to the device for a write and from it for a read |
| `EndToEnd.ChunkTold` | RecoNIC/drivers/onic-driver/libqdma/libqdma_export.c:2471-2485 | a call that returned what it was asked for was told so, and not refused by the outcome it read |
| `EndToEnd.WholeTransfer` | RecoNIC/lib/memory_api.c:77-131 | unless a request times out on one of its queues, a library call of any size that returns its size has copied buffer byte j to device address (offset & mask) + j for a write, and from it for a read, in exactly one of its calls, through chunks, pages and descriptors; this also holds of a submitter that read a second outcome, unless the stop that refused its request found a callback request ahead of it |

## Left out

- Descq.Descq.RequestSubmit: does not model the timeout of a blocking request, which unlinks it while its descriptors are outstanding, so that credits no longer balance; the wait itself is the later outcome.
- Descq.Descq.BatchSubmit: takes the set of failed mappings as a parameter; descriptors of a request whose mapping failed carry addresses past 2^64, where the code wraps.
- Descq.Descq.Poll: a completion pass of the polling modes is preceded by an arbitrary hardware move.
- Descq.Descq.ServiceCompletion: the stream C2H branch is not modelled.
- Descq.Descq.CompletionStatus: a pass on a stopped queue may come at any time before the next start; the code frees the ring and its writeback soon after a stop, and what a pass does without them is not modelled.
- Descq.Descq.StopEnd: the wait between the two halves of a stop is any sequence of other steps; freeing the ring and clearing the hardware context are not modelled.
- Stream.TxRing.FillRequest: bypass flags, under which the slot after a wrap keeps flags of an earlier lap, are not modelled, nor is the list of requests around the call, which is that of the memory-mapped path.
- Device.Device.QueueAdd: the automatic choice of an index, which advances its pointer twice, is not modelled, nor are validation of the configuration and failures after the state change other than the counts; adds are taken one at a time, as the check and the state change are under separate locks.
- Device.Device.QueueStart: the result of allocating and programming is a parameter, and a failed start is taken to leave no trace; bypass and engine-mode checks are not modelled.
- Device.Device.QueueStop: the driver mode that counts queues on vectors is assumed to have vectors; a device without message-signalled interrupts in an interrupt mode is not modelled.
- Setup.Driver.QdmaStart: the base handles are those bring-up leaves; the interrupt vector a stopped queue last had is not stated.
- Setup.Driver.TxQueueSetup: the release of queues after a failed bring-up is not modelled.
- Setup.Driver.RxQueueSetup: the release of queues after a failed bring-up is not modelled, nor are the interrupt and network registrations.
- Transfer.ReadOrWrite: read and write share one chunk loop, which is modelled once; the results of the read and write calls are a parameter.
- Transfer.SglMap: the bus address stored for an entry whose mapping failed is a fixed error value.
- Buffers.RnDev.AllocateRdmaBuffer: the host region has no bound check in the code, and its size is not modelled; buffers are addresses, and physical addresses of host buffers are not modelled.
- Requests are values: one request object submitted twice is not modelled, nor is the memory of a request whose submitter has returned while it was still linked; the order and contents of the lists are.
- The completion-entry reader, whose index is not wrapped, the stream C2H free lists, descriptor bypass callbacks, virtual-function mailbox, legacy interrupts and debug files.
- Hardware context programming, register access, statistics, kernel wait queues and work threads.
- The RDMA engine, sockets and command-line parts of the user library, and the simulation and build scripts.
