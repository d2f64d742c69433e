# Coyote: the task service, the simulation I/O and the protocols around them

Coyote is a shell for FPGAs. Clients send tasks to a background service over a socket; the service hands
them to a scheduler that reconfigures the FPGA as needed and runs them; the results go back to the clients.
Around that, threads set up RDMA connections and post commands, partial bitstreams are loaded into huge
pages, virtual machines map their buffers, and a simulation framework talks to a hardware simulator through
pipes. This project models that logic in Dafny and proves what it promises.

| files | what they model |
|---|---|
| `Bytes` | little-endian integers, concatenation of pieces |
| `Scheduling`, `SchedulerObject` | the scheduler (`cSched`) on values, and as the object it is, with its tasks and threads; each method is proved equal to the function on values |
| `SchedulingRuns`, `SchedulingPolicy` | every run of the scheduler: soundness, progress, order, independence of the policy, fewest reconfigurations |
| `Framing` | request and response framing (`cConn`, `cService`, `cFunc`) |
| `Service`, `ServiceRequests`, `ServiceIds`, `ServiceQueue`, `ServiceResponses`, `ServiceEndToEnd` | clients, the request and response threads of every connection, and the scheduler as one machine whose steps interleave in any way |
| `ServiceProgress`, `ServiceTimeouts`, `ServiceBranches` | that the service can always finish, what the receive timeout does to a request, and the branches of the machine for any header and any bytes |
| `ResponseScan`, `ServiceScan`, `ServiceWaits` | the response thread's loop that erases entries while it iterates, on its own and inside the machine, and how long an entry waits |
| `SimMemory`, `SimMemoryObject`, `OutputPipe`, `InputPipe` | the memory and the two pipes of the simulation framework |
| `Handshake`, `Throttle`, `Encoding` | protocols and words of a `cThread` |
| `Bitstream` | loading a bitstream |
| `Pages`, `VcidPool` | virtual machine support |

User functions are parameters: deterministic maps from argument buffers to a returned value or a thrown
exception. The outcome of a reconfiguration, the sizes of partial reads and writes, when a read gives up, the
addresses returned by allocation and the order of steps of different threads are chosen freely, and the results
hold for every choice. `Service` has one step for each write, read, critical section and scheduler pass, with
`addTask` split into its unlocked check and its locked insertion. A read of the service may give up at any time, as
the 5 ms receive timeout of its sockets has it, and a read on either side may find part of what it asked for.
Argument and return types have between 1 and 1024 bytes: both sides read them into a buffer of that size on the
stack without looking.

Some results say that the code does less than one might expect, with the condition under which it does what is
expected:

- A client that is delayed between the header of a request and an argument is told that the request failed, while a
  timeout between two requests does nothing (`TimeoutReportsFailure`); the late bytes are read as a header
  (`LateArgumentIsMisread`). The results about a connection need that no read of an argument gave up on it; what
  timed out elsewhere does not matter.
- `sendResponses` announces every completed task with code 0, and a failed task has no value. All records of a client
  are right if all its tasks ended with code 0; if not, they are right up to the first failed task and wrong for that
  one (`AnnouncedRightIff`), and after it even a task that ended with code 0 can be misreported
  (`FailedTaskLooksCompleted`). The end-to-end results are about connections whose answered tasks all ended with code 0.
- The file over the input pipe is buffered, and closing it loses what the pipe does not take then: it carries
  everything exactly when the pipe takes all that is buffered (`CloseCarriesAllIff`, `ElementLost`).
- `postCmd` throttles each thread by its own count, so it keeps the FIFO within its depth exactly when one thread uses
  it (`ProtectsExactlyOne`).
- The hypervisor caps the number of small pages it looks at, so for larger buffers it leaves huge pages out
  (`AllFilledIff`, `CapLosesHugePage`).
- A bitstream whose length is not a multiple of 4 cannot be told from its buffer (`RecoverIff`).

## Model

| member | source | states |
|---|---|---|
| ServiceEndToEnd.EndToEnd | sw/src/cService.cpp:221-415 | in every interleaving, with any number of connections and whatever timed out or failed on the others: on a connection on which no read of an argument gave up and whose answered tasks all ended with code 0, a task the client sees completed has code 0 and exactly the value its own function returns on its own arguments |
| ServiceEndToEnd.QuietMeansDone | sw/src/cService.cpp:360-415 | once nothing is under way on such a connection, every request ever issued on it is completed at the client |
| ServiceProgress.CanGoQuiet | sw/src/cService.cpp:221-415 | from every reachable state, on a connection on which no read of an argument gave up and with ids left for its requests, some continuation without new requests and without timeouts leaves the service nothing to do there and, if the answered tasks ended with code 0, makes the connection quiet |
| ServiceTimeouts.TimeoutReportsFailure | sw/src/cService.cpp:227-290 | from every reachable state in which the request thread reads and the receive timeout can strike, on such a connection and with no response half written: after the timeout and any number of reads of the client, the client sees a failure exactly when the timeout struck in the middle of a request and the client has read past the replies before it; then the record of that request has code 1, every other completed one holds its own result, and the request was not executed |
| ServiceTimeouts.CanTimeOutMidRequest | sw/src/cService.cpp:273-275 | for every function with an argument and every well-formed call of it, three steps lead to a state in which the timeout can strike in the middle of the request |
| ServiceBranches.EchoStarts | sw/include/cFunc.hpp:111-193 | a service with a registered function and any number of connections is a start of the machine, and a call of the function is well-formed and returns its result |
| ServiceBranches.DismissedHeader | sw/src/cService.cpp:233-258 | in any state: a close request ends the request thread, an unknown function is refused with code 1 under the id of the header, another operation is ignored, and the header of a known function stays |
| ServiceBranches.RefusedMidRequest | sw/src/cService.cpp:273-290 | in any state: a read of an argument that gives up takes what is there and refuses the id of the header with code 1 |
| ServiceBranches.RefusedTask | sw/src/cService.cpp:318-332 | in any state: a task that the scheduler does not take is refused with code 1 under the id of the request |
| ServiceBranches.NotAnswered | sw/src/cService.cpp:383-398 | in any state: when the header cannot be written on a closed connection the scan ends and the entry stays, and an entry whose task the scheduler does not have is looked at again; nothing is sent |
| ServiceBranches.HearIsReceive | sw/src/cConn.cpp:93-129 | for any bytes and any records of the client: its reads, one by one, end with the records of the response parser, and with its thread waiting or ended exactly when a value is not all there |
| ServiceBranches.RecordsAreOfRequests | sw/include/cConn.hpp:185-209 | in every interleaving, whatever timed out, failed or was misread: the client has a record for exactly the requests it made, each with its function and the size of that one's result, and blank with code -1 until it is completed |
| ServiceBranches.AnswerIsAnnounced | sw/src/cService.cpp:389-404 | in every reachable state and on every connection, the two writes for a completed task are a header with code 0 and its value, or no value if it failed |
| ServiceBranches.ClosedForGood | sw/src/cService.cpp:234-239 | over every run after a close request nothing more is answered on the connection, and the client only reads what was written before |
| ServiceQueue.NoneLostNoneRepeated | sw/src/cService.cpp:310-313 | in every interleaving, on a connection on which no read of an argument gave up, each request of a client is in exactly one place between issue and answer: none is lost and none answered twice |
| ServiceQueue.NeverCompletedButNull | sw/src/cService.cpp:382-387 | the responder's branch for a completed task that the scheduler does not find is unreachable |
| ServiceIds.IndexUnderConcurrency | sw/src/cSched.cpp:184-210 | with ids drawn, checked and inserted by several threads at once, and whatever timed out, the id index is a linear search of the task list, no two tasks share an id, and the refusal path of `addTask` is never taken for a paired request |
| ServiceRequests.RequestsAlways | sw/src/cService.cpp:225-293 | in every interleaving of piecewise writes and reads, on a connection on which no read of an argument gave up, what was read, what is on the socket and what is yet to be written are, piece by piece, exactly the requests in flight in the order the client issued them; in any case every id a client drew stands for the well-formed request it was drawn for |
| ServiceEndToEnd.TaskIsRight | sw/src/cService.cpp:310-316 | a task the scheduler holds under an id carries the function, the arguments and the thread of the request the id was drawn for, and if it completed with code 0 that request's result, which is what the responder sends |
| ServiceQueue.CompletedStays | sw/src/cSched.cpp:212-232 | over every run of the machine and every continuation of it: an id once filed keeps its place in the task list, the request there never changes, and a task seen completed is found completed, with the same code and value, ever after |
| Scheduling.IndexIsSearch | sw/src/cSched.cpp:49-63 | in every run of submissions and passes the lookups of a task and of its completion equal a linear search of the task list, for every id, present or not |
| Scheduling.RunIsLater | sw/src/cSched.cpp:65-162 | over every run positions never move, requests never change and completion is stable |
| Scheduling.FirstRunnable | sw/src/cSched.cpp:71-93 | the first pending task that is not failed by the sanity check, or none |
| Scheduling.FirstMatching | sw/src/cSched.cpp:94-110 | the first such task whose bitstream is loaded, or none |
| SchedulingRuns.PassMakesProgress | sw/src/cSched.cpp:71-155 | a pass never makes a task pending, and leaves strictly less pending if anything was |
| SchedulingRuns.PassesDrain | sw/src/cSched.cpp:67-159 | n pending tasks are drained by n passes, whether reconfigurations succeed or fail |
| SchedulingRuns.RunIsAccounted | sw/src/cSched.cpp:114-155 | in every run a function runs only with its own bitstream loaded and at most once per task; an executed task shows its own result, a completed task that was not executed shows failure, a pending one is as submitted |
| SchedulingRuns.RunKeepsOrder | sw/src/cSched.cpp:90-110 | in every run completion follows submission order without reordering, and submission order within each bitstream with it |
| SchedulingPolicy.RunHoldsAdmitted | sw/src/cSched.cpp:184-210 | the task list is exactly the admissible submissions in submission order, whatever passes ran meanwhile |
| SchedulingPolicy.RunEndsTask | sw/src/cSched.cpp:71-155 | in every run: a pending task has code -1, no value and was not executed; one without a thread or a registered function fails unexecuted; an executed one has both, ran with the bitstream of its function loaded and has what that returned, or code 1 if it threw; and if reloads succeed every other completed task was executed exactly if it could have its bitstream |
| SchedulingPolicy.RunIsSettled | sw/src/cSched.cpp:113-155 | in every run whose reloads succeed each completed task has the code and value that its request alone determines, and was executed exactly if its bitstream could be had |
| SchedulingPolicy.PolicyIndependence | sw/include/cSched.hpp:48-55 | two drained runs over the same submissions, under either policy and any interleaving of arrivals and passes, end with the same tasks, codes and values and made the same calls |
| SchedulingPolicy.PassLoadsAtLeast | sw/src/cSched.cpp:114-134 | under either policy a pass settles at most as many missing bitstreams as it reloads |
| SchedulingPolicy.GreedyPassLoads | sw/src/cSched.cpp:94-134 | with reordering each reload settles exactly one missing bitstream for good |
| SchedulingPolicy.PlanLoads | sw/include/cSched.hpp:53-55 | any plan that runs each task under its own bitstream loads at least as often as there are bitstreams it uses other than the loaded one |
| SchedulingPolicy.GreedyIsOptimal | sw/src/cSched.cpp:71-134 | draining a batch with reordering reloads exactly once per needed bitstream that is not loaded; no sound plan for the batch, and not submission order either, reloads less |
| SchedulerObject.CThread.Lock | sw/src/cThread.cpp:1165-1171 | the thread holds the mutex and its flag says so; a thread that has the mutex does not take it again; while another thread of the process has it, the call does not return and nothing changes |
| SchedulerObject.CThread.Unlock | sw/src/cThread.cpp:1173-1179 | the mutex is released if the thread had it and untouched if not |
| SchedulerObject.CSched.AddTask | sw/src/cSched.cpp:184-210 | appends and indexes the task, or refuses null, a known id or an unknown function and changes nothing |
| SchedulerObject.CSched.GetTask | sw/src/cSched.cpp:223-232 | the task with the id, or null exactly when the lookup on values finds none |
| SchedulerObject.CSched.IsTaskCompleted | sw/src/cSched.cpp:212-221 | true exactly for a known and completed task |
| SchedulerObject.CSched.Select | sw/src/cSched.cpp:69-111 | the scan loop picks the specified task, and fails exactly the pending tasks without a thread or function that it passes |
| SchedulerObject.CSched.Execute | sw/src/cSched.cpp:136-154 | the task gets the outcome of its function, and flag and mutex of its thread are released on either exit |
| SchedulerObject.CSched.SettleTask | sw/src/cSched.cpp:113-155 | reload if needed and execute, as specified on values |
| SchedulerObject.CSched.RunTask | sw/src/cSched.cpp:113-155 | the same for the object among the threads of all tasks: no thread holds the mutex afterwards that did not before |
| SchedulerObject.CSched.Pass | sw/src/cSched.cpp:67-159 | one pass over the objects is one pass on values, and leaves no thread and no mutex locked that was not |
| SchedulerObject.CSched.Schedule | sw/src/cSched.cpp:65-162 | the loop is the run of that many passes |
| Framing.ReadArguments | sw/src/cService.cpp:268-290 | for every way in which bytes arrive, the argument loop returns the buffers of the given sizes and the rest of the socket, or an error when a read gives up or comes short, with what it took gone |
| Framing.ProcessRequests | sw/src/cService.cpp:221-353 | for every way in which bytes arrive, including late ones, the request loop with close, unknown operations, unknown functions and short reads is the parser on values |
| Framing.RequestsRoundTrip | sw/include/cConn.hpp:111-142 | any list of well-formed requests that has arrived, whatever follows it and whenever, is read back as exactly that list |
| Framing.LateArgumentIsMisread | sw/src/cService.cpp:273-290 | for every well-formed request and every argument of it that has not arrived, or only in part, when the read of it gives up: the service reports bad arguments, the part is gone, and the late bytes are taken for a header |
| Framing.OtherHeaders | sw/src/cService.cpp:233-346 | whatever follows and whenever: a close request ends the loop, another operation is ignored, an unknown function is reported with the id of the request, and the loop goes on behind the header |
| Scheduling.FunctionGetsFronts | sw/include/cFunc.hpp:111-193 | a function throws on a wrong number of buffers, and otherwise is applied to as many bytes from the front of each as its argument has |
| Framing.UnpackRoundTrip | sw/include/cFunc.hpp:111-193 | the user function is applied to exactly the buffers the caller passed |
| Bytes.Wrap32Counts | sw/include/cConn.hpp:188-188 | task ids start at 0, go up by one, and after the largest 32-bit value go on from the smallest |
| Framing.CConn.ITask | sw/include/cConn.hpp:185-209 | draws the next id, records a pending task and writes the framed request |
| Framing.CConn.CheckCompletedTasks | sw/src/cConn.cpp:93-129 | the listener over any bytes is the response parser on values, which drops part of a header and fails on part of a value |
| Framing.RepliesRoundTrip | sw/src/cConn.cpp:98-122 | for every list of results and refusals in any order, for known and unknown tasks, and whatever follows: the client consumes exactly the list, records for each task the code of the last response and the value of the last result, and changes no other record |
| Framing.ReceiveNotice | sw/src/cConn.cpp:117-119 | a header with a code other than 0 sets the code of its task, completes it and keeps its value; a header for an unknown task changes nothing; the client goes on with the next header |
| Framing.StreamEnds | sw/src/cConn.cpp:99-109 | part of a header is dropped, and a result that is not all there is an exception that leaves the record as it was |
| Framing.AnnouncedRightIff | sw/src/cService.cpp:389-404 | for every list of tasks that ended: when all ended with code 0 every record of the client agrees; if not, then once the first failed one has been announced the records before it agree and its own does not |
| Framing.FailedTaskLooksCompleted | sw/src/cService.cpp:389-404 | a failed task followed by one that ended with code 0: the client stores the next header as the value, reports the failed task as successful, and the next task's record is wrong too |
| ResponseScan.Pass | sw/src/cService.cpp:376-410 | the loop that asks the scheduler at each entry, erases while iterating and then advances computes `Left` and `Sent`, whatever the scheduler says at each entry and also when a write fails |
| ServiceScan.ScanIsPass | sw/src/cService.cpp:374-410 | in every reachable state of the machine: a scan that runs from its start to its end among any steps of others does to the list and to the answers what one pass does, where each look lies between the scheduler at the start and at the end |
| ServiceWaits.BoundedWait | sw/src/cService.cpp:364-412 | from every reachable state, in every run and whatever is added or finishes meanwhile: the entry at position p of a finished task is answered by the time p + 1 scans have ended, not counting one that had already passed it |
| ResponseScan.CanWaitLong | sw/src/cService.cpp:402-409 | that bound is exact: an entry at position p can be left by p passes whose writes succeed |
| ResponseScan.PassConserves | sw/src/cService.cpp:376-410 | what a pass leaves and what it answers are together exactly what it started from, whatever finishes meanwhile |
| ResponseScan.PassAnswers | sw/src/cService.cpp:376-410 | while tasks go on finishing, only finished entries are answered, and one that was finished when the pass began is left only behind an answered one, so at least half of those are answered |
| ResponseScan.PassHalves | sw/src/cService.cpp:376-410 | when nothing else finishes, each finished entry is either answered or left, and a pass whose writes succeed leaves at most half of them |
| ResponseScan.PassAnswersHalf | sw/src/cService.cpp:402-409 | a pass over finished entries answers exactly every other one |
| ResponseScan.PassesNeeded | sw/src/cService.cpp:364-412 | n finished entries are all answered within floor(log2 n) + 1 passes, and when nothing else is in the list not within fewer |
| SimMemory.BisectRight | sim/unit_test/io_writer.py:521-521 | the position after the last address not above the given one |
| SimMemory.LookupIffAllocated | sim/unit_test/io_writer.py:508-555 | on sorted, disjoint segments that do not touch, the lookup succeeds exactly when every byte of the range is allocated, and names the segment that holds them |
| SimMemory.WriteStores | sim/unit_test/io_writer.py:900-904 | a slice write changes exactly the bytes of the range in the flat memory |
| SimMemory.AllocationNeedsRoom | sim/unit_test/io_writer.py:557-581 | allocating at any address keeps the segments sorted, disjoint and apart exactly when the range ends before the next segment or was allocated already; it then adds zeros where nothing was and changes no byte |
| SimMemoryObject.SimulationMemory.AddMemoryAllocation | sim/unit_test/io_writer.py:557-581 | extends the neighbouring segment or inserts a new one |
| SimMemoryObject.SimulationMemory.Allocate | sim/unit_test/io_writer.py:837-847 | at any address: at least one byte, zeros where nothing was; the segments stand for the flat memory exactly when nothing is allocated behind a free address up to the end of the range, which is always so after everything allocated; a negative size is refused |
| SimMemoryObject.SimulationMemory.AllocateNextFree | sim/unit_test/io_writer.py:912-921 | for every offset hands out the range at that distance from the end of everything allocated; in order whenever the offset is not negative, and otherwise exactly when there is room in the flat memory |
| SimMemoryObject.SimulationMemory.WriteTo | sim/unit_test/io_writer.py:883-904 | writes exactly if the whole range is allocated |
| SimMemoryObject.SimulationMemory.ReadFrom | sim/unit_test/io_writer.py:860-881 | exactly if the whole range is allocated: as many bytes as asked for, each the one the flat memory holds at its address |
| SimMemoryObject.SimulationMemory.Replay | sim/unit_test/io_writer.py:860-921 | over every sequence of calls, with any offsets, whose allocations have room the segments give the same answers as the flat memory |
| SimMemoryObject.UpwardIsRoomy | sim/unit_test/io_writer.py:912-921 | every sequence of calls whose offsets leave a gap after the last allocation has room throughout |
| SimMemoryObject.HoldsLastWritten | sim/unit_test/io_writer.py:883-904 | over every sequence of calls on any memory an address holds the byte of the last accepted write to it |
| SimMemoryObject.FreshIsZero | sim/unit_test/io_writer.py:577-581 | an address never written since holds what it held, or zero if an allocation gave it out, and is unallocated otherwise |
| SimMemoryObject.ReadsLastWritten | sim/unit_test/io_writer.py:860-904 | over every sequence of calls on a fresh memory an accepted read answers with as many bytes as asked for, each the one last written to its address, and zero where none was |
| SimMemoryObject.AcceptedIffGiven | sim/unit_test/io_writer.py:508-555 | over every sequence of calls a read or write of a range is accepted exactly when earlier allocations gave out every address of it, and an allocation exactly when its length is not negative |
| SimMemoryObject.TopIsEnd | sim/unit_test/io_writer.py:583-594 | after every sequence of calls the next free address is the one behind the last allocated one, and 0 if there is none |
| OutputPipe.Pipe.ReadExactly | sim/unit_test/io_writer.py:197-228 | for every way the pipe splits its bytes, with empty reads, and whenever the stop event is set: the first n bytes, or None exactly when the event is set; not None if the event waits for the bytes |
| OutputPipe.ReadHostWrite | sim/unit_test/io_writer.py:247-287 | refuses memory that is not allocated before reading data, ignores an empty write, and otherwise puts each byte of the data at its address and changes no other |
| OutputPipe.ReadMessage | sim/unit_test/io_writer.py:332-363 | one message: type, header, data and the rest of the stream, unless the stop event comes first; the data of a host write is at its address afterwards, and nothing else has changed |
| OutputPipe.ReadSimulationOutput | sim/unit_test/io_writer.py:332-363 | messages, final memory and the way the loop ends are a function of the bytes and of what the test does with the memory between messages, however the pipe splits the bytes: the first messages if the stop event comes early, all of them if it waits for the bytes |
| OutputPipe.HostWritesArrive | sim/unit_test/io_writer.py:247-287 | for any bytes, whatever the test does meanwhile and wherever the loop is stopped: in some order of the messages and of what the test does, each in its own order, every host write finds its memory allocated, and an address holds the byte of the last host write or accepted write of the test that covers it, or what it held |
| OutputPipe.HostWriteChecked | sim/unit_test/io_writer.py:260-275 | a host write to memory that is not allocated ends the loop before its data is read, an empty one is passed over, and one whose data does not come leaves the memory alone |
| OutputPipe.UnknownTypeEnds | sim/unit_test/io_writer.py:345-363 | a message of unknown type ends the loop |
| OutputPipe.UpToIsPrefix | sim/unit_test/io_writer.py:332-363 | stopped early, the loop has handled the first messages of those it would have handled |
| OutputPipe.MessagesRoundTrip | sim/unit_test/io_writer.py:230-330 | any messages that were encoded, with host writes to memory allocated when they arrive, are delivered in order with their payloads, whatever follows and whatever the test does meanwhile |
| InputPipe.PipeCarriesAll | sim/unit_test/io_writer.py:429-466 | in every interleaving of producer and writer and every pattern of partial writes and flushes, pipe, buffer, current element and queue hold together what was queued, in order; the pipe carries a prefix of it, all of it once the file was closed, and less if the last flush would have blocked |
| InputPipe.CloseCarriesAllIff | sim/unit_test/io_writer.py:488-489 | closing after the queue was drained carries everything exactly when the pipe takes all that is left in the buffer |
| InputPipe.ElementLost | sim/unit_test/io_writer.py:438-449 | for any element, a run in which it is counted as written and never reaches the pipe |
| InputPipe.StopAbandons | sim/unit_test/io_writer.py:437-449 | the writer can be stopped at any time, and whatever happens then the pipe gets at most what was in the buffer |
| InputPipe.DrainsToTheEnd | sim/unit_test/io_writer.py:452-458 | once the writer drains the queue it never waits for an element again |
| InputPipe.WriterCloses | sim/unit_test/io_writer.py:450-466 | every run in which the done event is set and the writer has neither been stopped nor lost anything goes on, by steps of the writer alone, to a closed file, with everything in the pipe if the pipe takes what is buffered |
| Handshake.AgreementAndBarrier | sw/src/cThread.cpp:980-990 | in every interleaving of the exchange and any number of synchronisations: registered sides hold each other's queue, no side leaves a synchronisation before the other entered it, at most one message is in flight, and no read meets a message of the other kind |
| Handshake.PeersKnowBuffers | sw/src/cThread.cpp:495-499 | in every interleaving the address and the size a side allocated are in its own queue and, once the other side is registered, in what that side knows of it, with every other field as at the start; no side is registered before both have allocated |
| Handshake.NoDeadlock | sw/src/cThread.cpp:1032-1106 | if both sides call for n synchronisations every run has at most 6 + 5n steps, some step is possible after every shorter one, and exactly the runs of that length have both sides through |
| Throttle.QueuedBound | sw/src/cThread.cpp:243-272 | with k threads and separate counters no run has more than 23k commands queued |
| Throttle.StoppedUntilDrained | sw/src/cThread.cpp:244-256 | a thread whose counter is high cannot post, and can after reading the occupancy back exactly if enough commands have been drained |
| Throttle.OneStepEach | sw/src/cThread.cpp:244-272 | a thread has exactly one step to take at any time: read back, write or count |
| Throttle.ProtectsExactlyOne | sw/include/cDefs.hpp:235-236 | that bound is reached for every k, so the FIFO depth is respected in all runs exactly when k is at most 1 |
| Encoding.QpnIsUnique | sw/src/cThread.cpp:175-176 | different (vfid, ctid) give different queue pair numbers, from which both can be read back and which the 16-bit and 24-bit fields do not change |
| Encoding.CommandRoundTrip | sw/src/cThread.cpp:742-764 | the fields of a command come out of its word exactly when each fits its mask |
| Encoding.WordRoundTrip | sw/include/cDefs.hpp:200-217 | a word is that of its fields exactly when its unused bits are zero |
| Encoding.ContextRoundTrip | sw/src/cThread.cpp:910-941 | the fields of the queue pair and connection words, with the four slots of the peer's GID, are recovered exactly when each fits; the two places of the local number agree exactly when it fits 16 bits |
| Encoding.HexRoundTrip | sw/include/cDefs.hpp:333-351 | the zero-filled hexadecimal digits of a number scan back to it |
| Encoding.DigitIff | sw/include/cDefs.hpp:342-342 | the hexadecimal digits that are scanned are those of both cases, and no other character |
| Encoding.HexDigit | sw/include/cDefs.hpp:346-351 | the digits of a number are written most significant first |
| Encoding.Gid.FromUint | sw/include/cDefs.hpp:346-351 | overwrites eight characters in place and no others |
| Encoding.Gid.ToUint | sw/include/cDefs.hpp:333-344 | the four bytes of the result are those of the number whose digits are in the slot, in the opposite order; 0 for an index above 24 |
| Encoding.SlotsReadBack | sw/src/cThread.cpp:170-173 | after any writes to the four slots in any order a slot reads as the last address written to it with its four bytes in the opposite order, or 0 |
| Encoding.AddressesReachRegisters | sw/src/cThread.cpp:937-941 | for a GID after any writes to its slots, each half of the two connection words holds the last address of its slot with its four bytes in the opposite order, or 0 |
| Bitstream.AlignedInside | sw/src/cRcnfg.cpp:76-84 | for every address and length the buffer starts at the first huge page of the mapping, has exactly the pages it needs, and lies inside the mapping with all words of the file |
| Bitstream.LoadWord | sw/src/cRcnfg.cpp:145-149 | four bytes become the word with their big-endian value and nothing else changes |
| Bitstream.ReadBitstream | sw/src/cRcnfg.cpp:132-153 | word i of the buffer is the big-endian value of bytes 4i to 4i+3, for every file length; bytes outside the words are untouched |
| Bitstream.SameBufferIff | sw/src/cRcnfg.cpp:143-149 | two files of equal length leave equal buffers exactly when they agree on all bytes that make whole words |
| Bitstream.RecoverIff | sw/src/cRcnfg.cpp:136-149 | the buffer determines the file exactly when the file is made of whole words and its length fits 32 bits; otherwise another file leaves the same buffer |
| Pages.GuestPages | contrib/vm/driver-guest/guest_mm.c:182-260 | the guest physical address of every page of the range, from the first to the last in order; refused exactly when the end of the range does not fit 64 bits |
| Pages.HugePages | contrib/vm/hypervisor/hypervisor_mmu.c:103-204 | the de-duplication loop makes the stated number of entries, never outside the array, each from the first page of its huge page |
| Pages.AllFilledIff | contrib/vm/hypervisor/hypervisor_mmu.c:174-204 | the loop fills exactly `n_pages_huge` slots if and only if the range starts below the topmost huge page and its last huge page starts within the map cap |
| Pages.CapLosesHugePage | contrib/vm/hypervisor/hypervisor_mmu.c:103-107 | for two aligned huge pages of 2 MB the second slot is counted and never filled |
| Pages.WithinCapAllFilled | contrib/vm/hypervisor/hypervisor_mmu.c:103-107 | every range of at most as many pages as the cap, below the topmost huge page, has all its slots filled |
| Pages.EntryIsInHugePage | contrib/vm/hypervisor/hypervisor_mmu.c:189-204 | entry k comes from the earliest page of the range that lies in its k-th huge page |
| Pages.MapBuffer | contrib/vm/hypervisor/hypervisor_mmu.c:80-204 | guest and hypervisor together: slot k has the host address of a page of the buffer inside its k-th huge page, with the exact condition for all slots to be filled |
| VcidPool.PoolAlwaysPartitioned | contrib/vm/hypervisor/hypervisor_ops.c:203-252 | in every run of create and remove, live and free ids together are exactly 0 to MAX_VMS - 1, free ids are distinct, and an id can be handed out exactly while fewer than MAX_VMS are live |
| VcidPool.Region.constructor | contrib/vm/hypervisor/hypervisor_drv.c:47-58 | the linking loop builds an acyclic list of all ids in order |
| VcidPool.Region.Create | contrib/vm/hypervisor/hypervisor_ops.c:203-209 | hands out an id no live device has and keeps the list acyclic; with all ids live there is none, and the source follows a null pointer |
| VcidPool.Region.Remove | contrib/vm/hypervisor/hypervisor_ops.c:247-252 | puts the id at the front of the list and keeps it acyclic |

## Left out

- Delivery of failure codes to clients: the service always writes code 0 for a completed task; what clients then see is in `Framing.AnnouncedRightIff`.
- ServiceEndToEnd.EndToEnd: the other direction is in `ServiceTimeouts.TimeoutReportsFailure` for a read that gave up and in `Framing.AnnouncedRightIff` for a task that failed; what the client makes of a refusal that falls between the two writes of a response is not stated, because misread bytes can happen to spell out a right answer.
- Service: clients make well-formed requests; unknown functions and bad arguments reach the machine only as bytes misread after a timeout, and any bytes are covered by `Framing.ProcessRequests`.
- Service: a write puts a whole piece on the socket, as a small write to a local socket does; one thread submits on each connection; connections are open from the start, and a close request ends only the request thread and the writes of the responder; fewer than 2^32 ids are drawn on each side (ids themselves wrap to 32 bits).
- Scheduling: a task in the list is never null, since `addTask` refuses null.
- SchedulerObject.CSched.AddTask: the object is not added twice, which the source's `unique_ptr` excludes; the two halves of the call are interleaved with other threads in `Service`, not here.
- ResponseScan.PassesNeeded: the number of passes is for a list whose tasks do not go on finishing; for one entry among others that do it is in `ServiceWaits.BoundedWait`.
- SimMemoryObject.SimulationMemory.Replay: what later calls answer after an allocation without room is left out; that the segments then no longer stand for a memory is in `Allocate`.
- OutputPipe.ReadSimulationOutput: what the test allocates between messages lies after everything allocated; the test uses the memory between messages, as the lock held during a host write has it; the handler of an interrupt is part of that.
- InputPipe.PipeCarriesAll: one producer, which sets the done event after its last element.
- Handshake.NoDeadlock: socket set-up and errors are left out; a read returns a whole message. `closeConn` is not modelled.
- Throttle.QueuedBound: the hardware only drains commands and the register reports the current occupancy; the two register layouts are not told apart.
- Encoding.CommandRoundTrip: the same-node shortcut of RDMA operations and the uninitialised second word of one-sided local commands are not modelled.
- Encoding.Gid.ToUint: a little-endian host; `sscanf` reads digits from the start of the slot and no sign or prefix, which the slots never hold.
- Bitstream.ReadBitstream: the file is read to the end without I/O errors; bitwise or on disjoint bits is addition.
- Pages.HugePages: pinning succeeds, page counts fit an `int`, and the list is the one the guest driver makes for the range; card memory and the mapping of single small pages are left out.
- VcidPool.Region.Create: one region, since the links of all regions go through the first; the counter of free chunks is left out because removal increments another one.
- Service teardown, accepting connections, signals, daemonising, `addFunction`, `getInstance`.
- `cThread::getMem` and `freeMem` bookkeeping, GPU memory, TCP operations, interrupts and user-space event handling.
- The Linux driver outside `contrib/vm`, the simulation's Vivado control and test-bench side, and all hardware sources.
