# Verified model of the network stack's protocol cores

A Dafny model of the parts of the FPGA network stack in which correctness spans several
processes and whole runs: the RoCEv2 reliable transport, the cuckoo hash table, the
ones'-complement checksum pipeline, the byte stream re-aligners and the TCP engine's
event credits. `dafny verify dfyconfig.toml` checks everything.

## How the model is built

A hardware process is a function from state to state and, beside it, a method of a class
that updates the same registers, tables and FIFOs in place; the method's postcondition
equates the class's `Contents()` with the function. The theorems are about the functions.
FIFOs are sequences. A scheduler may call any process next and the environment may offer
input at any time, so every theorem about a run is about all interleavings (`Run` over an
arbitrary list of actions). Files named `...Process.dfy` hold the classes, `...Proof.dfy`
and `...Theorems.dfy` the invariants and results.

| component | files |
|---|---|
| queues in one shared pool | LinkedPool, Retransmitter\*, MultiQueue\* |
| reliable transport | InfiniBand, RequestPath\*, ReceivePath\*, StateHistory, PsnWindow, DropFlags, AcceptedPrefix, TwoNodes, Resumption, ReliableSender, ClosedLoop\*, TimelyAnswers, ReadAddresses, DuplicateAckRun |
| RDMA READ | ReadTransfer, ReadProcess |
| cuckoo hash table | Tabulation\*, HashTable\* |
| checksums | OnesComplement, LaneChecksum, Ipv4Checksum, ChecksumProcess |
| byte streams | AxiStream, Realign, Shifters, Headers, Encapsulation\*, WidthConverter\*, RingRead\* |
| event credits and delayed acknowledgements | AckCredits\* |

**Queues in one shared pool.** The retransmitter and the multi queue keep linked lists in
one node array behind three server processes. The client's view of the memory is what the
tables hold once every queued write is served; the invariant speaks about that view and
about what may be in each FIFO. From it: the processes refine a plain map of lists, every
index is in exactly one place, the lock is never contended.

**Reliable transport.** PSNs carry ghost unbounded numbers. The sender's run puts requests
on the wire numbered by their predecessors; the channel delivers any copy of any packet at
any time; the receiver judges one packet at a time although state table, transmit and
receive path interleave. `TwoNodes` takes what is sent again as an input and says what it
must be; `ReliableSender` wires in the retransmitter and replaces that assumption by one on
the partial updates it gets, which `Resumption.WholeIff` shows to be exact. `ClosedLoop`
feeds it with its own receive path's updates and NAKs; `TimelyAnswers` then derives the
assumption from the packets that arrive, and `DuplicateAckRun` is the run in which one
packet breaks it.

**Streams.** A word is bytes, keep bits and a last flag. Each stage has a meaning on byte
sequences, and each result is for packets back to back.

## What the code does that one may not expect

- A NAK for a PSN that is not on a non-empty retransmission list blocks the retransmitter
  for good: the tail branch sets MAIN, and the mismatch branch below it sets RETRANS_1
  again (`RetransmitterProgress.NakBlocksIff`; a run in `RetransmitterRuns.NakBlocks`).
- Any ACK releases a list head, in the window or not: the window test guards the state table
  only. When an ACK arrives a second time in the middle of a read, the rest of the read's
  responses advance the entry behind it, and a timeout then sends a request nobody made, for
  the PSN the receiver expects, which accepts it (`DuplicateAckRun.DuplicateBreaksDelivery`,
  a run of both nodes from power-up). If ACKs are in turn this cannot happen
  (`TimelyAnswers.ClosedLoopDelivers`).
- A read request that comes out of sequence leaves a drop flag behind although it has no
  payload. From then on every payload meets the flag of the packet before it, and a write
  that was accepted loses its data (`DropFlags.FlagsMatchIff`, a run in `WriteIsDropped`).
- A FIRST or ONLY read response that is a NAK takes a local address without having asked for
  one, so the reads behind it get each other's (`ReadAddresses.TakersMatchIff`).
- A request that is sent again does not ask for an acknowledgement
  (`RequestPathTheorems.WireInRun`).
- The ACK window test accepts every PSN when nothing is outstanding
  (`PsnWindow.AckTestExactIff`).
- A submitted opcode that yields no packet still queues its addresses, so from then on
  retransmission entries get the wrong addresses (`RequestPathTheorems.UnsupportedShifts`,
  exact condition in `PairsIffSupported`).
- `rx_ibh_fsm` has a branch that answers an invalid response with a NAK. The state table
  always reports retry counter 0 for responses, so it is never taken
  (`ReceivePathTheorems.NakIff`). The counter is three bits wide: the 0xF written at
  connection setup is 7.
- A failed cuckoo insert may give up an older pair than the one being inserted
  (`HashTableLoss.OlderPairLost`, with tabulation words for every table size).
- The first packet of a write is sent and received with one PMTU as its length, whatever the
  length of the write (`ReadTransfer.LengthsAgreeIff`).
- `event_engine`'s second guard counts unread write tickets, so a timer event can be
  admitted while an event is still beyond `ack_delay` (`AckCredits.AdmitsWhileBusy`).
- The receive header FSMs guess from the bus width whether the word a header ends in also
  holds payload. UDP is right iff the bus is wider than the header or divides it, the BTH
  iff its 12 bytes end inside a word; all bus widths in use qualify
  (`Encapsulation.BusWidths`).
- `lshiftWordByOctet` fills prefix keep bits from a 32-bit literal: right iff the offset is
  at most 32 (`Shifters.FrontIsWholeIff`).

## Model

| member | source | states |
|---|---|---|
| RetransmitterTheorems.RefinesMap | hls/ib_transport_protocol/retransmitter/retransmitter.hpp:284-541 | in every run, whenever the client is idle, lists and outputs are what the accepted requests give one by one on a plain map from QP to entries: insert appends, a completing ACK removes the head, a partial read response advances it, a NAK emits the suffix from its PSN, a timeout the whole list |
| RetransmitterInits.InitsInRun | hls/ib_transport_protocol/retransmitter/retransmitter.hpp:402-448 | in every run, with the client idle, the local addresses written are those of the list heads met by FIRST or ONLY responses, in order, and no others; the lists are spelled out opcode by opcode and field by field |
| RetransmitterTheorems.AcceptsInOrder | hls/ib_transport_protocol/retransmitter/retransmitter.hpp:314-345 | each input is a FIFO: what was accepted followed by what waits is what was offered |
| RetransmitterTheorems.AnswersAreCurrent | hls/ib_transport_protocol/retransmitter/retransmitter.hpp:186-281 | the pointer table never parks a request, every answer shows all updates queued before it, no list entry is ever answered as invalid |
| RetransmitterTheorems.PoolConserved | hls/ib_transport_protocol/retransmitter/retransmitter.hpp:337-448 | in every reachable state each index is in exactly one place, lists are acyclic, disjoint and end at their tails, the free FIFO has room for every release |
| LinkedPool.FreeListHasRoom | hls/ib_transport_protocol/retransmitter/retransmitter.hpp:543-563 | the free list never exceeds the table, so the unguarded write of a released index cannot block |
| LinkedPool.PointerTableKeeps | hls/ib_transport_protocol/retransmitter/retransmitter.hpp:186-245 | serving the pointer table changes neither the client's view nor the protocol invariant |
| LinkedPool.NodeTableKeeps | hls/ib_transport_protocol/retransmitter/retransmitter.hpp:247-281 | the same for the node table |
| LinkedPool.PushFirst | hls/ib_transport_protocol/retransmitter/retransmitter.hpp:346-362 | a push on an empty queue makes it a singleton, other queues and all links untouched |
| LinkedPool.PushLink | hls/ib_transport_protocol/retransmitter/retransmitter.hpp:363-378 | a push behind a tail appends one value, with the node write still in hand |
| LinkedPool.PopHead | hls/ib_transport_protocol/retransmitter/retransmitter.hpp:432-446 | releasing the head removes exactly the first value and moves its index to the release FIFO |
| LinkedPool.RewriteHead | hls/ib_transport_protocol/retransmitter/retransmitter.hpp:411-431 | rewriting the head in place changes that value only |
| RetransmitterProof.StepKeeps | hls/ib_transport_protocol/retransmitter/retransmitter.hpp:284-617 | every process step and every offered request keeps the refinement |
| RetransmitterProgress.FinishesIff | hls/ib_transport_protocol/retransmitter/retransmitter.hpp:450-539 | a request in progress ends within a bounded number of fair stretches of any schedule, with anything offered in between, iff it is not a NAK whose PSN is missing from the rest of its list; in that case no schedule ends it |
| RetransmitterProgress.NakBlocksIff | hls/ib_transport_protocol/retransmitter/retransmitter.hpp:465-502 | in every reachable state, a NAK about to be taken blocks the process under every schedule and whatever is offered later iff the list is non-empty and does not hold the PSN; otherwise every fair schedule ends it |
| RetransmitterProgress.StepAdvances | hls/ib_transport_protocol/retransmitter/retransmitter.hpp:284-617 | any step of any process or input ends the request in progress, brings it strictly nearer to its end, or leaves it as it was because it was not the turn of the one process it needs |
| RetransmitterRuns.NakBlocks | hls/ib_transport_protocol/retransmitter/retransmitter.hpp:473-500 | from power-up, one request and a NAK for another PSN lead into a state no schedule and no input leaves |
| RetransmitterRuns.Play | hls/ib_transport_protocol/retransmitter/retransmitter.hpp:566-617 | every log of requests that has room for its inserts and no blocking NAK is the log of a run from power-up |
| RetransmitterRuns.EmitsForeign | hls/ib_transport_protocol/retransmitter/retransmitter.hpp:402-448 | a run in which an old ACK comes again between two responses of a read and the retransmitter then emits a write of almost 2^32 bytes that is no request it was given, from whatever PSN on |
| RetransmitterProcess.Processes.constructor | hls/ib_transport_protocol/retransmitter/retransmitter.hpp:566-617 | tables cleared, FIFOs empty, nothing issued |
| RetransmitterProcess.Processes.FreelistHandler | hls/ib_transport_protocol/retransmitter/retransmitter.hpp:543-563 | one call is the free list step |
| RetransmitterProcess.Processes.RetransPointerTable | hls/ib_transport_protocol/retransmitter/retransmitter.hpp:186-245 | one call, on the table in place, is the pointer table step |
| RetransmitterProcess.Processes.RetransMetaTable | hls/ib_transport_protocol/retransmitter/retransmitter.hpp:247-281 | one call, on the table in place, is the node table step |
| RetransmitterProcess.Processes.Process | hls/ib_transport_protocol/retransmitter/retransmitter.hpp:284-541 | one call is the client step, whatever its state |
| RetransmitterProcess.Processes.Execute | hls/ib_transport_protocol/retransmitter/retransmitter.hpp:566-617 | any schedule from power-up stays inside the tables and ends in the state the theorems are about |
| MultiQueueProof.RefinesQueues | hls/ib_transport_protocol/multi_queue/multi_queue.hpp:240-528 | in every run, whenever the client is idle, contents and answers are what the accepted pushes, pops and fronts give on plain queues |
| MultiQueueProof.QueuesInRun | hls/ib_transport_protocol/multi_queue/multi_queue.hpp:240-528 | what was popped from a queue followed by its contents is what was pushed to it, and each answer is the oldest value of its queue: the queues are independent and first in first out |
| MultiQueueProof.FirstInFirstOut | hls/ib_transport_protocol/multi_queue/multi_queue.hpp:306-343 | on plain queues: taken plus remaining is pushed, for each queue by itself |
| MultiQueueProof.AnswersAreHeads | hls/ib_transport_protocol/multi_queue/multi_queue.hpp:481-517 | a pop or front of an empty queue is not answered, any other with the head |
| MultiQueueProof.AcceptsInOrder | hls/ib_transport_protocol/multi_queue/multi_queue.hpp:273-305 | both inputs are FIFOs although pushes have priority |
| MultiQueueProof.AnswersAreCurrent | hls/ib_transport_protocol/multi_queue/multi_queue.hpp:119-237 | the pointer table never parks a request and no node is answered as invalid, pops taking no lock |
| MultiQueueProof.PoolConserved | hls/ib_transport_protocol/multi_queue/multi_queue.hpp:180-198 | each index is in exactly one place, a released one always finds room |
| MultiQueueProof.StepKeeps | hls/ib_transport_protocol/multi_queue/multi_queue.hpp:119-528 | every step of every process keeps the refinement |
| MultiQueueProcess.Processes.ServePointerTable | hls/ib_transport_protocol/multi_queue/multi_queue.hpp:119-177 | one call, in place, is the pointer table step |
| MultiQueueProcess.Processes.ServeMetaTable | hls/ib_transport_protocol/multi_queue/multi_queue.hpp:201-237 | one call, in place, is the node table step |
| MultiQueueProcess.Processes.ProcessPush | hls/ib_transport_protocol/multi_queue/multi_queue.hpp:306-335 | one call in STATE_PUSH is its step |
| MultiQueueProcess.Processes.ProcessPop2 | hls/ib_transport_protocol/multi_queue/multi_queue.hpp:498-517 | one call in STATE_POP_2 is its step |
| MultiQueueProcess.Processes.Execute | hls/ib_transport_protocol/multi_queue/multi_queue.hpp:531-576 | any schedule from power-up stays inside the tables and refines plain queues |
| TwoNodes.AcceptedArePrefix | hls/ib_transport_protocol/ib_transport_protocol.cpp:308-537 | over a channel that drops, duplicates and reorders, the requests accepted as new are in every reachable state a prefix of those submitted, if retransmissions on the QP resume requests and none judged was 2^24 or more PSNs from the expected one |
| TwoNodes.FewAreAcceptedInOrder | hls/ib_transport_protocol/ib_transport_protocol.cpp:308-537 | with fewer than 2^24 PSNs submitted on the QP the distance bound always holds |
| TwoNodes.AcceptedIffCongruent | hls/ib_transport_protocol/ib_transport_protocol.cpp:390-416 | with neither assumption: a packet is accepted as new iff its PSN, and so the unbounded number of the request part it stands for, agrees with the expected number modulo 2^24 |
| AcceptedPrefix.FewStayNear | hls/ib_transport_protocol/ib_transport_protocol.cpp:1694-1710 | with fewer than 2^24 PSNs no request judged is ever 2^24 from the expected one, by induction with the prefix property itself |
| AcceptedPrefix.AcceptsIffPsn | hls/ib_transport_protocol/ib_transport_protocol.cpp:390-416 | the same for any sequence of judgements a run can end with |
| AcceptedPrefix.AcceptsPrefix | hls/ib_transport_protocol/ib_transport_protocol.cpp:405-416 | exact numbers force the accepted requests to be an initial segment, multi-PSN reads and partial retransmissions included |
| RequestPathTheorems.WireInRun | hls/ib_transport_protocol/ib_transport_protocol.cpp:1534-1726 | in every run new requests leave in order, none skipped, numbered from the QP's start by their predecessors' PSNs, asking for an ACK; the rest of the wire is the retransmitter's events, ACKs and read responses, each the whole packet as it was offered, ACKs and read responses each in order and none skipped |
| RequestPathReplies.AckPsns | hls/ib_transport_protocol/ib_transport_protocol.cpp:1700-1704 | an ACK offered with a PSN carries it; any other carries the PSN before the one its QP expected at a moment of the run |
| RequestPathRuns.SentIff | hls/ib_transport_protocol/ib_transport_protocol.cpp:1269-1310 | a request puts one packet on the wire and one entry into the retransmitter iff its opcode is one of nine, otherwise none |
| RequestPathRuns.SetsUp | hls/ib_transport_protocol/state_table.hpp:186-205 | the row connection setup leaves, field by field, every other row unchanged |
| RequestPathTheorems.LedgerIsPrefix | hls/ib_transport_protocol/ib_transport_protocol.cpp:1580-1603 | the requests numbered so far are a prefix of the supported ones submitted, with their cumulative numbers |
| RequestPathTheorems.EntriesInRun | hls/ib_transport_protocol/ib_transport_protocol.cpp:2486-2503 | in every run entry i has QP, opcode and PSN of the i-th supported request and addresses of the i-th submitted one |
| RequestPathTheorems.EntriesPair | hls/ib_transport_protocol/ib_transport_protocol.cpp:1218-1311 | with supported opcodes only, every entry has its own request's addresses, length and PSN, under any mix of ACKs, read responses and retransmissions whatever |
| RequestPathTheorems.EntryIsOwnIff | hls/ib_transport_protocol/ib_transport_protocol.cpp:1307-1310 | entry i is its own request's iff the i-th submitted and the i-th supported request have the same addresses |
| RequestPathTheorems.PairsIffSupported | hls/ib_transport_protocol/ib_transport_protocol.cpp:1300-1310 | for requests that differ in their addresses: entry i is its own request's iff none of the first i + 1 had an unsupported opcode |
| RequestPathTheorems.UnsupportedShifts | hls/ib_transport_protocol/ib_transport_protocol.cpp:1300-1310 | the run in which an unsupported opcode gives the next request's entry the wrong addresses |
| RequestPathTheorems.TakenInOrder | hls/ib_transport_protocol/ib_transport_protocol.cpp:1218-1311 | local requests are taken in the order submitted |
| RequestPathProof.StepKeeps | hls/ib_transport_protocol/ib_transport_protocol.cpp:1534-1726 | every step of every process keeps the transmit invariant: shadows of all FIFOs, order of new requests, pairing, next PSN modulo 2^24 through pending writes |
| Resumption.ListsAreStored | hls/ib_transport_protocol/retransmitter/retransmitter.hpp:402-448 | after any log, each entry on a list is an inserted request advanced as often as partial updates met it at the head |
| Resumption.WholeIff | hls/ib_transport_protocol/retransmitter/retransmitter.hpp:411-431 | every entry ever on a list is its request from one of its own PSNs on iff every insert took up a PSN and every partial update met a read that expected more than one more page |
| Resumption.EmittedContinue | hls/ib_transport_protocol/retransmitter/retransmitter.hpp:450-539 | in every run of the four processes in which that holds for the queue, each event emitted is a request offered, from one of its own PSNs on |
| ReliableSender.HandOversHold | hls/ib_transport_protocol/ib_transport_protocol.cpp:2855-3092 | with the transmit path and the retransmitter wired together, what one is given is a prefix of what the other made, in both directions |
| ReliableSender.SenderResumes | hls/ib_transport_protocol/ib_transport_protocol.cpp:2486-2503 | then everything sent again resumes a request, under the condition on partial updates alone: under any schedule and any acknowledgements, NAKs and timeouts |
| ReliableSender.DeliversInOrder | hls/ib_transport_protocol/ib_transport_protocol.cpp:308-537 | two-node safety of the wired sender over a channel that drops, duplicates and reorders: accepted requests are a prefix of those submitted, while partial updates are timely and fewer than 2^24 PSNs have been submitted |
| ClosedLoop.TakesWhatIsReceived | hls/ib_transport_protocol/ib_transport_protocol.cpp:418-424 | with the loop closed, in every run the updates and NAKs the retransmitter has taken are a prefix of those the packets judged so far call for, in their order |
| TimelyAnswers.UnackIs | hls/ib_transport_protocol/state_table.hpp:141-168 | while responses are in turn, the oldest PSN not acknowledged is ahead of the first by the number of updates written |
| TimelyAnswers.FittingIsTimely | hls/ib_transport_protocol/retransmitter/retransmitter.hpp:402-448 | if the updates of a queue fit the PSNs and none is taken before its request, its list covers without a gap the PSNs from the one expected next to the last inserted, and every partial update is timely |
| TimelyAnswers.AnswersAreTimely | hls/ib_transport_protocol/ib_transport_protocol.cpp:393-424 | in every run of the closed system in which responses fit the PSNs they carry and each ACK is for the oldest PSN not acknowledged, partial updates are timely |
| TimelyAnswers.ClosedLoopDelivers | hls/ib_transport_protocol/ib_transport_protocol.cpp:308-537 | two-node safety with nothing assumed about the retransmitter: under those conditions on the packets, whatever the channel does, accepted requests are a prefix of those submitted |
| ReadAddresses.TakersMatchIff | hls/ib_transport_protocol/ib_transport_protocol.cpp:637-660 | the FIRST and ONLY headers passed on are those for which an address was asked, one for one, iff none of them is a NAK |
| ReadAddresses.AddressesAreOwn | hls/ib_transport_protocol/ib_transport_protocol.cpp:644-660 | then, in every run of the closed system in which no update overtakes its request, the i-th address is for the i-th such header: that of the request whose PSN it carries, moved on to that PSN, with its last flag |
| DuplicateAckRun.DuplicateBreaksDelivery | hls/ib_transport_protocol/ib_transport_protocol.cpp:405-424 | a run of both nodes from power-up, for every initial PSN, that meets all these conditions except that one ACK arrives twice: four requests are accepted, three were submitted |
| Resumption.AdvancedModulo | hls/ib_transport_protocol/retransmitter/retransmitter.hpp:418-426 | k advances add k PSNs and k PMTUs whatever wraps on the way |
| ReceivePathTheorems.JudgedInOrder | hls/ib_transport_protocol/ib_transport_protocol.cpp:350-386 | packets are judged in order of arrival, none lost, none twice |
| ReceivePathTheorems.JudgedSequentially | hls/ib_transport_protocol/state_table.hpp:140-207 | however the three users of the state table interleave, each packet is judged against exactly the state its predecessors left |
| ReceivePathTheorems.NakIff | hls/ib_transport_protocol/ib_transport_protocol.cpp:505-530 | a request is refused, and a NAK event for the expected PSN written, iff it is out of sequence and no NAK of its QP is pending; a response never causes an event |
| ReceivePathTheorems.NakOncePerGap | hls/ib_transport_protocol/ib_transport_protocol.cpp:509-528 | between two NAKs for requests of a QP an in-order request was accepted |
| ReceivePathTheorems.StateAfter | hls/ib_transport_protocol/state_table.hpp:141-168 | one judgement changes the row exactly as its verdict says: epsn moves on acceptance only, the retry counter tells accepted, NAKed or neither |
| ReceivePathOutputs.RowsRemember | hls/ib_transport_protocol/state_table.hpp:141-168 | in every run a row holds the PSN expected, whether a refusal is pending and the oldest PSN not acknowledged, as told from the places of the packets on the PSN circle alone |
| ReceivePathOutputs.OutputsInRun | hls/ib_transport_protocol/ib_transport_protocol.cpp:393-528 | in every run headers, drop flags, policies, ACK and NAK events, updates, completions and timer clears are what each packet calls for by its opcode and place: a NAK for the PSN expected once per refusal, an ACK for a write sent again, nothing else |
| DropFlags.FlagsMatchIff | hls/ib_transport_protocol/ib_transport_protocol.cpp:507-512 | in every run each payload meets its own drop flag iff no read request came out of sequence |
| DropFlags.WriteIsDropped | hls/ib_transport_protocol/ib_transport_protocol.cpp:507-512 | the run in which a write is accepted and passed on, and its payload meets the flag of an early read request |
| DropFlags.PoliciesMatch | hls/ib_transport_protocol/ib_transport_protocol.cpp:2355-2373 | in every run there is one policy per packet, and the headers passed on are those of the packets whose policy lets them pass |
| PsnWindow.DuplicateTestExact | hls/ib_transport_protocol/ib_transport_protocol.cpp:443-446 | the four-way comparison is membership in the cyclic interval [oldest, epsn) |
| PsnWindow.AckTestCyclic | hls/ib_transport_protocol/ib_transport_protocol.cpp:411-414 | the ACK comparison is membership in the cyclic interval [epsn, max_forward] |
| PsnWindow.AckTestExactIff | hls/ib_transport_protocol/state_table.hpp:160-168 | it means "sent and not acknowledged" for every PSN iff something is outstanding; otherwise it accepts all |
| RequestPathProcess.Processes.HandleLocalReq | hls/ib_transport_protocol/ib_transport_protocol.cpp:1218-1311 | one call is its step |
| RequestPathProcess.Processes.MergeMeta | hls/ib_transport_protocol/ib_transport_protocol.cpp:1534-1603 | one call is its step: ACKs, then read responses, then local requests |
| RequestPathProcess.Processes.GenerateIbh | hls/ib_transport_protocol/ib_transport_protocol.cpp:1657-1726 | one call in either state is its step |
| RequestPathProcess.Processes.MergeRetransRequest | hls/ib_transport_protocol/ib_transport_protocol.cpp:2486-2503 | one call is its step |
| RequestPathProcess.Processes.RxIbhFsm | hls/ib_transport_protocol/ib_transport_protocol.cpp:308-537 | one call in either state is its step |
| RequestPathProcess.Processes.WriteOutputs | hls/ib_transport_protocol/ib_transport_protocol.cpp:393-528 | the branches write exactly the headers, drop flags, policies, events, updates, completions and timer clears the verdict calls for |
| RequestPathProcess.Processes.ServeStateTable | hls/ib_transport_protocol/state_table.hpp:141-205 | one call, on the table in place, is its step, receive path first |
| RequestPathProcess.Processes.Execute | hls/ib_transport_protocol/ib_transport_protocol.cpp:2855-3060 | any schedule stays inside the state table and keeps both paths' invariants |
| ReadTransfer.ResponsesAre | hls/ib_transport_protocol/ib_transport_protocol.cpp:1031-1116 | a read of any length gets one response per PMTU begun, ONLY or FIRST MIDDLE\* LAST, consecutive PSNs, addresses and lengths tiling the request |
| ReadTransfer.CountIsNumPkg | hls/ib_transport_protocol/ib_transport_protocol.cpp:1586-1590 | both ends count the same PSNs for every non-zero length |
| ReadTransfer.LengthsAgreeIff | hls/ib_transport_protocol/ib_transport_protocol.cpp:1870-1981 | for every opcode with a payload the length subtracted out on receive is the one added up on sending iff the packet fits the 16-bit UDP length, or wraps 32 bits; of a write's first packet it is always one PMTU |
| ReadTransfer.ReadCopies | hls/ib_transport_protocol/ib_transport_protocol.cpp:787-850 | a read copies exactly [vaddr, vaddr + L) to [laddr, laddr + L) and nothing else, one write command per response, the last flag on the last only |
| ReadTransfer.ReceivesInPlace | hls/ib_transport_protocol/msn_table.hpp:114-128 | after k responses exactly their bytes are in place, and the row holds the address, last length and flag that arithmetic gives |
| ReadTransfer.AdvancedEntry | hls/ib_transport_protocol/retransmitter/retransmitter.hpp:411-431 | after k responses the list head is psn + k, both addresses + k PMTU, length - k PMTU |
| ReadTransfer.ResumesExactly | hls/ib_transport_protocol/retransmitter/retransmitter.hpp:411-431 | re-issued, it asks for precisely the missing bytes and PSNs |
| ReadTransfer.ResumeCompletes | hls/ib_transport_protocol/ib_transport_protocol.cpp:1069-1112 | interrupted after k responses and resumed, a read leaves the same memory as an uninterrupted one |
| ReadProcess.ReadHandler.Serve | hls/ib_transport_protocol/ib_transport_protocol.cpp:1054-1115 | called until idle, the handler sends exactly the specified responses |
| ReadProcess.DmaTable.OnReadResponse | hls/ib_transport_protocol/ib_transport_protocol.cpp:787-850 | a read response writes the command and the table row of the specification, in place |
| HashTableProof.InsertConserves | hls/hash_table/hash_table.cpp:93-165 | for any count of entries: table plus carried entry is conserved across all evictions, and every entry stays where its own hash puts it |
| HashTableProof.FailedInsertLosesOne | hls/hash_table/hash_table.cpp:151-164 | a failed insert of an absent key leaves old map plus new pair minus exactly one pair |
| HashTableProof.LostWasThere | hls/hash_table/hash_table.cpp:93-165 | the pair given up was stored before or is the new one |
| HashTableProof.InsertSucceedsIff | hls/hash_table/hash_table.cpp:107-150 | an insert succeeds iff within eleven evictions it comes to carry an entry one of whose nine slots is free; which entry is evicted is told by hash, turn and alternating bit |
| HashTableLoss.OlderPairLost | hls/hash_table/hash_table.cpp:113-164 | a run from the empty table, for every width of the addresses: nine inserts fill the slots, the tenth fails, its own pair stays and an older one is lost |
| HashTableLoss.CrowdIsTabulated | hls/hash_table/hash_table.cpp:37-54 | the hashes of that run are those of concrete tabulation words |
| HashTableLoss.GivesUpOlder | hls/hash_table/hash_table.cpp:133-150 | with hashes that crowd all keys into the same slots, any insert into full slots ends so |
| HashTableProof.DistinctIffAbsent | hls/hash_table/hash_table.cpp:93-165 | a successful insert keeps keys distinct iff the key was absent |
| HashTableProof.LookupIff | hls/hash_table/hash_table.cpp:57-89 | a lookup hits iff the key is stored, with a value stored under it |
| HashTableProof.RemoveExact | hls/hash_table/hash_table.cpp:168-197 | a remove takes out every entry of the key and nothing else |
| HashTableProof.RunAgrees | hls/hash_table/hash_table.cpp:200-234 | in every run inserting absent keys the table holds exactly the map's pairs, as many as successful inserts minus successful removes |
| HashTableProof.RepliesAreTheMaps | hls/hash_table/hash_table.cpp:200-234 | every lookup and remove is answered as the map answers |
| HashTableProof.LookupsArePlain | hls/hash_table/hash_table.cpp:57-89 | with no failed insert, as the plain map of the operations answers |
| HashTableProcess.CalculateHash | hls/hash_table/hash_table.cpp:37-54 | the exclusive-or loop computes the tabulation hash |
| TabulationProof.HashBits | hls/hash_table/hash_table.cpp:41-53 | each bit of the hash is the parity of the words the 64 key bits select, taken from the words themselves |
| TabulationProof.FlipChanges | hls/hash_table/hash_table.cpp:46-51 | flipping one key bit changes the hash by exactly the exclusive or of the two words for that bit |
| HashTableProcess.CuckooTable.Lookup | hls/hash_table/hash_table.cpp:57-89 | the loops over nine tables compute the specified lookup |
| HashTableProcess.CuckooTable.TryInsert | hls/hash_table/hash_table.cpp:107-150 | one turn of the insert loop, on the tables in place, is one trial |
| HashTableProcess.CuckooTable.Insert | hls/hash_table/hash_table.cpp:93-165 | the bounded loop is the specified insert, failure counters included |
| HashTableProcess.CuckooTable.Remove | hls/hash_table/hash_table.cpp:168-197 | in place, the specified remove and its reply |
| HashTableProcess.CuckooTable.HashTableCore | hls/hash_table/hash_table.cpp:200-234 | one call serves one request, lookups first |
| HashTableProcess.CuckooTable.Execute | hls/hash_table/hash_table.cpp:200-234 | any sequence of operations ends agreeing with the map |
| OnesComplement.FoldAdds | hls/toe/two_complement_subchecksums.hpp:53-62 | folded registers add up to the register of the sum without overflowing 17 bits, and a non-zero sum never folds to 0 |
| LaneChecksum.LanesHoldTotals | hls/toe/two_complement_subchecksums.hpp:40-75 | over a packet of any length each lane is its total, folded |
| LaneChecksum.ReduceIsOnes | hls/ipv4/ipv4.hpp:482-532 | the tree folds the lanes to the register of their sum, for 4, 8, 16 and 32 lanes |
| LaneChecksum.LanesComputeChecksum | hls/ipv4/ipv4.hpp:482-532 | lanes and tree give the checksum of section 1 of RFC 1071, odd last byte included |
| LaneChecksum.CheckIff | hls/ipv4/ipv4.hpp:370-420 | the check succeeds iff all words sum to a positive multiple of 65535 |
| LaneChecksum.StagePackets | hls/toe/two_complement_subchecksums.hpp:64-72 | packets back to back get their own sums each, registers clear in between |
| Ipv4Checksum.ChecksumIsRfc791 | hls/ipv4/ipv4_utils.cpp:474-523 | the header lanes give the checksum of section 3.1 of RFC 791 |
| Ipv4Checksum.RoundTrip | hls/ipv4/ipv4.hpp:538-589 | the inserted checksum passes the receive check iff the header reaches the field or already sums to all ones without it; every IHL from 5 to 15 does |
| Ipv4Checksum.InsertPackets | hls/mac_ip_encode/mac_ip_encode.cpp:75-134 | packets back to back: packet i leaves with checksum i in bytes 10 and 11 and nothing else changed, on any bus width |
| ChecksumProcess.SubChecksums.Step | hls/toe/two_complement_subchecksums.hpp:33-76 | one call adds a word to the lanes in place and at the last word sends and clears them |
| ChecksumProcess.SubChecksums.Drain | hls/toe/two_complement_subchecksums.hpp:33-76 | run over everything that waits it is the stage of the theorems |
| ChecksumProcess.FoldUpper | hls/ipv4/ipv4.hpp:378-412 | one folding loop, in place |
| ChecksumProcess.FinalizeIpv4Checksum | hls/ipv4/ipv4.hpp:482-532 | the folding loops compute the specified tree |
| ChecksumProcess.CheckIpv4Checksum | hls/ipv4/ipv4.hpp:370-420 | the same loops decide whether the folded sum is all ones |
| ChecksumProcess.HeaderChecksum.Step | hls/ipv4/ipv4_utils.cpp:526-576 | the first word of each packet sends its header's lane sums, registers clear for the next packet |
| ChecksumProcess.ChecksumInserter.Step | hls/mac_ip_encode/mac_ip_encode.cpp:75-134 | one call is one insertion step, waiting for the checksum at a first word |
| Realign.MergedIs | hls/toe/toe.cpp:196-260 | words joined to held-back bytes come out as one well-formed packet of those bytes followed by the packet's |
| Shifters.LeftShifts | hls/axi_utils.hpp:564-631 | a packet comes out with offset bytes in front, well-formed, the shifter ready again |
| Shifters.FrontIsWholeIff | hls/axi_utils.hpp:603-608 | the first word's keep bits are contiguous iff the offset is at most 32 |
| Shifters.RightShifts | hls/axi_utils.hpp:488-560 | a packet longer than the offset comes out without its first bytes, well-formed, the shifter ready again |
| Headers.EncapsulatedIs | hls/udp/udp.cpp:81-149 | left shift and header FSM together emit header bytes, then payload bytes, in one well-formed packet |
| Headers.Generates | hls/udp/udp.cpp:92-149 | the header FSM emits the header's words, the partial one laid over the shifted payload, and is back in META |
| Headers.Strips | hls/udp/udp.cpp:30-78 | the parsing FSM collects the header, passes the rest on, or drops the packet if it is not accepted, and is ready again |
| Headers.PassedOnIff | hls/udp/udp.cpp:47-66 | what is passed on is the packet from the word the header ends in, iff the width guess is right |
| Encapsulation.RoundTrip | hls/packet.hpp:53-89 | packets back to back through shift, generator, parser and shift: every header and every payload comes back |
| Encapsulation.UdpRoundTrip | hls/udp/udp.cpp:30-149 | datagrams to the listen port come back with ports, length and payload |
| Encapsulation.UdpLayout | hls/udp/udp.hpp:80-110 | where ports and length lie in the eight bytes, and that the checksum is zero |
| Encapsulation.UdpWidthIff | hls/udp/udp.cpp:47-66 | the UDP receiver keeps all payload iff the bus is wider than 8 bytes or divides 8 |
| Encapsulation.BthRoundTrip | hls/ib_transport_protocol/ib_transport_protocol.cpp:73-108 | the same round trip for the 12-byte BTH |
| Encapsulation.BthWidthIff | hls/ib_transport_protocol/ib_transport_protocol.cpp:78-98 | it holds iff the BTH ends inside a word |
| Encapsulation.BusWidths | hls/axi_utils.hpp:564-567 | 64, 128, 256 and 512-bit buses meet both conditions |
| EncapsulationProcess.PacketHeader.ParseWord | hls/packet.hpp:53-75 | one word goes to its place in the header, in place |
| EncapsulationProcess.PacketHeader.ConsumeWord | hls/packet.hpp:76-89 | the next header bytes are laid into the word, and the result says how many are left |
| EncapsulationProcess.LeftShifter.Step | hls/axi_utils.hpp:564-631 | one call is one step of the left shifter |
| EncapsulationProcess.LeftShifter.Drain | hls/axi_utils.hpp:564-631 | run over everything that waits it is the shifter of the theorems |
| EncapsulationProcess.RightShifter.Step | hls/axi_utils.hpp:488-560 | one call is one step of the right shifter |
| EncapsulationProcess.RightShifter.Drain | hls/axi_utils.hpp:488-560 | run over everything that waits it is the shifter of the theorems |
| EncapsulationProcess.ProcessUdp.Step | hls/udp/udp.cpp:30-78 | one call is one word of the stripper with the listen-port test |
| EncapsulationProcess.ProcessUdp.Drain | hls/udp/udp.cpp:30-78 | run over everything that waits it is the stripper of the theorems |
| EncapsulationProcess.HeaderGenerator.StepHeader | hls/udp/udp.cpp:104-121 | one call in HEADER is its step, for headers of several words |
| EncapsulationProcess.HeaderGenerator.StepWord | hls/udp/udp.cpp:122-147 | one call in PARTIAL_HEADER or BODY is its step |
| EncapsulationProcess.HeaderGenerator.SendPacket | hls/udp/udp.cpp:81-149 | run over one packet it sends the header's words and then the packet with the rest of the header laid over its first word |
| WidthConverter.WidenNarrow | hls/axi_utils.hpp:315-406 | widening and narrowing by the same factor gives back the very same words for packets back to back, and the widener is in its initial state after each packet; the two drains below tie it to the stages |
| WidthConverter.CutsBack | hls/axi_utils.hpp:315-406 | a collected wide word is cut into exactly the words it was made of |
| WidthConverterProcess.WidthIncreaser.Step | hls/axi_utils.hpp:315-343 | one call, with count, temp and keep bits in place, is one widening step |
| WidthConverterProcess.WidthIncreaser.Drain | hls/axi_utils.hpp:315-343 | run over everything that waits it is the widener of the theorem |
| WidthConverterProcess.WidthReducer.Step | hls/axi_utils.hpp:345-406 | sent and still to be sent together are the pieces of the words read, one piece per call |
| WidthConverterProcess.WidthReducer.Drain | hls/axi_utils.hpp:345-406 | run over everything that waits it has sent the pieces of all words read, in order, and is idle |
| RingRead.SplitCovers | hls/toe/toe.cpp:123-153 | the split command parts cover exactly the ring's bytes, in order |
| RingRead.PairJoins | hls/toe/toe.cpp:157-313 | two answers are joined into one well-formed packet of the bytes of both, through all six states |
| RingRead.ReadIsSeamless | hls/toe/toe.cpp:157-313 | for every 16-bit position and length from 1 to 65535 one well-formed packet comes out whose i-th byte is the ring's byte i further on, modulo 65536 |
| RingRead.ReadsAreSeamless | hls/toe/toe.cpp:157-313 | the same for any reads back to back, the stage idle after each |
| RingReadProcess.AccessBreakdown.Serve | hls/toe/toe.cpp:123-153 | called until idle, it sends the parts of the command and one flag |
| RingReadProcess.DataReader.Step | hls/toe/toe.cpp:157-313 | one call is one step of the reader, in each state |
| RingReadProcess.DataReader.Drain | hls/toe/toe.cpp:157-313 | run until nothing waits or a flag is missing it is the reader of the theorems on the words read |
| AckCredits.RunTruthful | hls/toe/event_engine/event_engine.cpp:76-118 | in every run the 8-bit counters tell, modulo 256, the events and tickets between the two processes |
| AckCredits.FirstGuardExact | hls/toe/event_engine/event_engine.cpp:83-100 | within the FIFO depths the first guard holds iff nothing is between event_engine and ack_delay |
| AckCredits.SecondGuardIs | hls/toe/event_engine/event_engine.cpp:83-100 | the second guard holds iff what is beyond ack_delay equals the unread write tickets |
| AckCredits.SecondGuardExactIff | hls/toe/event_engine/event_engine.cpp:83-118 | it means "nothing beyond" iff no write ticket is unread or a different number of events is out |
| AckCredits.AdmitsWhileBusy | hls/toe/ack_delay/ack_delay.cpp:66-76 | for any number of sessions, any session and any timeout: the run in which the delayed ACK comes out and a timer event is admitted while the transmit FIFO is not empty |
| AckCredits.TimerRunsIffOwed | hls/toe/ack_delay/ack_delay.cpp:48-82 | in every run a session's entry is non-zero iff an ACK was taken in with no event of the session written since |
| AckCredits.OwedAreSent | hls/toe/ack_delay/ack_delay.cpp:66-82 | left alone, every owed ACK is sent within as many scan rounds as its timer had left: none is lost |
| AckCreditsTheorems.SendsWhatIsDue | hls/toe/ack_delay/ack_delay.cpp:44-82 | in every run everything written is every event taken in and not held back, unchanged and in order, and between them one ACK for each timer, at the turn of the scan that ends its wait |
| AckCreditsTheorems.AdmitsInterleaved | hls/toe/event_engine/event_engine.cpp:69-100 | in every run the admitted events, split by input, are what each input was offered, unchanged and in its order, up to what waits |
| AckCreditsTheorems.FifosPassOn | hls/toe/event_engine/event_engine.cpp:69-118 | taken in plus waiting is admitted, read out plus waiting is written |
| AckCreditsTheorems.AdmitsBy | hls/toe/event_engine/event_engine.cpp:69-100 | in every reachable state within the FIFO depths: which event is admitted next, told from the events and tickets under way |
| AckCreditsProcess.Processes.EventEngine | hls/toe/event_engine/event_engine.cpp:40-119 | one call is its step |
| AckCreditsProcess.Processes.AckDelay | hls/toe/ack_delay/ack_delay.cpp:34-83 | one call, on the table in place, is its step |

## Left out

- Timers: `retransmit_timer`, `transport_timer` and their scans. A timeout is an event the environment may raise at any time.
- Bounded FIFOs: a blocking write to a full FIFO is not modelled, except where the code itself asks whether one is full. `PoolConserved` proves the one bound the pool needs; the credit theorems assume the declared depth of 64.
- TwoNodes.AcceptedArePrefix: assumes that no judged request was 2^24 or more PSNs from the expected one, and that retransmissions on the QP resume requests; without them the 24-bit comparison decides otherwise, and `AcceptedIffCongruent` says exactly when.
- ReliableSender.DeliversInOrder: assumes timely partial updates, for updates and NAKs from anywhere. TimelyAnswers proves them timely in the closed loop; timeouts stay free inputs. All submitted opcodes are supported.
- TimelyAnswers.ClosedLoopDelivers: assumes that responses fit the PSNs they carry, as the far end's read handler makes them (`ReadTransfer.ResponsesAre`), that no ACK is duplicated or coalesced, which the code does not enforce, and that no update is taken before its request was inserted. The far end's responses arrive as packets of the environment.
- TwoNodes.AcceptedArePrefix: connection setup happens before the run, and the connection interface only reads during it; responses flowing back are packets of the environment.
- TwoNodes.AcceptedArePrefix: requests on the QP take up at least one PSN, so RDMA reads have a non-zero length, and lengths fit 32 bits, as the code assumes.
- RetransmitterTheorems.RefinesMap: an update removes or advances the head whatever its PSN, as the code does. What a list means under duplicate or coalesced acknowledgements is not claimed.
- `drop_ooo_ibh` and `ipUdpMetaHandler` themselves: DropFlags says which flag each payload and which policy each header meets. The debug stream and the statistics of `rx_ibh_fsm`.
- RetransmitterProgress.FinishesIff: a stretch is fair when the pointer table, the meta table and the client each have a turn in it. An insert waiting for a free index is not a request in progress.
- `generate_exh`, `append_payload` and `prepend_ibh_header` are one step joining the i-th header with the i-th extended header in the transmit model; their lengths are in ReadTransfer and the byte layout of the BTH in Encapsulation.
- `rx_exh_fsm` for WRITE and SEND packets, and its waiting on zero-length or unknown opcodes; the FIFOs between it, `msn_table` and the retransmitter are direct calls.
- ReadTransfer.ReadCopies: requires a non-zero length, addresses below 2^48 at the requester and no other packet of the QP at its table row meanwhile, as the code does.
- WidthConverter.WidenNarrow: narrowing by a factor of 1 reads a keep bit beyond the word in the code; the class requires a factor above 1.
- RingRead.ReadIsSeamless: the realigner is written for a 64-bit bus and a 16-bit window (a literal 8 in the code), and so is the model.
- Encapsulation.RoundTrip: the AETH and RETH behind the BTH are payload here; IP addresses and `merge_rx_meta` are not modelled.
- Ipv4Checksum.RoundTrip: the header lies in the first 512-bit word; the narrower `compute_ipv4_checksum` variants are left out.
- HashTableProof.RunAgrees: inserts use absent keys, as the callers must; `DistinctIffAbsent` says what a present key does.
- The random words of the tabulation hash are parameters.
- `flow_control.hpp` (unfinished), `read_req_table.hpp` (not part of the design) and `hls/crc` (switched off).
- TOE receive and transmit engines, session lookup, TCP state table and SAR tables, port table, close and probe timers.
- ARP, ICMP, DHCP, IPv4 option dropping, applications, testbenches and scripts.
