# epoll-bench in Dafny

epoll-bench is three small C programs that load Linux's epoll readiness
interface with loopback traffic. This project models the core of each of
them and proves what the code promises.

- **bench.c**: UDP peers, each registered for one direction at a time.
  `do_epoll` acts on every reported EPOLLIN/EPOLLOUT flag directly. It queues
  the opposite interest for that descriptor in a 1024-slot buffer (the
  `UPDATE` macro). At the end of the cycle it flushes the buffer, either with
  one `epoll_ctlv` call or with a fallback loop of `epoll_ctl` calls.
- **udp-bench.c**: UDP peers registered once for EPOLLIN|EPOLLOUT|EPOLLET.
  Each `peer_t` has `readable`/`writable` bits that gate which reported flag
  is acted on. A successful recv or send flips the bits.
- **tcp-bench.c**: a listener and n client connections. `fd_add` hands out
  `conn_rec` slots from a static index into a table of 2n+2 records. A
  handshake phase runs until `pending` (connects in progress) reaches 0. A
  kick-off then primes both ends of every stream. After that, a steady loop
  ping-pongs, with `conn_rec.events` as the gate.

The kernel's interest list is a map from descriptor to registration (mask
and `data`). A pointer in `data.ptr` becomes an index into the array it
points at. epoll_wait's ready lists and the answers of read, write, sendto,
accept4, getsockopt, socket and connect are inputs. An answer is a count, or
-1 with an errno.

Each file keeps the source's imperative form:
- A class holds the process globals the file mutates:
  - `BatchBench.Bench` and `GatedBench.Bench`, which share
    `Datagram.Traffic` (the static port and the byte counters);
  - `TcpBench.Bench`, whose `conns` is an array.
- Its methods are proved against specification functions over values:
  - `Step`/`Run` for one event and one ready list;
  - `After*` functions returning `Ok(state)` or `Fatal(cause)` for tcp-bench.c.
- The lemmas state the program's properties about those functions.

Modules:
- `Epoll`: masks, errno values, syscall answers, ADD/MOD on the interest list.
- `Syscall`: the EINTR retry loop and tcp-bench.c's drain loop.
- `Stats`: the byte counters.
- `Datagram`: the port rotation and the do_recv/do_send/do_report that both
  UDP programs share.
- `BatchBench`, `GatedBench`, `TcpBench`: one per program.

A few behaviours of the code that the model keeps as written:
- tcp-bench.c accepts exactly one connection per listener event
  (tcp-bench.c:207-209), without draining the listener.
- tcp-bench.c wraps epoll_wait in its `E()` macro, so an EINTR there ends the
  process, unlike the retry loops of the UDP programs.
- `pending` counts only connects, so the handshake can end before every
  connection has been accepted (`TcpBench.HandshakeMayEndWithoutAccept`).

## Model

| member | source | states |
|---|---|---|
| Syscall.FirstAnswer | bench.c:127-129 | the answer the EINTR retry loop ends on: the first attempt that is not EINTR (no ensures beyond the body; `RetryInterrupted` is proved against it) |
| Syscall.StopIndex | tcp-bench.c:119-122 | the drain loop's last call: its answer neither moved bytes nor was EINTR, and every call before it did one of the two |
| Syscall.RetryInterrupted | bench.c:127-129 | the retry loop keeps the first answer that is not EINTR; every attempt before it was EINTR |
| Syscall.Code | bench.c:134 | the returned ssize_t is -1 exactly when the call failed, and otherwise the count the call returned |
| Syscall.Drain | tcp-bench.c:119-122 | the drain loop stops on the first answer that is neither a positive count nor EINTR (0, or an error other than EINTR), and returns the sum of the counts before it |
| Syscall.MovedThroughStop | tcp-bench.c:119-122 | the answer that stops the drain loop adds no bytes |
| Datagram.CRem | bench.c:143 | C's remainder: `a == CDiv(a, b) * b + r` with the quotient truncated toward zero; non-negative and below the divisor's size for a non-negative dividend, non-positive for a negative one |
| Datagram.NextPort | bench.c:143 | from any port at or above PORT-1, the next destination lies in [PORT, PORT+npeers) |
| Datagram.NextPortStep | bench.c:143 | with the port in range, one send moves the offset from PORT on by one and wraps at npeers |
| Datagram.VisitsAt | bench.c:142-143 | the (i+1)-th of the next sends goes to offset (start + i + 1) wrapped once at npeers |
| Datagram.EveryPeerOnce | bench.c:142-143 | npeers consecutive sends from any port in range reach every peer's port, and no port twice |
| Datagram.Period | udp-bench.c:123-124 | after npeers sends the shared port is back where it started |
| Datagram.Traffic.constructor | bench.c:142 | the static port starts at PORT and both counters at 0 |
| Datagram.Traffic.DoRecv | bench.c:123-135 | returns the first non-EINTR answer of read; bytes_read grows by exactly that count when it is positive and is otherwise unchanged |
| Datagram.Traffic.DoSend | bench.c:138-157 | advances the shared port by the rotation rule, keeps it in range, returns the first non-EINTR answer of sendto and credits exactly a positive count to bytes_written |
| Datagram.Traffic.DoReport | bench.c:56-65 | both counters are 0 afterwards |
| BatchBench.Step | bench.c:187-215 | one ready event of do_epoll, branch by branch: a foreign flag returns -1, the timer zeroes the counters, IN receives and queues OUT, OUT sends and queues IN, a -1 from either returns -1 (no ensures beyond the body; its properties are the lemmas below) |
| BatchBench.Run | bench.c:187-216 | the loop over the ready list, stopping at the first event that returns -1 (no ensures beyond the body) |
| BatchBench.Flushed | bench.c:218-229 | the registrations after the flush: epoll_ctlv applies the first `processed` tuples, none on -1; the fallback applies every tuple in order (no ensures beyond the body) |
| BatchBench.FlushDiagnostics | bench.c:218-229 | what the flush writes to stderr: the epoll_ctlv error or short-count warning, or one error per refused tuple in the fallback (no ensures beyond the body) |
| BatchBench.RunQueues | bench.c:185-216 | a pass only appends to the queue, at most two tuples per ready event (so nevents is at most 2n); each is an EPOLL_CTL_MOD, data.fd equals its fd, the mask is IN or OUT with EPOLLET, and it names a non-timer descriptor of the ready list |
| BatchBench.StepAppends | bench.c:187-215 | one ready event only appends to the queue, at most two tuples, each an EPOLL_CTL_MOD for that event's own descriptor, never the timer |
| BatchBench.RunQueuesOnePerEvent | bench.c:201-215 | when no event reports both directions, a pass queues at most one tuple per event |
| BatchBench.BothFlagsQueueTwo | bench.c:201-215 | when every event reports IN and OUT and every call succeeds, each event queues two tuples, so more than 512 such events need more than the 1024 slots |
| BatchBench.StepQueuesOpposite | bench.c:201-215 | a readable event queues OUT and a writable one queues IN; with both, OUT then IN |
| BatchBench.StepFailedCallAborts | bench.c:201-212 | a recv or send answered with -1, EAGAIN included, makes do_epoll return -1 |
| BatchBench.ForeignFlagStops | bench.c:191-192 | a flag outside IN/OUT returns -1 in the state the earlier events left; later events are not processed |
| BatchBench.TimerOnlyReports | bench.c:194-198 | timer events queue nothing, leave the port alone and leave both counters at 0 |
| BatchBench.ApplyAll | bench.c:225-228 | a flush never adds or removes a registration |
| BatchBench.LastUpdateWins | bench.c:225-228 | the last tuple queued for a registered descriptor decides its registration, whatever earlier tuples for it asked for |
| BatchBench.NoUpdateKeeps | bench.c:225-228 | a registered descriptor with no queued tuple keeps its registration through the flush |
| BatchBench.BothFlagsEndReadable | bench.c:205-214 | a descriptor whose event reported both flags ends registered for EPOLLIN with EPOLLET |
| BatchBench.FlushKeepsShape | bench.c:168-176 | applying UPDATE tuples keeps every registration one-sided and edge-triggered with data.fd equal to its descriptor |
| BatchBench.NoRefusals | bench.c:225-228 | the fallback loop reports nothing when every queued descriptor is registered |
| BatchBench.CtlvMatchesFallback | bench.c:218-229 | an epoll_ctlv that processes every tuple leaves the same registrations as the fallback loop and warns about nothing |
| BatchBench.Bench.constructor | bench.c:253-265 | the timer is registered for EPOLLIN, and every peer socket that could be made for EPOLLOUT, all edge-triggered with data.fd equal to the descriptor |
| BatchBench.Bench.DoEpoll | bench.c:160-232 | a failed epoll_wait returns -1 and changes nothing; otherwise the port and counters are those of `Run` over the ready list, an abort returns -1 without flushing, and a completed pass flushes the queue and returns 0 whatever the flush reports; the queue holds at most one tuple per event |
| BatchBench.Bench.Dispatch | bench.c:185-216 | the loop over the ready list fills `events[0..nevents)` with exactly the tuples `Run` queues, within the 1024 slots |
| BatchBench.Bench.Handle | bench.c:188-215 | one ready event sets the return value, port and counters as `Step` does and leaves `events[0..count)` holding exactly the queue `Step` builds, at most one slot past `nevents` |
| BatchBench.Bench.Flush | bench.c:218-229 | epoll_ctlv applies the first `processed` tuples in order and warns on -1 or a short count; the fallback applies every tuple in order and reports each refused one |
| BatchBench.Bench.FlushEach | bench.c:225-228 | the fallback loop applies every queued tuple in order with epoll_ctl and reports exactly the refused ones, in order |
| GatedBench.Step | udp-bench.c:156-184 | one ready event of do_epoll: a foreign flag returns -1, the timer zeroes the counters, a gated IN receives and flips the peer to writable, then a gated OUT sends and flips it to readable, a -1 from either returns -1 (no ensures beyond the body; its properties are the lemmas below) |
| GatedBench.Run | udp-bench.c:155-185 | the loop over the ready list, stopping at the first event that returns -1 (no ensures beyond the body) |
| GatedBench.StepKeepsAlternating | udp-bench.c:170-184 | one event keeps exactly one of readable/writable set on every peer, changes no descriptor and touches only the peer it points at |
| GatedBench.StepIgnoresGatedOff | udp-bench.c:170-184 | IN on a peer that is not readable and OUT on one that is not writable are ignored |
| GatedBench.RecvFlipsToWritable | udp-bench.c:170-175 | a successful recv on a readable peer leaves it writable only and credits the count |
| GatedBench.BothFlagsOnReadable | udp-bench.c:170-184 | IN and OUT on a readable peer receive, then send, and leave it readable only, with the port advanced once |
| GatedBench.RunKeepsAlternating | udp-bench.c:155-185 | whether the pass returns 0 or -1, every peer keeps exactly one gate set and its descriptor |
| GatedBench.AbortStops | udp-bench.c:160-181 | an unknown flag or a recv/send answered with -1 ends the pass: its result is the aborting event's `Step` on the state the earlier events left |
| GatedBench.TimerOnlyReports | udp-bench.c:163-168 | timer events change no peer and leave the port alone and both counters at 0 |
| GatedBench.DeliveredPointsInto | udp-bench.c:157 | every event epoll_wait delivers carries a `data.ptr` at the timer's record or at a record of the peer table |
| GatedBench.Bench.constructor | udp-bench.c:211-229 | the timer is registered for EPOLLIN; every peer starts readable=0, writable=1; every peer whose socket was made is registered, with EPOLLIN, EPOLLOUT and EPOLLET and data.ptr at its own record unless its descriptor was already registered, and nothing else is |
| GatedBench.Bench.DoEpoll | udp-bench.c:141-188 | the kernel registration is never changed; a failed epoll_wait returns -1 and changes nothing; otherwise gates, port and counters are those of `Run` and the result is -1 exactly when it aborts |
| GatedBench.Bench.DoEvent | udp-bench.c:156-184 | one ready event sets the return value, gates, port and counters as `Step` does, and every peer keeps exactly one gate set |
| TcpBench.Initial | tcp-bench.c:154 | the zeroed table is well formed with nothing registered |
| TcpBench.AfterFdAdd | tcp-bench.c:88-103 | a successful fd_add advances the static index by one |
| TcpBench.FdAddSlot | tcp-bench.c:88-103 | fd_add succeeds exactly when a slot is free and the kernel accepts the descriptor, and fails its assert when the table is full; the slot then holds the mask and descriptor, the kernel has mask with EPOLLET and data at the slot, and no other slot changes |
| TcpBench.AfterFdMod | tcp-bench.c:106-112 | fd_mod keeps the table size and the index |
| TcpBench.FdModSlot | tcp-bench.c:106-112 | on a slot fd_add handed out, fd_mod succeeds; the gate is the mask, the kernel has mask with EPOLLET, and no other slot or registration changes |
| TcpBench.AfterDoRead | tcp-bench.c:115-126 | do_read: the drain credits bytes_read, and an error other than EAGAIN at the stop ends the process (no ensures beyond the body; `DoReadStops` states it) |
| TcpBench.AfterDoWrite | tcp-bench.c:130-140 | do_write: the drain credits bytes_written, and an error other than EAGAIN at the stop ends the process (no ensures beyond the body; `DoWriteStops` states it) |
| TcpBench.DoReadStops | tcp-bench.c:115-126 | the drain stops on 0 or an error other than EINTR; do_read goes on exactly when that was 0 or EAGAIN, and then only bytes_read changes, by the sum of the counts |
| TcpBench.DoWriteStops | tcp-bench.c:130-140 | do_write goes on exactly when its drain stopped on 0 or EAGAIN, and then only bytes_written changes, by the sum of the counts |
| TcpBench.CreditCountsEachTransfer | tcp-bench.c:119-121 | without EINTR, every call before the stop moved at least one byte |
| TcpBench.AfterDial | tcp-bench.c:179-193 | one client: socket, connect, fd_add for IN or OUT and the append to client_conns; the table keeps its size |
| TcpBench.AfterDials | tcp-bench.c:174-194 | the client loop, stopping at the first fatal call; the table keeps its size |
| TcpBench.DialSlot | tcp-bench.c:179-193 | a client takes the next slot, gated and registered for EPOLLIN after a synchronous connect and for EPOLLOUT after EINPROGRESS, which alone adds exactly one to pending; any other outcome is fatal |
| TcpBench.DialsTakeSlots | tcp-bench.c:174-194 | the n clients take consecutive slots from the static index and `client_conns` gets exactly those slots appended, in order; pending grows by the number of connects in progress; the server list, timer and counters stay |
| TcpBench.DialsKeepWf | tcp-bench.c:174-194 | client setup keeps the table well formed: every slot in use is registered with data at itself, and the lists hold slots in use |
| TcpBench.DialsFillSlots | tcp-bench.c:179-193 | each client's slot holds its descriptor and its gate (IN after a completed connect, OUT while in progress), which needed a successful socket and a connect that completed or is in progress; earlier slots are untouched |
| TcpBench.DialsRegister | tcp-bench.c:174-194 | every client's descriptor is registered for its gate with EPOLLET and data at its slot |
| TcpBench.RegistrationKept | tcp-bench.c:174-194 | later clients leave earlier registrations alone |
| TcpBench.DeliveredInUse | tcp-bench.c:200 | every event's data.ptr points at a slot fd_add handed out |
| TcpBench.AfterAcceptAsWritten | tcp-bench.c:207-209 | the listener branch as written: accept4, fd_add for EPOLLIN and the unchecked append to server_conns (no ensures beyond the body) |
| TcpBench.AcceptOverrunsServerTable | tcp-bench.c:208-209 | as written: after n accepts, one more connection to the listener passes fd_add's assert and is stored as an (n+1)-th server entry |
| TcpBench.AfterHandshakeEvent | tcp-bench.c:200-223 | the handshake step keeps the table size (corrected: a full server list stops the process) |
| TcpBench.AfterHandshakeEvents | tcp-bench.c:199-224 | the loop over one ready list, stopping at the first fatal call; the table keeps its size |
| TcpBench.AfterHandshakeBatch | tcp-bench.c:197-224 | one epoll_wait, where any failure is fatal, then its ready list; the table keeps its size |
| TcpBench.AfterHandshake | tcp-bench.c:196-225 | `while (pending)` over the given batches; the table keeps its size |
| TcpBench.HandshakeAccepts | tcp-bench.c:202-210 | a listener event succeeds exactly when accept4 returns a descriptor the kernel does not hold, a slot is free and `server_conns` has room; a failed accept4 is fatal; on success it appends one EPOLLIN server slot and pending, clients, timer and counters stay |
| TcpBench.HandshakeConnects | tcp-bench.c:211-223 | a connecting slot's event succeeds exactly when getsockopt reports SO_ERROR 0; a failed getsockopt or a nonzero status ends the process; on success it is re-registered for EPOLLIN with EPOLLET, its gate is EPOLLIN and pending drops by one, with no slot handed out |
| TcpBench.HandshakeCounts | tcp-bench.c:199-224 | over a ready list, pending drops by the non-listener events and the server list grows by the listener events |
| TcpBench.HandshakeFrame | tcp-bench.c:199-224 | over a ready list the table stays well formed, the static index only grows, and clients, timer, counters and the descriptors of slots in use stay |
| TcpBench.HandshakeAppendsServers | tcp-bench.c:199-224 | the server list is only appended to, by exactly the slots the handshake hands out, in the order it hands them out |
| TcpBench.HandshakeStopsAtZero | tcp-bench.c:196-225 | the loop stops exactly when pending is 0: after that no batch is waited for, and while it is not, the next batch is |
| TcpBench.HandshakeKeepsBudget | tcp-bench.c:196-225 | each accept takes one slot and one server entry, the clients stay, and the server list never exceeds n |
| TcpBench.HandshakeMayEndWithoutAccept | tcp-bench.c:196-227 | a handshake can end with pending 0 and no accepted connection |
| TcpBench.AfterPrime | tcp-bench.c:233-234 | fd_mod to IN and OUT, then the gate back to IN; the table keeps its size and both lists stay |
| TcpBench.AfterKickClients | tcp-bench.c:229-235 | the client loop; the raw PING changes no modelled state; the table keeps its size and both lists stay |
| TcpBench.AfterKickServer | tcp-bench.c:238-241 | one server: a counted do_write of PONG, then priming; the table keeps its size and both lists stay |
| TcpBench.AfterKickServers | tcp-bench.c:237-242 | the server loop, stopping at the first fatal write; the table keeps its size |
| TcpBench.AfterKickOff | tcp-bench.c:229-242 | the client loop, then the server loop (no ensures beyond the body; `KickOffPrimes` states its effect) |
| TcpBench.PrimeSlot | tcp-bench.c:233-234 | priming a handed-out slot cannot fail and changes only that slot and its registration |
| TcpBench.KickServerSlot | tcp-bench.c:238-241 | one server's kick-off fails only on a write error, primes its slot and credits exactly the PONG's bytes |
| TcpBench.KickClientsPrime | tcp-bench.c:229-235 | the client loop primes every client and changes nothing else, not even the counters: the PING is not counted |
| TcpBench.KickServersPrime | tcp-bench.c:237-242 | the server loop primes every server and changes nothing but those slots, their registrations and the counters |
| TcpBench.KickServersSucceed | tcp-bench.c:237-242 | the server loop goes on to the end when every PONG write stops on 0 or EAGAIN |
| TcpBench.KickServersCredit | tcp-bench.c:237-242 | the server loop adds exactly the PONG writes' bytes to bytes_written and leaves bytes_read |
| TcpBench.KickOffPrimes | tcp-bench.c:229-242 | after kick-off every client and server slot is gated EPOLLIN while the kernel has EPOLLIN and EPOLLOUT for it; only the PONGs are counted |
| TcpBench.AfterAddTimer | tcp-bench.c:244 | `tmfd` is set, then fd_add for EPOLLIN (no ensures beyond the body; `TimerSlotFits` states when it succeeds) |
| TcpBench.TimerSlotFits | tcp-bench.c:244 | with the listener, n clients and at most n servers, the timer's fd_add finds a slot, and fails only when the kernel refuses the descriptor |
| TcpBench.AfterSteadyEvent | tcp-bench.c:250-268 | one steady event: the timer drains and reports, a gated IN reads and gates OUT, a gated OUT writes and gates IN, anything else is ignored; the table keeps its size |
| TcpBench.AfterSteadyEvents | tcp-bench.c:249-269 | the `for` loop over one ready list, stopping at the first fatal call (no ensures beyond the body) |
| TcpBench.AfterSteadyBatch | tcp-bench.c:247-269 | one steady iteration: any epoll_wait failure is fatal, then its ready list (no ensures beyond the body) |
| TcpBench.SteadyTimer | tcp-bench.c:252-256 | a timer event drains the timer, touches no gate and leaves both counters at 0 |
| TcpBench.SteadyGatedRead | tcp-bench.c:258-262 | a gated IN reads and flips the gate to OUT, and nothing is written for that event even if it reports OUT |
| TcpBench.SteadyGatedWrite | tcp-bench.c:264-268 | a gated OUT writes and flips the gate to IN |
| TcpBench.SteadyIgnores | tcp-bench.c:249-269 | an event with no gated flag changes nothing |
| TcpBench.SteadyEventFrame | tcp-bench.c:250-268 | one steady event issues no epoll_ctl and changes no slot but its own, whose gate stays IN or OUT; descriptors, lists, index and pending stay |
| TcpBench.SteadyKeepsGates | tcp-bench.c:249-269 | the steady loop issues no epoll_ctl and keeps every gate exactly one of IN/OUT; slots no event points at are unchanged; descriptors, lists and pending stay |
| TcpBench.SetupFitsTable | tcp-bench.c:153-154 | listener, n clients, the handshake and the kick-off use at most 2n+1 of the 2n+2 slots, so the timer's fd_add never fails its assert, under the corrected handshake of the Findings row (tcp-bench.c:209) |
| TcpBench.Bench.constructor | tcp-bench.c:154 | the state is the zeroed table of 2n+2 records |
| TcpBench.Bench.FdAdd | tcp-bench.c:88-103 | returns the slot it handed out; the new state is `AfterFdAdd`'s |
| TcpBench.Bench.FdMod | tcp-bench.c:106-112 | on a handed-out slot, the new state is `AfterFdMod`'s, which does not fail |
| TcpBench.Bench.DoRead | tcp-bench.c:115-126 | the status and new counters are `AfterDoRead`'s |
| TcpBench.Bench.DoWrite | tcp-bench.c:130-140 | the status and new counters are `AfterDoWrite`'s |
| TcpBench.Bench.DoReport | tcp-bench.c:55-64 | both counters are 0 and nothing else changes |
| TcpBench.Bench.ConnectClient | tcp-bench.c:175-193 | one client's setup follows `AfterDial` |
| TcpBench.Bench.ConnectClients | tcp-bench.c:174-194 | the client loop follows `AfterDials` |
| TcpBench.Bench.HandshakeEvent | tcp-bench.c:200-223 | one handshake event follows the corrected `AfterHandshakeEvent` |
| TcpBench.Bench.HandshakeEvents | tcp-bench.c:199-224 | the loop over one ready list follows `AfterHandshakeEvents` |
| TcpBench.Bench.HandshakeBatch | tcp-bench.c:197-224 | one wait and its events follow `AfterHandshakeBatch`; an epoll_wait failure, EINTR included, is fatal |
| TcpBench.Bench.Handshake | tcp-bench.c:196-225 | the loop follows `AfterHandshake` and leaves with pending 0 unless the batches ran out |
| TcpBench.Bench.Prime | tcp-bench.c:233-234 | fd_mod to IN and OUT, then the gate back to IN, following `AfterPrime` |
| TcpBench.Bench.KickServer | tcp-bench.c:239-241 | one server's PONG and priming follow `AfterKickServer` |
| TcpBench.Bench.KickClients | tcp-bench.c:229-235 | the client loop follows `AfterKickClients` |
| TcpBench.Bench.KickServers | tcp-bench.c:237-242 | the server loop follows `AfterKickServers` |
| TcpBench.Bench.KickOff | tcp-bench.c:229-242 | both kick-off loops follow `AfterKickOff` |
| TcpBench.Bench.AddTimer | tcp-bench.c:244 | the timer's registration follows `AfterAddTimer` |
| TcpBench.Bench.SteadyEvent | tcp-bench.c:250-268 | one steady event follows `AfterSteadyEvent` |
| TcpBench.Bench.SteadyBatch | tcp-bench.c:247-269 | one wait of the steady loop follows `AfterSteadyBatch` |

## Left out

- Socket, bind, listen and setsockopt calls, make_sock_fd, make_timer_fd (with its floating-point SET_TS) and epoll_create1 are not modelled. Their results enter as parameters: descriptor numbers, -1 for a failure.
- What the kernel reports is not modelled: edge-triggered readiness and which descriptors become ready. Ready lists are inputs, constrained by epoll_wait's contract where a proof needs it. For bench.c and udp-bench.c, every event belongs to a registration and reports IN/OUT only where that registration asks for them; for tcp-bench.c's handshake, every event carries a registered slot.
- epoll_ctlv is taken to apply the first `processed` tuples in order. Its kernel semantics and the syscall-number selection are not modelled.
- printf, perror and fprintf output is not modelled. Diagnostics are a `Diagnostic` value in bench.c and an `Exit` cause in tcp-bench.c; exit codes are left out.
- The outer loops are infinite. The model proves one do_epoll cycle, or one iteration of tcp-bench.c's steady loop. The handshake is modelled over a finite sequence of batches.
- Each retry or drain loop is given a script that contains a final answer (`Settles`, `Drains`). A script without one would be a call that never stops being interrupted, or a stream that never runs dry; those are not modelled.
- atoi is not modelled beyond its role in choosing the peer count. The count is a parameter; tcp-bench.c's n is a `nat`. A negative count makes calloc fail and the program exit, which is not modelled.
- GatedBench.Bench.constructor: requires npeers > 0, because a negative count makes udp-bench.c's calloc fail and main exit.
- do_close is not modelled.
- The raw client write of "PING" in tcp-bench.c's kick-off is not modelled: its result is ignored and it touches no modelled state.
- The 8-byte read of the timer in bench.c and udp-bench.c is not modelled: its result is ignored.
- bytes_read and bytes_written are unbounded; the 64-bit unsigned wrap-around is not modelled.
- htons truncation of PORT+i to 16 bits is not modelled. Ports are integers.
- errno left set by a call that succeeded, which `E()` would also treat as fatal, is not modelled.
- BatchBench.Bench.DoEpoll: requires epoll_wait's contract and one-sided registrations. Under them each event reports one direction, and the 1024-slot queue cannot overflow. Without them a ready list with more than 512 two-flag events would write past the buffer (`BatchBench.BothFlagsQueueTwo`); that path is not modelled.
- TcpBench.Bench.SteadyBatch: requires only that every event's slot lies in the table, not that it is registered, since the steady loop reads the slot whatever it holds.

## Findings

| source | as written | input that shows it | evidently intended | confidence | as-written member | corrected member |
|---|---|---|---|---|---|---|
| tcp-bench.c:209 | fd_add's assert only bounds the `conns` table of 2n+2 records. Line 209 stores each accepted connection at `server_conns[n_server_conns++]`, and line 156 allocates that list with n pointers on LP64 | while `pending` is still above 0, one more connection reaches port 8000 after the n clients' connections have been accepted (from another process, say); the (n+1)-th accept gets slot 2n+1, which passes the assert, and is stored one entry past the end of `server_conns` | the server list never holds more than n entries | medium, not executed | TcpBench.AcceptOverrunsServerTable | TcpBench.HandshakeKeepsBudget |
