/**
 * tcp-bench.c: a listener and n client connections on loopback. fd_add hands
 * out `conn_rec` slots from a static index into a table of 2n+2 records and
 * registers the descriptor with `data.ptr` pointing at the slot. A handshake
 * phase runs until every in-progress connect has completed; after a kick-off
 * that primes both ends, a steady loop ping-pongs with `conn_rec.events` as
 * the gate. Any failure wrapped in E() or passed to report_error ends the
 * process; the model returns the cause instead.
 *
 * The functions below are the specification, on a value `Proc` holding the
 * process's globals; class `Bench` holds the same state in place and its
 * methods are proved against these functions.
 */
module TcpBench {
  import opened Epoll
  import opened Syscall
  import opened Stats

  /** `conn_rec`: the gate mask and the descriptor. */
  datatype ConnRec = ConnRec(events: Mask, fd: int)

  /** The call whose failure ended the process, as E() or report_error name it. */
  datatype Call =
    | SocketCall | ConnectCall | Accept4Call | GetSockOptCall | SoErrorCheck
    | EpollCtlCall | EpollWaitCall | ReadCall | WriteCall

  /** Why the process exited: fd_add's assert, or report_error with a call and errno. */
  datatype Exit = AssertionFailure | Reported(call: Call, errno: Errno)

  /** The globals of tcp-bench.c that the core reads and writes: the `conns`
      table, fd_add's static `index`, the kernel's interest list for `epfd`
      (data is a slot of `conns`), the `client_conns`/`server_conns` lists,
      main's `pending`, `tmfd` and the byte counters. */
  datatype Proc = Proc(
    conns: seq<ConnRec>,
    index: nat,
    interest: Interest<nat>,
    clients: seq<nat>,
    servers: seq<nat>,
    pending: int,
    tmfd: int,
    stats: Counters)

  /** The process goes on in a new state, or has exited. */
  datatype Outcome = Ok(p: Proc) | Fatal(cause: Exit)

  /** `n_conns * 2 + 2`: both ends of every stream, the listener and the timer. */
  function Slots(n: nat): nat {
    2 * n + 2
  }

  predicate Sized(s: Proc, n: nat) {
    |s.conns| == Slots(n)
  }

  /** Every slot below `index` was handed out by fd_add: its descriptor is
      registered with `data.ptr` pointing back at it, every registration
      points at such a slot, and the client and server lists hold such slots. */
  ghost predicate Wf(s: Proc, n: nat) {
    && Sized(s, n) && s.index <= Slots(n)
    && (forall fd :: fd in s.interest ==> s.interest[fd].data < s.index && s.conns[s.interest[fd].data].fd == fd)
    && (forall c :: 0 <= c < s.index ==> s.conns[c].fd in s.interest && s.interest[s.conns[c].fd].data == c)
    && (forall i :: 0 <= i < |s.clients| ==> s.clients[i] < s.index)
    && (forall i :: 0 <= i < |s.servers| ==> s.servers[i] < s.index)
  }

  /** The state after the calloc of line 154: zeroed slots, nothing
      registered, no connection, `tmfd == -1`. */
  function Initial(n: nat): (s: Proc)
    ensures Wf(s, n) && s.index == 0 && s.interest == map[]
  {
    Proc(seq(Slots(n), _ => ConnRec(0, 0)), 0, map[], [], [], 0, -1, Zeroed)
  }

  /** Set the gate of slot c (`c->events = m`). */
  function Gate(s: Proc, c: nat, m: Mask): Proc
    requires c < |s.conns|
  {
    s.(conns := s.conns[c := s.conns[c].(events := m)])
  }

  // ---------------------------------------------------------------------
  // fd_add and fd_mod
  // ---------------------------------------------------------------------

  /** fd_add: assert a free slot, fill slot `index` with the mask and the
      descriptor, advance `index`, and register `events | EPOLLET` with
      data.ptr at the slot; a failed epoll_ctl is fatal. */
  function AfterFdAdd(s: Proc, n: nat, fd: int, events: Mask): (o: Outcome)
    requires Sized(s, n)
    ensures o.Ok? ==> Sized(o.p, n) && o.p.index == s.index + 1
  {
    if s.index >= Slots(n) then Fatal(AssertionFailure)
    else
      match Add(s.interest, fd, events | EPOLLET, s.index)
      case Failed(e) => Fatal(Reported(EpollCtlCall, e))
      case Done(k) => Ok(s.(conns := s.conns[s.index := ConnRec(events, fd)], index := s.index + 1, interest := k))
  }

  /** fd_add succeeds exactly when a slot is free and the kernel accepts the
      descriptor; then the slot holds the mask and descriptor, the kernel has
      `events | EPOLLET` for it, no other slot changes, and the table stays
      well formed. */
  lemma FdAddSlot(s: Proc, n: nat, fd: int, events: Mask)
    requires Wf(s, n)
    ensures var o := AfterFdAdd(s, n, fd, events);
      && (o.Ok? <==> s.index < Slots(n) && fd >= 0 && fd !in s.interest)
      && (s.index >= Slots(n) ==> o == Fatal(AssertionFailure))
      && (o.Ok? ==>
           && o.p.conns[s.index] == ConnRec(events, fd)
           && o.p.interest == s.interest[fd := Registration(events | EPOLLET, s.index)]
           && (forall c :: 0 <= c < |s.conns| && c != s.index ==> o.p.conns[c] == s.conns[c])
           && o.p.clients == s.clients && o.p.servers == s.servers && o.p.pending == s.pending
           && o.p.tmfd == s.tmfd && o.p.stats == s.stats
           && Wf(o.p, n))
  {
  }

  /** fd_mod: set the gate, then re-register the slot's descriptor with
      `events | EPOLLET`; a failed epoll_ctl is fatal. */
  function AfterFdMod(s: Proc, c: nat, events: Mask): (o: Outcome)
    requires c < |s.conns|
    ensures o.Ok? ==> |o.p.conns| == |s.conns| && o.p.index == s.index
  {
    var fd := s.conns[c].fd;
    match Modify(s.interest, fd, events | EPOLLET, c)
    case Failed(e) => Fatal(Reported(EpollCtlCall, e))
    case Done(k) => Ok(Gate(s, c, events).(interest := k))
  }

  /** On a slot fd_add handed out, fd_mod cannot fail: afterwards the slot's
      gate is the mask, the kernel has the mask | EPOLLET for its descriptor,
      and no other slot or registration changes. */
  lemma FdModSlot(s: Proc, n: nat, c: nat, events: Mask)
    requires Wf(s, n) && c < s.index
    ensures var o := AfterFdMod(s, c, events);
      && o.Ok?
      && o.p.conns[c] == ConnRec(events, s.conns[c].fd)
      && o.p.interest == s.interest[s.conns[c].fd := Registration(events | EPOLLET, c)]
      && (forall d :: 0 <= d < |s.conns| && d != c ==> o.p.conns[d] == s.conns[d])
      && o.p.clients == s.clients && o.p.servers == s.servers && o.p.pending == s.pending
      && o.p.tmfd == s.tmfd && o.p.stats == s.stats
      && Wf(o.p, n)
  {
  }

  // ---------------------------------------------------------------------
  // do_read, do_write, do_report
  // ---------------------------------------------------------------------

  /** The answer that ended a drain loop is fatal: -1 with an errno other than EAGAIN. */
  predicate Fails(last: Attempt<nat>) {
    last.Failed? && last.errno != EAGAIN
  }

  /** Bytes a drain loop credits: every positive count before the stop. */
  function Credit(replies: seq<Attempt<nat>>): nat
    requires Drains(replies)
  {
    Moved(replies[..StopIndex(replies)])
  }

  /** do_read: credit every positive count to `bytes_read`; fatal unless the
      loop stopped on 0 or EAGAIN. */
  function AfterDoRead(s: Proc, replies: seq<Attempt<nat>>): Outcome
    requires Drains(replies)
  {
    var last := replies[StopIndex(replies)];
    if Fails(last) then Fatal(Reported(ReadCall, last.errno))
    else Ok(s.(stats := s.stats.(bytesRead := s.stats.bytesRead + Credit(replies))))
  }

  /** do_write: the same loop over write, crediting `bytes_written`. */
  function AfterDoWrite(s: Proc, replies: seq<Attempt<nat>>): Outcome
    requires Drains(replies)
  {
    var last := replies[StopIndex(replies)];
    if Fails(last) then Fatal(Reported(WriteCall, last.errno))
    else Ok(s.(stats := s.stats.(bytesWritten := s.stats.bytesWritten + Credit(replies))))
  }

  /** The drain loop stops on end of stream or on an error other than EINTR;
      do_read goes on exactly when that stop is end of stream or EAGAIN, and
      then only `bytes_read` changes, by the sum of the counts read. */
  lemma DoReadStops(s: Proc, replies: seq<Attempt<nat>>)
    requires Drains(replies)
    ensures var last := replies[StopIndex(replies)];
      && (last == Done(0) || (last.Failed? && last.errno != EINTR))
      && (AfterDoRead(s, replies).Ok? <==> last == Done(0) || last == Failed(EAGAIN))
      && (AfterDoRead(s, replies).Ok? ==>
            AfterDoRead(s, replies).p == s.(stats := Counters(s.stats.bytesRead + Credit(replies), s.stats.bytesWritten)))
  {
  }

  /** do_write goes on exactly when its loop stopped on 0 or EAGAIN, and then
      only `bytes_written` changes, by the sum of the counts written. */
  lemma DoWriteStops(s: Proc, replies: seq<Attempt<nat>>)
    requires Drains(replies)
    ensures var last := replies[StopIndex(replies)];
      && (AfterDoWrite(s, replies).Ok? <==> last == Done(0) || last == Failed(EAGAIN))
      && (AfterDoWrite(s, replies).Ok? ==>
            AfterDoWrite(s, replies).p == s.(stats := Counters(s.stats.bytesRead, s.stats.bytesWritten + Credit(replies))))
  {
  }

  /** Without EINTR answers, every call before the stop moved at least one
      byte, so the credit is at least the number of those calls. */
  lemma {:induction false} CreditCountsEachTransfer(replies: seq<Attempt<nat>>)
    requires Drains(replies)
    requires forall j :: 0 <= j < |replies| ==> !replies[j].Interrupted()
    ensures Credit(replies) >= StopIndex(replies)
  {
    var k := StopIndex(replies);
    EachTransferMoves(replies[..k]);
  }

  lemma {:induction false} EachTransferMoves(run: seq<Attempt<nat>>)
    requires forall j :: 0 <= j < |run| ==> run[j].Done? && run[j].value > 0
    ensures Moved(run) >= |run|
    decreases |run|
  {
    if run != [] {
      var init := run[..|run| - 1];
      assert forall j :: 0 <= j < |init| ==> init[j] == run[j];
      EachTransferMoves(init);
    }
  }

  // ---------------------------------------------------------------------
  // Client setup, lines 174-194
  // ---------------------------------------------------------------------

  /** The outcomes of one client's socket and connect calls. */
  datatype Dial = Dial(socket: Attempt<nat>, connect: Attempt<()>)

  /** One iteration: a socket failure is fatal; a connect that completes at
      once registers EPOLLIN; EINPROGRESS registers EPOLLOUT and counts as
      pending; any other connect error is fatal. The slot is appended to
      `client_conns`. */
  function AfterDial(s: Proc, n: nat, d: Dial): (o: Outcome)
    requires Sized(s, n)
    ensures o.Ok? ==> Sized(o.p, n)
  {
    match d.socket
    case Failed(e) => Fatal(Reported(SocketCall, e))
    case Done(fd) =>
      if d.connect.Done? then
        match AfterFdAdd(s, n, fd, EPOLLIN)
        case Fatal(x) => Fatal(x)
        case Ok(t) => Ok(t.(clients := t.clients + [s.index]))
      else if d.connect.errno != EINPROGRESS then Fatal(Reported(ConnectCall, d.connect.errno))
      else
        match AfterFdAdd(s, n, fd, EPOLLOUT)
        case Fatal(x) => Fatal(x)
        case Ok(t) => Ok(t.(clients := t.clients + [s.index], pending := t.pending + 1))
  }

  /** The loop over all n clients. */
  function AfterDials(s: Proc, n: nat, dials: seq<Dial>): (o: Outcome)
    requires Sized(s, n)
    ensures o.Ok? ==> Sized(o.p, n)
    decreases |dials|
  {
    if dials == [] then Ok(s)
    else
      match AfterDial(s, n, dials[0])
      case Fatal(x) => Fatal(x)
      case Ok(t) => AfterDials(t, n, dials[1..])
  }

  /** Whether a connect is still in progress. */
  predicate InProgress(d: Dial) {
    d.connect.Failed? && d.connect.errno == EINPROGRESS
  }

  /** Number of connects still in progress. */
  function CountInProgress(dials: seq<Dial>): (k: nat)
    ensures k <= |dials|
  {
    if dials == [] then 0 else (if InProgress(dials[0]) then 1 else 0) + CountInProgress(dials[1..])
  }

  /** The gate a client gets: EPOLLIN when connected, EPOLLOUT while in progress. */
  function DialGate(d: Dial): Mask {
    if d.connect.Done? then EPOLLIN else EPOLLOUT
  }

  /** One client takes the next slot, gated and registered for EPOLLIN when
      connect completed at once and for EPOLLOUT when it is in progress, which
      adds one to `pending`; any other connect error is fatal. */
  lemma DialSlot(s: Proc, n: nat, d: Dial)
    requires Wf(s, n)
    ensures var o := AfterDial(s, n, d);
      o.Ok? ==>
        && d.socket.Done? && (d.connect.Done? || InProgress(d))
        && Wf(o.p, n)
        && o.p.index == s.index + 1
        && o.p.clients == s.clients + [s.index]
        && o.p.pending == s.pending + (if InProgress(d) then 1 else 0)
        && o.p.servers == s.servers && o.p.tmfd == s.tmfd && o.p.stats == s.stats
        && o.p.conns == s.conns[s.index := ConnRec(DialGate(d), d.socket.value)]
        && o.p.interest == s.interest[d.socket.value := Registration(DialGate(d) | EPOLLET, s.index)]
  {
    if d.socket.Done? {
      FdAddSlot(s, n, d.socket.value, DialGate(d));
    }
  }

  /** What one client does to the table, the lists and `pending`, whether
      or not the table is well formed. */
  lemma DialStep(s: Proc, n: nat, d: Dial)
    requires Sized(s, n)
    ensures var o := AfterDial(s, n, d);
      o.Ok? ==>
        && d.socket.Done? && (d.connect.Done? || InProgress(d))
        && s.index < Slots(n) && o.p.index == s.index + 1
        && o.p.clients == s.clients + [s.index]
        && o.p.pending == s.pending + (if InProgress(d) then 1 else 0)
        && o.p.servers == s.servers && o.p.tmfd == s.tmfd && o.p.stats == s.stats
        && o.p.conns == s.conns[s.index := ConnRec(DialGate(d), d.socket.value)]
  {
  }

  /** Client setup keeps the table well formed. */
  lemma {:induction false} DialsKeepWf(s: Proc, n: nat, dials: seq<Dial>)
    requires Wf(s, n)
    ensures var o := AfterDials(s, n, dials);
      o.Ok? ==> Wf(o.p, n)
    decreases |dials|
  {
    var o := AfterDials(s, n, dials);
    if dials != [] && o.Ok? {
      DialSlot(s, n, dials[0]);
      var t := AfterDial(s, n, dials[0]).p;
      assert o == AfterDials(t, n, dials[1..]);
      DialsKeepWf(t, n, dials[1..]);
    }
  }

  /** Client setup takes consecutive slots, one per client, and appends them
      to `client_conns` in order; `pending` grows by the number of connects
      in progress. */
  lemma {:induction false} DialsTakeSlots(s: Proc, n: nat, dials: seq<Dial>)
    requires Sized(s, n) && s.index <= Slots(n)
    ensures var o := AfterDials(s, n, dials);
      o.Ok? ==>
        && o.p.index == s.index + |dials| <= Slots(n)
        && o.p.clients == s.clients + Taken(s.index, o.p.index)
        && o.p.pending == s.pending + CountInProgress(dials)
        && o.p.servers == s.servers && o.p.tmfd == s.tmfd && o.p.stats == s.stats
    decreases |dials|
  {
    var o := AfterDials(s, n, dials);
    if dials != [] && o.Ok? {
      var d, rest := dials[0], dials[1..];
      DialStep(s, n, d);
      var t := AfterDial(s, n, d).p;
      assert o == AfterDials(t, n, rest);
      DialsTakeSlots(t, n, rest);
      TakenFirst(s.clients, s.index, o.p.index);
    }
  }

  /** Each client's slot holds its descriptor and its gate, which needed a
      successful socket and a connect that completed or is in progress;
      earlier slots are untouched. */
  lemma {:induction false} DialsFillSlots(s: Proc, n: nat, dials: seq<Dial>)
    requires Sized(s, n) && s.index <= Slots(n)
    ensures var o := AfterDials(s, n, dials);
      o.Ok? ==>
        && s.index + |dials| <= |o.p.conns|
        && (forall i :: 0 <= i < |dials| ==>
              && dials[i].socket.Done? && (dials[i].connect.Done? || InProgress(dials[i]))
              && o.p.conns[s.index + i] == ConnRec(DialGate(dials[i]), dials[i].socket.value))
        && (forall c :: 0 <= c < s.index ==> o.p.conns[c] == s.conns[c])
    decreases |dials|
  {
    var o := AfterDials(s, n, dials);
    if dials != [] && o.Ok? {
      var d, rest := dials[0], dials[1..];
      DialStep(s, n, d);
      var t := AfterDial(s, n, d).p;
      assert o == AfterDials(t, n, rest);
      DialsFillSlots(t, n, rest);
      forall i | 0 <= i < |dials|
        ensures && dials[i].socket.Done? && (dials[i].connect.Done? || InProgress(dials[i]))
                && o.p.conns[s.index + i] == ConnRec(DialGate(dials[i]), dials[i].socket.value)
      {
        if i > 0 {
          assert dials[i] == rest[i - 1];
        }
      }
    }
  }

  /** Each client's descriptor is registered for its gate | EPOLLET with
      data.ptr at its slot. */
  lemma {:induction false} DialsRegister(s: Proc, n: nat, dials: seq<Dial>)
    requires Wf(s, n)
    ensures var o := AfterDials(s, n, dials);
      o.Ok? ==> forall i :: 0 <= i < |dials| ==>
        && dials[i].socket.Done? && dials[i].socket.value in o.p.interest
        && o.p.interest[dials[i].socket.value] == Registration(DialGate(dials[i]) | EPOLLET, s.index + i)
    decreases |dials|
  {
    var o := AfterDials(s, n, dials);
    if dials != [] && o.Ok? {
      var d, rest := dials[0], dials[1..];
      DialSlot(s, n, d);
      var t := AfterDial(s, n, d).p;
      assert o == AfterDials(t, n, rest);
      DialsRegister(t, n, rest);
      RegistrationKept(t, n, rest, d.socket.value);
      forall i | 1 <= i < |dials|
        ensures && dials[i].socket.Done? && dials[i].socket.value in o.p.interest
                && o.p.interest[dials[i].socket.value] == Registration(DialGate(dials[i]) | EPOLLET, s.index + i)
      {
        assert dials[i] == rest[i - 1];
      }
    }
  }

  /** Later dials add registrations for new descriptors only. */
  lemma {:induction false} RegistrationKept(s: Proc, n: nat, dials: seq<Dial>, fd: int)
    requires Wf(s, n) && fd in s.interest
    ensures var o := AfterDials(s, n, dials);
      o.Ok? ==> fd in o.p.interest && o.p.interest[fd] == s.interest[fd]
    decreases |dials|
  {
    if dials != [] && AfterDial(s, n, dials[0]).Ok? {
      var d := dials[0];
      DialSlot(s, n, d);
      RegistrationKept(AfterDial(s, n, d).p, n, dials[1..], fd);
    }
  }

  // ---------------------------------------------------------------------
  // Handshake, lines 196-225
  // ---------------------------------------------------------------------

  /** The outcomes of the calls one handshake event can make: accept4 for a
      listener event, getsockopt(SO_ERROR) for any other. */
  datatype Answer = Answer(accept: Attempt<nat>, soError: Attempt<int>)

  /** Every event's data.ptr points into the table. */
  predicate InTable(ready: seq<ReadyEvent<nat>>, n: nat) {
    forall i :: 0 <= i < |ready| ==> ready[i].data < Slots(n)
  }

  /** epoll_wait's contract: every event carries the data of a registration. */
  ghost predicate Delivered(s: Proc, ready: seq<ReadyEvent<nat>>) {
    forall i :: 0 <= i < |ready| ==> Registers(s.interest, ready[i].data)
  }

  /** Some registration carries this slot as its data. */
  ghost predicate Registers(k: Interest<nat>, c: nat) {
    exists fd :: fd in k && k[fd].data == c
  }

  lemma DeliveredInUse(s: Proc, n: nat, ready: seq<ReadyEvent<nat>>)
    requires Wf(s, n) && Delivered(s, ready)
    ensures forall i :: 0 <= i < |ready| ==> ready[i].data < s.index
  {
    forall i | 0 <= i < |ready|
      ensures ready[i].data < s.index
    {
      assert Registers(s.interest, ready[i].data);
      var fd :| fd in s.interest && s.interest[fd].data == ready[i].data;
    }
  }

  /** The listener branch as written: accept one connection, fd_add it for
      EPOLLIN and store the slot at `server_conns[n_server_conns++]`, with no
      check that `server_conns`, allocated with n_conns entries, has room. */
  function AfterAcceptAsWritten(s: Proc, n: nat, a: Attempt<nat>): (o: Outcome)
    requires Sized(s, n)
  {
    match a
    case Failed(e) => Fatal(Reported(Accept4Call, e))
    case Done(fd) =>
      match AfterFdAdd(s, n, fd, EPOLLIN)
      case Fatal(x) => Fatal(x)
      case Ok(t) => Ok(t.(servers := t.servers + [s.index]))
  }

  /** fd_add's assert does not guard `server_conns`: after the listener, n
      clients and n accepted connections, one more connection reaching the
      listener passes the assert (slot 2n+1 of 2n+2 is free) and is stored as
      the (n+1)-th entry of a list with n entries. */
  lemma AcceptOverrunsServerTable(s: Proc, n: nat, fd: nat)
    requires Wf(s, n) && s.index == 1 + n + n && |s.servers| == n
    requires fd !in s.interest
    ensures var o := AfterAcceptAsWritten(s, n, Done(fd));
      o.Ok? && |o.p.servers| == n + 1
  {
    FdAddSlot(s, n, fd, EPOLLIN);
  }

  /** One event of the handshake loop. On the listener: accept one
      connection and fd_add it for EPOLLIN as a server slot, stopping with an
      assertion failure when `server_conns` is full. On any other slot: a
      failed getsockopt or a nonzero SO_ERROR is fatal; otherwise fd_mod it to
      EPOLLIN and decrement `pending`. */
  function AfterHandshakeEvent(s: Proc, n: nat, svfd: int, ev: ReadyEvent<nat>, a: Answer): (o: Outcome)
    requires Sized(s, n) && ev.data < Slots(n)
    ensures o.Ok? ==> Sized(o.p, n)
  {
    var c := ev.data;
    if s.conns[c].fd == svfd then
      match a.accept
      case Failed(e) => Fatal(Reported(Accept4Call, e))
      case Done(fd) =>
        match AfterFdAdd(s, n, fd, EPOLLIN)
        case Fatal(x) => Fatal(x)
        case Ok(t) =>
          if |s.servers| >= n then Fatal(AssertionFailure)
          else Ok(t.(servers := t.servers + [s.index]))
    else
      match a.soError
      case Failed(e) => Fatal(Reported(GetSockOptCall, e))
      case Done(status) =>
        if status != 0 then Fatal(Reported(SoErrorCheck, EINVAL))
        else
          match AfterFdMod(s, c, EPOLLIN)
          case Fatal(x) => Fatal(x)
          case Ok(t) => Ok(t.(pending := t.pending - 1))
  }

  /** A listener event performs one accept and appends one EPOLLIN server
      slot, leaving `pending` alone. It succeeds exactly when accept4 returns
      a descriptor the kernel does not hold yet, a slot is free and
      `server_conns` has room; a failed accept4 is fatal. */
  lemma HandshakeAccepts(s: Proc, n: nat, svfd: int, ev: ReadyEvent<nat>, a: Answer)
    requires Wf(s, n) && ev.data < s.index && s.conns[ev.data].fd == svfd
    ensures var o := AfterHandshakeEvent(s, n, svfd, ev, a);
      && (o.Ok? <==>
            a.accept.Done? && a.accept.value !in s.interest && s.index < Slots(n) && |s.servers| < n)
      && (a.accept.Failed? ==> o == Fatal(Reported(Accept4Call, a.accept.errno)))
      && (o.Ok? ==>
        && Wf(o.p, n)
        && (forall d :: 0 <= d < s.index ==> o.p.conns[d].fd == s.conns[d].fd)
        && o.p.clients == s.clients && o.p.tmfd == s.tmfd && o.p.stats == s.stats
        && a.accept.Done? && |s.servers| < n
        && o.p.index == s.index + 1 && o.p.servers == s.servers + [s.index]
        && o.p.conns[s.index] == ConnRec(EPOLLIN, a.accept.value)
        && o.p.pending == s.pending)
  {
    if a.accept.Done? {
      FdAddSlot(s, n, a.accept.value, EPOLLIN);
    }
  }

  /** Any other event succeeds exactly when getsockopt reports SO_ERROR 0;
      then it re-arms its slot for EPOLLIN and takes one off `pending`. A
      failed getsockopt or a nonzero status is fatal. */
  lemma HandshakeConnects(s: Proc, n: nat, svfd: int, ev: ReadyEvent<nat>, a: Answer)
    requires Wf(s, n) && ev.data < s.index && s.conns[ev.data].fd != svfd
    ensures var o := AfterHandshakeEvent(s, n, svfd, ev, a);
      var c := ev.data;
      && (o.Ok? <==> a.soError == Done(0))
      && (a.soError.Failed? ==> o == Fatal(Reported(GetSockOptCall, a.soError.errno)))
      && (a.soError.Done? && a.soError.value != 0 ==> o == Fatal(Reported(SoErrorCheck, EINVAL)))
      && (o.Ok? ==>
        && Wf(o.p, n)
        && (forall d :: 0 <= d < s.index ==> o.p.conns[d].fd == s.conns[d].fd)
        && o.p.clients == s.clients && o.p.tmfd == s.tmfd && o.p.stats == s.stats
        && o.p.index == s.index && o.p.servers == s.servers
        && o.p.conns[c].events == EPOLLIN
        && o.p.interest[s.conns[c].fd] == Registration(EPOLLIN | EPOLLET, c)
        && o.p.pending == s.pending - 1)
  {
    FdModSlot(s, n, ev.data, EPOLLIN);
  }

  /** The handshake loop's pass over one ready list. */
  function AfterHandshakeEvents(s: Proc, n: nat, svfd: int, ready: seq<ReadyEvent<nat>>, answers: seq<Answer>): (o: Outcome)
    requires Sized(s, n) && |answers| == |ready| && InTable(ready, n)
    ensures o.Ok? ==> Sized(o.p, n)
    decreases |ready|
  {
    if ready == [] then Ok(s)
    else
      match AfterHandshakeEvent(s, n, svfd, ready[0], answers[0])
      case Fatal(x) => Fatal(x)
      case Ok(t) => AfterHandshakeEvents(t, n, svfd, ready[1..], answers[1..])
  }

  /** Number of events of a ready list on the listener. */
  function Listeners(conns: seq<ConnRec>, svfd: int, ready: seq<ReadyEvent<nat>>): (k: nat)
    requires forall i :: 0 <= i < |ready| ==> ready[i].data < |conns|
    ensures k <= |ready|
  {
    if ready == [] then 0
    else (if conns[ready[0].data].fd == svfd then 1 else 0) + Listeners(conns, svfd, ready[1..])
  }

  lemma {:induction false} ListenersFrame(c1: seq<ConnRec>, c2: seq<ConnRec>, bound: nat, svfd: int, ready: seq<ReadyEvent<nat>>)
    requires bound <= |c1| && bound <= |c2|
    requires forall d :: 0 <= d < bound ==> c1[d].fd == c2[d].fd
    requires forall i :: 0 <= i < |ready| ==> ready[i].data < bound
    ensures Listeners(c1, svfd, ready) == Listeners(c2, svfd, ready)
    decreases |ready|
  {
    if ready != [] {
      ListenersFrame(c1, c2, bound, svfd, ready[1..]);
    }
  }

  /** Over one ready list the table stays well formed, `index` only grows,
      and the clients, `tmfd`, the counters and the descriptors of slots
      already in use stay as they were. */
  lemma {:induction false} HandshakeFrame(s: Proc, n: nat, svfd: int, ready: seq<ReadyEvent<nat>>, answers: seq<Answer>)
    requires Wf(s, n) && |answers| == |ready|
    requires forall i :: 0 <= i < |ready| ==> ready[i].data < s.index
    ensures var o := AfterHandshakeEvents(s, n, svfd, ready, answers);
      o.Ok? ==>
        && Wf(o.p, n) && s.index <= o.p.index
        && o.p.clients == s.clients && o.p.tmfd == s.tmfd && o.p.stats == s.stats
        && (forall d :: 0 <= d < s.index ==> o.p.conns[d].fd == s.conns[d].fd)
    decreases |ready|
  {
    if ready != [] && AfterHandshakeEvent(s, n, svfd, ready[0], answers[0]).Ok? {
      if s.conns[ready[0].data].fd == svfd {
        HandshakeAccepts(s, n, svfd, ready[0], answers[0]);
      } else {
        HandshakeConnects(s, n, svfd, ready[0], answers[0]);
      }
      var t := AfterHandshakeEvent(s, n, svfd, ready[0], answers[0]).p;
      assert AfterHandshakeEvents(s, n, svfd, ready, answers) == AfterHandshakeEvents(t, n, svfd, ready[1..], answers[1..]);
      HandshakeFrame(t, n, svfd, ready[1..], answers[1..]);
    }
  }

  /** Over one ready list, every listener event adds a server slot and every
      other event takes one off `pending`. */
  lemma {:induction false} HandshakeCounts(s: Proc, n: nat, svfd: int, ready: seq<ReadyEvent<nat>>, answers: seq<Answer>)
    requires Wf(s, n) && |answers| == |ready| && |s.servers| <= n
    requires forall i :: 0 <= i < |ready| ==> ready[i].data < s.index
    ensures var o := AfterHandshakeEvents(s, n, svfd, ready, answers);
      var k := Listeners(s.conns, svfd, ready);
      o.Ok? ==>
        && o.p.pending == s.pending - (|ready| - k)
        && o.p.index == s.index + k
        && |o.p.servers| == |s.servers| + k
        && |o.p.servers| <= n
    decreases |ready|
  {
    var o := AfterHandshakeEvents(s, n, svfd, ready, answers);
    if ready != [] && o.Ok? {
      if s.conns[ready[0].data].fd == svfd {
        HandshakeAccepts(s, n, svfd, ready[0], answers[0]);
      } else {
        HandshakeConnects(s, n, svfd, ready[0], answers[0]);
      }
      var t := AfterHandshakeEvent(s, n, svfd, ready[0], answers[0]).p;
      assert o == AfterHandshakeEvents(t, n, svfd, ready[1..], answers[1..]);
      HandshakeCounts(t, n, svfd, ready[1..], answers[1..]);
      ListenersFrame(s.conns, t.conns, s.index, svfd, ready[1..]);
    }
  }

  /** One handshake event either appends the slot it takes to the server
      list or leaves both the list and the slot counter alone. */
  lemma HandshakeEventServers(s: Proc, n: nat, svfd: int, ev: ReadyEvent<nat>, a: Answer)
    requires Sized(s, n) && ev.data < Slots(n)
    ensures var o := AfterHandshakeEvent(s, n, svfd, ev, a);
      o.Ok? ==>
        || (o.p.index == s.index + 1 && o.p.servers == s.servers + [s.index])
        || (o.p.index == s.index && o.p.servers == s.servers)
  {
  }

  /** The slot numbers from `lo` up to, not including, `hi`. */
  function Taken(lo: nat, hi: nat): (cs: seq<nat>)
    ensures |cs| == if lo <= hi then hi - lo else 0
    ensures forall i :: 0 <= i < |cs| ==> cs[i] == lo + i
    decreases hi - lo
  {
    if hi <= lo then [] else [lo] + Taken(lo + 1, hi)
  }

  /** Taking slot `lo` and then the slots after it takes them all. */
  lemma TakenFirst(xs: seq<nat>, lo: nat, hi: nat)
    requires lo < hi
    ensures xs + [lo] + Taken(lo + 1, hi) == xs + Taken(lo, hi)
  {
    assert Taken(lo, hi) == [lo] + Taken(lo + 1, hi);
  }

  /** The server list grows only at its end, by exactly the slots the
      handshake handed out, in the order it handed them out. */
  lemma {:induction false} HandshakeAppendsServers(s: Proc, n: nat, svfd: int, ready: seq<ReadyEvent<nat>>, answers: seq<Answer>)
    requires Sized(s, n) && |answers| == |ready| && InTable(ready, n)
    ensures var o := AfterHandshakeEvents(s, n, svfd, ready, answers);
      o.Ok? ==> s.index <= o.p.index && o.p.servers == s.servers + Taken(s.index, o.p.index)
    decreases |ready|
  {
    var o := AfterHandshakeEvents(s, n, svfd, ready, answers);
    if ready != [] && o.Ok? {
      HandshakeEventServers(s, n, svfd, ready[0], answers[0]);
      var t := AfterHandshakeEvent(s, n, svfd, ready[0], answers[0]).p;
      assert o == AfterHandshakeEvents(t, n, svfd, ready[1..], answers[1..]);
      HandshakeAppendsServers(t, n, svfd, ready[1..], answers[1..]);
      if t.index == s.index + 1 {
        TakenFirst(s.servers, s.index, o.p.index);
      }
    }
  }

  /** One epoll_wait of the handshake loop and the answers its events get. */
  datatype Batch = Batch(wait: Attempt<seq<ReadyEvent<nat>>>, answers: seq<Answer>)

  predicate Fits(b: Batch, n: nat) {
    b.wait.Done? ==> |b.answers| == |b.wait.value| && InTable(b.wait.value, n)
  }

  /** One iteration of `while (pending)`: E() makes any failure of
      epoll_wait fatal, EINTR included. */
  function AfterHandshakeBatch(s: Proc, n: nat, svfd: int, b: Batch): (o: Outcome)
    requires Sized(s, n) && Fits(b, n)
    ensures o.Ok? ==> Sized(o.p, n)
  {
    match b.wait
    case Failed(e) => Fatal(Reported(EpollWaitCall, e))
    case Done(ready) => AfterHandshakeEvents(s, n, svfd, ready, b.answers)
  }

  /** `while (pending)`: wait for batches until `pending` is 0 (or the
      batches given run out). */
  function AfterHandshake(s: Proc, n: nat, svfd: int, batches: seq<Batch>): (o: Outcome)
    requires Sized(s, n) && forall i :: 0 <= i < |batches| ==> Fits(batches[i], n)
    ensures o.Ok? ==> Sized(o.p, n)
    decreases |batches|
  {
    if s.pending == 0 || batches == [] then Ok(s)
    else
      match AfterHandshakeBatch(s, n, svfd, batches[0])
      case Fatal(x) => Fatal(x)
      case Ok(t) => AfterHandshake(t, n, svfd, batches[1..])
  }

  /** epoll_wait's contract for every batch the loop waits for, each against
      the interest list of its own moment. */
  ghost predicate AllDelivered(s: Proc, n: nat, svfd: int, batches: seq<Batch>)
    requires Sized(s, n) && forall i :: 0 <= i < |batches| ==> Fits(batches[i], n)
    decreases |batches|
  {
    if s.pending == 0 || batches == [] then true
    else
      && (batches[0].wait.Done? ==> Delivered(s, batches[0].wait.value))
      && match AfterHandshakeBatch(s, n, svfd, batches[0])
         case Fatal(_) => true
         case Ok(t) => AllDelivered(t, n, svfd, batches[1..])
  }

  /** The loop stops exactly when `pending` reaches 0: once it is 0, no
      further batch is waited for, and while it is not, the loop waits again. */
  lemma {:induction false} HandshakeStopsAtZero(s: Proc, n: nat, svfd: int, batches: seq<Batch>, more: seq<Batch>)
    requires Sized(s, n)
    requires forall i :: 0 <= i < |batches| ==> Fits(batches[i], n)
    requires forall i :: 0 <= i < |more| ==> Fits(more[i], n)
    requires AfterHandshake(s, n, svfd, batches).Ok?
    ensures forall i :: 0 <= i < |batches + more| ==> Fits((batches + more)[i], n)
    ensures AfterHandshake(s, n, svfd, batches).p.pending == 0 ==>
      AfterHandshake(s, n, svfd, batches + more) == AfterHandshake(s, n, svfd, batches)
    ensures AfterHandshake(s, n, svfd, batches).p.pending != 0 && more != [] ==>
      AfterHandshake(s, n, svfd, batches + more)
      == AfterHandshake(AfterHandshake(s, n, svfd, batches).p, n, svfd, more)
    decreases |batches|
  {
    assert forall i :: 0 <= i < |batches + more| ==> Fits((batches + more)[i], n) by {
      forall i | 0 <= i < |batches + more|
        ensures Fits((batches + more)[i], n)
      {
        if i >= |batches| {
          assert (batches + more)[i] == more[i - |batches|];
        }
      }
    }
    if s.pending != 0 && batches != [] {
      assert (batches + more)[0] == batches[0];
      assert (batches + more)[1..] == batches[1..] + more;
      var t := AfterHandshakeBatch(s, n, svfd, batches[0]).p;
      HandshakeStopsAtZero(t, n, svfd, batches[1..], more);
    } else if batches == [] {
      assert batches + more == more;
    }
  }

  /** Over the whole handshake, each accept takes one slot and one server
      entry, the clients stay as they were, and `server_conns` never grows
      past its n entries. */
  lemma {:induction false} HandshakeKeepsBudget(s: Proc, n: nat, svfd: int, batches: seq<Batch>)
    requires Wf(s, n) && |s.servers| <= n
    requires forall i :: 0 <= i < |batches| ==> Fits(batches[i], n)
    requires AllDelivered(s, n, svfd, batches)
    ensures var o := AfterHandshake(s, n, svfd, batches);
      o.Ok? ==>
        && Wf(o.p, n)
        && o.p.index - |o.p.servers| == s.index - |s.servers|
        && |s.servers| <= |o.p.servers| <= n
        && o.p.clients == s.clients && o.p.tmfd == s.tmfd && o.p.stats == s.stats
    decreases |batches|
  {
    var o := AfterHandshake(s, n, svfd, batches);
    if s.pending != 0 && batches != [] && o.Ok? {
      var b := batches[0];
      var t := AfterHandshakeBatch(s, n, svfd, b).p;
      DeliveredInUse(s, n, b.wait.value);
      HandshakeFrame(s, n, svfd, b.wait.value, b.answers);
      HandshakeCounts(s, n, svfd, b.wait.value, b.answers);
      HandshakeKeepsBudget(t, n, svfd, batches[1..]);
    }
  }

  /** The loop's exit depends on `pending` alone, which counts connects and
      not accepts: a client whose connect completes ends the handshake though
      the listener has accepted nothing, leaving `server_conns` empty. */
  lemma HandshakeMayEndWithoutAccept()
    ensures var s := Proc([ConnRec(EPOLLIN, 3), ConnRec(EPOLLOUT, 4), ConnRec(0, 0), ConnRec(0, 0)], 2,
                          map[3 := Registration(EPOLLIN | EPOLLET, 0), 4 := Registration(EPOLLOUT | EPOLLET, 1)],
                          [1], [], 1, -1, Zeroed);
      var b := Batch(Done([ReadyEvent(EPOLLOUT, 1)]), [Answer(Failed(EAGAIN), Done(0))]);
      && Wf(s, 1) && Fits(b, 1)
      && AfterHandshake(s, 1, 3, [b]).Ok?
      && AfterHandshake(s, 1, 3, [b]).p.pending == 0
      && AfterHandshake(s, 1, 3, [b]).p.servers == []
  {
    var s := Proc([ConnRec(EPOLLIN, 3), ConnRec(EPOLLOUT, 4), ConnRec(0, 0), ConnRec(0, 0)], 2,
                  map[3 := Registration(EPOLLIN | EPOLLET, 0), 4 := Registration(EPOLLOUT | EPOLLET, 1)],
                  [1], [], 1, -1, Zeroed);
    var ready := [ReadyEvent(EPOLLOUT, 1)];
    var b := Batch(Done(ready), [Answer(Failed(EAGAIN), Done(0))]);
    var t := AfterHandshakeEvent(s, 1, 3, ready[0], b.answers[0]);
    assert t.Ok? && t.p.pending == 0 && t.p.servers == [];
    assert AfterHandshakeEvents(s, 1, 3, ready, b.answers) == AfterHandshakeEvents(t.p, 1, 3, [], []);
  }

  // ---------------------------------------------------------------------
  // Kick-off, lines 229-242, and the timer, line 244
  // ---------------------------------------------------------------------

  predicate SlotsIn(cs: seq<nat>, bound: nat) {
    forall i :: 0 <= i < |cs| ==> cs[i] < bound
  }

  /** The slot is gated EPOLLIN while the kernel has EPOLLIN|EPOLLOUT for it. */
  ghost predicate Primed(s: Proc, c: nat)
    requires c < |s.conns|
  {
    && s.conns[c].events == EPOLLIN
    && s.conns[c].fd in s.interest
    && s.interest[s.conns[c].fd] == Registration(EPOLLIN | EPOLLOUT | EPOLLET, c)
  }

  /** From s to t, the slots in cs were primed and nothing else changed but
      the counters: other slots, their registrations, every descriptor, the
      lists, `index`, `pending` and `tmfd` are as they were. */
  ghost predicate PrimedOnly(s: Proc, t: Proc, n: nat, cs: seq<nat>)
    requires Wf(s, n) && SlotsIn(cs, s.index)
  {
    && Wf(t, n)
    && t.index == s.index && t.clients == s.clients && t.servers == s.servers
    && t.pending == s.pending && t.tmfd == s.tmfd
    && (forall i :: 0 <= i < |cs| ==> Primed(t, cs[i]))
    && (forall c :: 0 <= c < |s.conns| && c !in cs ==> t.conns[c] == s.conns[c])
    && (forall c :: 0 <= c < s.index && c !in cs ==>
          s.conns[c].fd in t.interest && t.interest[s.conns[c].fd] == s.interest[s.conns[c].fd])
    && (forall c :: 0 <= c < |s.conns| ==> t.conns[c].fd == s.conns[c].fd)
  }

  /** fd_mod to EPOLLIN|EPOLLOUT, then the gate back to EPOLLIN. */
  function AfterPrime(s: Proc, c: nat): (o: Outcome)
    requires c < |s.conns|
    ensures o.Ok? ==> |o.p.conns| == |s.conns| && o.p.clients == s.clients && o.p.servers == s.servers
  {
    match AfterFdMod(s, c, EPOLLIN | EPOLLOUT)
    case Fatal(x) => Fatal(x)
    case Ok(t) => Ok(Gate(t, c, EPOLLIN))
  }

  /** Priming a slot fd_add handed out cannot fail, and changes only that
      slot and its registration. */
  lemma PrimeSlot(s: Proc, n: nat, c: nat)
    requires Wf(s, n) && c < s.index
    ensures AfterPrime(s, c).Ok?
    ensures PrimedOnly(s, AfterPrime(s, c).p, n, [c])
    ensures AfterPrime(s, c).p.stats == s.stats
  {
    FdModSlot(s, n, c, EPOLLIN | EPOLLOUT);
  }

  /** The client loop: the raw write of "PING" (its result ignored
      and its bytes not counted), then priming. */
  function AfterKickClients(s: Proc, cs: seq<nat>): (o: Outcome)
    requires SlotsIn(cs, |s.conns|)
    ensures o.Ok? ==> |o.p.conns| == |s.conns| && o.p.clients == s.clients && o.p.servers == s.servers
    decreases |cs|
  {
    if cs == [] then Ok(s)
    else
      match AfterPrime(s, cs[0])
      case Fatal(x) => Fatal(x)
      case Ok(t) => AfterKickClients(t, cs[1..])
  }

  /** One server: a counted do_write of "PONG", then priming. */
  function AfterKickServer(s: Proc, c: nat, w: seq<Attempt<nat>>): (o: Outcome)
    requires c < |s.conns| && Drains(w)
    ensures o.Ok? ==> |o.p.conns| == |s.conns| && o.p.clients == s.clients && o.p.servers == s.servers
  {
    match AfterDoWrite(s, w)
    case Fatal(x) => Fatal(x)
    case Ok(t) => AfterPrime(t, c)
  }

  /** The server loop. */
  function AfterKickServers(s: Proc, cs: seq<nat>, writes: seq<seq<Attempt<nat>>>): (o: Outcome)
    requires SlotsIn(cs, |s.conns|) && |writes| == |cs|
    requires forall i :: 0 <= i < |writes| ==> Drains(writes[i])
    ensures o.Ok? ==> |o.p.conns| == |s.conns|
    decreases |cs|
  {
    if cs == [] then Ok(s)
    else
      match AfterKickServer(s, cs[0], writes[0])
      case Fatal(x) => Fatal(x)
      case Ok(t) => AfterKickServers(t, cs[1..], writes[1..])
  }

  /** Both kick-off loops. */
  function AfterKickOff(s: Proc, writes: seq<seq<Attempt<nat>>>): (o: Outcome)
    requires SlotsIn(s.clients, |s.conns|) && SlotsIn(s.servers, |s.conns|)
    requires |writes| == |s.servers| && forall i :: 0 <= i < |writes| ==> Drains(writes[i])
  {
    match AfterKickClients(s, s.clients)
    case Fatal(x) => Fatal(x)
    case Ok(t) => AfterKickServers(t, t.servers, writes)
  }

  /** One server's kick-off fails only on a write error; it primes the slot
      and credits exactly the bytes the PONG write moved. */
  lemma KickServerSlot(s: Proc, n: nat, c: nat, w: seq<Attempt<nat>>)
    requires Wf(s, n) && c < s.index && Drains(w)
    ensures var o := AfterKickServer(s, c, w);
      && (o.Ok? <==> !Fails(w[StopIndex(w)]))
      && (o.Ok? ==>
            && PrimedOnly(s, o.p, n, [c])
            && o.p.stats == Counters(s.stats.bytesRead, s.stats.bytesWritten + Credit(w)))
  {
    if AfterDoWrite(s, w).Ok? {
      PrimeSlot(AfterDoWrite(s, w).p, n, c);
    }
  }

  /** Priming no slot changes nothing. */
  lemma NothingPrimed(s: Proc, n: nat)
    requires Wf(s, n)
    ensures PrimedOnly(s, s, n, [])
  {
  }

  /** Priming the first slot of cs and then the rest primes all of cs. */
  lemma PrimedOnlyTrans(s: Proc, t: Proc, u: Proc, n: nat, cs: seq<nat>)
    requires Wf(s, n) && cs != [] && SlotsIn(cs, s.index)
    requires PrimedOnly(s, t, n, [cs[0]])
    requires PrimedOnly(t, u, n, cs[1..])
    ensures PrimedOnly(s, u, n, cs)
  {
    var c := cs[0];
    forall i | 0 <= i < |cs|
      ensures Primed(u, cs[i])
    {
      if i > 0 {
        assert cs[i] == cs[1..][i - 1];
      } else if c in cs[1..] {
        var k :| 0 <= k < |cs[1..]| && cs[1..][k] == c;
        assert Primed(u, cs[1..][k]);
      } else {
        assert Primed(t, [c][0]);
        assert c < t.index && u.conns[c] == t.conns[c];
        assert u.interest[t.conns[c].fd] == t.interest[t.conns[c].fd];
      }
    }
    forall d | 0 <= d < |s.conns| && d !in cs
      ensures u.conns[d] == s.conns[d]
    {
      assert d !in cs[1..] && d != c;
    }
    forall d | 0 <= d < s.index && d !in cs
      ensures s.conns[d].fd in u.interest && u.interest[s.conns[d].fd] == s.interest[s.conns[d].fd]
    {
      assert d !in cs[1..] && d != c;
      assert t.conns[d].fd == s.conns[d].fd;
    }
  }

  /** The client loop cannot fail on slots fd_add handed out; it primes every
      slot it visits and changes nothing else, not even the counters. */
  lemma {:induction false} KickClientsPrime(s: Proc, n: nat, cs: seq<nat>)
    requires Wf(s, n) && SlotsIn(cs, s.index)
    ensures var o := AfterKickClients(s, cs);
      && o.Ok?
      && PrimedOnly(s, o.p, n, cs)
      && o.p.stats == s.stats
    decreases |cs|
  {
    if cs != [] {
      var c := cs[0];
      PrimeSlot(s, n, c);
      var t := AfterPrime(s, c).p;
      assert AfterKickClients(s, cs) == AfterKickClients(t, cs[1..]);
      KickClientsPrime(t, n, cs[1..]);
      PrimedOnlyTrans(s, t, AfterKickClients(t, cs[1..]).p, n, cs);
    } else {
      NothingPrimed(s, n);
    }
  }

  /** Sum of the bytes the PONG writes credit. */
  function Credits(writes: seq<seq<Attempt<nat>>>): nat
    requires forall i :: 0 <= i < |writes| ==> Drains(writes[i])
  {
    if writes == [] then 0 else Credit(writes[0]) + Credits(writes[1..])
  }

  /** The server loop fails only on a write error: when every PONG write
      stops on 0 or EAGAIN, it goes on. */
  lemma {:induction false} KickServersSucceed(s: Proc, n: nat, cs: seq<nat>, writes: seq<seq<Attempt<nat>>>)
    requires Wf(s, n) && SlotsIn(cs, s.index) && |writes| == |cs|
    requires forall i :: 0 <= i < |writes| ==> Drains(writes[i]) && !Fails(writes[i][StopIndex(writes[i])])
    ensures AfterKickServers(s, cs, writes).Ok?
    decreases |cs|
  {
    if cs != [] {
      KickServerSlot(s, n, cs[0], writes[0]);
      var t := AfterKickServer(s, cs[0], writes[0]).p;
      assert forall i :: 0 <= i < |writes| - 1 ==> writes[1..][i] == writes[i + 1];
      KickServersSucceed(t, n, cs[1..], writes[1..]);
    }
  }

  /** The server loop's first step: one server kicked off, the rest of the
      loop still to run. */
  lemma KickServersFirst(s: Proc, n: nat, cs: seq<nat>, writes: seq<seq<Attempt<nat>>>)
    requires Wf(s, n) && SlotsIn(cs, s.index) && |writes| == |cs| && cs != []
    requires forall i :: 0 <= i < |writes| ==> Drains(writes[i])
    requires AfterKickServers(s, cs, writes).Ok?
    ensures AfterKickServer(s, cs[0], writes[0]).Ok?
    ensures var t := AfterKickServer(s, cs[0], writes[0]).p;
      && PrimedOnly(s, t, n, [cs[0]])
      && t.index == s.index && Wf(t, n)
      && (forall i :: 0 <= i < |writes[1..]| ==> Drains(writes[1..][i]))
      && AfterKickServers(s, cs, writes) == AfterKickServers(t, cs[1..], writes[1..])
  {
    KickServerSlot(s, n, cs[0], writes[0]);
    assert forall i :: 0 <= i < |writes| - 1 ==> writes[1..][i] == writes[i + 1];
  }

  /** The server loop primes every slot it visits and changes nothing else
      but the counters. */
  lemma {:induction false} KickServersPrime(s: Proc, n: nat, cs: seq<nat>, writes: seq<seq<Attempt<nat>>>)
    requires Wf(s, n) && SlotsIn(cs, s.index) && |writes| == |cs|
    requires forall i :: 0 <= i < |writes| ==> Drains(writes[i])
    ensures var o := AfterKickServers(s, cs, writes);
      o.Ok? ==> PrimedOnly(s, o.p, n, cs)
    decreases |cs|
  {
    var o := AfterKickServers(s, cs, writes);
    if cs == [] {
      NothingPrimed(s, n);
    } else if o.Ok? {
      KickServersFirst(s, n, cs, writes);
      var t := AfterKickServer(s, cs[0], writes[0]).p;
      KickServersPrime(t, n, cs[1..], writes[1..]);
      PrimedOnlyTrans(s, t, o.p, n, cs);
    }
  }

  /** `bytes_written` grows by exactly the bytes the PONG writes moved, and
      `bytes_read` stays. */
  lemma {:induction false} KickServersCredit(s: Proc, n: nat, cs: seq<nat>, writes: seq<seq<Attempt<nat>>>)
    requires Wf(s, n) && SlotsIn(cs, s.index) && |writes| == |cs|
    requires forall i :: 0 <= i < |writes| ==> Drains(writes[i])
    ensures var o := AfterKickServers(s, cs, writes);
      o.Ok? ==> o.p.stats == Counters(s.stats.bytesRead, s.stats.bytesWritten + Credits(writes))
    decreases |cs|
  {
    var o := AfterKickServers(s, cs, writes);
    if cs != [] && o.Ok? {
      KickServerSlot(s, n, cs[0], writes[0]);
      var t := AfterKickServer(s, cs[0], writes[0]).p;
      assert forall i :: 0 <= i < |writes| - 1 ==> writes[1..][i] == writes[i + 1];
      KickServersCredit(t, n, cs[1..], writes[1..]);
    }
  }

  /** After kick-off every client and server slot is gated EPOLLIN while the
      kernel has EPOLLIN|EPOLLOUT for it; only the servers' PONGs are counted,
      the clients' PINGs are not. */
  lemma KickOffPrimes(s: Proc, n: nat, writes: seq<seq<Attempt<nat>>>)
    requires Wf(s, n) && SlotsIn(s.clients, s.index) && SlotsIn(s.servers, s.index)
    requires |writes| == |s.servers| && forall i :: 0 <= i < |writes| ==> Drains(writes[i])
    ensures var o := AfterKickOff(s, writes);
      o.Ok? ==>
        && Wf(o.p, n)
        && (forall i :: 0 <= i < |o.p.clients| ==> Primed(o.p, o.p.clients[i]))
        && (forall i :: 0 <= i < |o.p.servers| ==> Primed(o.p, o.p.servers[i]))
        && o.p.index == s.index && o.p.clients == s.clients && o.p.servers == s.servers
        && o.p.pending == s.pending && o.p.tmfd == s.tmfd
        && o.p.stats == Counters(s.stats.bytesRead, s.stats.bytesWritten + Credits(writes))
  {
    KickClientsPrime(s, n, s.clients);
    var t := AfterKickClients(s, s.clients).p;
    KickServersPrime(t, n, t.servers, writes);
    KickServersCredit(t, n, t.servers, writes);
    var o := AfterKickOff(s, writes);
    if o.Ok? {
      forall i | 0 <= i < |s.clients|
        ensures Primed(o.p, s.clients[i])
      {
        var c := s.clients[i];
        if c !in s.servers {
          assert Primed(t, c);
          assert o.p.conns[c] == t.conns[c];
        }
      }
    }
  }

  /** Line 244: make_timer_fd stores its descriptor (or -1) in `tmfd`, then
      fd_add registers it for EPOLLIN; -1 is refused by the kernel. */
  function AfterAddTimer(s: Proc, n: nat, fd: int): Outcome
    requires Sized(s, n)
  {
    AfterFdAdd(s.(tmfd := fd), n, fd, EPOLLIN)
  }

  /** With the listener, n clients and at most n servers in the table, the
      timer's fd_add finds its slot free; it fails only when the kernel
      refuses the descriptor. */
  lemma TimerSlotFits(s: Proc, n: nat, fd: int)
    requires Wf(s, n) && s.index == 1 + |s.clients| + |s.servers|
    requires |s.clients| == n && |s.servers| <= n
    ensures AfterAddTimer(s, n, fd).Ok? <==> fd >= 0 && fd !in s.interest
    ensures AfterAddTimer(s, n, fd).Ok? ==> AfterAddTimer(s, n, fd).p.tmfd == fd
  {
    FdAddSlot(s.(tmfd := fd), n, fd, EPOLLIN);
  }

  // ---------------------------------------------------------------------
  // Steady state, lines 246-269
  // ---------------------------------------------------------------------

  /** One event of the steady loop: the timer is drained and reported; a gated
      EPOLLIN reads and flips the gate to EPOLLOUT; otherwise a gated EPOLLOUT
      writes "PING" and flips it to EPOLLIN; anything else is ignored. Each
      branch ends with `continue`, so at most one of them runs. */
  function AfterSteadyEvent(s: Proc, ev: ReadyEvent<nat>, replies: seq<Attempt<nat>>): (o: Outcome)
    requires ev.data < |s.conns| && Drains(replies)
    ensures o.Ok? ==> |o.p.conns| == |s.conns|
  {
    var c := ev.data;
    var rec := s.conns[c];
    if rec.fd == s.tmfd then
      match AfterDoRead(s, replies)
      case Fatal(x) => Fatal(x)
      case Ok(t) => Ok(t.(stats := Zeroed))
    else if (ev.events & EPOLLIN) & (rec.events & EPOLLIN) != 0 then
      match AfterDoRead(s, replies)
      case Fatal(x) => Fatal(x)
      case Ok(t) => Ok(Gate(t, c, EPOLLOUT))
    else if (ev.events & EPOLLOUT) & (rec.events & EPOLLOUT) != 0 then
      match AfterDoWrite(s, replies)
      case Fatal(x) => Fatal(x)
      case Ok(t) => Ok(Gate(t, c, EPOLLIN))
    else Ok(s)
  }

  /** The `for` loop over one ready list. */
  function AfterSteadyEvents(s: Proc, ready: seq<ReadyEvent<nat>>, scripts: seq<seq<Attempt<nat>>>): (o: Outcome)
    requires |scripts| == |ready| && forall i :: 0 <= i < |scripts| ==> Drains(scripts[i])
    requires forall i :: 0 <= i < |ready| ==> ready[i].data < |s.conns|
    decreases |ready|
  {
    if ready == [] then Ok(s)
    else
      match AfterSteadyEvent(s, ready[0], scripts[0])
      case Fatal(x) => Fatal(x)
      case Ok(t) => AfterSteadyEvents(t, ready[1..], scripts[1..])
  }

  /** One iteration of `while (1)`: E() makes any epoll_wait failure fatal. */
  function AfterSteadyBatch(s: Proc, wait: Attempt<seq<ReadyEvent<nat>>>, scripts: seq<seq<Attempt<nat>>>): Outcome
    requires wait.Done? ==> |scripts| == |wait.value| && forall i :: 0 <= i < |wait.value| ==> wait.value[i].data < |s.conns|
    requires forall i :: 0 <= i < |scripts| ==> Drains(scripts[i])
  {
    match wait
    case Failed(e) => Fatal(Reported(EpollWaitCall, e))
    case Done(ready) => AfterSteadyEvents(s, ready, scripts)
  }

  /** Every client and server slot is gated on exactly one of EPOLLIN and EPOLLOUT. */
  ghost predicate Gated(s: Proc) {
    && (forall i :: 0 <= i < |s.clients| && s.clients[i] < |s.conns| ==>
          s.conns[s.clients[i]].events == EPOLLIN || s.conns[s.clients[i]].events == EPOLLOUT)
    && (forall i :: 0 <= i < |s.servers| && s.servers[i] < |s.conns| ==>
          s.conns[s.servers[i]].events == EPOLLIN || s.conns[s.servers[i]].events == EPOLLOUT)
  }

  /** The timer event drains the timer, leaves every gate alone and ends with
      both counters at 0. */
  lemma SteadyTimer(s: Proc, ev: ReadyEvent<nat>, replies: seq<Attempt<nat>>)
    requires ev.data < |s.conns| && Drains(replies) && s.conns[ev.data].fd == s.tmfd
    ensures var o := AfterSteadyEvent(s, ev, replies);
      && (o.Ok? <==> !Fails(replies[StopIndex(replies)]))
      && (o.Ok? ==> o.p == s.(stats := Zeroed))
  {
  }

  /** A gated EPOLLIN reads and flips the gate to EPOLLOUT, even when the
      event also reports EPOLLOUT: nothing is written in that pass. */
  lemma SteadyGatedRead(s: Proc, ev: ReadyEvent<nat>, replies: seq<Attempt<nat>>)
    requires ev.data < |s.conns| && Drains(replies) && s.conns[ev.data].fd != s.tmfd
    requires Has(ev.events, EPOLLIN) && s.conns[ev.data].events == EPOLLIN
    ensures var o := AfterSteadyEvent(s, ev, replies);
      && (o.Ok? <==> !Fails(replies[StopIndex(replies)]))
      && (o.Ok? ==> o.p == Gate(s, ev.data, EPOLLOUT).(stats := Counters(s.stats.bytesRead + Credit(replies), s.stats.bytesWritten)))
  {
  }

  /** A gated EPOLLOUT writes and flips the gate to EPOLLIN. */
  lemma SteadyGatedWrite(s: Proc, ev: ReadyEvent<nat>, replies: seq<Attempt<nat>>)
    requires ev.data < |s.conns| && Drains(replies) && s.conns[ev.data].fd != s.tmfd
    requires Has(ev.events, EPOLLOUT) && s.conns[ev.data].events == EPOLLOUT
    ensures var o := AfterSteadyEvent(s, ev, replies);
      && (o.Ok? <==> !Fails(replies[StopIndex(replies)]))
      && (o.Ok? ==> o.p == Gate(s, ev.data, EPOLLIN).(stats := Counters(s.stats.bytesRead, s.stats.bytesWritten + Credit(replies))))
  {
  }

  /** An event whose flags miss the slot's gate is ignored. */
  lemma SteadyIgnores(s: Proc, ev: ReadyEvent<nat>, replies: seq<Attempt<nat>>)
    requires ev.data < |s.conns| && Drains(replies) && s.conns[ev.data].fd != s.tmfd
    requires ev.events & s.conns[ev.data].events & (EPOLLIN | EPOLLOUT) == 0
    ensures AfterSteadyEvent(s, ev, replies) == Ok(s)
  {
  }

  /** The slots a ready list's events point at. */
  function Named(ready: seq<ReadyEvent<nat>>): set<nat> {
    set i | 0 <= i < |ready| :: ready[i].data
  }

  /** One steady event flips at most its own gate, between EPOLLIN and
      EPOLLOUT, and changes nothing else but the counters. */
  lemma SteadyEventFrame(s: Proc, ev: ReadyEvent<nat>, replies: seq<Attempt<nat>>)
    requires ev.data < |s.conns| && Drains(replies) && Gated(s)
    ensures var o := AfterSteadyEvent(s, ev, replies);
      o.Ok? ==>
        && Gated(o.p)
        && o.p.interest == s.interest && o.p.index == s.index
        && o.p.clients == s.clients && o.p.servers == s.servers
        && o.p.pending == s.pending && o.p.tmfd == s.tmfd
        && |o.p.conns| == |s.conns|
        && (forall c :: 0 <= c < |s.conns| ==> o.p.conns[c].fd == s.conns[c].fd)
        && (forall c :: 0 <= c < |s.conns| && c != ev.data ==> o.p.conns[c] == s.conns[c])
  {
  }

  /** The steady loop issues no epoll_ctl and keeps every gate on exactly
      one of EPOLLIN and EPOLLOUT; descriptors, lists and `pending` stay. */
  lemma {:induction false} SteadyKeepsGates(s: Proc, ready: seq<ReadyEvent<nat>>, scripts: seq<seq<Attempt<nat>>>)
    requires |scripts| == |ready| && forall i :: 0 <= i < |scripts| ==> Drains(scripts[i])
    requires forall i :: 0 <= i < |ready| ==> ready[i].data < |s.conns|
    requires Gated(s)
    ensures var o := AfterSteadyEvents(s, ready, scripts);
      o.Ok? ==>
        && Gated(o.p)
        && o.p.interest == s.interest && o.p.index == s.index
        && o.p.clients == s.clients && o.p.servers == s.servers
        && o.p.pending == s.pending && o.p.tmfd == s.tmfd
        && |o.p.conns| == |s.conns|
        && (forall c :: 0 <= c < |s.conns| ==> o.p.conns[c].fd == s.conns[c].fd)
        && (forall c :: 0 <= c < |s.conns| && c !in Named(ready) ==> o.p.conns[c] == s.conns[c])
    decreases |ready|
  {
    if ready != [] && AfterSteadyEvent(s, ready[0], scripts[0]).Ok? {
      SteadyEventFrame(s, ready[0], scripts[0]);
      var t := AfterSteadyEvent(s, ready[0], scripts[0]).p;
      assert forall i :: 0 <= i < |scripts| - 1 ==> scripts[1..][i] == scripts[i + 1];
      assert AfterSteadyEvents(s, ready, scripts) == AfterSteadyEvents(t, ready[1..], scripts[1..]);
      SteadyKeepsGates(t, ready[1..], scripts[1..]);
    }
  }

  // ---------------------------------------------------------------------
  // The whole set-up
  // ---------------------------------------------------------------------

  /** From the calloc to the timer: the listener, n clients, the handshake
      (with `server_conns` kept to its n entries) and the kick-off use at
      most 2n+1 slots, so the timer's fd_add never fails its assert; it
      fails only if the kernel refuses the descriptor. */
  lemma SetupFitsTable(n: nat, svfd: int, dials: seq<Dial>, batches: seq<Batch>, writes: seq<seq<Attempt<nat>>>, fd: int)
    requires |dials| == n
    requires forall i :: 0 <= i < |batches| ==> Fits(batches[i], n)
    requires forall i :: 0 <= i < |writes| ==> Drains(writes[i])
    ensures var s0 := AfterFdAdd(Initial(n), n, svfd, EPOLLIN);
      s0.Ok? ==>
      var s1 := AfterDials(s0.p, n, dials);
      s1.Ok? && AllDelivered(s1.p, n, svfd, batches) ==>
      var s2 := AfterHandshake(s1.p, n, svfd, batches);
      s2.Ok? && |writes| == |s2.p.servers| && SlotsIn(s2.p.clients, |s2.p.conns|) && SlotsIn(s2.p.servers, |s2.p.conns|) ==>
      var s3 := AfterKickOff(s2.p, writes);
      s3.Ok? ==>
        && |s3.p.clients| == n && |s3.p.servers| <= n
        && (AfterAddTimer(s3.p, n, fd).Ok? <==> fd >= 0 && fd !in s3.p.interest)
  {
    var s0 := AfterFdAdd(Initial(n), n, svfd, EPOLLIN);
    FdAddSlot(Initial(n), n, svfd, EPOLLIN);
    if s0.Ok? {
      DialsKeepWf(s0.p, n, dials);
      DialsTakeSlots(s0.p, n, dials);
      var s1 := AfterDials(s0.p, n, dials);
      if s1.Ok? && AllDelivered(s1.p, n, svfd, batches) {
        HandshakeKeepsBudget(s1.p, n, svfd, batches);
        var s2 := AfterHandshake(s1.p, n, svfd, batches);
        if s2.Ok? && |writes| == |s2.p.servers| {
          KickOffPrimes(s2.p, n, writes);
          var s3 := AfterKickOff(s2.p, writes);
          if s3.Ok? {
            TimerSlotFits(s3.p, n, fd);
          }
        }
      }
    }
  }

  // ---------------------------------------------------------------------
  // The process state in place
  // ---------------------------------------------------------------------

  /** Whether the process is still running after a step, or why it exited. */
  datatype Status = Running | Exited(cause: Exit)

  /** A step's status and new state are what the specification's outcome says. */
  ghost predicate Follows(st: Status, now: Proc, o: Outcome) {
    match o
    case Fatal(x) => st == Exited(x)
    case Ok(p) => st == Running && now == p
  }

  /**
   * The globals of tcp-bench.c: the `conns` table of 2n+2 records, fd_add's
   * static `index`, the interest list of `epfd`, the client and server
   * lists, `pending`, `tmfd` and the byte counters.
   */
  class Bench {
    const n: nat
    const svfd: int
    const conns: array<ConnRec>
    var index: nat
    var interest: Interest<nat>
    var clients: seq<nat>
    var servers: seq<nat>
    var pending: int
    var tmfd: int
    var stats: Counters

    ghost function State(): Proc
      reads this, conns
    {
      Proc(conns[..], index, interest, clients, servers, pending, tmfd, stats)
    }

    ghost predicate Valid()
      reads this, conns
    {
      conns.Length == Slots(n) && Wf(State(), n)
    }

    /** Line 154: the table calloc'd for n_conns connections; the listener
        socket `svfd` already made. */
    constructor (n: nat, svfd: int)
      ensures Valid() && State() == Initial(n)
      ensures this.n == n && this.svfd == svfd && fresh(conns)
    {
      this.n := n;
      this.svfd := svfd;
      conns := new ConnRec[Slots(n)](_ => ConnRec(0, 0));
      index := 0;
      interest := map[];
      clients := [];
      servers := [];
      pending := 0;
      tmfd := -1;
      stats := Zeroed;
    }

    /** fd_add: returns the slot it handed out. */
    method FdAdd(fd: int, events: Mask) returns (st: Status, c: nat)
      requires Valid()
      modifies this, conns
      ensures c == old(index)
      ensures Follows(st, State(), AfterFdAdd(old(State()), n, fd, events))
      ensures st.Running? ==> Valid()
    {
      c := index;
      if index >= Slots(n) {
        return Exited(AssertionFailure), c;
      }
      index := index + 1;
      conns[c] := ConnRec(events, fd);
      var a := Add(interest, fd, events | EPOLLET, c);
      if a.Failed? {
        return Exited(Reported(EpollCtlCall, a.errno)), c;
      }
      interest := a.value;
      st := Running;
      FdAddSlot(old(State()), n, fd, events);
    }

    /** fd_mod on a slot fd_add handed out; its descriptor is registered,
        so the kernel accepts the change. */
    method FdMod(c: nat, events: Mask)
      requires Valid() && c < index
      modifies conns, this`interest
      ensures AfterFdMod(old(State()), c, events) == Ok(State())
      ensures Valid()
    {
      FdModSlot(State(), n, c, events);
      var fd := conns[c].fd;
      conns[c] := ConnRec(events, fd);
      interest := Modify(interest, fd, events | EPOLLET, c).value;
    }

    /** do_read on a descriptor whose reads answer `replies`. */
    method DoRead(replies: seq<Attempt<nat>>) returns (st: Status)
      requires Valid() && Drains(replies)
      modifies this`stats
      ensures Follows(st, State(), AfterDoRead(old(State()), replies))
      ensures Valid()
    {
      var moved, last := Drain(replies);
      stats := stats.(bytesRead := stats.bytesRead + moved);
      if Fails(last) {
        return Exited(Reported(ReadCall, last.errno));
      }
      st := Running;
    }

    /** do_write on a descriptor whose writes answer `replies`. */
    method DoWrite(replies: seq<Attempt<nat>>) returns (st: Status)
      requires Valid() && Drains(replies)
      modifies this`stats
      ensures Follows(st, State(), AfterDoWrite(old(State()), replies))
      ensures Valid()
    {
      var moved, last := Drain(replies);
      stats := stats.(bytesWritten := stats.bytesWritten + moved);
      if Fails(last) {
        return Exited(Reported(WriteCall, last.errno));
      }
      st := Running;
    }

    /** do_report: print, then zero both counters. */
    method DoReport()
      requires Valid()
      modifies this`stats
      ensures State() == old(State()).(stats := Zeroed)
      ensures Valid()
    {
      stats := Zeroed;
    }

    /** One iteration of lines 174-194. */
    method ConnectClient(d: Dial) returns (st: Status)
      requires Valid()
      modifies this, conns
      ensures Follows(st, State(), AfterDial(old(State()), n, d))
      ensures st.Running? ==> Valid()
    {
      DialSlot(State(), n, d);
      if d.socket.Failed? {
        return Exited(Reported(SocketCall, d.socket.errno));
      }
      var c: nat;
      if d.connect.Done? {
        st, c := FdAdd(d.socket.value, EPOLLIN);
        if st.Exited? {
          return;
        }
      } else if d.connect.errno != EINPROGRESS {
        return Exited(Reported(ConnectCall, d.connect.errno));
      } else {
        st, c := FdAdd(d.socket.value, EPOLLOUT);
        if st.Exited? {
          return;
        }
        pending := pending + 1;
      }
      clients := clients + [c];
    }

    /** Lines 174-194: one socket and connect per client. */
    method ConnectClients(dials: seq<Dial>) returns (st: Status)
      requires Valid()
      modifies this, conns
      ensures Follows(st, State(), AfterDials(old(State()), n, dials))
      ensures st.Running? ==> Valid()
    {
      var i := 0;
      while i < |dials|
        invariant 0 <= i <= |dials|
        invariant Valid()
        invariant AfterDials(old(State()), n, dials) == AfterDials(State(), n, dials[i..])
      {
        assert dials[i..][0] == dials[i] && dials[i..][1..] == dials[i + 1..];
        st := ConnectClient(dials[i]);
        if st.Exited? {
          return;
        }
        i := i + 1;
      }
      st := Running;
    }

    /** One event of the handshake loop, on a slot fd_add handed out. */
    method HandshakeEvent(ev: ReadyEvent<nat>, a: Answer) returns (st: Status)
      requires Valid() && ev.data < index
      modifies this, conns
      ensures Follows(st, State(), AfterHandshakeEvent(old(State()), n, svfd, ev, a))
      ensures st.Running? ==> Valid() && old(index) <= index
    {
      var c := ev.data;
      if conns[c].fd == svfd {
        if a.accept.Failed? {
          return Exited(Reported(Accept4Call, a.accept.errno));
        }
        var slot: nat;
        st, slot := FdAdd(a.accept.value, EPOLLIN);
        if st.Exited? {
          return;
        }
        if |servers| >= n {
          return Exited(AssertionFailure);
        }
        servers := servers + [slot];
      } else {
        if a.soError.Failed? {
          return Exited(Reported(GetSockOptCall, a.soError.errno));
        }
        if a.soError.value != 0 {
          return Exited(Reported(SoErrorCheck, EINVAL));
        }
        FdMod(c, EPOLLIN);
        pending := pending - 1;
        st := Running;
      }
    }

    /** The `for` loop over one ready list of the handshake. */
    method HandshakeEvents(ready: seq<ReadyEvent<nat>>, answers: seq<Answer>) returns (st: Status)
      requires Valid() && |answers| == |ready|
      requires forall j :: 0 <= j < |ready| ==> ready[j].data < index
      modifies this, conns
      ensures Follows(st, State(), AfterHandshakeEvents(old(State()), n, svfd, ready, answers))
      ensures st.Running? ==> Valid()
    {
      var i := 0;
      while i < |ready|
        invariant 0 <= i <= |ready|
        invariant Valid()
        invariant forall j :: 0 <= j < |ready| ==> ready[j].data < index
        invariant AfterHandshakeEvents(old(State()), n, svfd, ready, answers)
               == AfterHandshakeEvents(State(), n, svfd, ready[i..], answers[i..])
      {
        assert ready[i..][0] == ready[i] && ready[i..][1..] == ready[i + 1..];
        assert answers[i..][0] == answers[i] && answers[i..][1..] == answers[i + 1..];
        st := HandshakeEvent(ready[i], answers[i]);
        if st.Exited? {
          return;
        }
        i := i + 1;
      }
      st := Running;
    }

    /** One iteration of `while (pending)`. */
    method HandshakeBatch(b: Batch) returns (st: Status)
      requires Valid() && Fits(b, n)
      requires b.wait.Done? ==> Delivered(State(), b.wait.value)
      modifies this, conns
      ensures Follows(st, State(), AfterHandshakeBatch(old(State()), n, svfd, b))
      ensures st.Running? ==> Valid()
    {
      if b.wait.Failed? {
        return Exited(Reported(EpollWaitCall, b.wait.errno));
      }
      DeliveredInUse(State(), n, b.wait.value);
      st := HandshakeEvents(b.wait.value, b.answers);
    }

    /** Lines 196-225: `while (pending)` over the batches epoll_wait returns;
        `waited` is the number of batches it waited for. */
    method Handshake(batches: seq<Batch>) returns (st: Status, waited: nat)
      requires Valid()
      requires forall i :: 0 <= i < |batches| ==> Fits(batches[i], n)
      requires AllDelivered(State(), n, svfd, batches)
      modifies this, conns
      ensures waited <= |batches|
      ensures Follows(st, State(), AfterHandshake(old(State()), n, svfd, batches))
      ensures st.Running? ==> Valid() && (pending == 0 || waited == |batches|)
    {
      waited := 0;
      while pending != 0 && waited < |batches|
        invariant waited <= |batches|
        invariant Valid()
        invariant AllDelivered(State(), n, svfd, batches[waited..])
        invariant AfterHandshake(old(State()), n, svfd, batches) == AfterHandshake(State(), n, svfd, batches[waited..])
        decreases |batches| - waited
      {
        assert batches[waited..][0] == batches[waited] && batches[waited..][1..] == batches[waited + 1..];
        st := HandshakeBatch(batches[waited]);
        if st.Exited? {
          return;
        }
        waited := waited + 1;
      }
      st := Running;
    }

    /** fd_mod to EPOLLIN|EPOLLOUT, then `c->events = EPOLLIN`. */
    method Prime(c: nat)
      requires Valid() && c < index
      modifies conns, this`interest
      ensures AfterPrime(old(State()), c) == Ok(State())
      ensures Valid()
    {
      PrimeSlot(State(), n, c);
      FdMod(c, EPOLLIN | EPOLLOUT);
      conns[c] := ConnRec(EPOLLIN, conns[c].fd);
    }

    /** One server of the kick-off: a counted PONG, then priming. */
    method KickServer(c: nat, w: seq<Attempt<nat>>) returns (st: Status)
      requires Valid() && c < index && Drains(w)
      modifies conns, this`interest, this`stats
      ensures Follows(st, State(), AfterKickServer(old(State()), c, w))
      ensures st.Running? ==> Valid()
    {
      st := DoWrite(w);
      if st.Exited? {
        return;
      }
      Prime(c);
    }

    /** Lines 229-235: prime every client after its raw, uncounted PING. */
    method KickClients() returns (st: Status)
      requires Valid()
      modifies conns, this`interest
      ensures Follows(st, State(), AfterKickClients(old(State()), clients))
      ensures st.Running? ==> Valid()
    {
      var i := 0;
      while i < |clients|
        invariant 0 <= i <= |clients|
        invariant Valid()
        invariant AfterKickClients(old(State()), clients) == AfterKickClients(State(), clients[i..])
      {
        assert clients[i..][0] == clients[i] && clients[i..][1..] == clients[i + 1..];
        Prime(clients[i]);
        i := i + 1;
      }
      st := Running;
    }

    /** Lines 237-242: prime every server after its counted PONG. */
    method KickServers(writes: seq<seq<Attempt<nat>>>) returns (st: Status)
      requires Valid()
      requires |writes| == |servers| && forall i :: 0 <= i < |writes| ==> Drains(writes[i])
      modifies conns, this`interest, this`stats
      ensures Follows(st, State(), AfterKickServers(old(State()), servers, writes))
      ensures st.Running? ==> Valid()
    {
      var i := 0;
      while i < |servers|
        invariant 0 <= i <= |servers|
        invariant Valid()
        invariant SlotsIn(servers, index) && SlotsIn(servers[i..], index)
        invariant forall j :: 0 <= j < |writes[i..]| ==> Drains(writes[i..][j])
        invariant AfterKickServers(old(State()), servers, writes) == AfterKickServers(State(), servers[i..], writes[i..])
      {
        assert servers[i..][0] == servers[i] && servers[i..][1..] == servers[i + 1..];
        assert writes[i..][0] == writes[i] && writes[i..][1..] == writes[i + 1..];
        st := KickServer(servers[i], writes[i]);
        if st.Exited? {
          return;
        }
        i := i + 1;
      }
      st := Running;
    }

    /** Lines 229-242: both kick-off loops. */
    method KickOff(writes: seq<seq<Attempt<nat>>>) returns (st: Status)
      requires Valid()
      requires |writes| == |servers| && forall i :: 0 <= i < |writes| ==> Drains(writes[i])
      modifies conns, this`interest, this`stats
      ensures Follows(st, State(), AfterKickOff(old(State()), writes))
      ensures st.Running? ==> Valid()
    {
      st := KickClients();
      if st.Exited? {
        return;
      }
      st := KickServers(writes);
    }

    /** Line 244: `tmfd` from make_timer_fd, then fd_add for EPOLLIN. */
    method AddTimer(fd: int) returns (st: Status)
      requires Valid()
      modifies this, conns
      ensures Follows(st, State(), AfterAddTimer(old(State()), n, fd))
      ensures st.Running? ==> Valid()
    {
      tmfd := fd;
      var c: nat;
      st, c := FdAdd(fd, EPOLLIN);
    }

    /** One event of the steady loop. */
    method SteadyEvent(ev: ReadyEvent<nat>, replies: seq<Attempt<nat>>) returns (st: Status)
      requires Valid() && ev.data < conns.Length && Drains(replies)
      modifies conns, this`stats
      ensures Follows(st, State(), AfterSteadyEvent(old(State()), ev, replies))
      ensures st.Running? ==> Valid()
    {
      var c := ev.data;
      if conns[c].fd == tmfd {
        st := DoRead(replies);
        if st.Exited? {
          return;
        }
        DoReport();
      } else if (ev.events & EPOLLIN) & (conns[c].events & EPOLLIN) != 0 {
        st := DoRead(replies);
        if st.Exited? {
          return;
        }
        conns[c] := ConnRec(EPOLLOUT, conns[c].fd);
      } else if (ev.events & EPOLLOUT) & (conns[c].events & EPOLLOUT) != 0 {
        st := DoWrite(replies);
        if st.Exited? {
          return;
        }
        conns[c] := ConnRec(EPOLLIN, conns[c].fd);
      } else {
        st := Running;
      }
    }

    /** One iteration of the steady `while (1)`: no epoll_ctl is issued. */
    method SteadyBatch(wait: Attempt<seq<ReadyEvent<nat>>>, scripts: seq<seq<Attempt<nat>>>) returns (st: Status)
      requires Valid()
      requires wait.Done? ==> |scripts| == |wait.value| && InTable(wait.value, n)
      requires forall i :: 0 <= i < |scripts| ==> Drains(scripts[i])
      modifies conns, this`stats
      ensures Follows(st, State(), AfterSteadyBatch(old(State()), wait, scripts))
      ensures st.Running? ==> Valid()
    {
      if wait.Failed? {
        return Exited(Reported(EpollWaitCall, wait.errno));
      }
      var ready := wait.value;
      var i := 0;
      while i < |ready|
        invariant 0 <= i <= |ready|
        invariant Valid()
        invariant InTable(ready[i..], n) && forall j :: 0 <= j < |scripts[i..]| ==> Drains(scripts[i..][j])
        invariant AfterSteadyEvents(old(State()), ready, scripts) == AfterSteadyEvents(State(), ready[i..], scripts[i..])
      {
        assert ready[i..][0] == ready[i] && ready[i..][1..] == ready[i + 1..];
        assert scripts[i..][0] == scripts[i] && scripts[i..][1..] == scripts[i + 1..];
        st := SteadyEvent(ready[i], scripts[i]);
        if st.Exited? {
          return;
        }
        i := i + 1;
      }
      st := Running;
    }
  }
}
