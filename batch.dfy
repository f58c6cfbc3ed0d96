/**
 * bench.c: UDP peers with batched interest updates. do_epoll acts on every
 * reported IN/OUT flag directly (there is no gate in user space), queues
 * the opposite interest for the descriptor with the UPDATE macro, and at the
 * end of the pass hands the whole queue to the kernel, either as one
 * epoll_ctlv call or as a loop of epoll_ctl calls.
 */
module BatchBench {
  import opened Epoll
  import opened Syscall
  import opened Stats
  import opened Datagram

  /** Slots in do_epoll's `struct epoll_ctl_event events[1024]`. */
  const UPDATE_SLOTS: nat := 1024

  /** `struct epoll_ctl_event`: one queued interest change. */
  datatype CtlEvent = CtlEvent(fd: int, op: Op, events: Mask, data: int)

  /** `UPDATE(fd, events)`: the tuple the macro writes for fd. */
  function Update(fd: int, events: Mask): CtlEvent {
    CtlEvent(fd, CtlMod, events | EPOLLET, fd)
  }

  /** A tuple of the only two kinds do_epoll queues. */
  predicate Queueable(u: CtlEvent) {
    u.op == CtlMod && u.data == u.fd && (u.events == EPOLLIN | EPOLLET || u.events == EPOLLOUT | EPOLLET)
  }

  /** bench.c's registrations: data.fd is the descriptor itself, and the
      mask is edge-triggered and asks for exactly one direction. */
  ghost predicate Shaped(k: Interest<int>) {
    forall fd :: fd in k ==> k[fd].data == fd && Has(k[fd].events, EPOLLET) && OneSided(k[fd].events)
  }

  /** What the perror/fprintf calls of the flush report. */
  datatype Diagnostic = CtlvError | CtlvPartial(processed: int, submitted: nat) | CtlError(fd: int)

  /** What one do_epoll pass has changed before its flush: do_send's static
      port, the byte counters and the queued tuples `events[0 .. nevents)`. */
  datatype Pass = Pass(port: int, stats: Counters, queued: seq<CtlEvent>)

  /** Either the pass goes on, or do_epoll has returned -1 in this state. */
  datatype Verdict = Continue(p: Pass) | Abort(p: Pass)

  /** do_epoll's body for one ready event; data.fd is the descriptor. */
  function Step(p: Pass, tmfd: int, npeers: int, ev: ReadyEvent<int>, io: EventIo): Verdict
    requires npeers != 0 && Settles(io.recv) && Settles(io.send)
  {
    var fd := ev.data;
    if HasForeign(ev.events) then Abort(p)
    else if fd == tmfd then Continue(p.(stats := Zeroed))
    else
      var r := Code(FirstAnswer(io.recv));
      if Has(ev.events, EPOLLIN) && r == -1 then Abort(p)
      else
        var p1 := if Has(ev.events, EPOLLIN)
                  then p.(stats := CreditRead(p.stats, r), queued := p.queued + [Update(fd, EPOLLOUT)])
                  else p;
        if !Has(ev.events, EPOLLOUT) then Continue(p1)
        else
          var s := Code(FirstAnswer(io.send));
          var p2 := p1.(port := NextPort(p1.port, npeers));
          if s == -1 then Abort(p2)
          else Continue(p2.(stats := CreditWritten(p2.stats, s), queued := p2.queued + [Update(fd, EPOLLIN)]))
  }

  /** do_epoll's loop over the ready list. */
  function Run(p: Pass, tmfd: int, npeers: int, ready: seq<ReadyEvent<int>>, io: seq<EventIo>): Verdict
    requires npeers != 0 && |io| == |ready| && Scripted(io)
    decreases |ready|
  {
    if ready == [] then Continue(p)
    else
      match Step(p, tmfd, npeers, ready[0], io[0])
      case Abort(q) => Abort(q)
      case Continue(q) => Run(q, tmfd, npeers, ready[1..], io[1..])
  }

  /** The kernel applying one tuple: EPOLL_CTL_MOD fails, and changes
      nothing, for a descriptor that is not registered. */
  function ApplyOne(k: Interest<int>, u: CtlEvent): Interest<int> {
    var a := Modify(k, u.fd, u.events, u.data);
    if a.Done? then a.value else k
  }

  /** Tuples applied one by one in queue order. A flush never adds or
      removes a registration. */
  function ApplyAll(k: Interest<int>, us: seq<CtlEvent>): (r: Interest<int>)
    ensures r.Keys == k.Keys
    decreases |us|
  {
    if us == [] then k else ApplyOne(ApplyAll(k, us[..|us| - 1]), us[|us| - 1])
  }

  /** One CtlError per tuple the fallback loop's epoll_ctl refuses. */
  function Refusals(k: Interest<int>, us: seq<CtlEvent>): seq<Diagnostic>
    decreases |us|
  {
    if us == [] then []
    else
      var u := us[|us| - 1];
      Refusals(k, us[..|us| - 1]) + (if u.fd in k then [] else [CtlError(u.fd)])
  }

  function Min(a: int, b: int): int {
    if a < b then a else b
  }

  /** The registrations after the flush. epoll_ctlv is taken to have applied
      the first `processed` tuples in order (none when it fails); the
      fallback loop applies every tuple in order. */
  function Flushed(k: Interest<int>, us: seq<CtlEvent>, haveCtlv: bool, processed: int): Interest<int> {
    if !haveCtlv then ApplyAll(k, us)
    else if processed <= 0 then k
    else ApplyAll(k, us[..Min(processed, |us|)])
  }

  /** What the flush writes to stderr. */
  function FlushDiagnostics(k: Interest<int>, us: seq<CtlEvent>, haveCtlv: bool, processed: int): seq<Diagnostic> {
    if !haveCtlv then Refusals(k, us)
    else if processed == -1 then [CtlvError]
    else if processed != |us| then [CtlvPartial(processed, |us|)]
    else []
  }

  /** What epoll_wait promises about a ready list it returns, and the
      scripts for the calls the list can cause: at most MAX_EVENTS entries,
      each for a registered descriptor, reporting IN/OUT only where the
      registration asks for it. */
  ghost predicate Delivered(k: Interest<int>, ready: seq<ReadyEvent<int>>, io: seq<EventIo>) {
    && |ready| <= MAX_EVENTS
    && |io| == |ready|
    && Scripted(io)
    && forall i :: 0 <= i < |ready| ==> ready[i].data in k && Within(ready[i].events, k[ready[i].data].events)
  }

  // ---------------------------------------------------------------------
  // Properties of one pass
  // ---------------------------------------------------------------------

  /** One event appends at most two tuples, each for its own descriptor. */
  lemma StepAppends(p: Pass, tmfd: int, npeers: int, ev: ReadyEvent<int>, io: EventIo)
    requires npeers != 0 && Settles(io.recv) && Settles(io.send)
    ensures var q := Step(p, tmfd, npeers, ev, io).p.queued;
      && |p.queued| <= |q| <= |p.queued| + 2
      && q[..|p.queued|] == p.queued
      && forall j :: |p.queued| <= j < |q| ==> Queueable(q[j]) && q[j].fd == ev.data != tmfd
  {
  }

  /** The pass only appends to the queue; each ready event adds at most two
      tuples, each an EPOLL_CTL_MOD whose data.fd is its descriptor and whose
      mask is IN|ET or OUT|ET, for a descriptor of the ready list other than
      the timer. */
  lemma {:induction false} RunQueues(p: Pass, tmfd: int, npeers: int, ready: seq<ReadyEvent<int>>, io: seq<EventIo>)
    requires npeers != 0 && |io| == |ready| && Scripted(io)
    ensures var q := Run(p, tmfd, npeers, ready, io).p.queued;
      && |p.queued| <= |q| <= |p.queued| + 2 * |ready|
      && q[..|p.queued|] == p.queued
      && forall j :: |p.queued| <= j < |q| ==>
           Queueable(q[j]) && q[j].fd != tmfd && exists i :: 0 <= i < |ready| && ready[i].data == q[j].fd
    decreases |ready|
  {
    if ready != [] {
      var v := Step(p, tmfd, npeers, ready[0], io[0]);
      StepAppends(p, tmfd, npeers, ready[0], io[0]);
      if v.Continue? {
        RunQueues(v.p, tmfd, npeers, ready[1..], io[1..]);
        var q := Run(p, tmfd, npeers, ready, io).p.queued;
        assert q == Run(v.p, tmfd, npeers, ready[1..], io[1..]).p.queued;
        assert q[..|p.queued|] == q[..|v.p.queued|][..|p.queued|];
        forall j | |v.p.queued| <= j < |q|
          ensures exists i :: 0 <= i < |ready| && ready[i].data == q[j].fd
        {
          var i :| 0 <= i < |ready[1..]| && ready[1..][i].data == q[j].fd;
          assert ready[i + 1].data == q[j].fd;
        }
      }
    }
  }

  /** When no event reports both directions, as epoll guarantees for
      one-sided registrations, a pass queues at most one tuple per event. */
  lemma {:induction false} RunQueuesOnePerEvent(p: Pass, tmfd: int, npeers: int, ready: seq<ReadyEvent<int>>, io: seq<EventIo>)
    requires npeers != 0 && |io| == |ready| && Scripted(io)
    requires forall i :: 0 <= i < |ready| ==> !(Has(ready[i].events, EPOLLIN) && Has(ready[i].events, EPOLLOUT))
    ensures |Run(p, tmfd, npeers, ready, io).p.queued| <= |p.queued| + |ready|
    decreases |ready|
  {
    if ready != [] {
      var v := Step(p, tmfd, npeers, ready[0], io[0]);
      if v.Continue? {
        RunQueuesOnePerEvent(v.p, tmfd, npeers, ready[1..], io[1..]);
      }
    }
  }

  /** The bound 2n is reached: when every event reports both IN and OUT and
      every call succeeds, each event queues two tuples, so 513 such events
      would need more than the 1024 slots of `events`. */
  lemma {:induction false} BothFlagsQueueTwo(p: Pass, tmfd: int, npeers: int, ready: seq<ReadyEvent<int>>, io: seq<EventIo>)
    requires npeers != 0 && |io| == |ready| && Scripted(io)
    requires forall i :: 0 <= i < |ready| ==> ready[i].events == EPOLLIN | EPOLLOUT && ready[i].data != tmfd
    requires forall i :: 0 <= i < |io| ==> FirstAnswer(io[i].recv).Done? && FirstAnswer(io[i].send).Done?
    ensures Run(p, tmfd, npeers, ready, io).Continue?
    ensures |Run(p, tmfd, npeers, ready, io).p.queued| == |p.queued| + 2 * |ready|
    ensures p.queued == [] && |ready| > UPDATE_SLOTS / 2 ==> |Run(p, tmfd, npeers, ready, io).p.queued| > UPDATE_SLOTS
    decreases |ready|
  {
    if ready != [] {
      var v := Step(p, tmfd, npeers, ready[0], io[0]);
      assert v.Continue?;
      BothFlagsQueueTwo(v.p, tmfd, npeers, ready[1..], io[1..]);
    }
  }

  /** A readable event queues OUT and a writable one queues IN; an event
      reporting both queues OUT then IN for the same descriptor. */
  lemma StepQueuesOpposite(p: Pass, tmfd: int, npeers: int, ev: ReadyEvent<int>, io: EventIo)
    requires npeers != 0 && Settles(io.recv) && Settles(io.send)
    requires !HasForeign(ev.events) && ev.data != tmfd
    requires FirstAnswer(io.recv).Done? && FirstAnswer(io.send).Done?
    ensures var v := Step(p, tmfd, npeers, ev, io);
      && v.Continue?
      && v.p.queued == p.queued
           + (if Has(ev.events, EPOLLIN) then [Update(ev.data, EPOLLOUT)] else [])
           + (if Has(ev.events, EPOLLOUT) then [Update(ev.data, EPOLLIN)] else [])
  {
  }

  /** A recv or send answered with -1, EAGAIN included, ends the pass with -1. */
  lemma StepFailedCallAborts(p: Pass, tmfd: int, npeers: int, ev: ReadyEvent<int>, io: EventIo)
    requires npeers != 0 && Settles(io.recv) && Settles(io.send)
    requires !HasForeign(ev.events) && ev.data != tmfd
    requires (Has(ev.events, EPOLLIN) && FirstAnswer(io.recv).Failed?)
          || (Has(ev.events, EPOLLOUT) && FirstAnswer(io.send).Failed?)
    ensures Step(p, tmfd, npeers, ev, io).Abort?
  {
  }

  /** An event with a flag other than IN/OUT makes do_epoll return -1 before
      the timer check: the pass ends in the state the earlier events left,
      and no later event is processed. */
  lemma {:induction false} ForeignFlagStops(p: Pass, tmfd: int, npeers: int, ready: seq<ReadyEvent<int>>, io: seq<EventIo>, k: nat)
    requires npeers != 0 && |io| == |ready| && Scripted(io)
    requires k < |ready| && HasForeign(ready[k].events)
    requires Run(p, tmfd, npeers, ready[..k], io[..k]).Continue?
    ensures Run(p, tmfd, npeers, ready, io) == Abort(Run(p, tmfd, npeers, ready[..k], io[..k]).p)
    decreases k
  {
    if k > 0 {
      var v := Step(p, tmfd, npeers, ready[0], io[0]);
      assert ready[..k][0] == ready[0] && io[..k][0] == io[0];
      assert ready[..k][1..] == ready[1..][..k - 1];
      assert io[..k][1..] == io[1..][..k - 1];
      ForeignFlagStops(v.p, tmfd, npeers, ready[1..], io[1..], k - 1);
    }
  }

  /** Timer events queue nothing and leave the port alone; a pass over
      timer events only ends with both counters at zero. */
  lemma {:induction false} TimerOnlyReports(p: Pass, tmfd: int, npeers: int, ready: seq<ReadyEvent<int>>, io: seq<EventIo>)
    requires npeers != 0 && |io| == |ready| && Scripted(io)
    requires forall i :: 0 <= i < |ready| ==> ready[i].data == tmfd && !HasForeign(ready[i].events)
    ensures var v := Run(p, tmfd, npeers, ready, io);
      && v.Continue?
      && v.p.queued == p.queued && v.p.port == p.port
      && v.p.stats == (if ready == [] then p.stats else Zeroed)
    decreases |ready|
  {
    if ready != [] {
      TimerOnlyReports(p.(stats := Zeroed), tmfd, npeers, ready[1..], io[1..]);
    }
  }

  // ---------------------------------------------------------------------
  // Properties of the flush
  // ---------------------------------------------------------------------

  /** The last tuple of a queue decides its own descriptor's registration
      and leaves every other one as the rest of the queue left it. */
  lemma ApplyLast(k: Interest<int>, us: seq<CtlEvent>, fd: int)
    requires fd in k && us != []
    ensures var u := us[|us| - 1];
      ApplyAll(k, us)[fd] == if u.fd == fd then Registration(u.events, u.data) else ApplyAll(k, us[..|us| - 1])[fd]
  {
  }

  /** The last tuple queued for a registered descriptor decides its
      registration. */
  lemma {:induction false} LastUpdateWins(k: Interest<int>, us: seq<CtlEvent>, fd: int, j: nat)
    requires fd in k && j < |us| && us[j].fd == fd
    requires forall l :: j < l < |us| ==> us[l].fd != fd
    ensures ApplyAll(k, us)[fd] == Registration(us[j].events, us[j].data)
    decreases |us|
  {
    ApplyLast(k, us, fd);
    if j < |us| - 1 {
      var init := us[..|us| - 1];
      assert forall l :: j < l < |init| ==> init[l] == us[l];
      LastUpdateWins(k, init, fd, j);
    }
  }

  /** A registered descriptor with no queued tuple keeps its registration. */
  lemma {:induction false} NoUpdateKeeps(k: Interest<int>, us: seq<CtlEvent>, fd: int)
    requires fd in k
    requires forall l :: 0 <= l < |us| ==> us[l].fd != fd
    ensures ApplyAll(k, us)[fd] == k[fd]
    decreases |us|
  {
    if us != [] {
      ApplyLast(k, us, fd);
      var init := us[..|us| - 1];
      assert forall l :: 0 <= l < |init| ==> init[l] == us[l];
      NoUpdateKeeps(k, init, fd);
    }
  }

  /** When both of a descriptor's tuples came from one event reporting IN
      and OUT (OUT queued, then IN) and nothing later names it, the
      descriptor ends registered for EPOLLIN|EPOLLET. */
  lemma BothFlagsEndReadable(k: Interest<int>, us: seq<CtlEvent>, fd: int, j: nat)
    requires fd in k && j + 1 < |us|
    requires us[j] == Update(fd, EPOLLOUT) && us[j + 1] == Update(fd, EPOLLIN)
    requires forall l :: j + 1 < l < |us| ==> us[l].fd != fd
    ensures ApplyAll(k, us)[fd] == Registration(EPOLLIN | EPOLLET, fd)
  {
    LastUpdateWins(k, us, fd, j + 1);
  }

  /** Applying tuples of the kinds UPDATE writes keeps every registration
      one-sided and edge-triggered. */
  lemma {:induction false} FlushKeepsShape(k: Interest<int>, us: seq<CtlEvent>)
    requires Shaped(k)
    requires forall j :: 0 <= j < |us| ==> Queueable(us[j])
    ensures Shaped(ApplyAll(k, us))
    decreases |us|
  {
    if us != [] {
      FlushKeepsShape(k, us[..|us| - 1]);
    }
  }

  /** When epoll_ctlv reports every tuple processed, it leaves the same
      registrations as the fallback loop and reports nothing. */
  lemma CtlvMatchesFallback(k: Interest<int>, us: seq<CtlEvent>, processed: int)
    ensures Flushed(k, us, true, |us|) == Flushed(k, us, false, processed)
    ensures FlushDiagnostics(k, us, true, |us|) == []
  {
    if us == [] {
      assert ApplyAll(k, us) == k;
    } else {
      assert us[..Min(|us|, |us|)] == us;
    }
  }

  /** The fallback loop reports nothing when every queued descriptor is registered. */
  lemma {:induction false} NoRefusals(k: Interest<int>, us: seq<CtlEvent>)
    requires forall j :: 0 <= j < |us| ==> us[j].fd in k
    ensures Refusals(k, us) == []
    decreases |us|
  {
    if us != [] {
      NoRefusals(k, us[..|us| - 1]);
    }
  }

  /**
   * The global state of one bench.c process that do_epoll reads and
   * writes: the timer descriptor, the shared do_recv/do_send state and the
   * kernel's interest list for `epfd`.
   */
  class Bench {
    const tmfd: int
    const haveCtlv: bool
    const traffic: Traffic
    var interest: Interest<int>

    ghost predicate Valid()
      reads this, traffic
    {
      traffic.Valid() && Shaped(interest)
    }

    /** main: the timer registered for EPOLLIN, then each peer socket that
        could be made registered for EPOLLOUT (a socket or registration that
        fails is reported and skipped). `socks` holds make_sock_fd's results,
        -1 for a failure. */
    constructor (npeers: int, tmfd: int, socks: seq<int>, haveCtlv: bool)
      requires npeers != 0 && tmfd >= 0
      requires |socks| == if npeers > 0 then npeers else 0
      ensures Valid() && fresh(traffic)
      ensures traffic.npeers == npeers && traffic.port == PORT && traffic.stats == Zeroed
      ensures this.tmfd == tmfd && this.haveCtlv == haveCtlv
      ensures tmfd in interest && interest[tmfd] == Registration(EPOLLIN | EPOLLET, tmfd)
      ensures forall fd :: fd in interest && fd != tmfd ==> interest[fd] == Registration(EPOLLOUT | EPOLLET, fd) && fd in socks
      ensures forall i :: 0 <= i < |socks| && socks[i] >= 0 ==> socks[i] in interest
    {
      this.tmfd := tmfd;
      this.haveCtlv := haveCtlv;
      traffic := new Traffic(npeers);
      var k: Interest<int> := map[tmfd := Registration(EPOLLIN | EPOLLET, tmfd)];
      var i := 0;
      while i < |socks|
        invariant 0 <= i <= |socks|
        invariant Shaped(k)
        invariant tmfd in k && k[tmfd] == Registration(EPOLLIN | EPOLLET, tmfd)
        invariant forall fd :: fd in k && fd != tmfd ==> k[fd] == Registration(EPOLLOUT | EPOLLET, fd) && fd in socks
        invariant forall j :: 0 <= j < i && socks[j] >= 0 ==> socks[j] in k
      {
        var fd := socks[i];
        if fd != -1 {
          var a := Add(k, fd, EPOLLOUT | EPOLLET, fd);
          if a.Done? {
            k := a.value;
          }
        }
        i := i + 1;
      }
      interest := k;
    }

    /** do_epoll: wait (retrying EINTR), run the ready list, flush the queue.
        `processed` is epoll_ctlv's answer, used when the build has it. */
    method DoEpoll(waits: seq<Attempt<seq<ReadyEvent<int>>>>, io: seq<EventIo>, processed: int)
      returns (rc: int, diags: seq<Diagnostic>)
      requires Valid() && Settles(waits)
      requires FirstAnswer(waits).Done? ==> Delivered(interest, FirstAnswer(waits).value, io)
      requires processed >= -1
      modifies this, traffic
      ensures Valid()
      ensures FirstAnswer(waits).Failed? ==>
        rc == -1 && diags == [] && interest == old(interest)
        && traffic.port == old(traffic.port) && traffic.stats == old(traffic.stats)
      ensures FirstAnswer(waits).Done? ==>
        var ready := FirstAnswer(waits).value;
        var v := Run(Pass(old(traffic.port), old(traffic.stats), []), tmfd, traffic.npeers, ready, io);
        && traffic.port == v.p.port && traffic.stats == v.p.stats
        && |v.p.queued| <= |ready|
        && (v.Abort? ==> rc == -1 && diags == [] && interest == old(interest))
        && (v.Continue? ==>
              && rc == 0
              && interest == Flushed(old(interest), v.p.queued, haveCtlv, processed)
              && diags == FlushDiagnostics(old(interest), v.p.queued, haveCtlv, processed))
    {
      var w, _ := RetryInterrupted(waits);
      if w.Failed? {
        return -1, [];
      }
      var ready := w.value;
      var aborted, events, nevents := Dispatch(ready, io);
      if aborted {
        return -1, [];
      }
      RunQueues(Pass(old(traffic.port), old(traffic.stats), []), tmfd, traffic.npeers, ready, io);
      assert forall j :: 0 <= j < nevents ==> events[j] == events[..nevents][j];
      diags := Flush(events, nevents, processed);
      rc := 0;
    }

    /** The loop over the ready list: returns whether it returned -1, and the
        queue `events[0 .. nevents)`. */
    method Dispatch(ready: seq<ReadyEvent<int>>, io: seq<EventIo>)
      returns (aborted: bool, events: array<CtlEvent>, nevents: nat)
      requires Valid() && Delivered(interest, ready, io)
      modifies traffic
      ensures Valid() && fresh(events) && events.Length == UPDATE_SLOTS
      ensures var v := Run(Pass(old(traffic.port), old(traffic.stats), []), tmfd, traffic.npeers, ready, io);
        && aborted == v.Abort?
        && traffic.port == v.p.port && traffic.stats == v.p.stats
        && nevents <= |ready| && events[..nevents] == v.p.queued
    {
      ghost var start := Pass(traffic.port, traffic.stats, []);
      events := new CtlEvent[UPDATE_SLOTS](_ => Update(0, 0));
      nevents := 0;
      var i := 0;
      while i < |ready|
        invariant 0 <= i <= |ready| && nevents <= i
        invariant traffic.Valid()
        invariant Run(start, tmfd, traffic.npeers, ready, io)
               == Run(Pass(traffic.port, traffic.stats, events[..nevents]), tmfd, traffic.npeers, ready[i..], io[i..])
      {
        assert ready[i..][0] == ready[i] && io[i..][0] == io[i];
        assert ready[i..][1..] == ready[i + 1..] && io[i..][1..] == io[i + 1..];
        aborted, nevents := Handle(ready[i], io[i], events, nevents);
        if aborted {
          return;
        }
        i := i + 1;
      }
      assert ready[i..] == [] && io[i..] == [];
      aborted := false;
    }

    /** do_epoll's body for one ready event of a registered descriptor:
        returns whether it returned -1, and the new `nevents`. */
    method Handle(ev: ReadyEvent<int>, e: EventIo, events: array<CtlEvent>, nevents: nat)
      returns (aborted: bool, count: nat)
      requires Valid() && Settles(e.recv) && Settles(e.send)
      requires ev.data in interest && Within(ev.events, interest[ev.data].events)
      requires nevents < events.Length
      modifies traffic, events
      ensures Valid()
      ensures var v := Step(Pass(old(traffic.port), old(traffic.stats), old(events[..nevents])), tmfd, traffic.npeers, ev, e);
        && aborted == v.Abort?
        && traffic.port == v.p.port && traffic.stats == v.p.stats
        && count <= nevents + 1 && events[..count] == v.p.queued
    {
      var flags := ev.events;
      var fd := ev.data;
      count := nevents;
      if HasForeign(flags) {
        return true, count;
      }
      if fd == tmfd {
        traffic.DoReport();
        return false, count;
      }
      WithinOneSided(flags, interest[fd].events);
      if Has(flags, EPOLLIN) {
        var r := traffic.DoRecv(e.recv);
        if r == -1 {
          return true, count;
        }
        events[count] := Update(fd, EPOLLOUT);
        count := count + 1;
        assert events[..count] == old(events[..nevents]) + [Update(fd, EPOLLOUT)];
      }
      if Has(flags, EPOLLOUT) {
        var r := traffic.DoSend(e.send);
        if r == -1 {
          return true, count;
        }
        events[count] := Update(fd, EPOLLIN);
        count := count + 1;
        assert events[..count] == old(events[..nevents]) + [Update(fd, EPOLLIN)];
      }
      aborted := false;
    }

    /** The flush of `events[0 .. nevents)`: one epoll_ctlv call, or the
        fallback loop of epoll_ctl calls that goes on past a refused tuple. */
    method Flush(events: array<CtlEvent>, nevents: nat, processed: int) returns (diags: seq<Diagnostic>)
      requires Valid() && nevents <= events.Length
      requires forall j :: 0 <= j < nevents ==> Queueable(events[j])
      requires processed >= -1
      modifies this
      ensures Valid()
      ensures interest == Flushed(old(interest), events[..nevents], haveCtlv, processed)
      ensures diags == FlushDiagnostics(old(interest), events[..nevents], haveCtlv, processed)
    {
      FlushKeepsShape(interest, events[..nevents]);
      if haveCtlv {
        if processed > 0 {
          assert events[..nevents][..Min(processed, nevents)] == events[..Min(processed, nevents)];
          FlushKeepsShape(interest, events[..Min(processed, nevents)]);
          interest := ApplyAll(interest, events[..Min(processed, nevents)]);
        }
        if processed == -1 {
          diags := [CtlvError];
        } else if processed != nevents {
          diags := [CtlvPartial(processed, nevents)];
        } else {
          diags := [];
        }
      } else {
        diags := FlushEach(events, nevents);
      }
    }

    /** The fallback loop: one epoll_ctl per queued tuple, in order, with a
        CtlError for each one the kernel refuses. */
    method FlushEach(events: array<CtlEvent>, nevents: nat) returns (diags: seq<Diagnostic>)
      requires nevents <= events.Length
      modifies this`interest
      ensures interest == ApplyAll(old(interest), events[..nevents])
      ensures diags == Refusals(old(interest), events[..nevents])
    {
      diags := [];
      var j := 0;
      while j < nevents
        invariant 0 <= j <= nevents
        invariant interest == ApplyAll(old(interest), events[..j])
        invariant diags == Refusals(old(interest), events[..j])
      {
        assert events[..j + 1][..j] == events[..j];
        var a := Modify(interest, events[j].fd, events[j].events, events[j].data);
        if a.Failed? {
          diags := diags + [CtlError(events[j].fd)];
        } else {
          interest := a.value;
        }
        j := j + 1;
      }
      assert events[..nevents] == events[..j];
    }
  }
}
