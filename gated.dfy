/**
 * udp-bench.c: UDP peers registered once for EPOLLIN|EPOLLOUT|EPOLLET.
 * do_epoll never touches the registration; each peer's `readable` and
 * `writable` bits gate which reported flag is acted on, and every successful
 * recv or send flips them.
 */
module GatedBench {
  import opened Epoll
  import opened Syscall
  import opened Stats
  import opened Datagram

  /** `peer_t`: the descriptor and the two one-bit gates. */
  datatype Peer = Peer(fd: int, readable: bool, writable: bool)

  /** What an event's `data.ptr` points at: main's stack record `tmp`,
      which holds the timer descriptor, or an element of `peers`. */
  datatype Owner = TimerRecord | PeerRecord(index: nat)

  /** Exactly one of the two gates is set. */
  predicate Alternating(p: Peer) {
    p.readable != p.writable
  }

  ghost predicate AllAlternating(peers: seq<Peer>) {
    forall i :: 0 <= i < |peers| ==> Alternating(peers[i])
  }

  /** The pointer is `&tmp` or points into an array of n peers. */
  predicate PointsInto(who: Owner, n: nat) {
    who.PeerRecord? ==> who.index < n
  }

  /** What a do_epoll pass changes: the peers' gates, do_send's static port
      and the byte counters. */
  datatype Pass = Pass(peers: seq<Peer>, port: int, stats: Counters)

  /** Either the pass goes on, or do_epoll has returned -1 in this state. */
  datatype Verdict = Continue(p: Pass) | Abort(p: Pass)

  /** `fd = peer->fd` for the record an event points at. */
  function FdOf(peers: seq<Peer>, tmfd: int, who: Owner): int
    requires PointsInto(who, |peers|)
  {
    match who
    case TimerRecord => tmfd
    case PeerRecord(i) => peers[i].fd
  }

  /** do_epoll's body for one ready event. */
  function Step(p: Pass, tmfd: int, npeers: int, ev: ReadyEvent<Owner>, io: EventIo): Verdict
    requires npeers != 0 && Settles(io.recv) && Settles(io.send)
    requires PointsInto(ev.data, |p.peers|)
  {
    var fd := FdOf(p.peers, tmfd, ev.data);
    if HasForeign(ev.events) then Abort(p)
    else if fd == tmfd then Continue(p.(stats := Zeroed))
    else
      var i := ev.data.index;
      var peer := p.peers[i];
      var r := Code(FirstAnswer(io.recv));
      if peer.readable && Has(ev.events, EPOLLIN) && r == -1 then Abort(p)
      else
        var p1 := if peer.readable && Has(ev.events, EPOLLIN)
                  then p.(peers := p.peers[i := Peer(peer.fd, false, true)], stats := CreditRead(p.stats, r))
                  else p;
        if !(p1.peers[i].writable && Has(ev.events, EPOLLOUT)) then Continue(p1)
        else
          var s := Code(FirstAnswer(io.send));
          var p2 := p1.(port := NextPort(p1.port, npeers));
          if s == -1 then Abort(p2)
          else Continue(p2.(peers := p2.peers[i := Peer(peer.fd, true, false)], stats := CreditWritten(p2.stats, s)))
  }

  /** Every event of the list points at `&tmp` or into the peers. */
  ghost predicate AllPointInto(ready: seq<ReadyEvent<Owner>>, n: nat) {
    forall i :: 0 <= i < |ready| ==> PointsInto(ready[i].data, n)
  }

  /** do_epoll's loop over the ready list. */
  function Run(p: Pass, tmfd: int, npeers: int, ready: seq<ReadyEvent<Owner>>, io: seq<EventIo>): Verdict
    requires npeers != 0 && |io| == |ready| && Scripted(io)
    requires AllPointInto(ready, |p.peers|)
    decreases |ready|
  {
    if ready == [] then Continue(p)
    else
      match Step(p, tmfd, npeers, ready[0], io[0])
      case Abort(q) => Abort(q)
      case Continue(q) =>
        assert |q.peers| == |p.peers|;
        Run(q, tmfd, npeers, ready[1..], io[1..])
  }

  /** Every registration's `data.ptr` is `&tmp`, which holds the timer
      descriptor, or points at the peer whose descriptor it registers. */
  ghost predicate Consistent(k: Interest<Owner>, peers: seq<Peer>, tmfd: int) {
    forall fd :: fd in k ==> PointsInto(k[fd].data, |peers|) && FdOf(peers, tmfd, k[fd].data) == fd
  }

  /** What epoll_wait promises about a ready list it returns: at most
      MAX_EVENTS events, each carrying the data of a registration; and the
      scripts for the calls the list can cause. */
  ghost predicate Delivered(k: Interest<Owner>, ready: seq<ReadyEvent<Owner>>, io: seq<EventIo>) {
    && |ready| <= MAX_EVENTS && |io| == |ready| && Scripted(io)
    && forall i :: 0 <= i < |ready| ==> Carries(k, ready[i].data)
  }

  /** Some registration carries this record as its data. */
  ghost predicate Carries(k: Interest<Owner>, who: Owner) {
    exists fd :: fd in k && k[fd].data == who
  }

  /** Every event epoll_wait delivers points at `&tmp` or into the peers. */
  lemma DeliveredPointsInto(k: Interest<Owner>, peers: seq<Peer>, tmfd: int, ready: seq<ReadyEvent<Owner>>, io: seq<EventIo>)
    requires Consistent(k, peers, tmfd) && Delivered(k, ready, io)
    ensures AllPointInto(ready, |peers|)
  {
    forall i | 0 <= i < |ready|
      ensures PointsInto(ready[i].data, |peers|)
    {
      assert Carries(k, ready[i].data);
      var fd :| fd in k && k[fd].data == ready[i].data;
    }
  }

  // ---------------------------------------------------------------------
  // Properties of one event
  // ---------------------------------------------------------------------

  /** One event keeps the gates of every peer alternating, changes no
      descriptor, and touches no peer but the one it points at. */
  lemma StepKeepsAlternating(p: Pass, tmfd: int, npeers: int, ev: ReadyEvent<Owner>, io: EventIo)
    requires npeers != 0 && Settles(io.recv) && Settles(io.send)
    requires PointsInto(ev.data, |p.peers|)
    requires AllAlternating(p.peers)
    ensures var q := Step(p, tmfd, npeers, ev, io).p;
      && |q.peers| == |p.peers| && AllAlternating(q.peers)
      && forall j :: 0 <= j < |p.peers| ==>
           q.peers[j].fd == p.peers[j].fd && (ev.data != PeerRecord(j) ==> q.peers[j] == p.peers[j])
  {
  }

  /** EPOLLIN on a peer whose `readable` bit is clear, and EPOLLOUT on one
      whose `writable` bit is clear, are ignored: such an event changes nothing. */
  lemma StepIgnoresGatedOff(p: Pass, tmfd: int, npeers: int, ev: ReadyEvent<Owner>, io: EventIo)
    requires npeers != 0 && Settles(io.recv) && Settles(io.send)
    requires ev.data.PeerRecord? && ev.data.index < |p.peers| && p.peers[ev.data.index].fd != tmfd
    requires !HasForeign(ev.events)
    requires var peer := p.peers[ev.data.index];
      !(peer.readable && Has(ev.events, EPOLLIN)) && !(peer.writable && Has(ev.events, EPOLLOUT))
    ensures Step(p, tmfd, npeers, ev, io) == Continue(p)
  {
  }

  /** A successful recv on a readable peer leaves it writable only. */
  lemma RecvFlipsToWritable(p: Pass, tmfd: int, npeers: int, ev: ReadyEvent<Owner>, io: EventIo)
    requires npeers != 0 && Settles(io.recv) && Settles(io.send)
    requires ev.data.PeerRecord? && ev.data.index < |p.peers|
    requires var peer := p.peers[ev.data.index];
      peer.fd != tmfd && peer.readable && !peer.writable
    requires ev.events == EPOLLIN && FirstAnswer(io.recv).Done?
    ensures var v := Step(p, tmfd, npeers, ev, io);
      && v.Continue?
      && v.p.peers[ev.data.index] == Peer(p.peers[ev.data.index].fd, false, true)
      && v.p.port == p.port
      && v.p.stats == CreditRead(p.stats, FirstAnswer(io.recv).value)
  {
  }

  /** The writable check runs after the readable flip: EPOLLIN|EPOLLOUT on a
      readable peer receives, then sends, and leaves the peer readable only,
      with the port advanced once and both counters credited. */
  lemma BothFlagsOnReadable(p: Pass, tmfd: int, npeers: int, ev: ReadyEvent<Owner>, io: EventIo)
    requires npeers != 0 && Settles(io.recv) && Settles(io.send)
    requires ev.data.PeerRecord? && ev.data.index < |p.peers|
    requires var peer := p.peers[ev.data.index];
      peer.fd != tmfd && peer.readable && !peer.writable
    requires ev.events == EPOLLIN | EPOLLOUT
    requires FirstAnswer(io.recv).Done? && FirstAnswer(io.send).Done?
    ensures var v := Step(p, tmfd, npeers, ev, io);
      && v.Continue?
      && v.p.peers[ev.data.index] == Peer(p.peers[ev.data.index].fd, true, false)
      && v.p.port == NextPort(p.port, npeers)
      && v.p.stats == CreditWritten(CreditRead(p.stats, FirstAnswer(io.recv).value), FirstAnswer(io.send).value)
  {
  }

  // ---------------------------------------------------------------------
  // Properties of one pass
  // ---------------------------------------------------------------------

  /** Invariant: whether the pass returns 0 or -1, every peer still has
      exactly one of `readable`/`writable` set, and no descriptor changed. */
  lemma {:induction false} RunKeepsAlternating(p: Pass, tmfd: int, npeers: int, ready: seq<ReadyEvent<Owner>>, io: seq<EventIo>)
    requires npeers != 0 && |io| == |ready| && Scripted(io)
    requires AllPointInto(ready, |p.peers|)
    requires AllAlternating(p.peers)
    ensures var q := Run(p, tmfd, npeers, ready, io).p;
      && |q.peers| == |p.peers| && AllAlternating(q.peers)
      && forall j :: 0 <= j < |p.peers| ==> q.peers[j].fd == p.peers[j].fd
    decreases |ready|
  {
    if ready != [] {
      var v := Step(p, tmfd, npeers, ready[0], io[0]);
      StepKeepsAlternating(p, tmfd, npeers, ready[0], io[0]);
      if v.Continue? {
        RunKeepsAlternating(v.p, tmfd, npeers, ready[1..], io[1..]);
      }
    }
  }

  /** An event with a flag other than IN/OUT, or a recv/send answered with
      -1, makes do_epoll return -1: the pass ends in the state the earlier
      events left, and no later event is processed. */
  lemma {:induction false} AbortStops(p: Pass, tmfd: int, npeers: int, ready: seq<ReadyEvent<Owner>>, io: seq<EventIo>, k: nat)
    requires npeers != 0 && |io| == |ready| && Scripted(io)
    requires AllPointInto(ready, |p.peers|)
    requires k < |ready|
    requires Run(p, tmfd, npeers, ready[..k], io[..k]).Continue?
    requires var q := Run(p, tmfd, npeers, ready[..k], io[..k]).p;
      |q.peers| == |p.peers| && Step(q, tmfd, npeers, ready[k], io[k]).Abort?
    ensures Run(p, tmfd, npeers, ready, io)
         == Step(Run(p, tmfd, npeers, ready[..k], io[..k]).p, tmfd, npeers, ready[k], io[k])
    decreases k
  {
    assert ready[..k][..] == ready[..k];
    if k == 0 {
      assert ready[..0] == [] && io[..0] == [];
    } else {
      var v := Step(p, tmfd, npeers, ready[0], io[0]);
      assert ready[..k][0] == ready[0] && io[..k][0] == io[0];
      assert ready[..k][1..] == ready[1..][..k - 1];
      assert io[..k][1..] == io[1..][..k - 1];
      AbortStops(v.p, tmfd, npeers, ready[1..], io[1..], k - 1);
    }
  }

  /** Timer events change no peer and leave the port alone; a pass over
      timer events only ends with both counters at zero. */
  lemma {:induction false} TimerOnlyReports(p: Pass, tmfd: int, npeers: int, ready: seq<ReadyEvent<Owner>>, io: seq<EventIo>)
    requires npeers != 0 && |io| == |ready| && Scripted(io)
    requires forall i :: 0 <= i < |ready| ==> ready[i].data == TimerRecord && !HasForeign(ready[i].events)
    ensures AllPointInto(ready, |p.peers|)
    ensures var v := Run(p, tmfd, npeers, ready, io);
      && v.Continue?
      && v.p.peers == p.peers && v.p.port == p.port
      && v.p.stats == (if ready == [] then p.stats else Zeroed)
    decreases |ready|
  {
    if ready != [] {
      TimerOnlyReports(p.(stats := Zeroed), tmfd, npeers, ready[1..], io[1..]);
    }
  }

  /**
   * The global state of one udp-bench.c process that do_epoll reads and
   * writes: the timer descriptor, the shared do_recv/do_send state, the
   * `peers` array and the kernel's interest list for `epfd`.
   */
  class Bench {
    const tmfd: int
    const traffic: Traffic
    const peers: array<Peer>
    var interest: Interest<Owner>

    ghost predicate Valid()
      reads this, traffic, peers
    {
      && traffic.Valid() && peers.Length == traffic.npeers
      && AllAlternating(peers[..]) && Consistent(interest, peers[..], tmfd)
    }

    /** main: the timer registered for EPOLLIN through `tmp`, then every
        peer set to `readable=0, writable=1` and, when its socket could be
        made, registered once for EPOLLIN|EPOLLOUT with data.ptr pointing at
        it (a failure is reported and the peer skipped). `socks` holds
        make_sock_fd's results, -1 for a failure. */
    constructor (npeers: int, tmfd: int, socks: seq<int>)
      requires npeers > 0 && tmfd >= 0 && |socks| == npeers
      ensures Valid() && fresh(traffic) && fresh(peers)
      ensures traffic.npeers == npeers && traffic.port == PORT && traffic.stats == Zeroed
      ensures this.tmfd == tmfd
      ensures forall i :: 0 <= i < npeers ==> peers[i] == Peer(socks[i], false, true)
      ensures tmfd in interest && interest[tmfd] == Registration(EPOLLIN | EPOLLET, TimerRecord)
      ensures forall fd :: fd in interest && fd != tmfd ==>
        exists i :: 0 <= i < npeers && socks[i] == fd && interest[fd] == Registration(EPOLLIN | EPOLLOUT | EPOLLET, PeerRecord(i))
      ensures forall i :: 0 <= i < npeers && socks[i] >= 0 ==> socks[i] in interest
      ensures forall i :: 0 <= i < npeers && socks[i] >= 0 && socks[i] != tmfd && socks[i] !in socks[..i] ==>
        interest[socks[i]] == Registration(EPOLLIN | EPOLLOUT | EPOLLET, PeerRecord(i))
    {
      this.tmfd := tmfd;
      var ps := new Peer[npeers](_ => Peer(0, false, false));
      var k: Interest<Owner> := map[tmfd := Registration(EPOLLIN | EPOLLET, TimerRecord)];
      var i := 0;
      while i < npeers
        invariant 0 <= i <= npeers
        invariant forall j :: 0 <= j < i ==> ps[j] == Peer(socks[j], false, true)
        invariant tmfd in k && k[tmfd] == Registration(EPOLLIN | EPOLLET, TimerRecord)
        invariant forall fd :: fd in k && fd != tmfd ==>
          exists j :: 0 <= j < i && socks[j] == fd && k[fd] == Registration(EPOLLIN | EPOLLOUT | EPOLLET, PeerRecord(j))
        invariant forall j :: 0 <= j < i && socks[j] >= 0 ==> socks[j] in k
        invariant forall j :: 0 <= j < i && socks[j] >= 0 && socks[j] != tmfd && socks[j] !in socks[..j] ==>
          k[socks[j]] == Registration(EPOLLIN | EPOLLOUT | EPOLLET, PeerRecord(j))
      {
        ps[i] := Peer(socks[i], false, true);
        if socks[i] != -1 {
          var a := Add(k, socks[i], EPOLLIN | EPOLLOUT | EPOLLET, PeerRecord(i));
          if a.Done? {
            k := a.value;
          }
        }
        i := i + 1;
      }
      traffic := new Traffic(npeers);
      peers := ps;
      interest := k;
    }

    /** do_epoll: wait (retrying EINTR), then run the ready list; the
        registration is never touched. */
    method DoEpoll(waits: seq<Attempt<seq<ReadyEvent<Owner>>>>, io: seq<EventIo>) returns (rc: int)
      requires Valid() && Settles(waits)
      requires FirstAnswer(waits).Done? ==> Delivered(interest, FirstAnswer(waits).value, io)
      modifies peers, traffic
      ensures Valid()
      ensures interest == old(interest)
      ensures FirstAnswer(waits).Failed? ==>
        rc == -1 && peers[..] == old(peers[..]) && traffic.port == old(traffic.port) && traffic.stats == old(traffic.stats)
      ensures FirstAnswer(waits).Done? ==>
        var v := Run(Pass(old(peers[..]), old(traffic.port), old(traffic.stats)), tmfd, traffic.npeers, FirstAnswer(waits).value, io);
        && rc == (if v.Abort? then -1 else 0)
        && peers[..] == v.p.peers && traffic.port == v.p.port && traffic.stats == v.p.stats
    {
      var w, _ := RetryInterrupted(waits);
      if w.Failed? {
        return -1;
      }
      var ready := w.value;
      DeliveredPointsInto(interest, peers[..], tmfd, ready, io);
      ghost var start := Pass(peers[..], traffic.port, traffic.stats);
      var i := 0;
      while i < |ready|
        invariant 0 <= i <= |ready|
        invariant Valid()
        invariant AllPointInto(ready[i..], peers.Length) && Scripted(io[i..])
        invariant Run(start, tmfd, traffic.npeers, ready, io)
               == Run(Pass(peers[..], traffic.port, traffic.stats), tmfd, traffic.npeers, ready[i..], io[i..])
      {
        assert ready[i..][0] == ready[i] && io[i..][0] == io[i];
        assert ready[i..][1..] == ready[i + 1..] && io[i..][1..] == io[i + 1..];
        var aborted := DoEvent(ready[i], io[i]);
        if aborted {
          return -1;
        }
        i := i + 1;
      }
      assert ready[i..] == [] && io[i..] == [];
      rc := 0;
    }

    /** do_epoll's body for one ready event: returns whether it returned -1. */
    method DoEvent(ev: ReadyEvent<Owner>, e: EventIo) returns (aborted: bool)
      requires Valid() && PointsInto(ev.data, peers.Length) && Settles(e.recv) && Settles(e.send)
      modifies peers, traffic
      ensures Valid()
      ensures var v := Step(Pass(old(peers[..]), old(traffic.port), old(traffic.stats)), tmfd, traffic.npeers, ev, e);
        && aborted == v.Abort?
        && peers[..] == v.p.peers && traffic.port == v.p.port && traffic.stats == v.p.stats
    {
      StepKeepsAlternating(Pass(peers[..], traffic.port, traffic.stats), tmfd, traffic.npeers, ev, e);
      var events := ev.events;
      var fd := if ev.data.TimerRecord? then tmfd else peers[ev.data.index].fd;
      if HasForeign(events) {
        return true;
      }
      if fd == tmfd {
        traffic.DoReport();
        return false;
      }
      var p := ev.data.index;
      if peers[p].readable && Has(events, EPOLLIN) {
        var r := traffic.DoRecv(e.recv);
        if r == -1 {
          return true;
        }
        peers[p] := Peer(peers[p].fd, false, true);
      }
      if peers[p].writable && Has(events, EPOLLOUT) {
        var r := traffic.DoSend(e.send);
        if r == -1 {
          return true;
        }
        peers[p] := Peer(peers[p].fd, true, false);
      }
      aborted := false;
    }
  }
}
