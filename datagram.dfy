/**
 * What bench.c and udp-bench.c share: the peer count, do_send's static
 * destination port with its round-robin rule, do_recv, do_send and
 * do_report, and the script of kernel answers for one ready event.
 */
module Datagram {
  import opened Epoll
  import opened Syscall
  import opened Stats

  /** The first peer's port; peer i is bound to PORT + i. */
  const PORT: int := 34567

  function Abs(x: int): nat {
    if x < 0 then -x else x
  }

  /** C's `/` on int: the quotient truncates toward zero. */
  function CDiv(a: int, b: int): int
    requires b != 0
  {
    var q := Abs(a) / Abs(b);
    if (a < 0) == (b < 0) then q else -q
  }

  /** C's `%` on int: what `a == (a/b)*b + a%b` leaves over with the
      truncating quotient, so the remainder takes the sign of the dividend
      and is smaller than the divisor in size. */
  function CRem(a: int, b: int): (r: int)
    requires b != 0
    ensures a == CDiv(a, b) * b + r
    ensures a >= 0 ==> 0 <= r < Abs(b)
    ensures a < 0 ==> r <= 0 && r + Abs(b) > 0
  {
    if a >= 0 then a % Abs(b) else -((-a) % Abs(b))
  }

  /** do_send's rotation: the offset from PORT goes up by one and is
      reduced with C's remainder by npeers. */
  function NextPort(port: int, npeers: int): (next: int)
    requires npeers != 0
    ensures port >= PORT - 1 ==> PORT <= next < PORT + Abs(npeers)
  {
    PORT + CRem((port - PORT) + 1, npeers)
  }

  /** The destination ports of the next k sends. */
  function Visits(port: int, npeers: int, k: nat): (ps: seq<int>)
    requires npeers != 0
    ensures |ps| == k
    decreases k
  {
    if k == 0 then [] else [NextPort(port, npeers)] + Visits(NextPort(port, npeers), npeers, k - 1)
  }

  /** One wrap of an offset that is below twice the peer count. */
  function Wrap(x: int, n: int): int {
    if x < n then x else x - n
  }

  /** With the port in range, one send moves the offset on by one and wraps at npeers. */
  lemma NextPortStep(port: int, npeers: int)
    requires npeers > 0 && PORT <= port < PORT + npeers
    ensures NextPort(port, npeers) == PORT + Wrap(port - PORT + 1, npeers)
  {
    var o := port - PORT + 1;
    if o < npeers {
      ModOfSmall(o, npeers);
    } else {
      ModOfSmall(0, npeers);
      assert o == npeers;
      ModOfMultiple(npeers);
    }
  }

  lemma ModOfSmall(a: int, n: int)
    requires 0 <= a < n
    ensures a % n == a
  {
    assert a == 0 * n + a;
  }

  lemma ModOfMultiple(n: int)
    requires n > 0
    ensures n % n == 0
  {
    assert n == 1 * n + 0;
  }

  /** The (i+1)-th of the next sends goes to offset `port - PORT + i + 1`, wrapped once. */
  lemma {:induction false} VisitsAt(port: int, npeers: int, k: nat, i: nat)
    requires npeers > 0 && PORT <= port < PORT + npeers
    requires i < k <= npeers
    ensures Visits(port, npeers, k)[i] == PORT + Wrap(port - PORT + i + 1, npeers)
    decreases k
  {
    NextPortStep(port, npeers);
    if i > 0 {
      var next := NextPort(port, npeers);
      VisitsAt(next, npeers, k - 1, i - 1);
    }
  }

  /** npeers consecutive sends, from any port in range, reach every peer's
      port exactly once. */
  lemma EveryPeerOnce(port: int, npeers: int)
    requires npeers > 0 && PORT <= port < PORT + npeers
    ensures forall t :: PORT <= t < PORT + npeers ==> t in Visits(port, npeers, npeers)
    ensures forall i, j :: 0 <= i < j < npeers ==> Visits(port, npeers, npeers)[i] != Visits(port, npeers, npeers)[j]
  {
    var vs := Visits(port, npeers, npeers);
    var o := port - PORT;
    forall t | PORT <= t < PORT + npeers
      ensures t in vs
    {
      var i := if t - PORT > o then t - PORT - o - 1 else t - PORT - o - 1 + npeers;
      VisitsAt(port, npeers, npeers, i);
    }
    forall i, j | 0 <= i < j < npeers
      ensures vs[i] != vs[j]
    {
      VisitsAt(port, npeers, npeers, i);
      VisitsAt(port, npeers, npeers, j);
    }
  }

  /** After npeers sends the static port is back where it started: the
      rotation has period npeers. */
  lemma Period(port: int, npeers: int)
    requires npeers > 0 && PORT <= port < PORT + npeers
    ensures Visits(port, npeers, npeers)[npeers - 1] == port
  {
    VisitsAt(port, npeers, npeers, npeers - 1);
  }

  /** The kernel's answers to the calls one ready event can cause. */
  datatype EventIo = EventIo(recv: seq<Attempt<nat>>, send: seq<Attempt<nat>>)

  /** Every scripted call eventually gets an answer other than EINTR. */
  predicate Scripted(io: seq<EventIo>) {
    forall i :: 0 <= i < |io| ==> Settles(io[i].recv) && Settles(io[i].send)
  }

  /**
   * The file-scope state do_recv, do_send and do_report touch: the peer
   * count, the static `port` inside do_send (one for all senders) and the
   * byte counters.
   */
  class Traffic {
    const npeers: int
    var port: int
    var stats: Counters

    ghost predicate Valid()
      reads this
    {
      npeers != 0 && PORT <= port < PORT + Abs(npeers)
    }

    constructor (npeers: int)
      requires npeers != 0
      ensures Valid()
      ensures this.npeers == npeers && port == PORT && stats == Zeroed
    {
      this.npeers := npeers;
      port := PORT;
      stats := Zeroed;
    }

    /** do_recv: read until the answer is not EINTR; credit a positive count. */
    method DoRecv(replies: seq<Attempt<nat>>) returns (r: int)
      requires Valid() && Settles(replies)
      modifies this`stats
      ensures Valid()
      ensures r == Code(FirstAnswer(replies))
      ensures stats == CreditRead(old(stats), r)
    {
      var a, _ := RetryInterrupted(replies);
      r := Code(a);
      if r > 0 {
        stats := stats.(bytesRead := stats.bytesRead + r);
      }
    }

    /** do_send: advance the shared destination port, then sendto until the
        answer is not EINTR; credit a positive count. */
    method DoSend(replies: seq<Attempt<nat>>) returns (r: int)
      requires Valid() && Settles(replies)
      modifies this`port, this`stats
      ensures Valid()
      ensures port == NextPort(old(port), npeers)
      ensures r == Code(FirstAnswer(replies))
      ensures stats == CreditWritten(old(stats), r)
    {
      port := PORT + CRem((port - PORT) + 1, npeers);
      var a, _ := RetryInterrupted(replies);
      r := Code(a);
      if r > 0 {
        stats := stats.(bytesWritten := stats.bytesWritten + r);
      }
    }

    /** do_report: print, then zero both counters. */
    method DoReport()
      modifies this`stats
      ensures stats == Zeroed
    {
      stats := Zeroed;
    }
  }
}
