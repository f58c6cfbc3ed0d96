/**
 * The two retry shapes wrapped around read, write, sendto and epoll_wait.
 * A call is given as the script of answers the kernel returns to its
 * successive attempts.
 *
 * - bench.c and udp-bench.c repeat a call only while it fails with EINTR.
 * - tcp-bench.c's do_read/do_write repeat while the call moves bytes or fails
 *   with EINTR, and credit every positive count.
 */
module Syscall {
  import opened Epoll

  /** Some answer in the script is not EINTR, so the EINTR retry loop ends. */
  predicate Settles<T>(replies: seq<Attempt<T>>) {
    exists k :: 0 <= k < |replies| && !replies[k].Interrupted()
  }

  /** Index of the attempt whose answer the EINTR retry loop keeps. */
  function AnswerIndex<T>(replies: seq<Attempt<T>>): (k: nat)
    requires Settles(replies)
    ensures k < |replies| && !replies[k].Interrupted()
    ensures forall j :: 0 <= j < k ==> replies[j].Interrupted()
    decreases |replies|
  {
    if !replies[0].Interrupted() then 0
    else
      assert Settles(replies[1..]) by {
        var k :| 0 <= k < |replies| && !replies[k].Interrupted();
        assert replies[1..][k - 1] == replies[k];
      }
      1 + AnswerIndex(replies[1..])
  }

  /** The answer the EINTR retry loop keeps. */
  function FirstAnswer<T>(replies: seq<Attempt<T>>): Attempt<T>
    requires Settles(replies)
  {
    replies[AnswerIndex(replies)]
  }

  /** The retry loop that repeats a call while it fails with EINTR. */
  method RetryInterrupted<T>(replies: seq<Attempt<T>>) returns (r: Attempt<T>, calls: nat)
    requires Settles(replies)
    ensures 0 < calls <= |replies| && r == replies[calls - 1]
    ensures !r.Interrupted()
    ensures forall j :: 0 <= j < calls - 1 ==> replies[j].Interrupted()
    ensures r == FirstAnswer(replies)
  {
    var i := 0;
    while replies[i].Interrupted()
      invariant i <= AnswerIndex(replies)
      invariant forall j :: 0 <= j < i ==> replies[j].Interrupted()
      decreases AnswerIndex(replies) - i
    {
      i := i + 1;
    }
    r, calls := replies[i], i + 1;
  }

  /** The `ssize_t` a call returns: the count, or -1. */
  function Code(a: Attempt<nat>): (r: int)
    ensures r >= -1
    ensures r == -1 <==> a.Failed?
    ensures a.Done? ==> r == a.value
  {
    if a.Done? then a.value else -1
  }

  /** tcp-bench.c's drain loop goes round again after a positive count or an EINTR failure. */
  predicate Continues(a: Attempt<nat>) {
    (a.Done? && a.value > 0) || a.Interrupted()
  }

  /** Some answer in the script ends the drain loop: end of stream or an error other than EINTR. */
  predicate Drains(replies: seq<Attempt<nat>>) {
    exists k :: 0 <= k < |replies| && !Continues(replies[k])
  }

  /** Index of the attempt that ends the drain loop. */
  function StopIndex(replies: seq<Attempt<nat>>): (k: nat)
    requires Drains(replies)
    ensures k < |replies| && !Continues(replies[k])
    ensures forall j :: 0 <= j < k ==> Continues(replies[j])
    decreases |replies|
  {
    if !Continues(replies[0]) then 0
    else
      assert Drains(replies[1..]) by {
        var k :| 0 <= k < |replies| && !Continues(replies[k]);
        assert replies[1..][k - 1] == replies[k];
      }
      1 + StopIndex(replies[1..])
  }

  /** Bytes moved by a run of attempts: the sum of their positive counts. */
  function Moved(replies: seq<Attempt<nat>>): nat {
    if replies == [] then 0
    else
      var last := replies[|replies| - 1];
      Moved(replies[..|replies| - 1]) + (if last.Done? then last.value else 0)
  }

  /** The drain loop of do_read/do_write: it adds up every positive count and
      returns that sum and the answer that stopped it. */
  method Drain(replies: seq<Attempt<nat>>) returns (moved: nat, last: Attempt<nat>)
    requires Drains(replies)
    ensures last == replies[StopIndex(replies)]
    ensures !Continues(last)
    ensures moved == Moved(replies[..StopIndex(replies)])
  {
    var i := 0;
    moved := 0;
    while Continues(replies[i])
      invariant i <= StopIndex(replies)
      invariant moved == Moved(replies[..i])
      decreases StopIndex(replies) - i
    {
      assert replies[..i + 1][..i] == replies[..i];
      if replies[i].Done? {
        moved := moved + replies[i].value;
      }
      i := i + 1;
    }
    last := replies[i];
  }

  /** The answer that stops the loop moves no bytes, so crediting up to and
      including it gives the same total. */
  lemma {:induction false} MovedThroughStop(replies: seq<Attempt<nat>>)
    requires Drains(replies)
    ensures Moved(replies[..StopIndex(replies) + 1]) == Moved(replies[..StopIndex(replies)])
  {
    var k := StopIndex(replies);
    assert replies[..k + 1][..k] == replies[..k];
  }
}
