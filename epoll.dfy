/**
 * The part of the Linux epoll interface the three benchmarks use: event
 * masks, errno values, the answer of one system call, and the interest list
 * of an epoll instance, kept as a map from descriptor to registration.
 * What the kernel does with a registration is not modelled; ready lists and
 * call results are inputs.
 */
module Epoll {

  /** `uint32_t events` of `struct epoll_event`. */
  type Mask = bv32

  const EPOLLIN: Mask := 0x001
  const EPOLLOUT: Mask := 0x004
  const EPOLLET: Mask := 0x8000_0000

  /** Length of every `events`/`out` array handed to epoll_wait. */
  const MAX_EVENTS: nat := 1024

  predicate Has(m: Mask, flag: Mask) {
    m & flag != 0
  }

  /** `flags & ~(EPOLLIN|EPOLLOUT)` is nonzero: EPOLLERR, EPOLLHUP and the like. */
  predicate HasForeign(m: Mask) {
    m & !(EPOLLIN | EPOLLOUT) != 0
  }

  /** Interested in exactly one direction. */
  predicate OneSided(m: Mask) {
    Has(m, EPOLLIN) != Has(m, EPOLLOUT)
  }

  /** The IN/OUT bits of a reported mask lie within the registered mask:
      epoll_wait reports readiness only for what was asked for. */
  predicate Within(reported: Mask, registered: Mask) {
    reported & (EPOLLIN | EPOLLOUT) & !registered == 0
  }

  lemma WithinOneSided(reported: Mask, registered: Mask)
    requires Within(reported, registered) && OneSided(registered)
    ensures !(Has(reported, EPOLLIN) && Has(reported, EPOLLOUT))
  {
  }

  datatype Errno = EINTR | EAGAIN | EINPROGRESS | EEXIST | ENOENT | EBADF | EINVAL | OtherErrno(code: nat)

  /** What one system call returned: a value, or -1 with errno set. */
  datatype Attempt<T> = Done(value: T) | Failed(errno: Errno) {
    predicate Interrupted() {
      Failed? && errno == EINTR
    }
  }

  datatype Op = CtlAdd | CtlMod

  /** `struct epoll_event` as registered: the mask and the `data` payload. */
  datatype Registration<D> = Registration(events: Mask, data: D)

  /** The interest list of one epoll instance. */
  type Interest<D> = map<int, Registration<D>>

  /** One element of the array epoll_wait fills. */
  datatype ReadyEvent<D> = ReadyEvent(events: Mask, data: D)

  /** epoll_ctl(EPOLL_CTL_ADD): fails with EBADF for a negative descriptor and
      with EEXIST for one already registered. */
  function Add<D>(k: Interest<D>, fd: int, events: Mask, data: D): Attempt<Interest<D>> {
    if fd < 0 then Failed(EBADF)
    else if fd in k then Failed(EEXIST)
    else Done(k[fd := Registration(events, data)])
  }

  /** epoll_ctl(EPOLL_CTL_MOD): fails with ENOENT for a descriptor not registered. */
  function Modify<D>(k: Interest<D>, fd: int, events: Mask, data: D): Attempt<Interest<D>> {
    if fd !in k then Failed(ENOENT)
    else Done(k[fd := Registration(events, data)])
  }
}
