/**
 * The process-wide byte counters `bytes_read` and `bytes_written` that all
 * three benchmarks keep, and what do_report leaves in them.
 */
module Stats {

  datatype Counters = Counters(bytesRead: nat, bytesWritten: nat)

  /** The counters as do_report leaves them, after printing them. */
  const Zeroed: Counters := Counters(0, 0)

  /** A positive count is added to `bytes_read`; 0 and -1 add nothing. */
  function CreditRead(c: Counters, r: int): Counters {
    if r > 0 then c.(bytesRead := c.bytesRead + r) else c
  }

  /** A positive count is added to `bytes_written`; 0 and -1 add nothing. */
  function CreditWritten(c: Counters, r: int): Counters {
    if r > 0 then c.(bytesWritten := c.bytesWritten + r) else c
  }
}
