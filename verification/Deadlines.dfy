/** The cumulative deadline both ends keep (compute_horde/compute_horde/utils.py). The clock is
    read by the caller and passed in. */
module Deadlines {
  import opened Messages

  datatype Deadline = Deadline(start: int, timeout: int) {
    function Extend(seconds: int): Deadline {
      this.(timeout := timeout + seconds)
    }

    function TimeLeft(now: int): int {
      timeout - (now - start)
    }
  }

  class Timer {
    var startTime: int
    var timeout: Option<int>

    constructor (now: int, seconds: Option<int>)
      ensures startTime == now && timeout == seconds
    {
      startTime, timeout := now, seconds;
    }

    ghost predicate Is(d: Deadline)
      reads this
    {
      startTime == d.start && timeout == Some(d.timeout)
    }

    method SetTimeout(now: int, seconds: int)
      modifies this
      ensures Is(Deadline(now, seconds))
    {
      startTime, timeout := now, Some(seconds);
    }

    /** False stands for the ValueError raised when no timeout was ever given. */
    method ExtendTimeout(seconds: int) returns (ok: bool)
      modifies this
      ensures ok <==> old(timeout).Some?
      ensures ok ==> Is(Deadline(startTime, old(timeout).value).Extend(seconds))
      ensures !ok ==> timeout == old(timeout)
      ensures startTime == old(startTime)
    {
      ok := timeout.Some?;
      if ok { timeout := Some(timeout.value + seconds); }
    }

    method TimeLeft(now: int) returns (left: Option<int>)
      ensures left.Some? <==> timeout.Some?
      ensures left.Some? ==> left.value == Deadline(startTime, timeout.value).TimeLeft(now)
    {
      left := if timeout.Some? then Some(timeout.value - (now - startTime)) else None;
    }
  }
}
