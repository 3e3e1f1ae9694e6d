/**
 * The background thread that both the server (`start`/`stop`) and the
 * sending client (`connect`/`disconnect`) own: a thread reference, whether
 * that thread is still running, and the stop event it polls.
 */
module Lifecycle {

  class Worker {
    /** The `_thread` reference is set. */
    var started: bool
    /** The thread last launched is still running (it may outlive its reference after a join timeout). */
    var alive: bool
    /** The `_stop_event` is set. */
    var stopRequested: bool

    constructor ()
      ensures !started && !alive && !stopRequested
    {
      started, alive, stopRequested := false, false, false;
    }

    /** `self._thread and self._thread.is_alive()` */
    predicate Running()
      reads this
    {
      started && alive
    }

    /** Launches a new thread unless the one referenced is still running; nothing else happens then. */
    method Start() returns (launched: bool)
      modifies this
      ensures launched == !old(Running())
      ensures !launched ==> started == old(started) && alive == old(alive) && stopRequested == old(stopRequested)
      ensures launched ==> started && alive && !stopRequested
    {
      if Running() {
        launched := false;
        return;
      }
      stopRequested := false;
      started, alive := true, true;
      launched := true;
    }

    /**
     * Sets the stop event and, when a thread is referenced, joins it with a
     * timeout and drops the reference; `exitsInTime` says whether the thread
     * finished within that timeout.
     */
    method Stop(exitsInTime: bool)
      modifies this
      ensures stopRequested && !started
      ensures alive == (old(alive) && !(old(started) && exitsInTime))
    {
      stopRequested := true;
      if started {
        if exitsInTime {
          alive := false;
        }
        started := false;
      }
    }

    /** The thread's target returned. */
    method Exit()
      modifies this
      ensures !alive
      ensures started == old(started) && stopRequested == old(stopRequested)
    {
      alive := false;
    }
  }
}
