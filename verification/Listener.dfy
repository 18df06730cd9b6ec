/** The supervised LISTEN connection (`backend/app/listen.py`): what one turn of the supervisor
  * loop does to the listener's fields. */
module Listener {
  /** What the supervisor knows of its session: whether it holds one, and whether it ever held one. */
  datatype Session = Session(connected: bool, ever: bool)

  /** Does the owner's reload hook run when the next connect holds? */
  predicate HookRuns(s: Session) {
    s.ever
  }

  function Held(s: Session): Session {
    Session(true, true)
  }

  function Gone(s: Session): Session {
    s.(connected := false)
  }

  class SupervisedListener {
    const base: nat
    const max: nat
    var connected: bool
    var everConnected: bool
    var reconnects: nat
    var delay: nat

    ghost function Current(): Session
      reads this
    {
      Session(connected, everConnected)
    }

    ghost predicate Valid()
      reads this
    {
      base <= delay <= max && (connected ==> everConnected) && (reconnects > 0 ==> everConnected)
    }

    constructor (baseBackoff: nat, maxBackoff: nat)
      ensures Valid() && !connected && !everConnected && reconnects == 0 && delay == base
      ensures base == (if baseBackoff < 1 then 1 else baseBackoff) && max >= base
    {
      base := if baseBackoff < 1 then 1 else baseBackoff;
      var floor := if baseBackoff < 1 then 1 else baseBackoff;
      max := if maxBackoff < floor then floor else maxBackoff;
      connected, everConnected, reconnects, delay := false, false, 0, floor;
    }

    /** A connect that held. The owner's reload hook runs on every connect but the first. */
    method ConnectHeld() returns (hook: bool)
      requires Valid() && !connected
      modifies this
      ensures Valid() && Current() == Held(old(Current())) && connected && everConnected && delay == base
      ensures hook == HookRuns(old(Current())) == old(everConnected)
      ensures reconnects == old(reconnects) + (if hook then 1 else 0)
    {
      connected := true;
      delay := base;
      hook := everConnected;
      if everConnected {
        reconnects := reconnects + 1;
      }
      everConnected := true;
    }

    /** A connect that failed, or a watch that ended: sleep `slept`, then try again later. */
    method BackOff() returns (slept: nat)
      requires Valid()
      modifies this
      ensures Valid() && Current() == Gone(old(Current())) && !connected && everConnected == old(everConnected)
      ensures reconnects == old(reconnects)
      ensures slept == old(delay) && delay == (if 2 * slept < max then 2 * slept else max)
    {
      connected := false;
      slept := delay;
      delay := if delay * 2 < max then delay * 2 else max;
    }
  }
}
