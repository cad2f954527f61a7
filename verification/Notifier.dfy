/**
 * internal/notify/notify.go: the broadcast wakeup behind the long polls, as the object it is, and
 * then its waiters and writers interleaved.
 */
module Notifier {
  import opened Prelude

  // ---------------------------------------------------------------- the object

  /** A channel that is only ever closed. */
  class Signal {
    var closed: bool

    constructor ()
      ensures !closed
    {
      closed := false;
    }

    /** Closing a closed channel panics. */
    method Close()
      requires !closed
      modifies this
      ensures closed
    {
      closed := true;
    }
  }

  class Notifier {
    var signal: Signal
    var shutdown: Signal

    ghost predicate Valid()
      reads this, signal
    {
      signal != shutdown && !signal.closed
    }

    constructor ()
      ensures Valid() && fresh(signal) && fresh(shutdown) && !shutdown.closed
    {
      signal := new Signal();
      shutdown := new Signal();
    }

    /** Wakes everyone holding the old channel; nobody holds the new one yet. */
    method Notify()
      requires Valid()
      modifies this`signal, signal
      ensures Valid() && fresh(signal) && old(signal).closed
      ensures shutdown == old(shutdown)
    {
      signal.Close();
      signal := new Signal();
    }

    /** Idempotent: the channel is closed by the first call only. */
    method Release()
      requires Valid()
      modifies shutdown
      ensures Valid() && shutdown.closed
    {
      if !shutdown.closed {
        shutdown.Close();
      }
    }
  }

  datatype Outcome = Ready | Timeout | Canceled | Released

  /** What ended a park. */
  datatype Wake = SignalClosed | TimerFired | ContextDone | ShutdownClosed

  /** One pass through Wait's loop: what the check said, whether the deadline had passed then, and
      what the select saw if it was reached. */
  datatype Round = Round(holds: bool, expired: bool, wake: Wake)

  ghost predicate Loops(r: Round) {
    !r.holds && !r.expired && r.wake.SignalClosed?
  }

  ghost predicate TimesOut(r: Round) {
    !r.holds && (r.expired || r.wake.TimerFired?)
  }

  ghost predicate IsCanceled(r: Round) {
    !r.holds && !r.expired && r.wake.ContextDone?
  }

  /** The first pass that is not sent round again. */
  ghost predicate EndsAt(rounds: seq<Round>, k: nat) {
    k < |rounds| && !Loops(rounds[k]) && forall j :: 0 <= j < k ==> Loops(rounds[j])
  }

  /** Wait over the passes its environment makes it take; None while it is still parked. */
  method Wait(rounds: seq<Round>) returns (outcome: Option<Outcome>)
    ensures outcome.None? <==> forall j :: 0 <= j < |rounds| ==> Loops(rounds[j])
    ensures outcome == Some(Ready) <==> exists k: nat :: EndsAt(rounds, k) && rounds[k].holds
    ensures outcome == Some(Timeout) <==>
              exists k: nat :: EndsAt(rounds, k) && TimesOut(rounds[k])
    ensures outcome == Some(Canceled) <==>
              exists k: nat :: EndsAt(rounds, k) && IsCanceled(rounds[k])
    ensures rounds != [] && rounds[0].holds ==> outcome == Some(Ready)
  {
    var i := 0;
    while i < |rounds|
      invariant i <= |rounds|
      invariant forall j :: 0 <= j < i ==> Loops(rounds[j])
    {
      var r := rounds[i];
      if r.holds {
        assert EndsAt(rounds, i);
        return Some(Ready);
      }
      if r.expired {
        assert EndsAt(rounds, i);
        return Some(Timeout);
      }
      match r.wake {
        case SignalClosed =>
        case TimerFired => assert EndsAt(rounds, i); return Some(Timeout);
        case ContextDone => assert EndsAt(rounds, i); return Some(Canceled);
        case ShutdownClosed => assert EndsAt(rounds, i); return Some(Released);
      }
      i := i + 1;
    }
    return None;
  }
}
