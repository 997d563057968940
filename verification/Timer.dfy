/** pkg/util/timer.go: the cases of the select loop, each updating the timer in place. */
module Timers {
  import opened Options
  import opened TimerStates

  class Timer {
    var status: TimerStatus
    var delay: int
    var ticking: bool
    var shouldPauseAfterRunningAction: bool
    var actionsInFlight: int
    ghost var history: seq<Event>

    ghost function View(): TimerState
      reads this
    {
      TimerState(status, delay, ticking, shouldPauseAfterRunningAction, actionsInFlight, history)
    }

    /** A new timer is paused; a delay that is not positive would panic. */
    constructor (delay: int)
      requires delay > 0
      ensures View() == NewTimer(delay) && TimerInv(View())
    {
      status, this.delay, ticking, shouldPauseAfterRunningAction, actionsInFlight := Paused, delay, false, false, 0;
      history := [];
    }

    method StartTicker()
      requires delay > 0
      modifies this`ticking
      ensures ticking
    {
      ticking := true;
    }

    method StopTicker()
      requires ticking
      modifies this`ticking
      ensures !ticking
    {
      ticking := false;
    }

    method ExecuteAction()
      modifies this
      ensures View() == TimerStates.ExecuteAction(old(View()))
    {
      status := RunningAction;
      shouldPauseAfterRunningAction := false;
      actionsInFlight := actionsInFlight + 1;
      history := history + [ActionStarted];
    }

    method OnDidFinishAction()
      requires TimerInv(View()) && CanReceive(View(), DidFinishAction)
      modifies this
      ensures TimerInv(View()) && View() == Receive(old(View()), DidFinishAction).timer
    {
      ReceiveKeepsInv(View(), DidFinishAction);
      actionsInFlight := actionsInFlight - 1;
      if shouldPauseAfterRunningAction {
        status := Paused;
        StopTicker();
      } else {
        status := Ready;
      }
    }

    method OnTick()
      requires TimerInv(View()) && CanReceive(View(), Tick)
      modifies this
      ensures TimerInv(View()) && View() == Receive(old(View()), Tick).timer
    {
      ReceiveKeepsInv(View(), Tick);
      if status == Ready {
        ExecuteAction();
      }
    }

    method Pause() returns (err: Option<TimerError>)
      requires TimerInv(View()) && CanReceive(View(), PauseRequest)
      modifies this
      ensures TimerInv(View()) && Reply(View(), err) == Receive(old(View()), PauseRequest)
    {
      ReceiveKeepsInv(View(), PauseRequest);
      assert status == Ready ==> ticking;
      hide TimerInv;
      if status == Ready {
        status := Paused;
        StopTicker();
        history := history + [PauseAccepted];
        err := None;
      } else if status == RunningAction {
        if shouldPauseAfterRunningAction {
          return Some(PauseAlreadyQueued);
        }
        shouldPauseAfterRunningAction := true;
        history := history + [PauseAccepted];
        err := None;
      } else {
        err := Some(CannotPause(status));
      }
    }

    method Resume(runImmediately: bool) returns (err: Option<TimerError>)
      requires TimerInv(View()) && CanReceive(View(), ResumeRequest(runImmediately))
      modifies this
      ensures TimerInv(View()) && Reply(View(), err) == Receive(old(View()), ResumeRequest(runImmediately))
    {
      ReceiveKeepsInv(View(), ResumeRequest(runImmediately));
      assert status == Paused ==> delay > 0;
      hide TimerInv;
      if status == Paused {
        err := None;
        history := history + [Resumed];
        StartTicker();
        if runImmediately {
          ExecuteAction();
        } else {
          status := Ready;
        }
      } else {
        err := Some(CannotResume(status));
      }
    }

    /** A timer that has been resumed as soon as it was made. */
    static method NewRunningTimer(delay: int, runImmediately: bool) returns (timer: Timer)
      requires delay > 0
      ensures fresh(timer) && TimerInv(timer.View())
      ensures timer.View() == Receive(NewTimer(delay), ResumeRequest(runImmediately)).timer
    {
      timer := new Timer(delay);
      var err := timer.Resume(runImmediately);
      assert err.None?;
    }

    method OnStop()
      requires TimerInv(View()) && CanReceive(View(), Stop)
      modifies this
      ensures TimerInv(View()) && View() == Receive(old(View()), Stop).timer
    {
      ReceiveKeepsInv(View(), Stop);
      if status == Ready {
        StopTicker();
      }
      status := Stopped;
    }

    method OnSetDelay(newDelay: int)
      requires TimerInv(View()) && CanReceive(View(), SetDelay(newDelay))
      modifies this
      ensures TimerInv(View()) && View() == Receive(old(View()), SetDelay(newDelay)).timer
    {
      ReceiveKeepsInv(View(), SetDelay(newDelay));
      delay := newDelay;
    }
  }
}
