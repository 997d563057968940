/** pkg/hub/circuitbreaker.go as it is written, with each reading of the clock as a parameter. */
module CircuitBreakers {
  import opened Options
  import opened BreakerStates

  class CircuitBreaker {
    var status: BreakerStatus
    var nextCheckTime: Option<int>
    const maxBackoffDuration: int
    var consecutiveFailures: nat

    function View(): Breaker
      reads this
    {
      Breaker(status, nextCheckTime, maxBackoffDuration, consecutiveFailures)
    }

    constructor (maxBackoffDuration: int)
      ensures View() == NewBreaker(maxBackoffDuration) && AtRest(View())
    {
      this.maxBackoffDuration := maxBackoffDuration;
      status, nextCheckTime, consecutiveFailures := Enabled, None, 0;
    }

    method Reset()
      modifies this
      ensures View() == BreakerStates.Reset(old(View())) && AtRest(View())
    {
      status := Enabled;
      consecutiveFailures := 0;
      nextCheckTime := None;
    }

    function IsEnabled(): bool
      reads this
    {
      status != Disabled
    }

    method IsAbleToIssueRequest(now: int) returns (able: bool)
      requires HasCheckTime(View())
      modifies this
      ensures View() == Asked(old(View()), now) && able == (Asked(old(View()), now).status != Disabled)
    {
      if status == Disabled && now > nextCheckTime.value {
        status := Checking;
      }
      able := IsEnabled();
    }

    method SetNextCheckTime(now: int)
      modifies this`nextCheckTime
      ensures nextCheckTime == Some(now + Delay(maxBackoffDuration, consecutiveFailures))
      ensures nextCheckTime.value <= now + maxBackoffDuration
    {
      DelayIsCapped(maxBackoffDuration, consecutiveFailures);
      var nextExponentialSeconds := DurationOfPow2(consecutiveFailures);
      var nextCheckDuration := MinDuration(maxBackoffDuration, Wrap64(nextExponentialSeconds * SECOND));
      nextCheckTime := Some(now + nextCheckDuration);
    }

    method Failure(now: int)
      modifies this
      ensures View() == Failed(old(View()), now)
    {
      match status {
        case Enabled =>
          status := Disabled;
          consecutiveFailures := 1;
          SetNextCheckTime(now);
        case Disabled =>
        case Checking =>
          status := Disabled;
          consecutiveFailures := consecutiveFailures + 1;
          SetNextCheckTime(now);
      }
    }

    method Success()
      modifies this
      ensures View() == Succeeded(old(View()))
    {
      if status == Checking {
        status := Enabled;
        consecutiveFailures := 0;
        nextCheckTime := None;
      }
    }

    /** Whether the request was executed, and if so failed, is the caller's news; its outcome is given beforehand. */
    method IssueRequest(request: Request) returns (executed: bool, failed: bool)
      requires AtRest(View())
      modifies this
      ensures View() == Issued(old(View()), request) && AtRest(View())
      ensures executed == IsExecuted(old(View()), request) && failed == (!executed || !request.ok)
    {
      IssuedIsAtRest(View(), request);
      executed := IsAbleToIssueRequest(request.start);
      if !executed {
        return false, true;
      }
      if request.ok {
        Success();
      } else {
        Failure(request.end);
      }
      failed := !request.ok;
    }
  }
}
