/** pkg/hub/hub.go: a hub's login status, its four work timers and its log of errors. */
module Hubs {
  import opened Options
  import opened TimerStates
  import opened Timers
  import opened HubScans
  import opened HubModels
  import opened LoginStates

  datatype LoggedError = LoginFailed | TimerRefused(err: TimerError)

  const MAX_ERRORS := 1000
  const KEPT_FROM := 500

  /** Appends an error, if there is one, and then drops the oldest half of a list grown too long. */
  function Recorded(errors: seq<LoggedError>, err: Option<LoggedError>): seq<LoggedError>
  {
    var all := if err.Some? then errors + [err.value] else errors;
    if |all| > MAX_ERRORS then all[KEPT_FROM..] else all
  }

  /** The log never exceeds 1000 errors: the error that would makes the oldest 500 go. */
  lemma RecordedMeans(errors: seq<LoggedError>, err: LoggedError)
    requires |errors| <= 1000
    ensures Recorded(errors, None) == errors
    ensures |errors| < 1000 ==> Recorded(errors, Some(err)) == errors + [err]
    ensures |errors| == 1000 ==> Recorded(errors, Some(err)) == errors[500..] + [err]
  {
  }

  function Refusal(err: Option<TimerError>): Option<LoggedError>
  {
    if err.Some? then Some(TimerRefused(err.value)) else None
  }

  /** The error log after each of four timers has answered a request in turn. */
  function AfterReplies(errors: seq<LoggedError>, timers: seq<TimerState>, request: Input): seq<LoggedError>
    requires |timers| == WORK_TIMERS
  {
    var e0 := Recorded(errors, Refusal(Receive(timers[0], request).err));
    var e1 := Recorded(e0, Refusal(Receive(timers[1], request).err));
    var e2 := Recorded(e1, Refusal(Receive(timers[2], request).err));
    Recorded(e2, Refusal(Receive(timers[3], request).err))
  }

  function RefusedBy(t: TimerState, request: Input): seq<LoggedError>
  {
    var err := Receive(t, request).err;
    if err.Some? then [TimerRefused(err.value)] else []
  }

  /** With room in the log, exactly the refusals are added to it, in order. */
  lemma RepliesMean(errors: seq<LoggedError>, timers: seq<TimerState>, request: Input)
    requires |timers| == WORK_TIMERS && |errors| + 4 <= 1000
    ensures AfterReplies(errors, timers, request)
            == errors + RefusedBy(timers[0], request) + RefusedBy(timers[1], request)
               + RefusedBy(timers[2], request) + RefusedBy(timers[3], request)
  {
    hide Receive;
  }

  function AfterRequest(timers: seq<TimerState>, request: Input): seq<TimerState>
  {
    seq(|timers|, i requires 0 <= i < |timers| => Receive(timers[i], request).timer)
  }

  class Hub {
    const host: string
    const concurrentScanLimit: int
    const model: HubModel
    const checkScansForCompletionTimer: Timer
    const fetchScansTimer: Timer
    const fetchAllScansTimer: Timer
    const refreshScansTimer: Timer
    const loginTimer: Timer
    const getMetricsTimer: Timer
    var status: ClientStatus
    var errors: seq<LoggedError>

    predicate Distinct()
    {
      && checkScansForCompletionTimer != fetchScansTimer
      && checkScansForCompletionTimer != fetchAllScansTimer && checkScansForCompletionTimer != refreshScansTimer
      && fetchScansTimer != fetchAllScansTimer && fetchScansTimer != refreshScansTimer
      && fetchAllScansTimer != refreshScansTimer
    }

    /** The state between two didLogin actions. */
    ghost function View(): LoginState
      reads this, checkScansForCompletionTimer, fetchScansTimer, fetchAllScansTimer, refreshScansTimer
    {
      LoginState(status,
                 [checkScansForCompletionTimer.View(), fetchScansTimer.View(), fetchAllScansTimer.View(),
                  refreshScansTimer.View()],
                 NoLogin)
    }

    ghost predicate Valid()
      reads this, checkScansForCompletionTimer, fetchScansTimer, fetchAllScansTimer, refreshScansTimer
    {
      Distinct() && LoginInv(View()) && |errors| <= MAX_ERRORS
    }

    function WorkTimers(): set<Timer>
    {
      {checkScansForCompletionTimer, fetchScansTimer, fetchAllScansTimer, refreshScansTimer}
    }

    constructor (
      host: string, concurrentScanLimit: int, completionPause: int, unknownPause: int, allPause: int, refreshPause: int,
      loginPause: int, metricsPause: int)
      requires completionPause > 0 && unknownPause > 0 && allPause > 0 && refreshPause > 0
      requires loginPause > 0 && metricsPause > 0
      ensures Valid() && LoginInit(View()) && errors == []
      ensures this.host == host && this.concurrentScanLimit == concurrentScanLimit && model.View() == EMPTY_HUB
      ensures loginTimer.View() == Receive(NewTimer(loginPause), ResumeRequest(true)).timer
      ensures getMetricsTimer.View() == Receive(NewTimer(metricsPause), ResumeRequest(true)).timer
      ensures loginTimer != getMetricsTimer && loginTimer !in WorkTimers() && getMetricsTimer !in WorkTimers()
    {
      this.host, this.concurrentScanLimit := host, concurrentScanLimit;
      status, errors := Down, [];
      model := new HubModel();
      var metrics := Timer.NewRunningTimer(metricsPause, true);
      getMetricsTimer := metrics;
      checkScansForCompletionTimer := new Timer(completionPause);
      fetchScansTimer := new Timer(unknownPause);
      fetchAllScansTimer := new Timer(allPause);
      var login := Timer.NewRunningTimer(loginPause, true);
      loginTimer := login;
      refreshScansTimer := new Timer(refreshPause);
      hide LoginInv, LoginInit, TimerInv, Receive, NewTimer, Quiescent, IsAlive, Happen, HubModel.View, ModeAfter;
      new;
      assert Distinct() && loginTimer !in WorkTimers() && getMetricsTimer !in WorkTimers();
      hide Distinct, WorkTimers;
      assert View() == LoginState(
          Down, [NewTimer(completionPause), NewTimer(unknownPause), NewTimer(allPause), NewTimer(refreshPause)],
          NoLogin);
      hide Timer.View, View;
      NewTimersAreInitial(completionPause, unknownPause, allPause, refreshPause);
      InitSatisfiesInv(View());
    }

    method RecordError(err: Option<LoggedError>)
      requires |errors| <= MAX_ERRORS
      modifies this`errors
      ensures errors == Recorded(old(errors), err) && |errors| <= MAX_ERRORS
    {
      if err.Some? {
        errors := errors + [err.value];
      }
      if |errors| > MAX_ERRORS {
        errors := errors[KEPT_FROM..];
      }
    }

    method PauseWorkTimers()
      requires Distinct() && |errors| <= MAX_ERRORS
      requires forall t :: t in View().timers ==> IsAlive(t)
      modifies this`errors, checkScansForCompletionTimer, fetchScansTimer, fetchAllScansTimer, refreshScansTimer
      ensures View().timers == AfterRequest(old(View()).timers, PauseRequest)
      ensures errors == AfterReplies(old(errors), old(View()).timers, PauseRequest) && |errors| <= MAX_ERRORS
    {
      hide TimerInv, Receive, Recorded;
      ghost var timers := View().timers;
      assert timers[0] in timers && timers[1] in timers && timers[2] in timers && timers[3] in timers;
      var e0 := checkScansForCompletionTimer.Pause();
      RecordError(Refusal(e0));
      var e1 := fetchScansTimer.Pause();
      RecordError(Refusal(e1));
      var e2 := fetchAllScansTimer.Pause();
      RecordError(Refusal(e2));
      var e3 := refreshScansTimer.Pause();
      RecordError(Refusal(e3));
    }

    method ResumeWorkTimers()
      requires Distinct() && |errors| <= MAX_ERRORS
      requires forall t :: t in View().timers ==> IsAlive(t)
      modifies this`errors, checkScansForCompletionTimer, fetchScansTimer, fetchAllScansTimer, refreshScansTimer
      ensures View().timers == AfterRequest(old(View()).timers, ResumeRequest(true))
      ensures errors == AfterReplies(old(errors), old(View()).timers, ResumeRequest(true)) && |errors| <= MAX_ERRORS
    {
      hide TimerInv, Receive, Recorded;
      ghost var timers := View().timers;
      assert timers[0] in timers && timers[1] in timers && timers[2] in timers && timers[3] in timers;
      var e0 := checkScansForCompletionTimer.Resume(true);
      RecordError(Refusal(e0));
      var e1 := fetchScansTimer.Resume(true);
      RecordError(Refusal(e1));
      var e2 := fetchAllScansTimer.Resume(true);
      RecordError(Refusal(e2));
      var e3 := refreshScansTimer.Resume(true);
      RecordError(Refusal(e3));
    }

    /**
     What becomes of the result of a login, when nothing else happens to the timers in the meantime; LoginStates
     says what holds when it does.
     */
    method DidLogin(failed: bool)
      requires Valid()
      modifies this, checkScansForCompletionTimer, fetchScansTimer, fetchAllScansTimer, refreshScansTimer
      ensures Valid()
      ensures var before, request := old(View()), if failed then PauseRequest else ResumeRequest(true);
              var noted := Recorded(old(errors), if failed then Some(LoginFailed) else None);
              if before.status == (if failed then Up else Down) then
                && RunLogin(before, FourCalls(failed)) == Some(View())
                && errors == AfterReplies(noted, before.timers, request)
              else View() == before && errors == noted
    {
      hide TimerInv, Quiescent, Receive, Recorded, AfterReplies;
      ghost var before := View();
      assert forall i :: 0 <= i < WORK_TIMERS ==> IsAlive(before.timers[i]);
      RecordError(if failed then Some(LoginFailed) else None);
      if failed && status == Up {
        status := Down;
        PauseWorkTimers();
      } else if !failed && status == Down {
        status := Up;
        ResumeWorkTimers();
      }
      if before.status == (if failed then Up else Down) {
        assert RunLogin(before, []) == Some(before);
        RunFourCalls(before, [], failed);
        assert [] + FourCalls(failed) == FourCalls(failed);
        RunKeepsLoginInv(before, FourCalls(failed));
      }
    }
  }
}
