/**
 The didLogin action of pkg/hub/hub.go together with the four work timers it drives, as a labelled transition
 system: the action calls the timers one after another, and any timer may take other steps in between.
 */
module LoginStates {
  import opened Options
  import opened TimerStates

  datatype ClientStatus = Up | Down

  /** The didLogin action in progress, and the next timer it will call. */
  datatype LoginPhase = NoLogin | Pausing(next: nat) | Resuming(next: nat)

  datatype LoginState = LoginState(status: ClientStatus, timers: seq<TimerState>, phase: LoginPhase)

  datatype LoginLabel = DidLogin(failed: bool) | CallNextTimer | TimerStep(index: nat, input: Input)

  const WORK_TIMERS := 4

  /** The work timers are paused and resumed by the login alone, and nothing is said about a hub that is stopped. */
  predicate CanHappen(s: LoginState, l: LoginLabel)
  {
    match l
    case DidLogin(_) => s.phase.NoLogin?
    case CallNextTimer => !s.phase.NoLogin? && s.phase.next < |s.timers|
    case TimerStep(index, input) =>
      && index < |s.timers| && CanReceive(s.timers[index], input)
      && (input.DidFinishAction? || input.Tick? || (input.SetDelay? && input.delay > 0))
  }

  function AfterCall(phase: LoginPhase): LoginPhase
  {
    match phase
    case NoLogin => NoLogin
    case Pausing(next) => if next + 1 < WORK_TIMERS then Pausing(next + 1) else NoLogin
    case Resuming(next) => if next + 1 < WORK_TIMERS then Resuming(next + 1) else NoLogin
  }

  function Happen(s: LoginState, l: LoginLabel): LoginState
    requires CanHappen(s, l)
  {
    match l
    case DidLogin(failed) =>
      if failed && s.status == Up then s.(status := Down, phase := Pausing(0))
      else if !failed && s.status == Down then s.(status := Up, phase := Resuming(0))
      else s
    case CallNextTimer =>
      var request := if s.phase.Pausing? then PauseRequest else ResumeRequest(true);
      s.(timers := s.timers[s.phase.next := Receive(s.timers[s.phase.next], request).timer],
         phase := AfterCall(s.phase))
    case TimerStep(index, input) =>
      s.(timers := s.timers[index := Receive(s.timers[index], input).timer])
  }

  ghost predicate LoginInit(s: LoginState)
  {
    && s.status == Down && s.phase == NoLogin && |s.timers| == WORK_TIMERS
    && forall i :: 0 <= i < WORK_TIMERS ==> s.timers[i].delay > 0 && s.timers[i] == NewTimer(s.timers[i].delay)
  }

  /** The timer can be asked to pause and to resume. */
  ghost predicate IsAlive(t: TimerState)
  {
    TimerInv(t) && t.status != Stopped && t.delay > 0
  }

  ghost predicate LoginInv(s: LoginState)
  {
    && |s.timers| == WORK_TIMERS
    && (forall i :: 0 <= i < WORK_TIMERS ==> IsAlive(s.timers[i]))
    && match s.phase
       case NoLogin => s.status == Down ==> forall i :: 0 <= i < WORK_TIMERS ==> Quiescent(s.timers[i])
       case Pausing(next) =>
         s.status == Down && next < WORK_TIMERS && forall i :: 0 <= i < next ==> Quiescent(s.timers[i])
       case Resuming(next) =>
         s.status == Up && next < WORK_TIMERS && forall i :: next <= i < WORK_TIMERS ==> Quiescent(s.timers[i])
  }

  lemma StaysAlive(t: TimerState, i: Input)
    requires IsAlive(t) && CanReceive(t, i) && !i.Stop? && (i.SetDelay? ==> i.delay > 0)
    ensures IsAlive(Receive(t, i).timer)
  {
    ReceiveKeepsInv(t, i);
  }

  lemma AliveTakesRequests(t: TimerState)
    requires IsAlive(t)
    ensures CanReceive(t, PauseRequest) && CanReceive(t, ResumeRequest(true))
    ensures Quiescent(Receive(t, PauseRequest).timer)
  {
    PauseQuiesces(t);
  }

  lemma AliveKeepsQuiescence(t: TimerState, i: Input)
    requires IsAlive(t) && CanReceive(t, i) && (i.DidFinishAction? || i.Tick? || i.SetDelay?)
    ensures Quiescent(Receive(t, i).timer) <==> Quiescent(t)
    ensures Quiescent(t) ==> Receive(t, i).timer.history == t.history
  {
    QuiescenceLasts(t, i);
  }

  lemma HappenKeepsInv(s: LoginState, l: LoginLabel)
    requires LoginInv(s) && CanHappen(s, l)
    ensures LoginInv(Happen(s, l))
  {
    hide Receive, IsAlive, Quiescent;
    match l
    case DidLogin(_) =>
    case CallNextTimer =>
      var t := s.timers[s.phase.next];
      AliveTakesRequests(t);
      StaysAlive(t, PauseRequest);
      StaysAlive(t, ResumeRequest(true));
    case TimerStep(index, input) =>
      StaysAlive(s.timers[index], input);
      AliveKeepsQuiescence(s.timers[index], input);
  }

  /** After a login the status is its outcome; the timers are only called if that is news. */
  lemma LoginOutcomes(s: LoginState, failed: bool)
    requires CanHappen(s, DidLogin(failed))
    ensures var s' := Happen(s, DidLogin(failed));
            && s'.status == (if failed then Down else Up) && s'.timers == s.timers
            && s'.phase == if s.status == Up && failed then Pausing(0)
                           else if s.status == Down && !failed then Resuming(0)
                           else NoLogin
  {
  }

  function RunLogin(s: LoginState, labels: seq<LoginLabel>): (s': Option<LoginState>)
  {
    if labels == [] then Some(s)
    else
      var before := RunLogin(s, labels[..|labels| - 1]);
      if before.Some? && CanHappen(before.value, labels[|labels| - 1])
      then Some(Happen(before.value, labels[|labels| - 1]))
      else None
  }

  /** Four new timers of a hub that is down. */
  lemma NewTimersAreInitial(d0: int, d1: int, d2: int, d3: int)
    requires d0 > 0 && d1 > 0 && d2 > 0 && d3 > 0
    ensures LoginInit(LoginState(Down, [NewTimer(d0), NewTimer(d1), NewTimer(d2), NewTimer(d3)], NoLogin))
  {
  }

  lemma InitSatisfiesInv(s: LoginState)
    requires LoginInit(s)
    ensures LoginInv(s)
  {
  }

  lemma {:induction false} RunKeepsLoginInv(s: LoginState, labels: seq<LoginLabel>)
    requires LoginInv(s) && RunLogin(s, labels).Some?
    ensures LoginInv(RunLogin(s, labels).value)
  {
    if labels != [] {
      RunKeepsLoginInv(s, labels[..|labels| - 1]);
      HappenKeepsInv(RunLogin(s, labels[..|labels| - 1]).value, labels[|labels| - 1]);
    }
  }

  ghost predicate AllQuiescent(s: LoginState)
  {
    |s.timers| == WORK_TIMERS && forall i :: 0 <= i < WORK_TIMERS ==> Quiescent(s.timers[i])
  }

  ghost predicate SameHistories(s: LoginState, s': LoginState)
  {
    |s.timers| == |s'.timers| && forall i :: 0 <= i < |s.timers| ==> s'.timers[i].history == s.timers[i].history
  }

  /** One step of a hub that is down, other than a successful login. */
  lemma DownStaysQuiescent(s: LoginState, l: LoginLabel)
    requires LoginInv(s) && s.status == Down && s.phase.NoLogin? && CanHappen(s, l) && l != DidLogin(false)
    ensures Happen(s, l).status == Down && Happen(s, l).phase.NoLogin?
    ensures AllQuiescent(s) && AllQuiescent(Happen(s, l)) && SameHistories(s, Happen(s, l))
  {
    hide Receive, IsAlive, Quiescent;
    if l.TimerStep? {
      AliveKeepsQuiescence(s.timers[l.index], l.input);
    }
  }

  lemma {:induction false} DownRunStaysQuiescent(s: LoginState, more: seq<LoginLabel>)
    requires LoginInv(s) && s.status == Down && s.phase.NoLogin?
    requires RunLogin(s, more).Some? && DidLogin(false) !in more
    ensures var later := RunLogin(s, more).value;
            && LoginInv(later) && later.status == Down && later.phase.NoLogin?
            && AllQuiescent(s) && AllQuiescent(later) && SameHistories(s, later)
  {
    if more != [] {
      hide LoginInv, Happen, AllQuiescent;
      var front, l := more[..|more| - 1], more[|more| - 1];
      assert more == front + [l];
      DownRunStaysQuiescent(s, front);
      DownStaysQuiescent(RunLogin(s, front).value, l);
      HappenKeepsInv(RunLogin(s, front).value, l);
    }
  }

  /**
   Whenever the hub is down and no didLogin action is in progress, each work timer is paused, or finishing one
   action with a pause queued; and as long as no login succeeds, whatever else happens, it stays that way and no
   timer starts another action.
   */
  lemma DownMeansQuiescent(s: LoginState, labels: seq<LoginLabel>, more: seq<LoginLabel>)
    requires LoginInit(s) && RunLogin(s, labels).Some?
    requires RunLogin(s, labels).value.status == Down && RunLogin(s, labels).value.phase.NoLogin?
    requires RunLogin(RunLogin(s, labels).value, more).Some? && DidLogin(false) !in more
    ensures var now := RunLogin(s, labels).value;
            var later := RunLogin(now, more).value;
            && later.status == Down && later.phase.NoLogin?
            && AllQuiescent(now) && AllQuiescent(later) && SameHistories(now, later)
  {
    InitSatisfiesInv(s);
    RunKeepsLoginInv(s, labels);
    DownRunStaysQuiescent(RunLogin(s, labels).value, more);
  }

  /** The request to resume that a login makes of a timer takes effect exactly when no pause is still waiting there. */
  lemma LoginResumesIffPaused(s: LoginState, labels: seq<LoginLabel>)
    requires LoginInit(s) && RunLogin(s, labels).Some? && RunLogin(s, labels).value.phase.Resuming?
    ensures var now := RunLogin(s, labels).value;
            && now.phase.next < |now.timers| && CanHappen(now, CallNextTimer)
            && (Quiescent(Happen(now, CallNextTimer).timers[now.phase.next])
                <==> now.timers[now.phase.next].status != Paused)
  {
    InitSatisfiesInv(s);
    RunKeepsLoginInv(s, labels);
    var now := RunLogin(s, labels).value;
    ResumeTakesEffectIff(now.timers[now.phase.next], true);
  }

  function FourCalls(failed: bool): seq<LoginLabel>
  {
    [DidLogin(failed), CallNextTimer, CallNextTimer, CallNextTimer, CallNextTimer]
  }

  lemma RunOneMore(s: LoginState, labels: seq<LoginLabel>, l: LoginLabel)
    requires RunLogin(s, labels).Some? && CanHappen(RunLogin(s, labels).value, l)
    ensures RunLogin(s, labels + [l]) == Some(Happen(RunLogin(s, labels).value, l))
  {
    assert (labels + [l])[..|labels|] == labels;
  }

  /** An uninterrupted didLogin action that changes the status sends one request to each timer. */
  lemma RunFourCalls(s: LoginState, a: seq<LoginLabel>, failed: bool)
    requires RunLogin(s, a).Some?
    requires var now := RunLogin(s, a).value;
             now.phase.NoLogin? && |now.timers| == WORK_TIMERS && now.status == if failed then Up else Down
    ensures var now := RunLogin(s, a).value;
            var request := if failed then PauseRequest else ResumeRequest(true);
            RunLogin(s, a + FourCalls(failed))
            == Some(LoginState(if failed then Down else Up,
                               seq(4, i requires 0 <= i < 4 => Receive(now.timers[i], request).timer), NoLogin))
  {
    hide Receive, RunLogin;
    var now := RunLogin(s, a).value;
    var request := if failed then PauseRequest else ResumeRequest(true);
    var status := if failed then Down else Up;
    var t0, t1, t2, t3 := now.timers[0], now.timers[1], now.timers[2], now.timers[3];
    assert now.timers == [t0, t1, t2, t3];
    var u0, u1 := Receive(t0, request).timer, Receive(t1, request).timer;
    var u2, u3 := Receive(t2, request).timer, Receive(t3, request).timer;
    var phase: nat -> LoginPhase := (i: nat) => if failed then Pausing(i) else Resuming(i);
    var c := a + [DidLogin(failed)];
    RunOneMore(s, a, DidLogin(failed));
    assert RunLogin(s, c) == Some(LoginState(status, [t0, t1, t2, t3], phase(0)));
    assert [t0, t1, t2, t3][0 := u0] == [u0, t1, t2, t3];
    RunOneMore(s, c, CallNextTimer);
    c := c + [CallNextTimer];
    assert RunLogin(s, c) == Some(LoginState(status, [u0, t1, t2, t3], phase(1)));
    assert [u0, t1, t2, t3][1 := u1] == [u0, u1, t2, t3];
    RunOneMore(s, c, CallNextTimer);
    c := c + [CallNextTimer];
    assert RunLogin(s, c) == Some(LoginState(status, [u0, u1, t2, t3], phase(2)));
    assert [u0, u1, t2, t3][2 := u2] == [u0, u1, u2, t3];
    RunOneMore(s, c, CallNextTimer);
    c := c + [CallNextTimer];
    assert RunLogin(s, c) == Some(LoginState(status, [u0, u1, u2, t3], phase(3)));
    assert [u0, u1, u2, t3][3 := u3] == [u0, u1, u2, u3];
    RunOneMore(s, c, CallNextTimer);
    c := c + [CallNextTimer];
    assert RunLogin(s, c) == Some(LoginState(status, [u0, u1, u2, u3], NoLogin));
    assert c == a + FourCalls(failed);
    assert [u0, u1, u2, u3] == seq(4, i requires 0 <= i < 4 => Receive(now.timers[i], request).timer);
  }

  /** A new timer that is resumed, and then paused and resumed again while its first action is running. */
  lemma RefusedResumeLeavesQuiescent(delay: int)
    ensures var running := Receive(NewTimer(delay), ResumeRequest(true)).timer;
            Quiescent(Receive(Receive(running, PauseRequest).timer, ResumeRequest(true)).timer)
  {
  }

  /** The converse fails: a hub can be up, after a completed login, with a work timer that will not run again. */
  lemma UpDoesNotMeanRunning(s: LoginState)
    requires LoginInit(s)
    ensures exists labels :: RunLogin(s, labels).Some? && RunLogin(s, labels).value.status == Up
                             && RunLogin(s, labels).value.phase.NoLogin?
                             && RunLogin(s, labels).value.timers != [] && Quiescent(RunLogin(s, labels).value.timers[0])
  {
    // the first action of every timer is still running when the hub goes down and comes up again
    var login, logout := FourCalls(false), FourCalls(true);
    assert RunLogin(s, []) == Some(s) && s.timers[0] == NewTimer(s.timers[0].delay);
    RefusedResumeLeavesQuiescent(s.timers[0].delay);
    hide Receive, RunLogin, NewTimer, Quiescent, FourCalls;
    RunFourCalls(s, [], false);
    assert [] + login == login;
    RunFourCalls(s, login, true);
    RunFourCalls(s, login + logout, false);
    assert Quiescent(RunLogin(s, login + logout + login).value.timers[0]);
  }

  // ---------- Every timer on its own ----------

  /** The input that one step gives to timer i. */
  function InputOf(s: LoginState, l: LoginLabel, i: nat): seq<Input>
  {
    match l
    case DidLogin(_) => []
    case CallNextTimer =>
      if s.phase.Pausing? && s.phase.next == i then [PauseRequest]
      else if s.phase.Resuming? && s.phase.next == i then [ResumeRequest(true)]
      else []
    case TimerStep(index, input) => if index == i then [input] else []
  }

  function InputsOf(s: LoginState, labels: seq<LoginLabel>, i: nat): seq<Input>
  {
    if labels == [] then []
    else
      var front := labels[..|labels| - 1];
      var before := RunLogin(s, front);
      InputsOf(s, front, i) + if before.Some? then InputOf(before.value, labels[|labels| - 1], i) else []
  }

  lemma StepOfTimer(s: LoginState, l: LoginLabel, i: nat)
    requires LoginInv(s) && CanHappen(s, l) && i < WORK_TIMERS
    ensures |Happen(s, l).timers| == WORK_TIMERS
    ensures var inputs := InputOf(s, l, i);
            if inputs == [] then Happen(s, l).timers[i] == s.timers[i]
            else && inputs == [inputs[0]] && CanReceive(s.timers[i], inputs[0])
                 && Happen(s, l).timers[i] == Receive(s.timers[i], inputs[0]).timer
  {
    hide Receive, TimerInv, Quiescent;
  }

  lemma ReceiveOneMore(t: TimerState, inputs: seq<Input>, i: Input)
    requires Receivable(t, inputs) && CanReceive(Run(t, inputs), i)
    ensures Receivable(t, inputs + [i]) && Run(t, inputs + [i]) == Receive(Run(t, inputs), i).timer
  {
    hide Receive, CanReceive;
    var all := inputs + [i];
    assert all[..|inputs|] == inputs;
    assert forall j :: 0 <= j < |inputs| ==> all[..j] == inputs[..j];
  }

  /**
   In every interleaved run each work timer goes through a run of its own, so that all that is said of those
   holds.
   */
  lemma {:induction false} TimersRunOnTheirOwn(s: LoginState, labels: seq<LoginLabel>, i: nat)
    requires LoginInit(s) && RunLogin(s, labels).Some? && i < WORK_TIMERS
    ensures |RunLogin(s, labels).value.timers| == WORK_TIMERS
    ensures var inputs := InputsOf(s, labels, i);
            && Receivable(NewTimer(s.timers[i].delay), inputs)
            && RunLogin(s, labels).value.timers[i] == Run(NewTimer(s.timers[i].delay), inputs)
  {
    InitSatisfiesInv(s);
    if labels != [] {
      var front, l := labels[..|labels| - 1], labels[|labels| - 1];
      TimersRunOnTheirOwn(s, front, i);
      RunKeepsLoginInv(s, front);
      var before := RunLogin(s, front).value;
      hide LoginInv, LoginInit, Receive, CanReceive, NewTimer, Happen, CanHappen, InputOf;
      StepOfTimer(before, l, i);
      var inputs, more := InputsOf(s, front, i), InputOf(before, l, i);
      if more == [] {
        assert inputs + more == inputs;
      } else {
        ReceiveOneMore(NewTimer(s.timers[i].delay), inputs, more[0]);
      }
    }
  }
}
