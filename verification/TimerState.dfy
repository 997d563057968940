/**
 pkg/util/timer.go as a state machine: one step per case of the select loop. Timer.dfy has the loop's cases as
 methods, proved to take these steps.
 */
module TimerStates {
  import opened Options

  datatype TimerStatus = Ready | RunningAction | Paused | Stopped

  /** What has happened to a timer, as far as its users can tell. */
  datatype Event = Resumed | PauseAccepted | ActionStarted

  datatype TimerError = CannotPause(status: TimerStatus) | PauseAlreadyQueued | CannotResume(status: TimerStatus)

  /** `ticking` says that a live ticker feeds the loop; `inFlight` counts the goroutines running the action. */
  datatype TimerState = TimerState(
    status: TimerStatus, delay: int, ticking: bool, pauseQueued: bool, inFlight: int, history: seq<Event>)

  datatype Input =
    | DidFinishAction
    | Tick
    | PauseRequest
    | ResumeRequest(runImmediately: bool)
    | Stop
    | SetDelay(delay: int)

  datatype Reply = Reply(timer: TimerState, err: Option<TimerError>)

  function NewTimer(delay: int): TimerState
  {
    TimerState(Paused, delay, false, false, 0, [])
  }

  function ExecuteAction(t: TimerState): TimerState
  {
    t.(status := RunningAction, pauseQueued := false, inFlight := t.inFlight + 1,
       history := t.history + [ActionStarted])
  }

  /**
   The loop ends with a stop; finishing an action needs one in flight, a tick a ticker; a ticker without a
   positive delay panics.
   */
  predicate CanReceive(t: TimerState, i: Input)
  {
    && t.status != Stopped
    && (i.DidFinishAction? ==> t.inFlight > 0)
    && (i.Tick? ==> t.ticking)
    && (i.ResumeRequest? && t.status == Paused ==> t.delay > 0)
  }

  function Receive(t: TimerState, i: Input): Reply
  {
    match i
    case DidFinishAction =>
      var t := t.(inFlight := t.inFlight - 1);
      Reply(if t.pauseQueued then t.(status := Paused, ticking := false) else t.(status := Ready), None)
    case Tick =>
      Reply(if t.status == Ready then ExecuteAction(t) else t, None)
    case PauseRequest =>
      if t.status == Ready then
        Reply(t.(status := Paused, ticking := false, history := t.history + [PauseAccepted]), None)
      else if t.status == RunningAction then
        if t.pauseQueued then Reply(t, Some(PauseAlreadyQueued))
        else Reply(t.(pauseQueued := true, history := t.history + [PauseAccepted]), None)
      else Reply(t, Some(CannotPause(t.status)))
    case ResumeRequest(runImmediately) =>
      if t.status == Paused then
        var t := t.(ticking := true, history := t.history + [Resumed]);
        Reply(if runImmediately then ExecuteAction(t) else t.(status := Ready), None)
      else Reply(t, Some(CannotResume(t.status)))
    case Stop =>
      Reply(t.(status := Stopped, ticking := t.ticking && t.status != Ready), None)
    case SetDelay(delay) =>
      Reply(t.(delay := delay), None)
  }

  // ---------- Histories ----------

  datatype Mode = AwaitingResume | Going | Broken

  /** Reads a history: resumes and pauses alternate, a resume first, and actions start only in between. */
  function ModeAfter(h: seq<Event>): Mode
  {
    if h == [] then AwaitingResume
    else
      match (ModeAfter(h[..|h| - 1]), h[|h| - 1])
      case (AwaitingResume, Resumed) => Going
      case (Going, ActionStarted) => Going
      case (Going, PauseAccepted) => AwaitingResume
      case _ => Broken
  }

  /** At position i an event e happened, and none of the kinds in `not` has happened since. */
  ghost predicate LastWas(h: seq<Event>, i: int, e: Event, not: set<Event>)
  {
    0 <= i < |h| && h[i] == e && forall k :: i < k < |h| ==> h[k] !in not
  }

  ghost predicate LastSince(h: seq<Event>, e: Event, not: set<Event>)
  {
    exists i :: LastWas(h, i, e, not)
  }

  /**
   What must have happened before an event: a resume comes first or after an accepted pause, with no resume and no
   action since; a pause is accepted, and an action starts, after a resume with no resume and no accepted pause since.
   */
  ghost predicate Justified(before: seq<Event>, e: Event)
  {
    match e
    case Resumed => before == [] || LastSince(before, PauseAccepted, {Resumed, ActionStarted})
    case PauseAccepted => LastSince(before, Resumed, {Resumed, PauseAccepted})
    case ActionStarted => LastSince(before, Resumed, {Resumed, PauseAccepted})
  }

  ghost predicate Orderly(h: seq<Event>)
  {
    forall j :: 0 <= j < |h| ==> Justified(h[..j], h[j])
  }

  lemma {:induction false} ModeMeans(h: seq<Event>)
    ensures ModeAfter(h) == Going ==> LastSince(h, Resumed, {Resumed, PauseAccepted})
    ensures ModeAfter(h) == AwaitingResume && h != [] ==> LastSince(h, PauseAccepted, {Resumed, ActionStarted})
  {
    if h != [] {
      var front := h[..|h| - 1];
      ModeMeans(front);
      if ModeAfter(h) == Going {
        if h[|h| - 1] == Resumed {
          assert LastWas(h, |h| - 1, Resumed, {Resumed, PauseAccepted});
        } else {
          var i :| LastWas(front, i, Resumed, {Resumed, PauseAccepted});
          assert LastWas(h, i, Resumed, {Resumed, PauseAccepted});
        }
      } else if ModeAfter(h) == AwaitingResume {
        assert LastWas(h, |h| - 1, PauseAccepted, {Resumed, ActionStarted});
      }
    }
  }

  /**
   A history that never breaks: accepted resumes and pauses strictly alternate, starting with a resume, and every
   action starts after a resume with no accepted pause since.
   */
  lemma {:induction false} UnbrokenIsOrderly(h: seq<Event>)
    requires ModeAfter(h) != Broken
    ensures Orderly(h)
  {
    if h != [] {
      var n := |h| - 1;
      var front := h[..n];
      UnbrokenIsOrderly(front);
      ModeMeans(front);
      hide LastSince;
      forall j | 0 <= j < |h|
        ensures Justified(h[..j], h[j])
      {
        if j < n {
          assert front[..j] == h[..j] && Justified(front[..j], front[j]);
        }
      }
    }
  }

  // ---------- The invariant ----------

  /** A pause has been accepted and no resume since. */
  predicate Quiescent(t: TimerState)
  {
    t.status == Paused || (t.status == RunningAction && t.pauseQueued)
  }

  /** What runs: one action exactly in RunningAction, a ticker exactly in Ready and RunningAction. */
  predicate PartsAgree(t: TimerState)
  {
    && 0 <= t.inFlight <= 1
    && (t.status != Stopped ==>
          && (t.inFlight == 1 <==> t.status == RunningAction)
          && (t.ticking <==> t.status == Ready || t.status == RunningAction))
  }

  /** The history never broke, and ended in an accepted pause, or never began, exactly if the timer is quiescent. */
  predicate HistoryAgrees(t: TimerState)
  {
    && ModeAfter(t.history) != Broken
    && (t.status != Stopped ==> (ModeAfter(t.history) == AwaitingResume <==> Quiescent(t)))
  }

  ghost predicate TimerInv(t: TimerState)
  {
    PartsAgree(t) && HistoryAgrees(t)
  }

  lemma ModeOfOneMore(h: seq<Event>, e: Event)
    ensures ModeAfter(h + [e]) ==
              match (ModeAfter(h), e)
              case (AwaitingResume, Resumed) => Going
              case (Going, ActionStarted) => Going
              case (Going, PauseAccepted) => AwaitingResume
              case _ => Broken
  {
    assert (h + [e])[..|h|] == h;
  }

  lemma ReceiveKeepsInv(t: TimerState, i: Input)
    requires TimerInv(t) && CanReceive(t, i)
    ensures TimerInv(Receive(t, i).timer)
  {
    hide ModeAfter;
    ModeOfOneMore(t.history, Resumed);
    ModeOfOneMore(t.history, PauseAccepted);
    ModeOfOneMore(t.history, ActionStarted);
    ModeOfOneMore(t.history + [Resumed], ActionStarted);
  }

  /** Only requests begin or end quiescence, and a quiescent timer starts no action. */
  lemma QuiescenceLasts(t: TimerState, i: Input)
    requires TimerInv(t) && CanReceive(t, i) && (i.DidFinishAction? || i.Tick? || i.SetDelay?)
    ensures Quiescent(Receive(t, i).timer) <==> Quiescent(t)
    ensures Quiescent(t) ==> Receive(t, i).timer.history == t.history
  {
  }

  /** After a request to pause, accepted or not, a timer is quiescent. */
  lemma PauseQuiesces(t: TimerState)
    requires TimerInv(t) && t.status != Stopped
    ensures Quiescent(Receive(t, PauseRequest).timer)
    ensures Receive(t, PauseRequest).err.None? <==> !Quiescent(t)
  {
  }

  /** A request to resume ends quiescence exactly when no pause is still waiting for an action to finish. */
  lemma ResumeTakesEffectIff(t: TimerState, runImmediately: bool)
    requires TimerInv(t) && Quiescent(t)
    ensures !Quiescent(Receive(t, ResumeRequest(runImmediately)).timer) <==> t.status == Paused
    ensures Receive(t, ResumeRequest(runImmediately)).err.None? <==> t.status == Paused
  {
  }

  /** What the requests are answered, and what they do to the status. A refused one changes nothing. */
  lemma RequestOutcomes(t: TimerState, runImmediately: bool)
    requires TimerInv(t) && t.status != Stopped
    ensures var pause := Receive(t, PauseRequest);
            match t.status
            case Ready => pause.err.None? && pause.timer.status == Paused && !pause.timer.ticking
            case RunningAction =>
              if t.pauseQueued then pause == Reply(t, Some(PauseAlreadyQueued))
              else pause.err.None? && pause.timer.status == RunningAction && pause.timer.pauseQueued
            case _ => pause == Reply(t, Some(CannotPause(t.status)))
    ensures var resume := Receive(t, ResumeRequest(runImmediately));
            if t.status == Paused
            then && resume.err.None? && resume.timer.ticking
                 && resume.timer.status == if runImmediately then RunningAction else Ready
            else resume == Reply(t, Some(CannotResume(t.status)))
  {
  }

  /** A finished action makes the timer ready, or paused if that was asked for; a tick starts one only while ready. */
  lemma ActionOutcomes(t: TimerState)
    requires TimerInv(t) && t.status != Stopped
    ensures t.inFlight > 0 ==> Receive(t, DidFinishAction).timer.status == if t.pauseQueued then Paused else Ready
    ensures t.ticking ==>
              if t.status == Ready then Receive(t, Tick).timer.status == RunningAction
              else Receive(t, Tick) == Reply(t, None)
  {
  }

  /** After a stop nothing is received any more. A ticker stays alive, for ever, exactly if an action was running. */
  lemma StopIsFinal(t: TimerState)
    requires TimerInv(t) && t.status != Stopped
    ensures forall i :: !CanReceive(Receive(t, Stop).timer, i)
    ensures Receive(t, Stop).timer.ticking <==> t.status == RunningAction
    ensures Receive(t, Stop).timer.history == t.history && Receive(t, Stop).timer.inFlight == t.inFlight
  {
  }

  /** A timer begins paused, without a ticker; its delay is the one last set, and setting it has no other effect. */
  lemma DelayIsLastSet(t: TimerState, i: Input, delay: int)
    ensures NewTimer(delay).status == Paused && NewTimer(delay).delay == delay
    ensures !NewTimer(delay).ticking && NewTimer(delay).inFlight == 0 && NewTimer(delay).history == []
    ensures !i.SetDelay? ==> Receive(t, i).timer.delay == t.delay
    ensures Receive(t, SetDelay(delay)).timer.delay == delay
    ensures Receive(t, SetDelay(delay)).timer.(delay := t.delay) == t && Receive(t, SetDelay(delay)).err.None?
  {
  }

  /** The two inputs that start an action: a tick while ready, and an immediate resume of a paused timer. */
  predicate StartsAction(t: TimerState, i: Input)
  {
    (i.Tick? && t.status == Ready) || (i.ResumeRequest? && i.runImmediately && t.status == Paused)
  }

  /** How many actions a history says were started. */
  function Starts(h: seq<Event>): nat
  {
    if h == [] then 0 else Starts(h[..|h| - 1]) + if h[|h| - 1] == ActionStarted then 1 else 0
  }

  lemma StartsOfOneMore(h: seq<Event>, e: Event)
    ensures Starts(h + [e]) == Starts(h) + if e == ActionStarted then 1 else 0
  {
    assert (h + [e])[..|h|] == h;
  }

  /** An action starts on exactly these inputs, and each start puts one more in flight; only a finish takes one out. */
  lemma ActionStartsIff(t: TimerState, i: Input)
    ensures Starts(Receive(t, i).timer.history) == Starts(t.history) + if StartsAction(t, i) then 1 else 0
    ensures Receive(t, i).timer.inFlight
            == t.inFlight + (if StartsAction(t, i) then 1 else 0) - (if i.DidFinishAction? then 1 else 0)
  {
    hide Starts;
    StartsOfOneMore(t.history, Resumed);
    StartsOfOneMore(t.history, PauseAccepted);
    StartsOfOneMore(t.history, ActionStarted);
    StartsOfOneMore(t.history + [Resumed], ActionStarted);
  }

  function Run(t: TimerState, inputs: seq<Input>): TimerState
  {
    if inputs == [] then t else Receive(Run(t, inputs[..|inputs| - 1]), inputs[|inputs| - 1]).timer
  }

  ghost predicate Receivable(t: TimerState, inputs: seq<Input>)
  {
    forall j :: 0 <= j < |inputs| ==> CanReceive(Run(t, inputs[..j]), inputs[j])
  }

  /**
   Over every run of a new timer until it is stopped: at most one action is in flight, and one is exactly while
   the status says so; the ticker lives exactly in Ready and RunningAction; and the history is orderly.
   */
  lemma {:induction false} EveryRunIsOrderly(delay: int, inputs: seq<Input>)
    requires delay > 0 && Receivable(NewTimer(delay), inputs)
    ensures TimerInv(Run(NewTimer(delay), inputs)) && Orderly(Run(NewTimer(delay), inputs).history)
  {
    var t := NewTimer(delay);
    if inputs != [] {
      var front := inputs[..|inputs| - 1];
      assert forall j :: 0 <= j < |front| ==> front[..j] == inputs[..j] && front[j] == inputs[j];
      EveryRunIsOrderly(delay, front);
      assert CanReceive(Run(t, front), inputs[|inputs| - 1]);
      ReceiveKeepsInv(Run(t, front), inputs[|inputs| - 1]);
    }
    UnbrokenIsOrderly(Run(t, inputs).history);
  }

  /** How many of the inputs start an action. */
  function Triggers(t: TimerState, inputs: seq<Input>): nat
  {
    if inputs == [] then 0
    else
      var front := inputs[..|inputs| - 1];
      Triggers(t, front) + if StartsAction(Run(t, front), inputs[|inputs| - 1]) then 1 else 0
  }

  function Finishes(inputs: seq<Input>): nat
  {
    if inputs == [] then 0
    else Finishes(inputs[..|inputs| - 1]) + if inputs[|inputs| - 1].DidFinishAction? then 1 else 0
  }

  /**
   Over every run of a new timer the actions started are exactly the ticks while ready and the immediate resumes
   while paused, and all of them have finished except for at most one still in flight.
   */
  lemma {:induction false} ActionsAreAccountedFor(delay: int, inputs: seq<Input>)
    requires delay > 0 && Receivable(NewTimer(delay), inputs)
    ensures var t := Run(NewTimer(delay), inputs);
            && Starts(t.history) == Triggers(NewTimer(delay), inputs) == Finishes(inputs) + t.inFlight
            && 0 <= t.inFlight <= 1
  {
    var t := NewTimer(delay);
    EveryRunIsOrderly(delay, inputs);
    if inputs != [] {
      var front := inputs[..|inputs| - 1];
      assert forall j :: 0 <= j < |front| ==> front[..j] == inputs[..j] && front[j] == inputs[j];
      ActionsAreAccountedFor(delay, front);
      ActionStartsIff(Run(t, front), inputs[|inputs| - 1]);
    }
  }
}
