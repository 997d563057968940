/**
 The dispatch protocol of pkg/core/perceptor.go, scanscheduler.go and pkg/hub/model.go as a labelled transition
 system. One getNextImage is in flight at a time; each of its steps is atomic, and any other action of the core
 or of a hub may come between two of them, with any arguments.
 */
module Dispatch {
  import opened Options
  import opened HubData
  import opened ScanStatuses
  import opened CoreState
  import opened CoreInvariants
  import opened CoreTheorems
  import opened HubScans

  /**
   One hub. The last two fields only record history: `found` holds the scans in progress whose current spell in
   progress began with a fetched result rather than with a dispatch, and `moves` counts how often that happened.
   */
  datatype HubSide = HubSide(limit: int, model: HubState, found: set<string>, moves: nat)

  /** Where the one getNextImage in flight is. */
  datatype Phase =
    | Idle
    | Peeked(image: Image, unchecked: set<string>)
    | Assigned(image: Image, host: string)
    | HandedOut(image: Image, host: string)
    | StartedInCore(image: Image, host: string)

  /** `hosts` are the hosts that the configuration knows. */
  datatype System = System(core: State, hubs: map<string, HubSide>, hosts: set<string>, phase: Phase)

  datatype Label =
    | CoreAct(action: Action)
    | HubAct(at: string, hubAction: HubAction)
    | Peek(next: Option<Image>)
    | CheckHub(candidate: string)
    | GiveUp
    | Drop
    | HandOut
    | StartInCore
    | StartInHub

  predicate HasRoom(side: HubSide)
  {
    |InProgressScans(side.model)| < side.limit
  }

  /** Scan clients are started by the dispatcher alone; everything else may happen at any time. */
  ghost predicate Enabled(sys: System, l: Label)
  {
    match l
    case CoreAct(action) => !action.DoStartScanClient?
    case HubAct(at, hubAction) => at in sys.hubs && !hubAction.StartedScanClient? && HubEnabled(hubAction)
    case Peek(next) => sys.phase.Idle? && IsNextImage(sys.core, next)
    case CheckHub(candidate) => sys.phase.Peeked? && candidate in sys.phase.unchecked && candidate in sys.hubs
    case GiveUp => sys.phase.Peeked? && sys.phase.unchecked == {}
    case Drop => sys.phase.Assigned? && sys.phase.host !in sys.hosts
    case HandOut => sys.phase.Assigned? && sys.phase.host in sys.hosts
    case StartInCore => sys.phase.HandedOut?
    case StartInHub => sys.phase.StartedInCore? && sys.phase.host in sys.hubs
  }

  /** What a hub action does to the hub and to the record of scans that it found in progress. */
  function HubMoves(side: HubSide, a: HubAction): HubSide
  {
    var model := HubStep(side.model, a);
    var entering := if a.FetchedScanResults? then InProgressScans(model) - InProgressScans(side.model) else {};
    var staying := if a.StartedScanClient? then side.found - {a.name} else side.found * InProgressScans(model);
    HubSide(side.limit, model, staying + entering, side.moves + |entering|)
  }

  function Apply(sys: System, l: Label): System
    requires Enabled(sys, l)
  {
    match l
    case CoreAct(action) => sys.(core := Step(sys.core, action).state)
    case HubAct(at, hubAction) => sys.(hubs := sys.hubs[at := HubMoves(sys.hubs[at], hubAction)])
    case Peek(next) => sys.(phase := if next.Some? then Peeked(next.value, sys.hubs.Keys) else Idle)
    case CheckHub(candidate) =>
      if HasRoom(sys.hubs[candidate]) then sys.(phase := Assigned(sys.phase.image, candidate))
      else sys.(phase := Peeked(sys.phase.image, sys.phase.unchecked - {candidate}))
    case GiveUp => sys.(phase := Idle)
    case Drop =>
      // the caller is never answered, but the next one will be served
      sys.(phase := Idle)
    case HandOut => sys.(phase := HandedOut(sys.phase.image, sys.phase.host))
    case StartInCore =>
      // an error, because the image has left the queue in the meantime, is ignored
      sys.(core := CoreState.StartScanClient(sys.core, sys.phase.image.sha).state,
           phase := StartedInCore(sys.phase.image, sys.phase.host))
    case StartInHub =>
      var host := sys.phase.host;
      sys.(hubs := sys.hubs[host := HubMoves(sys.hubs[host], StartedScanClient(sys.phase.image.sha))], phase := Idle)
  }

  ghost predicate Init(sys: System)
  {
    && sys.core == EMPTY_STATE && sys.phase == Idle
    && forall h :: h in sys.hubs ==> sys.hubs[h] == HubSide(sys.hubs[h].limit, EMPTY_HUB, {}, 0)
  }

  ghost predicate Follows(states: seq<System>, labels: seq<Label>, i: int)
    requires 0 <= i < |labels| < |states|
  {
    Enabled(states[i], labels[i]) && states[i + 1] == Apply(states[i], labels[i])
  }

  /** A run: states[i + 1] is what label i makes of states[i]. */
  ghost predicate IsRun(states: seq<System>, labels: seq<Label>)
  {
    && |states| == |labels| + 1 && Init(states[0])
    && forall i :: 0 <= i < |labels| ==> Follows(states, labels, i)
  }

  // ---------- Capacity ----------

  function Bound(limit: int): nat { if limit < 0 then 0 else limit }

  /** The scans in progress that were dispatched to this hub. */
  function Dispatched(side: HubSide): set<string>
  {
    InProgressScans(side.model) - side.found
  }

  ghost predicate SideOk(side: HubSide)
  {
    && side.found <= InProgressScans(side.model)
    && |side.found| <= side.moves
    && |Dispatched(side)| <= Bound(side.limit)
    && CompleteHaveResults(side.model.scans)
  }

  /** The host the dispatcher has committed itself to, if any. */
  predicate Committed(phase: Phase, host: string)
  {
    (phase.Assigned? || phase.HandedOut? || phase.StartedInCore?) && phase.host == host
  }

  ghost predicate SysInv(sys: System)
  {
    && Inv(sys.core)
    && (forall h :: h in sys.hubs ==> SideOk(sys.hubs[h]))
    && (forall h :: Committed(sys.phase, h) ==> h in sys.hubs && |Dispatched(sys.hubs[h])| < sys.hubs[h].limit)
    && (sys.phase.Peeked? ==> sys.phase.unchecked <= sys.hubs.Keys)
  }

  lemma SubsetSize<T>(a: set<T>, b: set<T>)
    requires a <= b
    ensures |a| <= |b|
  {
    assert b == a + (b - a);
  }

  /** No hub action other than starting a scan client adds to the dispatched scans. */
  lemma HubMovesKeepsRoom(side: HubSide, a: HubAction)
    requires SideOk(side) && HubEnabled(a) && !a.StartedScanClient?
    ensures SideOk(HubMoves(side, a)) && HubMoves(side, a).limit == side.limit
    ensures |Dispatched(HubMoves(side, a))| <= |Dispatched(side)|
  {
    hide CompleteHaveResults, HubStep, InProgressScans;
    HubStepKeepsResults(side.model, a);
    InProgressChanges(side.model, a);
    var side' := HubMoves(side, a);
    SubsetSize(Dispatched(side'), Dispatched(side));
    var entering := if a.FetchedScanResults? then InProgressScans(side'.model) - InProgressScans(side.model) else {};
    SubsetSize(side.found * InProgressScans(side'.model), side.found);
    assert side'.found == side.found * InProgressScans(side'.model) + entering;
  }

  /** Starting a scan client adds at most one dispatched scan. */
  lemma DispatchTakesOne(side: HubSide, name: string)
    requires SideOk(side) && |Dispatched(side)| < side.limit
    ensures SideOk(HubMoves(side, StartedScanClient(name)))
    ensures HubMoves(side, StartedScanClient(name)).limit == side.limit
  {
    hide CompleteHaveResults, HubStep, InProgressScans;
    HubStepKeepsResults(side.model, StartedScanClient(name));
    InProgressChanges(side.model, StartedScanClient(name));
    var side' := HubMoves(side, StartedScanClient(name));
    var busy := InProgressScans(side.model);
    assert busy + {name} - (side.found - {name}) == busy - side.found + {name};
    assert Dispatched(side') == Dispatched(side) + {name};
    SubsetSize(side.found - {name}, side.found);
  }

  lemma DispatchedIsInProgress(side: HubSide)
    ensures |Dispatched(side)| <= |InProgressScans(side.model)|
  {
    SubsetSize(Dispatched(side), InProgressScans(side.model));
  }

  lemma StartKeepsInv(s: State, sha: string)
    requires Inv(s)
    ensures Inv(CoreState.StartScanClient(s, sha).state) && Evolves(s, CoreState.StartScanClient(s, sha).state)
  {
    hide Inv, Evolves, CoreState.StartScanClient;
    StepKeepsInv(s, DoStartScanClient(sha));
    StepEvolves(s, DoStartScanClient(sha));
  }

  lemma ApplyKeepsSysInv(sys: System, l: Label)
    requires SysInv(sys) && Enabled(sys, l)
    ensures SysInv(Apply(sys, l)) && Apply(sys, l).hubs.Keys == sys.hubs.Keys
  {
    hide Inv, SideOk, HubMoves, Step, CoreState.StartScanClient, Dispatched, InProgressScans, IsNextImage;
    match l
    case CoreAct(action) => StepKeepsInv(sys.core, action);
    case HubAct(at, hubAction) => HubMovesKeepsRoom(sys.hubs[at], hubAction);
    case Peek(next) =>
    case CheckHub(candidate) => DispatchedIsInProgress(sys.hubs[candidate]);
    case GiveUp =>
    case Drop =>
    case HandOut =>
    case StartInCore => StartKeepsInv(sys.core, sys.phase.image.sha);
    case StartInHub => DispatchTakesOne(sys.hubs[sys.phase.host], sys.phase.image.sha);
  }

  lemma StepKeepsSysInv(states: seq<System>, labels: seq<Label>, i: nat)
    requires i < |labels| < |states| && Follows(states, labels, i) && SysInv(states[i])
    ensures SysInv(states[i + 1])
  {
    hide SysInv, Apply;
    ApplyKeepsSysInv(states[i], labels[i]);
  }

  lemma InitSatisfiesSysInv(sys: System)
    requires Init(sys)
    ensures SysInv(sys)
  {
    assert forall h :: h in sys.hubs ==> SideOk(sys.hubs[h]);
  }

  lemma {:induction false} RunKeepsSysInv(states: seq<System>, labels: seq<Label>, i: nat)
    requires IsRun(states, labels) && i < |states|
    ensures SysInv(states[i])
  {
    if i > 0 {
      hide SysInv, Init, Apply, Enabled;
      RunKeepsSysInv(states, labels, i - 1);
      assert Follows(states, labels, i - 1);
      StepKeepsSysInv(states, labels, i - 1);
    } else {
      InitSatisfiesSysInv(states[0]);
    }
  }

  /**
   In every state of every interleaved run, a hub's scans in progress do not exceed its limit plus the scans that
   it found in progress by itself, let alone plus the number of times it ever found one.
   */
  lemma CapacityIsRespected(states: seq<System>, labels: seq<Label>, i: nat, host: string)
    requires IsRun(states, labels) && i < |states| && host in states[i].hubs
    ensures var side := states[i].hubs[host];
            && |InProgressScans(side.model) - side.found| <= Bound(side.limit)
            && |InProgressScans(side.model)| <= Bound(side.limit) + |side.found| <= Bound(side.limit) + side.moves
  {
    RunKeepsSysInv(states, labels, i);
    var side := states[i].hubs[host];
    assert SideOk(side);
    assert InProgressScans(side.model) == Dispatched(side) + side.found;
  }

  // ---------- No image is handed out twice ----------

  /** The dispatcher holds this image and may still hand it out. */
  predicate Holds(phase: Phase, sha: string)
  {
    (phase.Peeked? || phase.Assigned?) && phase.image.sha == sha
  }

  /**
   Since log position `base` the image has entered the queue again, or it has just been handed out and not been
   started yet, or it is neither in the queue nor held by the dispatcher.
   */
  ghost predicate Spent(sys: System, base: nat, sha: string)
  {
    || Entered(sys.core.transitions, base, sha, InQueue)
    || (sys.phase.HandedOut? && sys.phase.image.sha == sha)
    || (!(sha in sys.core.images && sys.core.images[sha].status == InQueue) && !Holds(sys.phase, sha)
        && !(sys.phase.HandedOut? && sys.phase.image.sha == sha))
  }

  /** Entering the queue is logged, and what is logged stays logged. */
  lemma EnteringIsLogged(s: State, s': State, base: nat, sha: string)
    requires Inv(s) && Inv(s') && Evolves(s, s') && base <= |s.transitions|
    ensures Entered(s.transitions, base, sha, InQueue) ==> Entered(s'.transitions, base, sha, InQueue)
    ensures !(sha in s.images && s.images[sha].status == InQueue)
            && sha in s'.images && s'.images[sha].status == InQueue
            ==> Entered(s'.transitions, base, sha, InQueue)
  {
    if Entered(s.transitions, base, sha, InQueue) {
      var i :| base <= i < |s.transitions| && s.transitions[i].sha == sha && s.transitions[i].err.None?
               && s.transitions[i].to == InQueue;
      assert s'.transitions[i] == s'.transitions[..|s.transitions|][i];
    }
    if !(sha in s.images && s.images[sha].status == InQueue) && sha in s'.images && s'.images[sha].status == InQueue {
      NewStatusIsLoggedBetween(s, s', sha);
    }
  }

  /** Starting the scan client of an image leaves it outside the queue, whether or not it was still there. */
  lemma StartLeavesQueue(s: State, sha: string)
    requires Inv(s)
    ensures var s' := CoreState.StartScanClient(s, sha).state;
            !(sha in s'.images && s'.images[sha].status == InQueue)
  {
    hide SetImageScanStatus;
    TransitionSucceedsIffLegal(s, sha, RunningScanClient);
  }

  lemma EvolvesGrows(s: State, s': State)
    requires Evolves(s, s')
    ensures |s.transitions| <= |s'.transitions|
  {
  }

  lemma ApplyKeepsSpent(sys: System, l: Label, base: nat, sha: string)
    requires SysInv(sys) && Enabled(sys, l) && Spent(sys, base, sha) && base <= |sys.core.transitions|
    ensures Spent(Apply(sys, l), base, sha) && base <= |Apply(sys, l).core.transitions|
    ensures l.HandOut? && sys.phase.image.sha == sha ==> Entered(sys.core.transitions, base, sha, InQueue)
  {
    hide Inv, Evolves, Entered, SideOk, HubMoves, Step, CoreState.StartScanClient, Dispatched, InProgressScans;
    hide IsNextImage;
    match l
    case CoreAct(action) =>
      StepKeepsInv(sys.core, action);
      StepEvolves(sys.core, action);
      EvolvesGrows(sys.core, Step(sys.core, action).state);
      EnteringIsLogged(sys.core, Step(sys.core, action).state, base, sha);
    case HubAct(at, hubAction) =>
    case Peek(next) => NextImageAgreesWithSearch(sys.core, next);
    case CheckHub(candidate) =>
    case GiveUp =>
    case Drop =>
    case HandOut =>
    case StartInCore =>
      var s' := CoreState.StartScanClient(sys.core, sys.phase.image.sha).state;
      StartKeepsInv(sys.core, sys.phase.image.sha);
      EvolvesGrows(sys.core, s');
      EnteringIsLogged(sys.core, s', base, sha);
      StartLeavesQueue(sys.core, sys.phase.image.sha);
    case StartInHub =>
  }

  lemma {:induction false} SpentUntilRequeued(states: seq<System>, labels: seq<Label>, i: nat, j: nat, sha: string)
    requires IsRun(states, labels) && i < j < |states|
    requires labels[i].HandOut? && states[i].phase.Assigned? && states[i].phase.image.sha == sha
    ensures Spent(states[j], |states[i].core.transitions|, sha)
    ensures |states[i].core.transitions| <= |states[j].core.transitions|
  {
    assert Follows(states, labels, i) && Follows(states, labels, j - 1);
    if j > i + 1 {
      SpentUntilRequeued(states, labels, i, j - 1, sha);
      RunKeepsSysInv(states, labels, j - 1);
      ApplyKeepsSpent(states[j - 1], labels[j - 1], |states[i].core.transitions|, sha);
    }
  }

  /**
   Between two hand-outs of the same image, in any interleaved run, a successful transition of that image back
   into the queue is logged.
   */
  lemma HandedOutAgainOnlyAfterRequeue(states: seq<System>, labels: seq<Label>, i: nat, j: nat)
    requires IsRun(states, labels) && i < j < |labels| && labels[i].HandOut? && labels[j].HandOut?
    requires states[i].phase.Assigned? && states[j].phase.Assigned?
    requires states[i].phase.image.sha == states[j].phase.image.sha
    ensures Entered(states[j].core.transitions, |states[i].core.transitions|, states[i].phase.image.sha, InQueue)
  {
    var sha := states[i].phase.image.sha;
    SpentUntilRequeued(states, labels, i, j, sha);
    RunKeepsSysInv(states, labels, j);
    assert Follows(states, labels, j);
    ApplyKeepsSpent(states[j], labels[j], |states[i].core.transitions|, sha);
  }

  // ---------- No scan client is started without a hand-out ----------

  lemma ApplyEvolves(sys: System, l: Label)
    requires SysInv(sys) && Enabled(sys, l)
    ensures Evolves(sys.core, Apply(sys, l).core)
  {
    hide Inv, Evolves, SideOk, HubMoves, Step, CoreState.StartScanClient, Dispatched, InProgressScans, IsNextImage;
    ForgettingPodsEvolves(sys.core, sys.core.pods);
    match l
    case CoreAct(action) => StepEvolves(sys.core, action);
    case StartInCore => StartKeepsInv(sys.core, sys.phase.image.sha);
    case _ =>
  }

  lemma {:induction false} CoreEvolves(states: seq<System>, labels: seq<Label>, i: nat, j: nat)
    requires IsRun(states, labels) && i <= j < |states|
    ensures Inv(states[j].core) && Evolves(states[i].core, states[j].core)
  {
    hide Inv, Evolves, Init, Apply, Enabled;
    RunKeepsSysInv(states, labels, j);
    if i < j {
      CoreEvolves(states, labels, i, j - 1);
      RunKeepsSysInv(states, labels, j - 1);
      assert Follows(states, labels, j - 1);
      ApplyEvolves(states[j - 1], labels[j - 1]);
      EvolvesTransitively(states[i].core, states[j - 1].core, states[j].core);
    } else {
      ForgettingPodsEvolves(states[i].core, states[i].core.pods);
    }
  }

  /** Step k hands the image out, and from then on until step j the dispatcher does nothing else. */
  ghost predicate HandedOutBy(states: seq<System>, labels: seq<Label>, k: int, j: int, sha: string)
  {
    && 0 <= k < j < |states| && k < |labels| && labels[k].HandOut?
    && states[k].phase.Assigned? && states[k].phase.image.sha == sha
    && forall m :: k < m <= j ==> states[m].phase.HandedOut? && states[m].phase.image.sha == sha
  }

  /** Step j is the start in the core that follows hand-out k of the image, and logs entry p. */
  ghost predicate StartedBy(states: seq<System>, labels: seq<Label>, k: int, j: int, p: int, sha: string)
  {
    && HandedOutBy(states, labels, k, j, sha)
    && j < |labels| && labels[j].StartInCore? && |states[j].core.transitions| == p
  }

  lemma {:induction false} HandedOutSince(states: seq<System>, labels: seq<Label>, j: nat) returns (k: nat)
    requires IsRun(states, labels) && j < |states| && states[j].phase.HandedOut?
    ensures HandedOutBy(states, labels, k, j, states[j].phase.image.sha)
  {
    assert j > 0;
    assert Follows(states, labels, j - 1);
    if labels[j - 1].HandOut? {
      k := j - 1;
    } else {
      k := HandedOutSince(states, labels, j - 1);
    }
  }

  lemma StartsStay(s: State, s': State, p: int, sha: string)
    requires Evolves(s, s') && p < |s.transitions|
    ensures IsStart(s'.transitions, p, sha) <==> IsStart(s.transitions, p, sha)
  {
    hide InfoEvolves;
    if 0 <= p { assert s'.transitions[p] == s'.transitions[..|s.transitions|][p]; }
  }

  /**
   Every success into RunningScanClient that is logged in an interleaved run is the start that follows one hand-
   out.
   */
  lemma {:induction false} EveryStartWasHandedOut(states: seq<System>, labels: seq<Label>, i: nat, p: int, sha: string)
    returns (k: nat, j: nat)
    requires IsRun(states, labels) && i < |states| && IsStart(states[i].core.transitions, p, sha)
    ensures j < i && StartedBy(states, labels, k, j, p, sha)
  {
    hide Inv, Evolves, Step, CoreState.StartScanClient, SysInv, HubMoves, HasRoom, IsNextImage;
    assert i > 0;
    assert Follows(states, labels, i - 1);
    RunKeepsSysInv(states, labels, i - 1);
    CoreEvolves(states, labels, i - 1, i);
    var before, after := states[i - 1].core, states[i].core;
    if p < |before.transitions| {
      StartsStay(before, after, p, sha);
      k, j := EveryStartWasHandedOut(states, labels, i - 1, p, sha);
    } else {
      CoreEvolves(states, labels, i - 1, i - 1);
      if labels[i - 1].CoreAct? {
        OthersStartNothing(before, labels[i - 1].action, p, sha);
      }
      assert labels[i - 1].StartInCore?;
      StartLogsOwn(before, states[i - 1].phase.image.sha, p, sha);
      j := i - 1;
      k := HandedOutSince(states, labels, j);
    }
  }

  /** Two successes into RunningScanClient, of any images, have a hand-out of the second image between them. */
  lemma StartsNeedOwnHandOuts(
    states: seq<System>, labels: seq<Label>, i: nat, p: int, p': int, sha: string, sha': string)
    returns (j: nat, k': nat, j': nat)
    requires IsRun(states, labels) && i < |states| && p < p'
    requires IsStart(states[i].core.transitions, p, sha) && IsStart(states[i].core.transitions, p', sha')
    ensures j < k' < j' < |labels| && labels[j].StartInCore? && labels[k'].HandOut? && labels[j'].StartInCore?
    ensures |states[j].core.transitions| == p && |states[j'].core.transitions| == p'
    ensures states[k'].phase.Assigned? && states[k'].phase.image.sha == sha'
  {
    var k;
    k, j := EveryStartWasHandedOut(states, labels, i, p, sha);
    k', j' := EveryStartWasHandedOut(states, labels, i, p', sha');
    if j' <= j {
      CoreEvolves(states, labels, j', j);
      EvolvesGrows(states[j'].core, states[j].core);
      assert false;
    }
    assert Follows(states, labels, j);
    assert states[j + 1].phase.StartedInCore?;
    if k' < j {
      assert false;
    }
  }

  /** An image whose scan client runs, as far as the core knows, has been handed out. */
  lemma RunningWasHandedOut(states: seq<System>, labels: seq<Label>, i: nat, sha: string)
    returns (k: nat, j: nat, p: nat)
    requires IsRun(states, labels) && i < |states|
    requires sha in states[i].core.images && states[i].core.images[sha].status == RunningScanClient
    ensures j < i && StartedBy(states, labels, k, j, p, sha) && IsStart(states[i].core.transitions, p, sha)
  {
    hide Inv, Evolves;
    CoreEvolves(states, labels, 0, i);
    CoreEvolves(states, labels, 0, 0);
    assert Init(states[0]);
    NewStatusIsLoggedBetween(states[0].core, states[i].core, sha);
    var log := states[i].core.transitions;
    p :| 0 <= p < |log| && log[p].sha == sha && log[p].err.None? && log[p].to == RunningScanClient;
    k, j := EveryStartWasHandedOut(states, labels, i, p, sha);
  }
}
