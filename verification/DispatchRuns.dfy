/**
 What an interleaved run of the dispatch protocol looks like from each of its parts: the core and every hub go
 through runs of their own, the dispatcher asks every hub before it gives up, and what it hands out gets recorded.
 */
module DispatchRuns {
  import opened Options
  import opened HubData
  import opened ScanStatuses
  import opened CoreState
  import opened CoreInvariants
  import opened CoreTheorems
  import opened CoreOutcomes
  import opened HubScans
  import opened HubOutcomes
  import opened Dispatch

  // ---------- The parts run on their own ----------

  /** The core actions in one step of the protocol. */
  function CoreActionOf(sys: System, l: Label): seq<Action>
  {
    if l.CoreAct? then [l.action]
    else if l.StartInCore? && sys.phase.HandedOut? then [DoStartScanClient(sys.phase.image.sha)]
    else []
  }

  function CoreTrace(states: seq<System>, labels: seq<Label>, n: nat): seq<Action>
    requires n <= |labels| < |states|
  {
    if n == 0 then [] else CoreTrace(states, labels, n - 1) + CoreActionOf(states[n - 1], labels[n - 1])
  }

  /** The actions of one hub in one step of the protocol. */
  function HubActionOf(sys: System, l: Label, host: string): seq<HubAction>
  {
    if l.HubAct? && l.at == host then [l.hubAction]
    else if l.StartInHub? && sys.phase.StartedInCore? && sys.phase.host == host
    then [StartedScanClient(sys.phase.image.sha)]
    else []
  }

  function HubTrace(states: seq<System>, labels: seq<Label>, n: nat, host: string): seq<HubAction>
    requires n <= |labels| < |states|
  {
    if n == 0 then []
    else HubTrace(states, labels, n - 1, host) + HubActionOf(states[n - 1], labels[n - 1], host)
  }

  lemma CoreStepIs(sys: System, l: Label)
    requires Enabled(sys, l)
    ensures var actions, core := CoreActionOf(sys, l), Apply(sys, l).core;
            if actions == [] then core == sys.core
            else actions == [actions[0]] && core == Step(sys.core, actions[0]).state
  {
    hide HubMoves, SetImageScanStatus, InProgressScans, IsNextImage;
  }

  /** In every interleaved run the core goes through a run of its own, so that all that is said of those holds of it. */
  lemma {:induction false} CoreRunsOnItsOwn(states: seq<System>, labels: seq<Label>, n: nat)
    requires IsRun(states, labels) && n < |states|
    ensures states[n].core == Run(EMPTY_STATE, CoreTrace(states, labels, n))
  {
    if n > 0 {
      hide Step, Apply, Enabled, CoreActionOf;
      CoreRunsOnItsOwn(states, labels, n - 1);
      assert Follows(states, labels, n - 1);
      CoreStepIs(states[n - 1], labels[n - 1]);
      var actions, more := CoreTrace(states, labels, n - 1), CoreActionOf(states[n - 1], labels[n - 1]);
      if more == [] {
        assert actions + more == actions;
      } else {
        RunOfOneMore(EMPTY_STATE, actions, more[0]);
      }
    }
  }

  lemma HubStepIs(sys: System, l: Label, host: string)
    requires Enabled(sys, l) && host in sys.hubs
    ensures var side, actions, side' := sys.hubs[host], HubActionOf(sys, l, host), Apply(sys, l).hubs;
            && host in side' && side'[host].limit == side.limit
            && (actions == [] ==> side'[host] == side)
            && (actions != [] ==> side'[host] == HubMoves(side, actions[0]) && HubEnabled(actions[0]))
  {
    hide HubStep, InProgressScans;
  }

  /** So does every hub. */
  lemma {:induction false} HubsRunOnTheirOwn(states: seq<System>, labels: seq<Label>, n: nat, host: string)
    requires IsRun(states, labels) && n < |states| && host in states[0].hubs
    ensures var actions := HubTrace(states, labels, n, host);
            && AllEnabled(actions) && host in states[n].hubs && states[n].hubs[host].limit == states[0].hubs[host].limit
            && states[n].hubs[host].model == HubRun(EMPTY_HUB, actions)
  {
    if n > 0 {
      hide Apply, HubStep, InProgressScans, IsNextImage;
      HubsRunOnTheirOwn(states, labels, n - 1, host);
      assert Follows(states, labels, n - 1);
      HubStepIs(states[n - 1], labels[n - 1], host);
      var actions, more := HubTrace(states, labels, n - 1, host), HubActionOf(states[n - 1], labels[n - 1], host);
      if more == [] {
        assert actions + more == actions;
      } else {
        assert more == [more[0]];
        HubRunOfOneMore(EMPTY_HUB, actions, more[0]);
      }
    } else {
      assert Init(states[0]);
    }
  }

  // ---------- Capacity ----------

  /** In this step a hub finds a scan in progress that took up no room before. */
  predicate FindsInProgress(sys: System, l: Label, host: string)
  {
    && l.HubAct? && l.at == host && host in sys.hubs && l.hubAction.FetchedScanResults?
    && var results, scans := l.hubAction.results, sys.hubs[host].model.scans;
       && Success !in results.scanSummaries && InProgress in results.scanSummaries
       && !(results.codeLocationName in scans
            && (scans[results.codeLocationName].stage == ScanClient
                || scans[results.codeLocationName].stage == HubScan))
  }

  function CountFound(states: seq<System>, labels: seq<Label>, n: nat, host: string): nat
    requires n <= |labels| < |states|
  {
    if n == 0 then 0
    else CountFound(states, labels, n - 1, host) + if FindsInProgress(states[n - 1], labels[n - 1], host) then 1 else 0
  }

  lemma MovesChange(sys: System, l: Label, host: string)
    requires Enabled(sys, l) && host in sys.hubs
    ensures host in Apply(sys, l).hubs
    ensures Apply(sys, l).hubs[host].moves == sys.hubs[host].moves + if FindsInProgress(sys, l, host) then 1 else 0
  {
    HubStepIs(sys, l, host);
    hide HubStep, Apply, Enabled;
    var side, actions := sys.hubs[host], HubActionOf(sys, l, host);
    if actions != [] {
      InProgressChanges(side.model, actions[0]);
      if actions[0].FetchedScanResults? {
        var results := actions[0].results;
        SummaryMeans(results);
        var entering := InProgressScans(HubStep(side.model, actions[0])) - InProgressScans(side.model);
        assert entering == if FindsInProgress(sys, l, host) then {results.codeLocationName} else {};
      }
    }
  }

  lemma {:induction false} MovesAreCounted(states: seq<System>, labels: seq<Label>, n: nat, host: string)
    requires IsRun(states, labels) && n < |states| && host in states[0].hubs
    ensures host in states[n].hubs && states[n].hubs[host].moves == CountFound(states, labels, n, host)
  {
    if n > 0 {
      hide Apply, Enabled, FindsInProgress;
      MovesAreCounted(states, labels, n - 1, host);
      assert Follows(states, labels, n - 1);
      MovesChange(states[n - 1], labels[n - 1], host);
    } else {
      assert Init(states[0]);
    }
  }

  /**
   In every state of every interleaved run, a hub's scans in progress do not exceed its limit, or zero if that is
   negative, plus the number of times it has fetched results in progress of a scan that took up no room before.
   */
  lemma LimitIsRespected(states: seq<System>, labels: seq<Label>, n: nat, host: string)
    requires IsRun(states, labels) && n < |states| && host in states[0].hubs
    ensures host in states[n].hubs
    ensures var limit := states[0].hubs[host].limit;
            |InProgressScans(states[n].hubs[host].model)|
            <= (if limit < 0 then 0 else limit) + CountFound(states, labels, n, host)
  {
    hide IsRun;
    HubsRunOnTheirOwn(states, labels, n, host);
    MovesAreCounted(states, labels, n, host);
    CapacityIsRespected(states, labels, n, host);
  }

  // ---------- Who gets asked ----------

  /**
   Checking a hub assigns it exactly if fewer scans are in progress there than its limit allows, and strikes it
   off otherwise.
   */
  lemma CheckHubDecides(sys: System, candidate: string)
    requires Enabled(sys, CheckHub(candidate))
    ensures var sys', side := Apply(sys, CheckHub(candidate)), sys.hubs[candidate];
            && sys'.core == sys.core && sys'.hubs == sys.hubs
            && sys'.phase == if |InProgressScans(side.model)| < side.limit then Assigned(sys.phase.image, candidate)
                             else Peeked(sys.phase.image, sys.phase.unchecked - {candidate})
  {
  }

  /** Step c found the hub at its limit, or beyond. */
  ghost predicate FoundFull(states: seq<System>, labels: seq<Label>, c: int, host: string)
  {
    && 0 <= c < |labels| && c < |states| && labels[c] == CheckHub(host) && host in states[c].hubs
    && |InProgressScans(states[c].hubs[host].model)| >= states[c].hubs[host].limit
  }

  ghost predicate AskedSince(states: seq<System>, labels: seq<Label>, p: int, i: int, host: string)
  {
    exists c :: p < c < i && FoundFull(states, labels, c, host)
  }

  /** A dispatcher that still looks for a hub has found every other hub full since it peeked. */
  lemma {:induction false} LookingSincePeek(states: seq<System>, labels: seq<Label>, i: nat) returns (p: nat)
    requires IsRun(states, labels) && i < |states| && states[i].phase.Peeked?
    ensures p < i && p < |labels| && labels[p] == Peek(Some(states[i].phase.image))
    ensures forall host :: host in states[i].hubs && host !in states[i].phase.unchecked
                           ==> AskedSince(states, labels, p, i, host)
  {
    hide InProgressScans, HubMoves, Step, CoreState.StartScanClient, IsNextImage;
    assert Init(states[0]) && i > 0;
    assert Follows(states, labels, i - 1);
    var l := labels[i - 1];
    if l.Peek? {
      p := i - 1;
    } else {
      p := LookingSincePeek(states, labels, i - 1);
      assert states[i].hubs.Keys == states[i - 1].hubs.Keys;
      forall host | host in states[i].hubs && host !in states[i].phase.unchecked
        ensures AskedSince(states, labels, p, i, host)
      {
        if host in states[i - 1].phase.unchecked {
          assert l == CheckHub(host) && FoundFull(states, labels, i - 1, host);
        } else {
          var c :| p < c < i - 1 && FoundFull(states, labels, c, host);
        }
      }
    }
  }

  /** The dispatcher gives up on an image only after it has found every hub full since it peeked at that image. */
  lemma GivesUpOnlyWhenFull(states: seq<System>, labels: seq<Label>, i: nat) returns (p: nat)
    requires IsRun(states, labels) && i < |labels| && labels[i] == GiveUp
    ensures p < i && states[i].phase.Peeked? && labels[p] == Peek(Some(states[i].phase.image))
    ensures forall host :: host in states[i].hubs ==> AskedSince(states, labels, p, i, host)
  {
    assert Follows(states, labels, i);
    p := LookingSincePeek(states, labels, i);
  }

  // ---------- What is handed out gets recorded ----------

  /** Step j starts the image in the core, and step j' at its host, which then has it with a scan client. */
  ghost predicate RecordedBy(
    states: seq<System>, labels: seq<Label>, k: int, j: int, j': int, image: Image, host: string)
  {
    && 0 <= k < j < j' < |labels| && j' + 1 < |states|
    && labels[j].StartInCore? && states[j].phase == HandedOut(image, host)
    && labels[j'].StartInHub? && states[j'].phase == StartedInCore(image, host)
    && host in states[j' + 1].hubs && Has(states[j' + 1].hubs[host].model, image.sha, Scan(ScanClient, None))
  }

  ghost predicate StartedSince(states: seq<System>, labels: seq<Label>, k: int, i: int, image: Image, host: string)
  {
    exists j :: 0 <= k < j < i && j < |labels| && j < |states|
      && labels[j].StartInCore? && states[j].phase == HandedOut(image, host)
  }

  ghost predicate RecordedSince(states: seq<System>, labels: seq<Label>, k: int, i: int, image: Image, host: string)
  {
    exists j, j' :: j' < i && RecordedBy(states, labels, k, j, j', image, host)
  }

  lemma StartReachesHub(sys: System, l: Label)
    requires Enabled(sys, l) && l.StartInHub?
    ensures var host, sys' := sys.phase.host, Apply(sys, l);
            host in sys'.hubs && Has(sys'.hubs[host].model, sys.phase.image.sha, Scan(ScanClient, None))
  {
    ClientStarted(sys.hubs[sys.phase.host].model, sys.phase.image.sha);
  }

  lemma HandOutRecorded(
    states: seq<System>, labels: seq<Label>, k: int, j: int, j': int, image: Image, host: string)
    requires RecordedBy(states, labels, k, j, j', image, host)
    ensures RecordedSince(states, labels, k, j' + 1, image, host)
  {
  }

  /** Where a hand-out has got to. */
  lemma {:induction false} HandOutProgress(
    states: seq<System>, labels: seq<Label>, k: nat, i: nat, image: Image, host: string)
    requires IsRun(states, labels) && k < i < |states| && labels[k].HandOut? && states[k].phase == Assigned(image, host)
    ensures || states[i].phase == HandedOut(image, host)
            || (states[i].phase == StartedInCore(image, host) && StartedSince(states, labels, k, i, image, host))
            || RecordedSince(states, labels, k, i, image, host)
  {
    assert Follows(states, labels, k) && Follows(states, labels, i - 1);
    if i > k + 1 {
      HandOutProgress(states, labels, k, i - 1, image, host);
      var before, l := states[i - 1], labels[i - 1];
      hide HubStep, InProgressScans, Step, CoreState.StartScanClient, IsNextImage, RecordedBy;
      if RecordedSince(states, labels, k, i - 1, image, host) {
        var j, j' :| j' < i - 1 && RecordedBy(states, labels, k, j, j', image, host);
        assert RecordedSince(states, labels, k, i, image, host);
      } else if before.phase == HandedOut(image, host) {
        assert l.StartInCore? ==> StartedSince(states, labels, k, i, image, host);
      } else if l.StartInHub? {
        var j :| 0 <= k < j < i - 1 && labels[j].StartInCore? && states[j].phase == HandedOut(image, host);
        StartReachesHub(before, l);
        HandOutRecorded(states, labels, k, j, i - 1, image, host);
      } else {
        var j :| 0 <= k < j < i - 1 && labels[j].StartInCore? && states[j].phase == HandedOut(image, host);
      }
    }
  }

  /**
   Before the dispatcher turns to another image, every image it handed out has been started in the core, if it was
   still queued there, and recorded at the hub it was assigned to.
   */
  lemma HandOutIsRecorded(states: seq<System>, labels: seq<Label>, k: nat, i: nat) returns (j: nat, j': nat)
    requires IsRun(states, labels) && k < i < |states| && labels[k].HandOut? && states[k].phase.Assigned?
    requires states[i].phase.Idle? || states[i].phase.Peeked? || states[i].phase.Assigned?
    ensures j' < i && RecordedBy(states, labels, k, j, j', states[k].phase.image, states[k].phase.host)
  {
    var image, host := states[k].phase.image, states[k].phase.host;
    HandOutProgress(states, labels, k, i, image, host);
    j, j' :| 0 <= j && 0 <= j' < i && RecordedBy(states, labels, k, j, j', image, host);
  }
}
