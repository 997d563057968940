/**
 pkg/hub/model.go as functions on what one hub knows about its scans: the effect of each action of its loop.
 HubModel.dfy proves the imperative model against them.
 */
module HubScans {
  import opened Options
  import opened HubData

  datatype ScanStage = Unknown | ScanClient | HubScan | Complete | Failure

  datatype Scan = Scan(stage: ScanStage, results: Option<ScanResults>)

  datatype Update =
    | DidFindScan(name: string, results: ScanResults)
    | DidFinishScan(name: string, results: ScanResults)

  /** `updates` have been published; they may be delivered in any order. */
  datatype HubState = HubState(hasFetchedScans: bool, scans: map<string, Scan>, updates: seq<Update>)

  datatype HubError = ScanNotFound(name: string) | WrongStage(name: string, expected: ScanStage, found: ScanStage)

  datatype HubOutcome = HubOutcome(state: HubState, err: Option<HubError>)

  /**
   What fetching a scan from the hub's server may return; a found scan may bear another name than the one asked
   for.
   */
  datatype Fetched = FetchFailed | NothingFound | Found(results: ScanResults)

  const EMPTY_HUB := HubState(false, map[], [])

  // ---------- Effects ----------

  /** Every listed code location becomes known; those that were keep their records. A failed fetch changes nothing. */
  function DidFetchScans(h: HubState, names: Option<seq<string>>): HubState
  {
    if names.None? then h
    else HubState(
      true,
      map n | n in h.scans.Keys + (set x | x in names.value) ::
        if n in h.scans then h.scans[n] else Scan(ScanStage.Unknown, None),
      h.updates)
  }

  function StageFor(status: SummaryStatus): ScanStage
  {
    match status
    case Success => ScanStage.Complete
    case InProgress => HubScan
    case Failure => ScanStage.Failure
  }

  function DidFetchScanResults(h: HubState, results: ScanResults): HubState
  {
    var name := results.codeLocationName;
    h.(scans := h.scans[name := Scan(StageFor(SummaryOf(results)), Some(results))],
       updates := h.updates + [DidFindScan(name, results)])
  }

  /** Completes a hub scan, whether its summary is a success or a failure. */
  function ScanDidFinish(h: HubState, results: ScanResults): HubOutcome
  {
    var name := results.codeLocationName;
    if name !in h.scans then HubOutcome(h, Some(ScanNotFound(name)))
    else if h.scans[name].stage != HubScan then HubOutcome(h, Some(WrongStage(name, HubScan, h.scans[name].stage)))
    else HubOutcome(
      h.(scans := h.scans[name := Scan(ScanStage.Complete, Some(results))],
         updates := h.updates + [DidFinishScan(name, results)]), None)
  }

  function StartScanClient(h: HubState, name: string): HubState
  {
    h.(scans := h.scans[name := Scan(ScanClient, None)])
  }

  function FinishScanClient(h: HubState, name: string, failed: bool): HubOutcome
  {
    if name !in h.scans then HubOutcome(h, Some(ScanNotFound(name)))
    else if h.scans[name].stage != ScanClient then
      HubOutcome(h, Some(WrongStage(name, ScanClient, h.scans[name].stage)))
    else HubOutcome(
      h.(scans := h.scans[name := h.scans[name].(stage := if failed then ScanStage.Failure else HubScan)]), None)
  }

  /** The scans that take up capacity. */
  function InProgressScans(h: HubState): set<string>
  {
    set n | n in h.scans && (h.scans[n].stage == HubScan || h.scans[n].stage == ScanClient)
  }

  function UnknownScans(h: HubState): set<string>
  {
    set n | n in h.scans && h.scans[n].stage == ScanStage.Unknown
  }

  datatype HubAction =
    | FetchedScans(names: Option<seq<string>>)
    | FetchedScanResults(results: ScanResults)
    | FinishedScan(results: ScanResults)
    | StartedScanClient(name: string)
    | FinishedScanClient(name: string, failed: bool)

  /** A scan is only declared finished when its summary is no longer in progress. */
  predicate HubEnabled(a: HubAction)
  {
    a.FinishedScan? ==> SummaryOf(a.results) != InProgress
  }

  function HubStep(h: HubState, a: HubAction): HubState
  {
    match a
    case FetchedScans(names) => DidFetchScans(h, names)
    case FetchedScanResults(results) => DidFetchScanResults(h, results)
    case FinishedScan(results) => ScanDidFinish(h, results).state
    case StartedScanClient(name) => StartScanClient(h, name)
    case FinishedScanClient(name, failed) => FinishScanClient(h, name, failed).state
  }

  // ---------- Invariant ----------

  /** A complete scan has results, and they are not in progress; they need not be a success. */
  ghost predicate CompleteHaveResults(scans: map<string, Scan>)
  {
    forall n :: n in scans && scans[n].stage == ScanStage.Complete ==>
      scans[n].results.Some? && SummaryOf(scans[n].results.value) != InProgress
  }

  lemma HubStepKeepsResults(h: HubState, a: HubAction)
    requires CompleteHaveResults(h.scans) && HubEnabled(a)
    ensures CompleteHaveResults(HubStep(h, a).scans)
  {
  }

  /** Each action changes the in-progress set in exactly this way. */
  lemma InProgressChanges(h: HubState, a: HubAction)
    ensures match a
            case FetchedScans(_) => InProgressScans(HubStep(h, a)) == InProgressScans(h)
            case FetchedScanResults(results) =>
              InProgressScans(HubStep(h, a)) ==
                if SummaryOf(results) == InProgress then InProgressScans(h) + {results.codeLocationName}
                else InProgressScans(h) - {results.codeLocationName}
            case FinishedScan(results) =>
              InProgressScans(HubStep(h, a)) ==
                if ScanDidFinish(h, results).err.None? then InProgressScans(h) - {results.codeLocationName}
                else InProgressScans(h)
            case StartedScanClient(name) => InProgressScans(HubStep(h, a)) == InProgressScans(h) + {name}
            case FinishedScanClient(name, failed) =>
              InProgressScans(HubStep(h, a)) ==
                if failed && FinishScanClient(h, name, failed).err.None? then InProgressScans(h) - {name}
                else InProgressScans(h)
  {
  }

  /**
   Listing code locations adds exactly the new ones as unknown, and only fetching or starting a scan takes one
   away.
   */
  lemma UnknownChanges(h: HubState, a: HubAction)
    ensures match a
            case FetchedScans(names) =>
              UnknownScans(HubStep(h, a)) ==
                UnknownScans(h) + (if names.Some? then (set n | n in names.value && n !in h.scans) else {})
            case FetchedScanResults(results) =>
              UnknownScans(HubStep(h, a)) == UnknownScans(h) - {results.codeLocationName}
            case StartedScanClient(name) => UnknownScans(HubStep(h, a)) == UnknownScans(h) - {name}
            case FinishedScan(_) => UnknownScans(HubStep(h, a)) == UnknownScans(h)
            case FinishedScanClient(_, _) => UnknownScans(HubStep(h, a)) == UnknownScans(h)
  {
  }

  /** An update bears the name and results that were stored with it, and a finished scan is not in progress. */
  ghost predicate UpdateOk(u: Update)
  {
    u.name == u.results.codeLocationName && (u.DidFinishScan? ==> SummaryOf(u.results) != InProgress)
  }

  /** The scan is complete now, and was not, or not with these results, before. */
  predicate Completed(before: map<string, Scan>, after: map<string, Scan>, name: string)
  {
    && name in after && after[name].stage == ScanStage.Complete
    && !(name in before && before[name] == after[name])
  }

  /** Whatever becomes complete, or complete with other results, is published at once with exactly those results. */
  lemma CompletionIsPublished(h: HubState, a: HubAction, name: string)
    requires HubEnabled(a)
    ensures var h' := HubStep(h, a);
            && |h.updates| <= |h'.updates| <= |h.updates| + 1 && h'.updates[..|h.updates|] == h.updates
            && (|h'.updates| > |h.updates| ==> UpdateOk(h'.updates[|h.updates|]))
            && (Completed(h.scans, h'.scans, name)
                ==> |h'.updates| == |h.updates| + 1 && h'.updates[|h.updates|].name == name
                    && h'.scans[name].results == Some(h'.updates[|h.updates|].results))
  {
  }

  // ---------- When complete means successful ----------

  ghost predicate CompleteAreSuccesses(scans: map<string, Scan>)
  {
    forall n :: n in scans && scans[n].stage == ScanStage.Complete ==>
      scans[n].results.Some? && SummaryOf(scans[n].results.value) == Success
  }

  /** A scan on the hub is declared finished, and its summary is a failure. */
  predicate IsFailedFinish(h: HubState, a: HubAction)
  {
    && a.FinishedScan? && SummaryOf(a.results) == SummaryStatus.Failure
    && a.results.codeLocationName in h.scans && h.scans[a.results.codeLocationName].stage == HubScan
  }

  /** That every complete scan was a success survives an action if and only if it is not a failed finish. */
  lemma SuccessesSurviveIff(h: HubState, a: HubAction)
    requires CompleteAreSuccesses(h.scans) && HubEnabled(a)
    ensures CompleteAreSuccesses(HubStep(h, a).scans) <==> !IsFailedFinish(h, a)
  {
    if IsFailedFinish(h, a) {
      assert HubStep(h, a).scans[a.results.codeLocationName] == Scan(ScanStage.Complete, Some(a.results));
    }
  }

  // ---------- Runs ----------

  function HubRun(h: HubState, actions: seq<HubAction>): HubState
  {
    if actions == [] then h else HubStep(HubRun(h, actions[..|actions| - 1]), actions[|actions| - 1])
  }

  ghost predicate AllEnabled(actions: seq<HubAction>)
  {
    forall a :: a in actions ==> HubEnabled(a)
  }

  lemma {:induction false} HubRunSplits(h: HubState, a: seq<HubAction>, b: seq<HubAction>)
    ensures HubRun(h, a + b) == HubRun(HubRun(h, a), b)
  {
    if b == [] {
      assert a + b == a;
    } else {
      HubRunSplits(h, a, b[..|b| - 1]);
      assert (a + b)[..|a + b| - 1] == a + b[..|b| - 1];
    }
  }

  /** A reachable hub with a complete scan that failed. */
  lemma CompleteIsNotSuccess()
    ensures exists actions :: AllEnabled(actions) && !CompleteAreSuccesses(HubRun(EMPTY_HUB, actions).scans)
  {
    var name := "s";
    var running := ScanResults(name, [InProgress], "", map[], map[]);
    var failed := ScanResults(name, [SummaryStatus.Failure], "", map[], map[]);
    var a0, a1 := FetchedScanResults(running), FinishedScan(failed);
    HubRunSplits(EMPTY_HUB, [a0], [a1]);
    assert [a0] + [a1] == [a0, a1] && [a0][..0] == [] && [a1][..0] == [];
    var h := HubRun(EMPTY_HUB, [a0]);
    assert h == HubStep(EMPTY_HUB, a0);
    SuccessesSurviveIff(h, a1);
    assert AllEnabled([a0, a1]);
  }

  /**
   Every complete scan without a success goes back to a failed finish of that scan, and every run without one
   keeps successes.
   */
  lemma {:induction false} CompleteScansSucceedUnlessFinishFailed(h: HubState, actions: seq<HubAction>)
    requires CompleteAreSuccesses(h.scans) && AllEnabled(actions)
    requires forall i :: 0 <= i < |actions| ==> !IsFailedFinish(HubRun(h, actions[..i]), actions[i])
    ensures CompleteAreSuccesses(HubRun(h, actions).scans)
  {
    if actions != [] {
      var front := actions[..|actions| - 1];
      assert forall i :: 0 <= i < |front| ==> front[..i] == actions[..i] && front[i] == actions[i];
      CompleteScansSucceedUnlessFinishFailed(h, front);
      SuccessesSurviveIff(HubRun(h, front), actions[|actions| - 1]);
    }
  }

  /** Some update carries these results under this name. */
  ghost predicate IsPublished(updates: seq<Update>, name: string, results: Option<ScanResults>)
  {
    exists i :: 0 <= i < |updates| && updates[i].name == name && Some(updates[i].results) == results
  }

  ghost predicate CompleteArePublished(h: HubState)
  {
    forall n :: n in h.scans && h.scans[n].stage == ScanStage.Complete ==> IsPublished(h.updates, n, h.scans[n].results)
  }

  /**
   In every reachable state of a hub: a complete scan has results that are not in progress, exactly these results
   have been published under its name, and every update bears the name and results that were stored with it.
   */
  lemma {:induction false} HubRunPublishes(actions: seq<HubAction>)
    requires AllEnabled(actions)
    ensures var h := HubRun(EMPTY_HUB, actions);
            CompleteHaveResults(h.scans) && CompleteArePublished(h) && forall u :: u in h.updates ==> UpdateOk(u)
  {
    if actions != [] {
      var front, a := actions[..|actions| - 1], actions[|actions| - 1];
      HubRunPublishes(front);
      var h, h' := HubRun(EMPTY_HUB, front), HubRun(EMPTY_HUB, actions);
      hide HubStep, UpdateOk, CompleteHaveResults;
      HubStepKeepsResults(h, a);
      forall n | n in h'.scans && h'.scans[n].stage == ScanStage.Complete
        ensures IsPublished(h'.updates, n, h'.scans[n].results)
      {
        CompletionIsPublished(h, a, n);
        if Completed(h.scans, h'.scans, n) {
          assert h'.updates[|h.updates|].name == n;
        } else {
          var i :| 0 <= i < |h.updates| && h.updates[i].name == n && Some(h.updates[i].results) == h.scans[n].results;
          assert h'.updates[i] == h'.updates[..|h.updates|][i];
        }
      }
      CompletionIsPublished(h, a, "");
      forall u | u in h'.updates
        ensures UpdateOk(u)
      {
        var i :| 0 <= i < |h'.updates| && h'.updates[i] == u;
        if i < |h.updates| { assert u == h'.updates[..|h.updates|][i]; }
      }
    }
  }

  ghost predicate IsListed(actions: seq<HubAction>, name: string)
  {
    exists a :: a in actions && a.FetchedScans? && a.names.Some? && name in a.names.value
  }

  /** The action records something about the scan, known before or not. */
  predicate Concerns(a: HubAction, name: string)
  {
    || (a.FetchedScanResults? && a.results.codeLocationName == name)
    || (a.StartedScanClient? && a.name == name)
  }

  ghost predicate IsConcerned(actions: seq<HubAction>, name: string)
  {
    exists a :: a in actions && Concerns(a, name)
  }

  lemma OneMoreConcern(actions: seq<HubAction>, a: HubAction, name: string)
    ensures IsListed(actions + [a], name)
            <==> IsListed(actions, name) || (a.FetchedScans? && a.names.Some? && name in a.names.value)
    ensures IsConcerned(actions + [a], name) <==> IsConcerned(actions, name) || Concerns(a, name)
  {
    assert a in actions + [a] && forall b :: b in actions ==> b in actions + [a];
  }

  lemma KnownChanges(h: HubState, a: HubAction, name: string)
    ensures name in HubStep(h, a).scans
            <==> name in h.scans || (a.FetchedScans? && a.names.Some? && name in a.names.value) || Concerns(a, name)
  {
  }

  lemma UnknownAreKnown(h: HubState, name: string)
    ensures name in UnknownScans(h) ==> name in h.scans
  {
  }

  /** After any run a scan is known if and only if it was listed, fetched or started, and unknown if only listed. */
  lemma {:induction false} UnknownIffOnlyListed(actions: seq<HubAction>, name: string)
    ensures var h := HubRun(EMPTY_HUB, actions);
            && (name in h.scans <==> IsListed(actions, name) || IsConcerned(actions, name))
            && (name in UnknownScans(h) <==> IsListed(actions, name) && !IsConcerned(actions, name))
  {
    if actions != [] {
      var front, a := actions[..|actions| - 1], actions[|actions| - 1];
      UnknownIffOnlyListed(front, name);
      assert actions == front + [a];
      OneMoreConcern(front, a, name);
      hide IsListed, IsConcerned, UnknownScans;
      UnknownChanges(HubRun(EMPTY_HUB, front), a);
      KnownChanges(HubRun(EMPTY_HUB, front), a, name);
      UnknownAreKnown(HubRun(EMPTY_HUB, front), name);
    }
  }

  // ---------- Polling, as a sequence of actions ----------

  function FetchedInto(h: HubState, fetched: Fetched): HubState
  {
    if fetched.Found? then DidFetchScanResults(h, fetched.results) else h
  }

  function FetchAll(h: HubState, names: seq<string>, fetch: string -> Fetched): HubState
  {
    if names == [] then h
    else FetchedInto(FetchAll(h, names[..|names| - 1], fetch), fetch(names[|names| - 1]))
  }

  function CheckedInto(h: HubState, fetched: Fetched): HubState
  {
    if fetched.Found? && SummaryOf(fetched.results) != InProgress then ScanDidFinish(h, fetched.results).state else h
  }

  function CheckAll(h: HubState, names: seq<string>, fetch: string -> Fetched): HubState
  {
    if names == [] then h
    else CheckedInto(CheckAll(h, names[..|names| - 1], fetch), fetch(names[|names| - 1]))
  }

  /** The actions that one poll for unknown scans sends to the loop, and those that one poll for completion sends. */
  function FetchActions(names: seq<string>, fetch: string -> Fetched): seq<HubAction>
  {
    if names == [] then []
    else
      var fetched := fetch(names[|names| - 1]);
      FetchActions(names[..|names| - 1], fetch) + if fetched.Found? then [FetchedScanResults(fetched.results)] else []
  }

  function CheckActions(names: seq<string>, fetch: string -> Fetched): seq<HubAction>
  {
    if names == [] then []
    else
      var fetched := fetch(names[|names| - 1]);
      CheckActions(names[..|names| - 1], fetch)
      + if fetched.Found? && SummaryOf(fetched.results) != InProgress then [FinishedScan(fetched.results)] else []
  }

  lemma HubRunOfOneMore(h: HubState, actions: seq<HubAction>, a: HubAction)
    ensures HubRun(h, actions + [a]) == HubStep(HubRun(h, actions), a)
  {
    assert (actions + [a])[..|actions|] == actions;
  }

  /** A poll is a run of actions, so that what holds of every run holds with other actions in between as well. */
  lemma {:induction false} FetchPollIsRun(h: HubState, names: seq<string>, fetch: string -> Fetched)
    ensures FetchAll(h, names, fetch) == HubRun(h, FetchActions(names, fetch)) && AllEnabled(FetchActions(names, fetch))
  {
    if names != [] {
      var front, fetched := names[..|names| - 1], fetch(names[|names| - 1]);
      FetchPollIsRun(h, front, fetch);
      if fetched.Found? {
        HubRunOfOneMore(h, FetchActions(front, fetch), FetchedScanResults(fetched.results));
      } else {
        assert FetchActions(names, fetch) == FetchActions(front, fetch);
      }
    }
  }

  lemma {:induction false} CheckPollIsRun(h: HubState, names: seq<string>, fetch: string -> Fetched)
    ensures CheckAll(h, names, fetch) == HubRun(h, CheckActions(names, fetch)) && AllEnabled(CheckActions(names, fetch))
  {
    if names != [] {
      var front, fetched := names[..|names| - 1], fetch(names[|names| - 1]);
      CheckPollIsRun(h, front, fetch);
      if fetched.Found? && SummaryOf(fetched.results) != InProgress {
        HubRunOfOneMore(h, CheckActions(front, fetch), FinishedScan(fetched.results));
      } else {
        assert CheckActions(names, fetch) == CheckActions(front, fetch);
      }
    }
  }

  /** Neither poll leaves a complete scan without final results; checking for completion never takes up capacity. */
  lemma {:induction false} PollsKeepResults(h: HubState, names: seq<string>, fetch: string -> Fetched)
    requires CompleteHaveResults(h.scans)
    ensures CompleteHaveResults(FetchAll(h, names, fetch).scans) && CompleteHaveResults(CheckAll(h, names, fetch).scans)
    ensures InProgressScans(CheckAll(h, names, fetch)) <= InProgressScans(h)
  {
    if names != [] {
      PollsKeepResults(h, names[..|names| - 1], fetch);
      var fetched := fetch(names[|names| - 1]);
      if fetched.Found? {
        HubStepKeepsResults(FetchAll(h, names[..|names| - 1], fetch), FetchedScanResults(fetched.results));
        if SummaryOf(fetched.results) != InProgress {
          HubStepKeepsResults(CheckAll(h, names[..|names| - 1], fetch), FinishedScan(fetched.results));
          InProgressChanges(CheckAll(h, names[..|names| - 1], fetch), FinishedScan(fetched.results));
        }
      }
    }
  }
}
