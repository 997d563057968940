/**
 What the actions of a hub's loop come to, stage by stage, what the polls made of them find out, and what a scan
 goes through from its start to its completion.
 */
module HubOutcomes {
  import opened Options
  import opened HubData
  import opened HubScans

  // ---------- One scan changes ----------

  /** The hub knows the scan with exactly this record. */
  predicate Has(h: HubState, name: string, scan: Scan)
  {
    name in h.scans && h.scans[name] == scan
  }

  predicate SameScan(h: HubState, h': HubState, name: string)
  {
    if name in h.scans then Has(h', name, h.scans[name]) else name !in h'.scans
  }

  /** The hub has this record now, and these updates more; nothing else has changed. */
  ghost predicate OnlyScanChanges(h: HubState, h': HubState, name: string, scan: Scan, published: seq<Update>)
  {
    && Has(h', name, scan) && h'.updates == h.updates + published && h'.hasFetchedScans == h.hasFetchedScans
    && forall n :: n != name ==> SameScan(h, h', n)
  }

  /** A scan takes up room while a scan client or the hub works on it. */
  lemma TakesUpRoom(h: HubState, name: string)
    ensures name in InProgressScans(h) <==> exists results :: Has(h, name, Scan(ScanClient, results))
                                                              || Has(h, name, Scan(HubScan, results))
    ensures name in UnknownScans(h) <==> exists results :: Has(h, name, Scan(ScanStage.Unknown, results))
  {
    if name in h.scans {
      assert Has(h, name, Scan(h.scans[name].stage, h.scans[name].results));
    }
  }

  /** A failed fetch of the code locations changes nothing. */
  lemma ScansNotFetched(h: HubState)
    ensures HubStep(h, FetchedScans(None)) == h
  {
  }

  /** A successful one makes the listed locations known and leaves those that were as they are. */
  lemma ScansFetched(h: HubState, names: seq<string>)
    ensures var h' := HubStep(h, FetchedScans(Some(names)));
            && h'.hasFetchedScans && h'.updates == h.updates
            && (forall n :: n in h.scans ==> SameScan(h, h', n))
            && (forall n :: n in names && n !in h.scans ==> Has(h', n, Scan(ScanStage.Unknown, None)))
            && (forall n :: n !in names ==> SameScan(h, h', n))
  {
  }

  /** Fetched results are stored and published; the stage is what they say, whatever it was. */
  lemma ResultsFetched(h: HubState, results: ScanResults)
    ensures var stage := if Success in results.scanSummaries then ScanStage.Complete
                         else if InProgress in results.scanSummaries then HubScan
                         else ScanStage.Failure;
            OnlyScanChanges(h, HubStep(h, FetchedScanResults(results)), results.codeLocationName,
                            Scan(stage, Some(results)), [DidFindScan(results.codeLocationName, results)])
  {
    SummaryMeans(results);
  }

  /** Only a scan on the hub can finish. It is complete then, with the results published, even if they are a failure. */
  lemma ScanFinished(h: HubState, results: ScanResults)
    ensures var name, o := results.codeLocationName, ScanDidFinish(h, results);
            && o.state == HubStep(h, FinishedScan(results))
            && (name in h.scans && h.scans[name].stage == HubScan
                ==> o.err.None? && OnlyScanChanges(h, o.state, name, Scan(ScanStage.Complete, Some(results)),
                                                   [DidFinishScan(name, results)]))
            && (name in h.scans && h.scans[name].stage != HubScan
                ==> o.err == Some(WrongStage(name, HubScan, h.scans[name].stage)) && o.state == h)
            && (name !in h.scans ==> o.err == Some(ScanNotFound(name)) && o.state == h)
  {
  }

  /** A started scan client replaces whatever was known of the scan. */
  lemma ClientStarted(h: HubState, name: string)
    ensures OnlyScanChanges(h, HubStep(h, StartedScanClient(name)), name, Scan(ScanClient, None), [])
  {
  }

  /** A scan client that finishes cleanly hands over to the hub; one that fails is a failed scan; results are kept. */
  lemma ClientFinished(h: HubState, name: string, failed: bool)
    ensures var o := FinishScanClient(h, name, failed);
            && o.state == HubStep(h, FinishedScanClient(name, failed))
            && (name in h.scans && h.scans[name].stage == ScanClient
                ==> o.err.None?
                    && OnlyScanChanges(h, o.state, name,
                                       Scan(if failed then ScanStage.Failure else HubScan, h.scans[name].results), []))
            && (name in h.scans && h.scans[name].stage != ScanClient
                ==> o.err == Some(WrongStage(name, ScanClient, h.scans[name].stage)) && o.state == h)
            && (name !in h.scans ==> o.err == Some(ScanNotFound(name)) && o.state == h)
  {
  }

  // ---------- The life of a scan ----------

  /** The action names the scan, so that it might change it. */
  predicate Mentions(a: HubAction, name: string)
  {
    match a
    case FetchedScans(_) => false
    case FetchedScanResults(results) => results.codeLocationName == name
    case FinishedScan(results) => results.codeLocationName == name
    case StartedScanClient(n) => n == name
    case FinishedScanClient(n, _) => n == name
  }

  ghost predicate NoneMentions(actions: seq<HubAction>, name: string)
  {
    forall a :: a in actions ==> !Mentions(a, name)
  }

  lemma KeptByOthers(h: HubState, a: HubAction, name: string)
    requires name in h.scans && !Mentions(a, name)
    ensures SameScan(h, HubStep(h, a), name)
    ensures forall u :: u in h.updates ==> u in HubStep(h, a).updates
  {
  }

  /** A known scan stays as it is during actions that do not mention it, and what was published stays published. */
  lemma {:induction false} KeptMeanwhile(h: HubState, actions: seq<HubAction>, name: string)
    requires name in h.scans && NoneMentions(actions, name)
    ensures SameScan(h, HubRun(h, actions), name)
    ensures forall u :: u in h.updates ==> u in HubRun(h, actions).updates
  {
    if actions != [] {
      var front, a := actions[..|actions| - 1], actions[|actions| - 1];
      assert actions == front + [a];
      KeptMeanwhile(h, front, name);
      hide HubStep;
      KeptByOthers(HubRun(h, front), a, name);
    }
  }

  /**
   A scan that is started, whose client finishes cleanly, and that is then found to have succeeded, is complete with
   these results, and they are published, whatever else happens to other scans in between.
   */
  lemma ScanLifeCycle(
    h: HubState, name: string, running: seq<HubAction>, scanning: seq<HubAction>, after: seq<HubAction>,
    results: ScanResults)
    requires NoneMentions(running, name) && NoneMentions(scanning, name) && NoneMentions(after, name)
    requires results.codeLocationName == name
    ensures var actions := [StartedScanClient(name)] + running + [FinishedScanClient(name, false)] + scanning
                           + [FinishedScan(results)] + after;
            && Has(HubRun(h, actions), name, Scan(ScanStage.Complete, Some(results)))
            && DidFinishScan(name, results) in HubRun(h, actions).updates
  {
    hide HubStep, HubRun, NoneMentions;
    var c0 := [StartedScanClient(name)];
    var c1 := c0 + running;
    var c2 := c1 + [FinishedScanClient(name, false)];
    var c3 := c2 + scanning;
    var c4 := c3 + [FinishedScan(results)];
    assert [] + c0 == c0;
    HubRunOfOneMore(h, [], StartedScanClient(name));
    ClientStarted(HubRun(h, []), name);
    HubRunSplits(h, c0, running);
    KeptMeanwhile(HubRun(h, c0), running, name);
    HubRunOfOneMore(h, c1, FinishedScanClient(name, false));
    ClientFinished(HubRun(h, c1), name, false);
    HubRunSplits(h, c2, scanning);
    KeptMeanwhile(HubRun(h, c2), scanning, name);
    HubRunOfOneMore(h, c3, FinishedScan(results));
    ScanFinished(HubRun(h, c3), results);
    HubRunSplits(h, c4, after);
    KeptMeanwhile(HubRun(h, c4), after, name);
  }

  // ---------- What polls find out ----------

  /** Fetching any of these names finds results under this name only if it is the name asked for. */
  ghost predicate FoundByOwnName(names: seq<string>, fetch: string -> Fetched, name: string)
  {
    forall n :: n in names && fetch(n).Found? && fetch(n).results.codeLocationName == name ==> n == name
  }

  predicate FindsOwn(fetch: string -> Fetched, name: string)
  {
    fetch(name).Found? && fetch(name).results.codeLocationName == name
  }

  lemma FetchIsStep(h: HubState, results: ScanResults)
    ensures DidFetchScanResults(h, results) == HubStep(h, FetchedScanResults(results))
  {
  }

  /** A poll for unknown scans records for each scan it asked for what was found, and leaves every other scan alone. */
  lemma {:induction false} FetchPollOutcome(h: HubState, names: seq<string>, fetch: string -> Fetched, name: string)
    requires FoundByOwnName(names, fetch, name)
    ensures var h' := FetchAll(h, names, fetch);
            if name in names && FindsOwn(fetch, name) then
              var results := fetch(name).results;
              Has(h', name, Scan(if Success in results.scanSummaries then ScanStage.Complete
                                 else if InProgress in results.scanSummaries then HubScan
                                 else ScanStage.Failure, Some(results)))
            else SameScan(h, h', name)
  {
    if names != [] {
      var front, last := names[..|names| - 1], names[|names| - 1];
      assert names == front + [last] && last in names;
      FetchPollOutcome(h, front, fetch, name);
      if fetch(last).Found? {
        hide HubStep, SummaryOf;
        ResultsFetched(FetchAll(h, front, fetch), fetch(last).results);
        FetchIsStep(FetchAll(h, front, fetch), fetch(last).results);
      }
    }
  }

  /**
   A poll for completion completes each scan it asked for that is on the hub and was found to be no longer in
   progress, success or failure, and leaves every other scan alone.
   */
  lemma {:induction false} CheckPollOutcome(h: HubState, names: seq<string>, fetch: string -> Fetched, name: string)
    requires FoundByOwnName(names, fetch, name)
    ensures var h' := CheckAll(h, names, fetch);
            if name in names && FindsOwn(fetch, name) && name in h.scans && h.scans[name].stage == HubScan
               && (Success in fetch(name).results.scanSummaries || InProgress !in fetch(name).results.scanSummaries)
            then Has(h', name, Scan(ScanStage.Complete, Some(fetch(name).results)))
            else SameScan(h, h', name)
  {
    if names != [] {
      var front, last := names[..|names| - 1], names[|names| - 1];
      assert names == front + [last] && last in names;
      CheckPollOutcome(h, front, fetch, name);
      if fetch(last).Found? {
        hide ScanDidFinish, SummaryOf;
        SummaryMeans(fetch(last).results);
        ScanFinished(CheckAll(h, front, fetch), fetch(last).results);
      }
    }
  }
}
