/** pkg/hub/model.go as it is written: actions that update a map of scans in place. */
module HubModels {
  import opened Options
  import opened Listings
  import opened HubData
  import opened HubScans

  class HubModel {
    var hasFetchedScans: bool
    var scans: map<string, Scan>
    var updates: seq<Update>

    function View(): HubState
      reads this
    {
      HubState(hasFetchedScans, scans, updates)
    }

    constructor ()
      ensures View() == EMPTY_HUB
    {
      hasFetchedScans, scans, updates := false, map[], [];
    }

    method Publish(update: Update)
      modifies this`updates
      ensures updates == old(updates) + [update]
    {
      updates := updates + [update];
    }

    method DidFetchScans(names: Option<seq<string>>)
      modifies this
      ensures View() == HubScans.DidFetchScans(old(View()), names)
    {
      if names.Some? {
        hasFetchedScans := true;
        for i := 0 to |names.value|
          invariant hasFetchedScans && updates == old(updates)
          invariant scans.Keys == old(scans.Keys) + (set x | x in names.value[..i])
          invariant forall n :: n in scans ==>
                      scans[n] == if n in old(scans) then old(scans)[n] else Scan(ScanStage.Unknown, None)
        {
          var name := names.value[i];
          if name !in scans {
            scans := scans[name := Scan(ScanStage.Unknown, None)];
          }
          assert names.value[..i + 1] == names.value[..i] + [name];
        }
        assert names.value[..|names.value|] == names.value;
      }
    }

    method GetUnknownScans() returns (names: seq<string>)
      ensures Lists(names, UnknownScans(View()))
    {
      names := [];
      var todo := scans.Keys;
      while todo != {}
        invariant todo <= scans.Keys && Lists(names, UnknownScans(View()) - todo)
        decreases |todo|
      {
        var name :| name in todo;
        todo := todo - {name};
        if scans[name].stage == ScanStage.Unknown {
          names := names + [name];
        }
      }
    }

    method DidFetchScanResults(scanResults: ScanResults)
      modifies this
      ensures View() == HubScans.DidFetchScanResults(old(View()), scanResults)
    {
      var name := scanResults.codeLocationName;
      if name !in scans {
        scans := scans[name := Scan(ScanStage.Unknown, Some(scanResults))];
      }
      var status := ScanSummaryStatus(scanResults);
      match status {
        case Success => scans := scans[name := scans[name].(stage := ScanStage.Complete)];
        case InProgress => scans := scans[name := scans[name].(stage := HubScan)];
        case Failure => scans := scans[name := scans[name].(stage := ScanStage.Failure)];
      }
      scans := scans[name := scans[name].(results := Some(scanResults))];
      Publish(DidFindScan(name, scanResults));
    }

    /** Polls every scan that was unknown when the poll began; order is the order in which the map was walked. */
    method FetchUnknownScans(fetch: string -> Fetched) returns (ghost order: seq<string>)
      modifies this
      ensures Lists(order, UnknownScans(old(View()))) && View() == FetchAll(old(View()), order, fetch)
    {
      var unknownScans := GetUnknownScans();
      order := unknownScans;
      for i := 0 to |unknownScans|
        invariant View() == FetchAll(old(View()), unknownScans[..i], fetch)
      {
        assert unknownScans[..i + 1][..i] == unknownScans[..i];
        var fetched := fetch(unknownScans[i]);
        if fetched.FetchFailed? {
          continue;
        }
        if fetched.NothingFound? {
          continue;
        }
        DidFetchScanResults(fetched.results);
      }
      assert unknownScans[..|unknownScans|] == unknownScans;
    }

    method ScanDidFinish(scanResults: ScanResults) returns (err: Option<HubError>)
      modifies this
      ensures HubOutcome(View(), err) == HubScans.ScanDidFinish(old(View()), scanResults)
    {
      var scanName := scanResults.codeLocationName;
      if scanName !in scans {
        return Some(ScanNotFound(scanName));
      }
      var scan := scans[scanName];
      if scan.stage != HubScan {
        return Some(WrongStage(scanName, HubScan, scan.stage));
      }
      scans := scans[scanName := Scan(ScanStage.Complete, Some(scanResults))];
      Publish(DidFinishScan(scanName, scanResults));
      err := None;
    }

    method GetInProgressScans() returns (names: seq<string>)
      ensures Lists(names, InProgressScans(View())) && |names| == |InProgressScans(View())|
    {
      names := [];
      var todo := scans.Keys;
      while todo != {}
        invariant todo <= scans.Keys && Lists(names, InProgressScans(View()) - todo)
        decreases |todo|
      {
        var name :| name in todo;
        todo := todo - {name};
        if scans[name].stage == HubScan || scans[name].stage == ScanClient {
          names := names + [name];
        }
      }
      ListSize(names, InProgressScans(View()));
    }

    method CheckScansForCompletion(fetch: string -> Fetched) returns (ghost order: seq<string>)
      modifies this
      ensures Lists(order, InProgressScans(old(View()))) && View() == CheckAll(old(View()), order, fetch)
    {
      var scanNames := GetInProgressScans();
      order := scanNames;
      for i := 0 to |scanNames|
        invariant View() == CheckAll(old(View()), scanNames[..i], fetch)
      {
        assert scanNames[..i + 1][..i] == scanNames[..i];
        var fetched := fetch(scanNames[i]);
        if fetched.FetchFailed? {
          continue;
        }
        if fetched.NothingFound? {
          continue;
        }
        var status := ScanSummaryStatus(fetched.results);
        if status != InProgress {
          var _ := ScanDidFinish(fetched.results);
        }
      }
      assert scanNames[..|scanNames|] == scanNames;
    }

    method StartScanClient(scanName: string)
      modifies this
      ensures View() == HubScans.StartScanClient(old(View()), scanName)
    {
      scans := scans[scanName := Scan(ScanClient, None)];
    }

    method FinishScanClient(scanName: string, failed: bool) returns (err: Option<HubError>)
      modifies this
      ensures HubOutcome(View(), err) == HubScans.FinishScanClient(old(View()), scanName, failed)
    {
      if scanName !in scans {
        return Some(ScanNotFound(scanName));
      }
      var scan := scans[scanName];
      if scan.stage != ScanClient {
        return Some(WrongStage(scanName, ScanClient, scan.stage));
      }
      if !failed {
        scans := scans[scanName := scan.(stage := HubScan)];
      } else {
        scans := scans[scanName := scan.(stage := ScanStage.Failure)];
      }
      err := None;
    }
  }
}
