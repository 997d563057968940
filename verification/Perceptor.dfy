/**
 pkg/core/perceptor.go and scanscheduler.go: the pieces that talk to the core model and to the hubs in turn, each
 run without interruption. Dispatch.dfy says what holds when other actions come between their steps.
 */
module Perceptors {
  import opened Options
  import opened HubData
  import opened ScanStatuses
  import opened Heap
  import opened CoreState
  import opened CoreInvariants
  import opened CoreTheorems
  import opened CoreModel
  import opened HubScans
  import opened HubModels
  import opened HubOutcomes
  import opened Hubs

  // ---------- The unknown-images pass ----------

  /** The scans of all hubs in one map; where two hubs know the same name, the one walked last wins. */
  function MergeScans(hubs: seq<HubState>): map<string, Scan>
  {
    if hubs == [] then map[] else MergeScans(hubs[..|hubs| - 1]) + hubs[|hubs| - 1].scans
  }

  lemma {:induction false} MergedHaveResults(hubs: seq<HubState>)
    requires forall h :: h in hubs ==> CompleteHaveResults(h.scans)
    ensures CompleteHaveResults(MergeScans(hubs))
  {
    if hubs != [] {
      MergedHaveResults(hubs[..|hubs| - 1]);
    }
  }

  /** The hub is the last one that knows the scan. */
  predicate LastToKnow(hubs: seq<HubState>, i: int, name: string)
  {
    0 <= i < |hubs| && name in hubs[i].scans && forall j :: i < j < |hubs| ==> name !in hubs[j].scans
  }

  /**
   A scan is known to the hubs together if and only if one of them knows it, and the last one that does has its
   record.
   */
  lemma {:induction false} MergedScans(hubs: seq<HubState>, name: string)
    ensures name in MergeScans(hubs) <==> exists i :: LastToKnow(hubs, i, name)
    ensures name in MergeScans(hubs) <==> exists h :: h in hubs && name in h.scans
    ensures forall i :: LastToKnow(hubs, i, name) ==> MergeScans(hubs)[name] == hubs[i].scans[name]
  {
    if hubs != [] {
      var n := |hubs| - 1;
      var front := hubs[..n];
      assert hubs == front + [hubs[n]];
      MergedScans(front, name);
      if name in hubs[n].scans {
        assert LastToKnow(hubs, n, name);
      } else {
        assert forall i :: LastToKnow(hubs, i, name) <==> LastToKnow(front, i, name);
      }
    }
  }

  /** The record of an unknown image after the pass, given the merged record of its scan. */
  function Resolved(info: Info, scans: map<string, Scan>, sha: string): Info
  {
    if sha !in scans then info.(status := InQueue)
    else match scans[sha].stage
      case Complete =>
        if scans[sha].results.Some? && SummaryOf(scans[sha].results.value) == Success
        then info.(status := ScanStatus.Complete, results := scans[sha].results)
        else info.(status := InQueue)
      case Failure => info.(status := InQueue)
      case _ => info
  }

  ghost function HubViews(hubs: seq<HubModel>): (views: seq<HubState>)
    reads hubs
    ensures |views| == |hubs| && forall i :: 0 <= i < |hubs| ==> views[i] == hubs[i].View()
  {
    if hubs == [] then [] else HubViews(hubs[..|hubs| - 1]) + [hubs[|hubs| - 1].View()]
  }

  /** The images after the pass has dealt with some of the shas that were unknown. */
  ghost predicate PassedOver(before: State, after: State, scans: map<string, Scan>, done: set<string>)
  {
    && Inv(after) && after.images.Keys == before.images.Keys
    && forall k :: k in before.images ==>
         after.images[k] == if k in done then Resolved(before.images[k], scans, k) else before.images[k]
  }

  lemma PassOneSha(
    before: State, mid: State, scans: map<string, Scan>, done: set<string>, sha: string, results: Option<ScanResults>)
    requires PassedOver(before, mid, scans, done) && sha in before.images && sha !in done
    requires before.images[sha].status == ScanStatus.Unknown && CompleteHaveResults(scans)
    requires sha !in scans || scans[sha].stage == ScanStage.Failure || scans[sha].stage == ScanStage.Complete
    requires results == if sha in scans && scans[sha].stage == ScanStage.Complete then scans[sha].results else None
    ensures PassedOver(before, CoreState.ScanDidFinish(mid, sha, results).state, scans, done + {sha})
  {
    hide Inv, CoreState.ScanDidFinish;
    ReportOnUnknown(mid, sha, results);
  }

  lemma MergedOfAll(hubs: seq<HubModel>)
    ensures forall name :: name in MergeScans(HubViews(hubs)) <==> exists h :: h in hubs && name in h.scans
    ensures forall i, name :: LastToKnow(HubViews(hubs), i, name) ==>
              name in MergeScans(HubViews(hubs)) && MergeScans(HubViews(hubs))[name] == hubs[i].scans[name]
  {
    hide MergeScans, HubViews;
    var views := HubViews(hubs);
    forall name
      ensures name in MergeScans(views) <==> exists h :: h in hubs && name in h.scans
      ensures forall i :: LastToKnow(views, i, name) ==>
                name in MergeScans(views) && MergeScans(views)[name] == hubs[i].scans[name]
    {
      MergedScans(views, name);
      if name in MergeScans(views) {
        var i :| LastToKnow(views, i, name);
        assert hubs[i] in hubs;
      }
      if exists h :: h in hubs && name in h.scans {
        var h :| h in hubs && name in h.scans;
        var i :| 0 <= i < |hubs| && hubs[i] == h;
        assert views[i] in views;
      }
    }
  }

  /** Merges the scans of all hubs, unless one of them has not fetched its own yet. */
  method GatherScans(hubs: seq<HubModel>) returns (ready: bool, scans: map<string, Scan>)
    ensures ready <==> forall h :: h in hubs ==> h.hasFetchedScans
    ensures ready ==> scans == MergeScans(HubViews(hubs))
    ensures ready ==> forall name :: name in scans <==> exists h :: h in hubs && name in h.scans
    ensures ready ==> forall i, name :: LastToKnow(HubViews(hubs), i, name) ==>
                        name in scans && scans[name] == hubs[i].scans[name]
  {
    scans := map[];
    ghost var views := HubViews(hubs);
    for i := 0 to |hubs|
      invariant scans == MergeScans(views[..i])
      invariant forall j :: 0 <= j < i ==> hubs[j].hasFetchedScans
    {
      if !hubs[i].hasFetchedScans {
        assert hubs[i] in hubs;
        return false, scans;
      }
      assert views[..i + 1][..i] == views[..i];
      scans := scans + hubs[i].scans;
    }
    assert views[..|hubs|] == views;
    ready := true;
    MergedOfAll(hubs);
  }

  lemma StartPass(s: State, scans: map<string, Scan>)
    requires Inv(s)
    ensures PassedOver(s, s, scans, {})
  {
  }

  lemma SkipOneSha(before: State, mid: State, scans: map<string, Scan>, done: set<string>, sha: string)
    requires PassedOver(before, mid, scans, done) && sha !in done && sha in before.images
    requires Resolved(before.images[sha], scans, sha) == before.images[sha]
    ensures PassedOver(before, mid, scans, done + {sha})
  {
  }

  /** Deals with the given unknown shas in turn; those whose scan is unknown or in progress are left alone. */
  method ResolveUnknown(model: Model, unknownShas: seq<string>, scans: map<string, Scan>)
    requires model.Valid() && Inv(model.View()) && CompleteHaveResults(scans)
    requires forall sha :: sha in unknownShas ==>
               sha in model.View().images && model.View().images[sha].status == ScanStatus.Unknown
    requires forall i, j :: 0 <= i < j < |unknownShas| ==> unknownShas[i] != unknownShas[j]
    modifies model.Footprint()
    ensures model.Valid() && fresh(model.Footprint() - old(model.Footprint()))
    ensures PassedOver(old(model.View()), model.View(), scans, set sha | sha in unknownShas)
  {
    hide Inv, CoreState.ScanDidFinish, CompleteHaveResults, Model.Valid, Model.View, PassedOver;
    ghost var before := model.View();
    ghost var done: set<string> := {};
    StartPass(before, scans);
    for i := 0 to |unknownShas|
      invariant model.Valid() && fresh(model.Footprint() - old(model.Footprint()))
      invariant PassedOver(before, model.View(), scans, done)
      invariant done == set j | 0 <= j < i :: unknownShas[j]
    {
      var sha := unknownShas[i];
      assert sha in unknownShas && sha !in done;
      if sha in scans {
        var results := scans[sha];
        if results.stage == ScanStage.Complete {
          PassOneSha(before, model.View(), scans, done, sha, results.results);
          var _ := model.ScanDidFinish(sha, results.results);
        } else if results.stage == ScanStage.Failure {
          PassOneSha(before, model.View(), scans, done, sha, None);
          var _ := model.ScanDidFinish(sha, None);
        } else {
          SkipOneSha(before, model.View(), scans, done, sha);
        }
      } else {
        PassOneSha(before, model.View(), scans, done, sha, None);
        var _ := model.ScanDidFinish(sha, None);
      }
      done := done + {sha};
    }
    assert done == set sha | sha in unknownShas;
  }

  /**
   What becomes of an image in an uninterrupted pass, given what the hubs know. It only matters if it was unknown:
   without any record it is queued, and otherwise the last hub that knows its scan decides.
   */
  ghost predicate ResolvedByHubs(before: Info, after: Info, hubs: seq<HubState>, sha: string)
  {
    && (before.status != ScanStatus.Unknown ==> after == before)
    && (before.status == ScanStatus.Unknown && (forall h :: h in hubs ==> sha !in h.scans)
        ==> after == before.(status := InQueue))
    && (before.status == ScanStatus.Unknown ==> forall i :: LastToKnow(hubs, i, sha) ==>
          var scan := hubs[i].scans[sha];
          && (scan.stage.Unknown? || scan.stage.ScanClient? || scan.stage.HubScan? ==> after == before)
          && (scan.stage.Failure? ==> after == before.(status := InQueue))
          && (scan.stage.Complete? && scan.results.Some? && Success in scan.results.value.scanSummaries
              ==> after == before.(status := ScanStatus.Complete, results := scan.results))
          && (scan.stage.Complete? && scan.results.Some? && Success !in scan.results.value.scanSummaries
              ==> after == before.(status := InQueue)))
  }

  ghost predicate PassCompleted(before: State, after: State, hubs: seq<HubState>)
  {
    && after.images.Keys == before.images.Keys
    && forall k :: k in before.images ==> ResolvedByHubs(before.images[k], after.images[k], hubs, k)
  }

  lemma ResolvedOnHubs(info: Info, hubs: seq<HubState>, sha: string)
    ensures var after := if info.status == ScanStatus.Unknown then Resolved(info, MergeScans(hubs), sha) else info;
            ResolvedByHubs(info, after, hubs, sha)
  {
    hide MergeScans;
    MergedScans(hubs, sha);
    forall i | LastToKnow(hubs, i, sha) && hubs[i].scans[sha].results.Some?
      ensures SummaryOf(hubs[i].scans[sha].results.value) == Success
              <==> Success in hubs[i].scans[sha].results.value.scanSummaries
    {
      SummaryMeans(hubs[i].scans[sha].results.value);
    }
  }

  lemma EndPass(before: State, after: State, hubs: seq<HubState>, done: set<string>)
    requires PassedOver(before, after, MergeScans(hubs), done)
    requires forall k :: k in done <==> k in before.images && before.images[k].status == ScanStatus.Unknown
    ensures Inv(after) && PassCompleted(before, after, hubs)
  {
    hide Inv, Resolved, ResolvedByHubs, MergeScans;
    forall k | k in before.images
      ensures ResolvedByHubs(before.images[k], after.images[k], hubs, k)
    {
      ResolvedOnHubs(before.images[k], hubs, k);
    }
  }

  /**
   If every hub has fetched its scans, the pass leaves unknown exactly those images whose record, at the last hub
   that has one, is itself unknown or in progress, completes those with a successful scan and queues the others.
   Otherwise it does nothing.
   */
  method UnknownImagesPass(model: Model, hubs: seq<HubModel>)
    requires model.Valid() && Inv(model.View())
    requires forall h :: h in hubs ==> CompleteHaveResults(h.scans)
    modifies model.Footprint()
    ensures model.Valid() && fresh(model.Footprint() - old(model.Footprint())) && Inv(model.View())
    ensures !old(forall h :: h in hubs ==> h.hasFetchedScans) ==> model.View() == old(model.View())
    ensures old(forall h :: h in hubs ==> h.hasFetchedScans) ==>
              PassCompleted(old(model.View()), model.View(), old(HubViews(hubs)))
  {
    hide Inv, CompleteHaveResults, Model.Valid, Model.View, PassedOver, PassCompleted, Resolved,
         MergeScans, HubViews;
    ghost var before, views := model.View(), HubViews(hubs);
    StartPass(before, MergeScans(views));
    var unknownShas := model.GetShas(ScanStatus.Unknown);
    ghost var unknown := set sha | sha in unknownShas;
    assert forall v :: v in views ==> CompleteHaveResults(v.scans);
    MergedHaveResults(views);
    if |unknownShas| == 0 {
      assert unknown == {};
      EndPass(before, before, views, unknown);
      return;
    }
    var ready, scans := GatherScans(hubs);
    if !ready {
      return;
    }
    ResolveUnknown(model, unknownShas, scans);
    EndPass(before, model.View(), views, unknown);
  }

  // ---------- Dispatch, uninterrupted ----------

  /** Some hub with fewer scans in progress than its limit, if there is one. */
  method AssignImage(hubs: seq<Hub>) returns (hub: Option<Hub>)
    ensures hub.Some? ==> hub.value in hubs
    ensures hub.Some? ==> |InProgressScans(hub.value.model.View())| < hub.value.concurrentScanLimit
    ensures hub.None? ==> forall h :: h in hubs ==> |InProgressScans(h.model.View())| >= h.concurrentScanLimit
  {
    for i := 0 to |hubs|
      invariant forall j :: 0 <= j < i ==> |InProgressScans(hubs[j].model.View())| >= hubs[j].concurrentScanLimit
    {
      var inProgress := hubs[i].model.GetInProgressScans();
      if |inProgress| < hubs[i].concurrentScanLimit {
        return Some(hubs[i]);
      }
    }
    hub := None;
  }

  datatype Job = Job(image: Image, host: string)

  lemma NothingNextMeansEmpty(s: State)
    requires IsNextImage(s, None)
    ensures s.queue == map[]
  {
  }

  lemma QueueIsNotEmpty(s: State, image: Image)
    requires IsNextImage(s, Some(image))
    ensures s.queue != map[]
  {
    assert image.sha in s.queue;
  }

  /** The two questions that precede a hand-out; the second is only asked if the first has an answer. */
  method ChooseJob(model: Model, hubs: seq<Hub>) returns (image: Option<Image>, hub: Option<Hub>)
    requires model.Valid() && Inv(model.View())
    ensures IsNextImage(model.View(), image)
    ensures image.None? <==> model.View().queue == map[]
    ensures hub.Some? ==> hub.value in hubs
    ensures hub.Some? ==> |InProgressScans(hub.value.model.View())| < hub.value.concurrentScanLimit
    ensures image.Some? ==> (hub.None? <==> forall h :: h in hubs
                                                ==> |InProgressScans(h.model.View())| >= h.concurrentScanLimit)
  {
    hide Inv, IsNextImage, InProgressScans, HubModel.View, IsHeap, Lookup;
    image := model.GetNextImageFromScanQueue();
    if image.None? {
      NothingNextMeansEmpty(model.View());
      return image, None;
    }
    QueueIsNotEmpty(model.View(), image.value);
    hub := AssignImage(hubs);
  }

  /** The two calls that follow a hand-out. */
  method StartBoth(model: Model, hub: HubModel, sha: string)
    requires model.Valid()
    modifies model.Footprint(), hub
    ensures model.Valid() && fresh(model.Footprint() - old(model.Footprint()))
    ensures model.View() == CoreState.StartScanClient(old(model.View()), sha).state
    ensures hub.View() == HubScans.StartScanClient(old(hub.View()), sha)
  {
    hide Model.Valid, Model.View, CoreState.StartScanClient, HubScans.StartScanClient;
    var _ := model.StartScanClient(sha);
    hub.StartScanClient(sha);
  }

  /** The hub had room, has recorded the scan, and does not exceed its limit. */
  ghost predicate ScanRecorded(before: HubState, after: HubState, sha: string, limit: int)
  {
    && |InProgressScans(before)| < limit && |InProgressScans(after)| <= limit
    && after == HubScans.StartScanClient(before, sha)
  }

  lemma StartTakesOne(hub: Hub, sha: string)
    requires |InProgressScans(hub.model.View())| < hub.concurrentScanLimit
    ensures var before := hub.model.View();
            ScanRecorded(before, HubScans.StartScanClient(before, sha), sha, hub.concurrentScanLimit)
  {
    InProgressChanges(hub.model.View(), StartedScanClient(sha));
  }

  /**
   A scan client reports back: first its hub, if there is one, is told and then the core. (The two names in the
   report are the same where the report answers a hand-out, but it comes from outside.) If the hub still has the
   scan with a client and the core still has the image running, the scan moves on in both, or fails in both, in
   which case the hub has its room back and the image is back in the queue with priority -1.
   */
  method PostFinishScan(model: Model, hub: Option<HubModel>, scanName: string, sha: string, failed: bool)
    requires model.Valid() && Inv(model.View())
    modifies model.Footprint(), if hub.Some? then {hub.value} else {}
    ensures model.Valid() && fresh(model.Footprint() - old(model.Footprint())) && Inv(model.View())
    ensures model.View() == CoreState.FinishRunningScanClient(old(model.View()), sha, failed).state
    ensures hub.Some? ==> hub.value.View() == HubScans.FinishScanClient(old(hub.value.View()), scanName, failed).state
    ensures hub.Some? && scanName in old(hub.value.scans) && old(hub.value.scans)[scanName].stage == ScanClient ==>
              InProgressScans(hub.value.View())
              == if failed then old(InProgressScans(hub.value.View())) - {scanName}
                 else old(InProgressScans(hub.value.View()))
    ensures hub.Some? && scanName in old(hub.value.scans) && old(hub.value.scans)[scanName].stage == ScanClient ==>
              OnlyScanChanges(old(hub.value.View()), hub.value.View(), scanName,
                              Scan(if failed then ScanStage.Failure else HubScan,
                                   old(hub.value.scans)[scanName].results), [])
    ensures sha in old(model.View()).images && old(model.View()).images[sha].status == RunningScanClient ==>
              && sha in model.View().images
              && model.View().images[sha].status == (if failed then InQueue else RunningHubScan)
              && (failed ==> model.View().images[sha].priority == FAILED_SCAN_PRIORITY)
  {
    hide Inv, Model.Valid, Model.View, CoreState.FinishRunningScanClient, InProgressScans;
    ghost var before := model.View();
    if hub.Some? {
      InProgressChanges(hub.value.View(), FinishedScanClient(scanName, failed));
      ClientFinished(hub.value.View(), scanName, failed);
      var _ := hub.value.FinishScanClient(scanName, failed);
    }
    FinishRunningScanClientKeepsInv(before, sha, failed);
    if sha in before.images {
      CleanFinishSucceedsIff(before, sha);
      FailedFinishSucceedsIff(before, sha);
    }
    var _ := model.FinishRunningScanClient(sha, failed);
  }

  /** The image was a next one, and has left the queue for a scan client. */
  ghost predicate ImageStarted(before: State, after: State, image: Image)
  {
    && IsNextImage(before, Some(image)) && after == CoreState.StartScanClient(before, image.sha).state
    && image.sha in after.images && after.images[image.sha].status == RunningScanClient
    && image.sha !in after.queue
  }

  lemma StartedImageIsRunning(s: State, image: Image)
    requires Inv(s) && IsNextImage(s, Some(image))
    ensures var o := CoreState.StartScanClient(s, image.sha);
            o.err.None? && Inv(o.state) && ImageStarted(s, o.state, image)
  {
    hide SetImageScanStatus, IsTop, PrioritiesAgree, InfosOk, PodsOk, LogAgrees;
    StepKeepsInv(s, DoStartScanClient(image.sha));
    NextImageAgreesWithSearch(s, Some(image));
    TransitionSucceedsIffLegal(s, image.sha, RunningScanClient);
  }

  /**
   Without interruption a job is handed out exactly when an image is queued, a hub has room, and the configuration
   knows the host of the hub chosen; if it does not, the caller is never answered. With a job, the image, which no
   queued one outranked, is running in the core and recorded at that hub alone; without one nothing changes.
   */
  method GetNextImage(model: Model, hubs: seq<Hub>, hosts: set<string>)
    returns (answered: bool, job: Option<Job>, ghost chosen: Option<Hub>)
    requires model.Valid() && Inv(model.View())
    requires forall i, j :: 0 <= i < j < |hubs| ==> hubs[i].model != hubs[j].model
    modifies model.Footprint(), set h | h in hubs :: h.model
    ensures model.Valid() && fresh(model.Footprint() - old(model.Footprint())) && Inv(model.View())
    ensures chosen.None? <==> old(model.View().queue == map[]
                                  || forall h :: h in hubs
                                       ==> |InProgressScans(h.model.View())| >= h.concurrentScanLimit)
    ensures answered <==> chosen.None? || chosen.value.host in hosts
    ensures job.Some? <==> chosen.Some? && chosen.value.host in hosts
    ensures job.None? ==> model.View() == old(model.View())
    ensures forall h :: h in hubs && (job.None? || chosen != Some(h)) ==> h.model.View() == old(h.model.View())
    ensures job.Some? ==>
              var image, hub := job.value.image, chosen.value;
              && hub in hubs && job.value.host == hub.host
              && ImageStarted(old(model.View()), model.View(), image)
              && ScanRecorded(old(hub.model.View()), hub.model.View(), image.sha, hub.concurrentScanLimit)
  {
    hide Inv, Model.Valid, Model.View, CoreState.StartScanClient, HubScans.StartScanClient;
    hide InProgressScans, IsNextImage;
    hide HubModel.View, ImageStarted, ScanRecorded;
    var image, hub := ChooseJob(model, hubs);
    if image.None? || hub.None? {
      return true, None, None;
    }
    chosen := hub;
    if hub.value.host !in hosts {
      return false, None, chosen;
    }
    answered, job := true, Some(Job(image.value, hub.value.host));
    StartedImageIsRunning(model.View(), image.value);
    StartTakesOne(hub.value, image.value.sha);
    StartBoth(model, hub.value.model, image.value.sha);
  }
}
