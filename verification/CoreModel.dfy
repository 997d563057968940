/**
 pkg/core/model/model.go and imageinfo.go as they are written: image records updated in place through a map of
 pointers, and a heap-backed scan queue. Every action is proved to do to the state what CoreState says it does.
 */
module CoreModel {
  import opened Options
  import opened Heap
  import opened PriorityQueues
  import opened HubData
  import opened ScanStatuses
  import opened CoreState
  import opened CoreInvariants

  /** The constructor used for every scan queue starts with room for this many nodes. */
  const INITIAL_CAPACITY := 10

  class ImageInfo {
    var scanStatus: ScanStatus
    var scanResults: Option<ScanResults>
    var imageSha: string
    var repoTags: seq<RepoTag>
    var priority: int
    var projectName: string
    var projectVersion: string

    function Value(): Info
      reads this
    {
      Info(scanStatus, scanResults, imageSha, repoTags, priority, projectName, projectVersion)
    }

    constructor (image: Image, repoTag: RepoTag)
      requires repoTag == RepoTag(image.repository, image.tag)
      ensures Value() == NewInfo(image)
    {
      scanResults, imageSha, repoTags, priority := None, image.sha, [repoTag], image.priority;
      projectName, projectVersion := image.projectName, image.projectVersion;
      scanStatus := Unknown;
    }

    method SetScanStatus(status: ScanStatus)
      modifies this
      ensures Value() == old(Value()).(status := status)
    {
      scanStatus := status;
    }

    method SetPriority(newPriority: int)
      modifies this
      ensures Value() == old(Value()).(priority := newPriority)
    {
      priority := newPriority;
    }

    method FirstRepoTag() returns (repoTag: RepoTag)
      requires repoTags != []
      ensures repoTag == repoTags[0]
    {
      repoTag := repoTags[0];
    }

    /** Panics without a repo tag. */
    method GetImage() returns (image: Image)
      requires repoTags != []
      ensures image == ImageOf(Value())
    {
      var repoTag := FirstRepoTag();
      image := Image(repoTag.repository, repoTag.tag, imageSha, priority, projectName, projectVersion);
    }
  }

  lemma QueueStepsKeepImages(s: State, sha: string, status: ScanStatus)
    ensures CoreState.LeaveState(s, sha, status).state.images == s.images
    ensures CoreState.EnterState(s, sha, status).state.images == s.images
  {
  }

  lemma QueuedImageIsKnown(s: State, k: string)
    requires Inv(s) && k in s.queue
    ensures k in s.images && s.queue[k].Node? && s.queue[k].value == k
    ensures s.images[k].sha == k && s.images[k].repoTags != []
  {
  }

  class Model {
    var pods: map<string, Pod>
    var images: map<string, ImageInfo>
    const imageScanQueue: PriorityQueue<string>
    var imageTransitions: seq<Transition>

    ghost function Footprint(): set<object>
      reads this, imageScanQueue
    {
      images.Values + {this, imageScanQueue, imageScanQueue.items}
    }

    /** The queue is a heap, and no two images share a record. */
    ghost predicate Valid()
      reads Footprint()
    {
      && imageScanQueue.Valid() && 0 < imageScanQueue.items.Length
      && forall k, k' :: k in images && k' in images && k != k' ==> images[k] != images[k']
    }

    ghost function Infos(): map<string, Info>
      reads this`images, images.Values
    {
      map k | k in images :: images[k].Value()
    }

    ghost function View(): State
      reads Footprint()
      requires Valid()
    {
      State(pods, Infos(), imageScanQueue.Contents(), imageTransitions)
    }

    /** Writing to one record changes one entry of the map that the records stand for, and nothing else. */
    twostate lemma RecordWritten(sha: string)
      requires old(Valid()) && sha in images
      requires unchanged(this) && unchanged(imageScanQueue) && unchanged(imageScanQueue.items)
      requires forall k :: k in images && k != sha ==> unchanged(images[k])
      ensures Valid() && View() == WithInfo(old(View()), sha, images[sha].Value())
    {
      hide IsHeap, Lookup, PriorityQueue.Valid, PriorityQueue.Contents;
      assert Infos() == old(Infos())[sha := images[sha].Value()];
    }

    lemma RecordAt(sha: string)
      requires Valid()
      ensures sha in images <==> sha in View().images
      ensures sha in images ==> View().images[sha] == images[sha].Value()
      ensures forall k :: sha in images && k in images && k != sha ==> images[k] != images[sha]
    {
    }

    constructor ()
      ensures Valid() && fresh(Footprint()) && View() == EMPTY_STATE
      ensures imageScanQueue.items.Length == 10
    {
      pods, images, imageTransitions := map[], map[], [];
      imageScanQueue := new PriorityQueue(INITIAL_CAPACITY);
    }

    // ---------- The scan queue ----------

    method AddImageToScanQueue(sha: string) returns (err: Option<CoreError>)
      requires Valid()
      modifies Footprint()
      ensures Valid() && fresh(Footprint() - old(Footprint())) && images == old(images)
      ensures Outcome(View(), err) == AddToQueue(old(View()), sha)
    {
      hide IsHeap, Lookup;
      if sha !in images {
        return Some(ShaNotFound(sha));
      }
      assert imageScanQueue.Contents() == View().queue;
      var e, _ := imageScanQueue.Add(sha, images[sha].priority, sha);
      err := if e.Some? then Some(AlreadyQueued(sha)) else None;
    }

    method RemoveImageFromScanQueue(sha: string) returns (err: Option<CoreError>)
      requires Valid()
      modifies Footprint()
      ensures Valid() && fresh(Footprint() - old(Footprint())) && images == old(images)
      ensures Outcome(View(), err) == RemoveFromQueue(old(View()), sha)
    {
      hide IsHeap, Lookup;
      var _, e, _ := imageScanQueue.Remove(sha);
      err := if e.Some? then Some(NotQueued(sha)) else None;
    }

    method SetImagePriority(sha: string, newPriority: int) returns (err: Option<CoreError>)
      requires Valid()
      modifies Footprint()
      ensures Valid() && fresh(Footprint() - old(Footprint())) && images == old(images)
      ensures Outcome(View(), err) == SetQueuePriority(old(View()), sha, newPriority)
    {
      hide IsHeap, Lookup;
      imageScanQueue.ContentsFacts();
      var e, _ := imageScanQueue.Set(sha, newPriority);
      err := if e.Some? then Some(NotQueued(sha)) else None;
    }

    /** The image in front of the scan queue, which stays there. An unknown sha or a missing repo tag would panic. */
    method GetNextImageFromScanQueue() returns (next: Option<Image>)
      requires Valid() && Inv(View())
      ensures IsNextImage(View(), next)
    {
      hide IsHeap, Lookup, PrioritiesAgree, PodsOk, LogAgrees;
      var first := imageScanQueue.Peek();
      if first.None? {
        return None;
      }
      ghost var s := View();
      ghost var k :| IsTop(s.queue, k) && s.queue[k].value == first.value;
      var sha := first.value;
      QueuedImageIsKnown(s, k);
      assert s.images[k] == images[k].Value();
      var image := images[sha].GetImage();
      next := Some(image);
    }

    // ---------- Transitions ----------

    method LeaveState(sha: string, status: ScanStatus) returns (err: Option<CoreError>)
      requires Valid()
      modifies Footprint()
      ensures Valid() && fresh(Footprint() - old(Footprint())) && images == old(images)
      ensures Outcome(View(), err) == CoreState.LeaveState(old(View()), sha, status)
    {
      match status
      case InQueue => err := RemoveImageFromScanQueue(sha);
      case Unknown | RunningScanClient | RunningHubScan | Complete => err := None;
    }

    method EnterState(sha: string, status: ScanStatus) returns (err: Option<CoreError>)
      requires Valid()
      modifies Footprint()
      ensures Valid() && fresh(Footprint() - old(Footprint())) && images == old(images)
      ensures Outcome(View(), err) == CoreState.EnterState(old(View()), sha, status)
    {
      match status
      case InQueue => err := AddImageToScanQueue(sha);
      case Unknown | RunningScanClient | RunningHubScan | Complete => err := None;
    }

    method SetImageScanStatusForSha(sha: string, newScanStatus: ScanStatus) returns (err: Option<CoreError>)
      requires Valid()
      modifies Footprint()
      ensures Valid() && fresh(Footprint() - old(Footprint())) && images == old(images)
      ensures Outcome(View(), err) == CoreState.SetImageScanStatusForSha(old(View()), sha, newScanStatus)
    {
      hide IsHeap, Lookup, PriorityQueue.Valid, CoreState.LeaveState, CoreState.EnterState, IsLegalTransition;
      if sha !in images {
        return Some(ShaNotFound(sha));
      }
      var imageInfo := images[sha];
      var isLegal := IsLegalTransition(imageInfo.scanStatus, newScanStatus);
      if !isLegal {
        return Some(IllegalTransition(imageInfo.scanStatus, newScanStatus));
      }
      QueueStepsKeepImages(View(), sha, imageInfo.scanStatus);
      err := LeaveState(sha, imageInfo.scanStatus);
      QueueStepsKeepImages(View(), sha, newScanStatus);
      if err.Some? {
        return;
      }
      err := EnterState(sha, newScanStatus);
      if err.Some? {
        return;
      }
      label entered:
      imageInfo.SetScanStatus(newScanStatus);
      RecordWritten@entered(sha);
    }

    method SetImageScanStatus(sha: string, newScanStatus: ScanStatus) returns (err: Option<CoreError>)
      requires Valid()
      modifies Footprint()
      ensures Valid() && fresh(Footprint() - old(Footprint())) && images == old(images)
      ensures Outcome(View(), err) == CoreState.SetImageScanStatus(old(View()), sha, newScanStatus)
    {
      hide IsHeap, Lookup, PriorityQueue.Valid, CoreState.SetImageScanStatusForSha;
      var from := None;
      if sha in images {
        from := Some(images[sha].scanStatus);
      }
      err := SetImageScanStatusForSha(sha, newScanStatus);
      imageTransitions := imageTransitions + [Transition(sha, from, newScanStatus, err)];
    }

    // ---------- Actions ----------

    method CreateImage(image: Image) returns (added: bool, err: Option<CoreError>)
      requires Valid()
      modifies Footprint()
      ensures Valid() && fresh(Footprint() - old(Footprint()))
      ensures added == (image.sha !in old(images))
      ensures Outcome(View(), err) == CoreState.AddImage(old(View()), image)
    {
      hide IsHeap, Lookup, PriorityQueue.Valid, PriorityQueue.Contents, CoreState.SetQueuePriority;
      added := image.sha !in images;
      if image.sha in images {
        var imageInfo := images[image.sha];
        var newPriority, oldPriority := image.priority, imageInfo.priority;
        if newPriority <= oldPriority {
          return added, None;
        }
        if oldPriority < 0 {
          return added, None;
        }
        imageInfo.SetPriority(image.priority);
        RecordWritten(image.sha);
        if imageInfo.scanStatus != InQueue {
          return added, None;
        }
        err := SetImagePriority(image.sha, image.priority);
        return added, err;
      }
      var newInfo := new ImageInfo(image, RepoTag(image.repository, image.tag));
      images := images[image.sha := newInfo];
      assert Infos() == old(Infos())[image.sha := NewInfo(image)];
      err := None;
    }

    method AddImage(image: Image) returns (err: Option<CoreError>)
      requires Valid()
      modifies Footprint()
      ensures Valid() && fresh(Footprint() - old(Footprint()))
      ensures Outcome(View(), err) == CoreState.AddImage(old(View()), image)
    {
      var added;
      added, err := CreateImage(image);
    }

    method AddPod(newPod: Pod) returns (err: Option<CoreError>)
      requires Valid()
      modifies Footprint()
      ensures Valid() && fresh(Footprint() - old(Footprint()))
      ensures Outcome(View(), err) == CoreState.AddPod(old(View()), newPod)
    {
      hide IsHeap, Lookup, PriorityQueue.Valid, PriorityQueue.Contents, CoreState.AddImage, Infos;
      ghost var s, all := View(), ImagesOf(newPod);
      var errors: seq<CoreError> := [];
      for i := 0 to |newPod.containers|
        invariant Valid() && fresh(Footprint() - old(Footprint()))
        invariant (View(), errors) == AddImages(s, all[..i])
      {
        var e := AddImage(newPod.containers[i].image);
        if e.Some? {
          errors := errors + [e.value];
        }
        assert all[..i + 1][..i] == all[..i];
      }
      assert all[..|all|] == all;
      pods := pods[newPod.QualifiedName() := newPod];
      err := CombineErrors(errors);
    }

    method AllPods(newPods: seq<Pod>) returns (err: Option<CoreError>)
      requires Valid()
      modifies Footprint()
      ensures Valid() && fresh(Footprint() - old(Footprint()))
      ensures Outcome(View(), err) == CoreState.AllPods(old(View()), newPods)
    {
      hide IsHeap, Lookup, PriorityQueue.Valid, PriorityQueue.Contents, CoreState.AddPod, Infos;
      pods := map[];
      ghost var s := View();
      var errors: seq<CoreError> := [];
      for i := 0 to |newPods|
        invariant Valid() && fresh(Footprint() - old(Footprint()))
        invariant (View(), errors) == AddPods(s, newPods[..i])
      {
        var e := AddPod(newPods[i]);
        if e.Some? {
          errors := errors + [e.value];
        }
        assert newPods[..i + 1][..i] == newPods[..i];
      }
      assert newPods[..|newPods|] == newPods;
      err := CombineErrors(errors);
    }

    method AllImages(newImages: seq<Image>) returns (err: Option<CoreError>)
      requires Valid()
      modifies Footprint()
      ensures Valid() && fresh(Footprint() - old(Footprint()))
      ensures Outcome(View(), err) == CoreState.AllImages(old(View()), newImages)
    {
      hide IsHeap, Lookup, PriorityQueue.Valid, PriorityQueue.Contents, CoreState.AddImage, Infos;
      ghost var s := View();
      var errors: seq<CoreError> := [];
      for i := 0 to |newImages|
        invariant Valid() && fresh(Footprint() - old(Footprint()))
        invariant (View(), errors) == AddImages(s, newImages[..i])
      {
        var e := AddImage(newImages[i]);
        if e.Some? {
          errors := errors + [e.value];
        }
        assert newImages[..i + 1][..i] == newImages[..i];
      }
      assert newImages[..|newImages|] == newImages;
      err := CombineErrors(errors);
    }

    method DeletePod(podName: string) returns (err: Option<CoreError>)
      requires Valid()
      modifies Footprint()
      ensures Valid() && Footprint() == old(Footprint())
      ensures Outcome(View(), err) == CoreState.DeletePod(old(View()), podName)
    {
      if podName !in pods {
        return Some(PodNotFound(podName));
      }
      pods := pods - {podName};
      err := None;
    }

    method ScanDidFinish(sha: string, scanResults: Option<ScanResults>) returns (err: Option<CoreError>)
      requires Valid()
      modifies Footprint()
      ensures Valid() && fresh(Footprint() - old(Footprint())) && images == old(images)
      ensures Outcome(View(), err) == CoreState.ScanDidFinish(old(View()), sha, scanResults)
    {
      RecordAt(sha);
      if sha !in images {
        return Some(ShaNotFound(sha));
      }
      hide Valid, View, Infos, Inv, CoreState.SetImageScanStatus, CoreState.ScanDidFinish, SummaryOf;
      ScanDidFinishInTwoSteps(View(), sha, scanResults);
      var imageInfo := images[sha];
      var summary := None;
      if scanResults.Some? {
        var status := ScanSummaryStatus(scanResults.value);
        summary := Some(status);
      }
      if summary == Some(Success) {
        imageInfo.scanResults := scanResults;
        RecordWritten(sha);
      }
      var target := TransitionAsked(imageInfo.scanStatus, summary);
      if target.None? {
        return ReportRefusal(imageInfo.scanStatus, summary);
      }
      err := SetImageScanStatus(sha, target.value);
    }

    method StartScanClient(sha: string) returns (err: Option<CoreError>)
      requires Valid()
      modifies Footprint()
      ensures Valid() && fresh(Footprint() - old(Footprint())) && images == old(images)
      ensures Outcome(View(), err) == CoreState.StartScanClient(old(View()), sha)
    {
      if sha !in images {
        return Some(ShaNotFound(sha));
      }
      if images[sha].scanStatus != InQueue {
        return Some(NotInQueueState(sha));
      }
      err := SetImageScanStatus(sha, RunningScanClient);
    }

    method FinishRunningScanClient(sha: string, failed: bool) returns (err: Option<CoreError>)
      requires Valid()
      modifies Footprint()
      ensures Valid() && fresh(Footprint() - old(Footprint())) && images == old(images)
      ensures Outcome(View(), err) == CoreState.FinishRunningScanClient(old(View()), sha, failed)
    {
      if sha !in images {
        return Some(ShaNotFound(sha));
      }
      hide IsHeap, Lookup, PriorityQueue.Valid, PriorityQueue.Contents, CoreState.SetImageScanStatus;
      var imageInfo := images[sha];
      var scanStatus := RunningHubScan;
      if failed {
        imageInfo.SetPriority(FAILED_SCAN_PRIORITY);
        RecordWritten(sha);
        scanStatus := InQueue;
      }
      err := SetImageScanStatus(sha, scanStatus);
    }

    /** The shas in a status, each once. */
    method GetShas(status: ScanStatus) returns (shas: seq<string>)
      requires Valid()
      ensures forall k :: k in shas <==> k in View().images && View().images[k].status == status
      ensures forall i, j :: 0 <= i < j < |shas| ==> shas[i] != shas[j]
    {
      shas := [];
      var todo := images.Keys;
      while todo != {}
        invariant todo <= images.Keys
        invariant forall k :: k in shas <==> k in images && k !in todo && images[k].scanStatus == status
        invariant forall i, j :: 0 <= i < j < |shas| ==> shas[i] != shas[j]
        decreases |todo|
      {
        var sha :| sha in todo;
        todo := todo - {sha};
        if images[sha].scanStatus == status {
          shas := shas + [sha];
        }
      }
    }

    // ---------- The action loop ----------

    /** One turn of the loop. */
    method Apply(action: Action) returns (err: Option<CoreError>)
      requires Valid() && Inv(View())
      modifies Footprint()
      ensures Valid() && fresh(Footprint() - old(Footprint()))
      ensures Outcome(View(), err) == Step(old(View()), action) && Inv(View())
    {
      hide Valid, View, Inv, CoreState.AddPod, CoreState.AllPods, CoreState.AddImage, CoreState.AllImages,
           CoreState.DeletePod, CoreState.ScanDidFinish, CoreState.StartScanClient, CoreState.FinishRunningScanClient;
      StepKeepsInv(View(), action);
      match action {
        case DoAddPod(pod) => err := AddPod(pod);
        case DoAllPods(newPods) => err := AllPods(newPods);
        case DoAddImage(image) => err := AddImage(image);
        case DoAllImages(newImages) => err := AllImages(newImages);
        case DoDeletePod(name) => err := DeletePod(name);
        case DoScanDidFinish(sha, results) => err := ScanDidFinish(sha, results);
        case DoStartScanClient(sha) => err := StartScanClient(sha);
        case DoFinishScanJob(sha, failed) => err := FinishRunningScanClient(sha, failed);
      }
    }

    /** The loop, until the given actions have been processed; their errors are only logged. */
    method Process(actions: seq<Action>)
      requires Valid() && Inv(View())
      modifies Footprint()
      ensures Valid() && fresh(Footprint() - old(Footprint()))
      ensures View() == Run(old(View()), actions) && Inv(View())
    {
      hide Valid, View, Inv, Step;
      for i := 0 to |actions|
        invariant Valid() && fresh(Footprint() - old(Footprint()))
        invariant View() == Run(old(View()), actions[..i]) && Inv(View())
      {
        var _ := Apply(actions[i]);
        assert actions[..i + 1][..i] == actions[..i];
      }
      assert actions[..|actions|] == actions;
    }
  }
}
