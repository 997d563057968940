/**
 What the actions of the core model come to, status by status. Each statement names the statuses themselves rather
 than the table of legal transitions, and is about one step of the loop from any reachable state.
 */
module CoreOutcomes {
  import opened Options
  import opened Heap
  import opened HubData
  import opened ScanStatuses
  import opened CoreState
  import opened CoreInvariants
  import opened CoreTheorems

  // ---------- One image changes status ----------

  /** Image sha now has this record and is queued if and only if that says so; nothing else has changed but the log. */
  ghost predicate OnlyImageChanges(s: State, s': State, sha: string, info: Info)
  {
    && sha in s.images && s'.pods == s.pods && s'.images == s.images[sha := info]
    && (info.status == s.images[sha].status ==> s'.queue == s.queue)
    && (info.status == InQueue && s.images[sha].status != InQueue
        ==> s'.queue == s.queue[sha := Node(sha, info.priority, sha)])
    && (info.status != InQueue ==> s'.queue == s.queue - {sha})
  }

  lemma NothingChanges(s: State, sha: string)
    requires QueueAgrees(s) && sha in s.images
    ensures OnlyImageChanges(s, s, sha, s.images[sha])
  {
    assert s.images[sha := s.images[sha]] == s.images;
    if s.images[sha].status != InQueue { assert s.queue - {sha} == s.queue; }
  }

  lemma AttemptChangesOnly(s: State, sha: string, to: ScanStatus)
    requires QueueAgrees(s) && sha in s.images
    ensures var o, before := SetImageScanStatus(s, sha, to), s.images[sha].status;
            var legal := IsLegalTransition(before, to);
            && o.err == (if legal then None else Some(IllegalTransition(before, to)))
            && OnlyImageChanges(s, o.state, sha, if legal then s.images[sha].(status := to) else s.images[sha])
  {
    hide SetImageScanStatus;
    TransitionSucceedsIffLegal(s, sha, to);
    NothingChanges(s, sha);
  }

  lemma StoringChangesOnly(s: State, s': State, sha: string, results: Option<ScanResults>, info: Info)
    requires QueueAgrees(s) && sha in s.images
    requires OnlyImageChanges(WithInfo(s, sha, s.images[sha].(results := results)), s', sha, info)
    ensures OnlyImageChanges(s, s', sha, info)
  {
    assert s.images[sha := s.images[sha].(results := results)][sha := info] == s.images[sha := info];
  }

  // ---------- Reports ----------

  /** A report stores a success and moves the image as asked if the table allows it. */
  lemma ReportInClosedForm(s: State, sha: string, results: Option<ScanResults>)
    requires QueueAgrees(s) && sha in s.images
    ensures var o := ScanDidFinish(s, sha, results);
            var before, summary := s.images[sha].status, SummaryIfAny(results);
            var to := TransitionAsked(before, summary);
            var moves := to.Some? && IsLegalTransition(before, to.value);
            var kept := if summary == Some(Success) then s.images[sha].(results := results) else s.images[sha];
            && o.err == (if to.None? then ReportRefusal(before, summary)
                         else if moves then None else Some(IllegalTransition(before, to.value)))
            && OnlyImageChanges(s, o.state, sha, if moves then kept.(status := to.value) else kept)
  {
    hide ScanDidFinish, SetImageScanStatus, TransitionAsked, ReportRefusal, SummaryOf, QueueAgrees, IsLegalTransition;
    hide OnlyImageChanges;
    ScanDidFinishInTwoSteps(s, sha, results);
    var stored := Stored(s, sha, results);
    var info := stored.images[sha];
    AmendKeepsQueue(s, sha, s.images[sha].(results := results));
    NothingChanges(stored, sha);
    var to := TransitionAsked(info.status, SummaryIfAny(results));
    if to.Some? {
      AttemptChangesOnly(stored, sha, to.value);
    }
    if SummaryIfAny(results) == Some(Success) {
      var moves := to.Some? && IsLegalTransition(info.status, to.value);
      StoringChangesOnly(s, ScanDidFinish(s, sha, results).state, sha, results,
                         if moves then info.(status := to.value) else info);
    }
  }

  /** No results at all put an unknown image into the queue, and are an error for any other. */
  lemma MissingReport(s: State, sha: string)
    requires Inv(s) && sha in s.images
    ensures var o, info := Step(s, DoScanDidFinish(sha, None)), s.images[sha];
            if info.status == Unknown
            then o.err.None? && OnlyImageChanges(s, o.state, sha, info.(status := InQueue))
            else o.err == Some(UnexpectedNilResults(info.status)) && OnlyImageChanges(s, o.state, sha, info)
  {
    hide ScanDidFinish, Inv, OnlyImageChanges;
    QueueOfInv(s);
    ReportInClosedForm(s, sha, None);
  }

  /**
   A success is stored. It completes an unknown image and one on the hub, and is an error for a queued or
   running one.
   */
  lemma SuccessReport(s: State, sha: string, results: ScanResults)
    requires Inv(s) && sha in s.images && Success in results.scanSummaries
    ensures var o, before := Step(s, DoScanDidFinish(sha, Some(results))), s.images[sha].status;
            var stored := s.images[sha].(results := Some(results));
            && (before == Unknown || before == RunningHubScan || before == Complete
                ==> o.err.None? && OnlyImageChanges(s, o.state, sha, stored.(status := Complete)))
            && (before == InQueue || before == RunningScanClient
                ==> o.err == Some(IllegalTransition(before, Complete)) && OnlyImageChanges(s, o.state, sha, stored))
  {
    hide ScanDidFinish, Inv, OnlyImageChanges;
    QueueOfInv(s);
    SummaryMeans(results);
    ReportInClosedForm(s, sha, Some(results));
  }

  /** A scan in progress takes an unknown or a queued image to the hub scan, and leaves any other alone. */
  lemma InProgressReport(s: State, sha: string, results: ScanResults)
    requires Inv(s) && sha in s.images && Success !in results.scanSummaries && InProgress in results.scanSummaries
    ensures var o, info := Step(s, DoScanDidFinish(sha, Some(results))), s.images[sha];
            && o.err.None?
            && OnlyImageChanges(s, o.state, sha,
                                if info.status == Unknown || info.status == InQueue
                                then info.(status := RunningHubScan) else info)
  {
    hide ScanDidFinish, Inv, OnlyImageChanges;
    QueueOfInv(s);
    SummaryMeans(results);
    ReportInClosedForm(s, sha, Some(results));
  }

  /**
   A failure puts an unknown image, and one whose hub scan is running, into the queue, and is an error for any
   other.
   */
  lemma FailureReport(s: State, sha: string, results: ScanResults)
    requires Inv(s) && sha in s.images && Success !in results.scanSummaries && InProgress !in results.scanSummaries
    ensures var o, info := Step(s, DoScanDidFinish(sha, Some(results))), s.images[sha];
            if info.status == Unknown || info.status == RunningHubScan
            then o.err.None? && OnlyImageChanges(s, o.state, sha, info.(status := InQueue))
            else o.err == Some(CannotHandleFailedScan(info.status)) && OnlyImageChanges(s, o.state, sha, info)
  {
    hide ScanDidFinish, Inv, OnlyImageChanges;
    QueueOfInv(s);
    SummaryMeans(results);
    ReportInClosedForm(s, sha, Some(results));
  }

  // ---------- Scan clients ----------

  /** A scan client starts for a queued image only; otherwise not even the log changes. */
  lemma ClientStart(s: State, sha: string)
    requires Inv(s)
    ensures var o := Step(s, DoStartScanClient(sha));
            if sha in s.images && s.images[sha].status == InQueue
            then o.err.None? && OnlyImageChanges(s, o.state, sha, s.images[sha].(status := RunningScanClient))
            else o.state == s
                 && o.err == Some(if sha in s.images then NotInQueueState(sha) else ShaNotFound(sha))
  {
    hide SetImageScanStatus, Inv, OnlyImageChanges;
    QueueOfInv(s);
    if sha in s.images {
      AttemptChangesOnly(s, sha, RunningScanClient);
    }
  }

  /** A clean finish takes the image to the hub scan from wherever it was, unless it is there or complete already. */
  lemma ClientFinish(s: State, sha: string)
    requires Inv(s) && sha in s.images
    ensures var o, info := Step(s, DoFinishScanJob(sha, false)), s.images[sha];
            if info.status == Unknown || info.status == InQueue || info.status == RunningScanClient
            then o.err.None? && OnlyImageChanges(s, o.state, sha, info.(status := RunningHubScan))
            else o.err == Some(IllegalTransition(info.status, RunningHubScan))
                 && OnlyImageChanges(s, o.state, sha, info)
  {
    hide SetImageScanStatus, Inv, OnlyImageChanges;
    QueueOfInv(s);
    AttemptChangesOnly(s, sha, RunningHubScan);
  }

  /** A failed finish costs the priority, and re-queues the image with priority -1 unless it is queued or complete. */
  lemma ClientFailure(s: State, sha: string)
    requires Inv(s) && sha in s.images
    ensures var o, info := Step(s, DoFinishScanJob(sha, true)), s.images[sha].(priority := -1);
            && o.state.pods == s.pods
            && (info.status == Unknown || info.status == RunningScanClient || info.status == RunningHubScan
                ==> && o.err.None? && o.state.images == s.images[sha := info.(status := InQueue)]
                    && o.state.queue == s.queue[sha := Node(sha, -1, sha)])
            && (info.status == InQueue || info.status == Complete
                ==> && o.err == Some(IllegalTransition(info.status, InQueue))
                    && o.state.images == s.images[sha := info] && o.state.queue == s.queue)
  {
    hide SetImageScanStatus, Inv, QueueAgrees;
    var info := s.images[sha].(priority := -1);
    QueueOfInv(s);
    AmendKeepsQueue(s, sha, info);
    AttemptChangesOnly(WithInfo(s, sha, info), sha, InQueue);
    assert s.images[sha := info][sha := info.(status := InQueue)] == s.images[sha := info.(status := InQueue)];
    assert s.images[sha := info][sha := info] == s.images[sha := info];
  }

  /** Nothing happens to, or because of, a sha that is not known. */
  lemma UnknownSha(s: State, sha: string, results: Option<ScanResults>, failed: bool)
    requires sha !in s.images
    ensures forall a :: a in [DoScanDidFinish(sha, results), DoStartScanClient(sha), DoFinishScanJob(sha, failed)]
                        ==> Step(s, a) == Outcome(s, Some(ShaNotFound(sha)))
  {
  }

  // ---------- Images and pods ----------

  /** A new image is recorded as given, unknown and without results, and is given back as it came. */
  lemma NewImage(s: State, image: Image)
    requires Inv(s) && image.sha !in s.images
    ensures var s' := Step(s, DoAddImage(image)).state;
            && s'.images.Keys == s.images.Keys + {image.sha} && s'.queue == s.queue && s'.pods == s.pods
            && var info := s'.images[image.sha];
               && info.status == Unknown && info.results == None && info.repoTags != [] && ImageOf(info) == image
  {
  }

  /** Image i bears sha k. */
  predicate Bears(images: seq<Image>, i: int, k: string)
  {
    0 <= i < |images| && images[i].sha == k
  }

  /** The record of k after images were added: a priority aside it is the old one, or a new one without results. */
  ghost predicate RecordKept(s: State, s': State, k: string)
  {
    k in s'.images &&
    var info := s'.images[k];
    if k in s.images then info == s.images[k].(priority := info.priority)
    else info.status == Unknown && info.results.None?
  }

  /**
   The priority of k after images were added is the highest of the old and the given ones, except that negative
   ones stay.
   */
  ghost predicate PriorityRaised(s: State, s': State, images: seq<Image>, k: string)
  {
    k in s'.images &&
    var priority := s'.images[k].priority;
    && (k in s.images ==> priority >= s.images[k].priority)
    && (k in s.images && s.images[k].priority < 0 ==> priority == s.images[k].priority)
    && (forall i :: Bears(images, i, k) ==> priority >= images[i].priority || priority < 0)
    && ((k in s.images && priority == s.images[k].priority)
        || exists i :: Bears(images, i, k) && priority == images[i].priority)
  }

  /** s' is s with one image added. */
  ghost predicate OneAdded(s: State, s': State, image: Image)
  {
    && s'.pods == s.pods && s'.transitions == s.transitions && s'.queue.Keys == s.queue.Keys
    && (forall k :: k in s'.images <==> k in s.images || k == image.sha)
    && (forall k :: k in s.images && k != image.sha ==> s'.images[k] == s.images[k])
    && RecordKept(s, s', image.sha)
    && var priority := s'.images[image.sha].priority;
       if image.sha in s.images
       then priority == (if s.images[image.sha].priority >= 0 && image.priority > s.images[image.sha].priority
                         then image.priority else s.images[image.sha].priority)
       else priority == image.priority
  }

  lemma AddImageTakesHigher(s: State, image: Image)
    requires QueueAgrees(s)
    ensures OneAdded(s, AddImage(s, image).state, image)
  {
    hide AddImage;
    AddImageInClosedForm(s, image);
  }

  /** All that is said about image k after the images were added. */
  ghost predicate HighestTaken(s: State, s': State, images: seq<Image>, k: string)
  {
    && (k in s'.images <==> k in s.images || exists i :: Bears(images, i, k))
    && (k in s'.images ==> RecordKept(s, s', k) && PriorityRaised(s, s', images, k))
  }

  lemma HigherTakenNext(s: State, mid: State, s': State, images: seq<Image>, k: string)
    requires images != [] && HighestTaken(s, mid, images[..|images| - 1], k)
    requires OneAdded(mid, s', images[|images| - 1])
    ensures HighestTaken(s, s', images, k)
  {
    var n := |images| - 1;
    assert forall i :: Bears(images, i, k) <==> Bears(images[..n], i, k) || (i == n && images[n].sha == k);
    if exists i :: Bears(images[..n], i, k) {
      var i :| Bears(images[..n], i, k);
      assert Bears(images, i, k);
    }
    if images[n].sha == k {
      assert Bears(images, n, k);
    }
    if k in mid.images && !(k in s.images && mid.images[k].priority == s.images[k].priority) {
      var i :| Bears(images[..n], i, k) && mid.images[k].priority == images[i].priority;
      assert Bears(images, i, k);
    }
  }

  lemma NothingAdded(s: State)
    ensures forall k :: HighestTaken(s, s, [], k)
  {
  }

  /**
   Adding images makes exactly the given ones known, raises priorities to the highest given, and touches nothing
   else.
   */
  lemma {:induction false} AddImagesTakesHighest(s: State, images: seq<Image>)
    requires Inv(s)
    ensures var s' := AddImages(s, images).0;
            && s'.pods == s.pods && s'.transitions == s.transitions && s'.queue.Keys == s.queue.Keys
            && forall k :: HighestTaken(s, s', images, k)
  {
    if images != [] {
      var n := |images| - 1;
      AddImagesTakesHighest(s, images[..n]);
      AddImagesKeepsInv(s, images[..n]);
      var mid := AddImages(s, images[..n]).0;
      QueueOfInv(mid);
      AddImageTakesHigher(mid, images[n]);
      AddImagesLast(s, images);
      hide Inv, AddImage, AddImages, HighestTaken;
      forall k
        ensures HighestTaken(s, AddImages(s, images).0, images, k)
      {
        HigherTakenNext(s, mid, AddImages(s, images).0, images, k);
      }
    } else {
      NothingAdded(s);
    }
  }

  /** Without a slash in the names of namespaces, as Kubernetes requires, qualified names tell pods apart. */
  lemma {:induction false} QualifiedNamesTellApart(a: Pod, b: Pod)
    requires '/' !in a.namespace && '/' !in b.namespace
    ensures a.QualifiedName() == b.QualifiedName() <==> a.namespace == b.namespace && a.name == b.name
  {
    if a.QualifiedName() == b.QualifiedName() {
      var q, m, n := a.QualifiedName(), |a.namespace|, |b.namespace|;
      assert q[m] == '/' && q[n] == '/';
      if m < n {
        assert false;
      }
      if n < m {
        assert false;
      }
      assert a.namespace == q[..m] && b.namespace == q[..m] && a.name == q[m + 1..] && b.name == q[m + 1..];
    }
  }

  /** Adding a pod files it under its qualified name, and adds the images of its containers. */
  lemma PodAdded(s: State, pod: Pod)
    requires Inv(s)
    ensures var o, added := Step(s, DoAddPod(pod)), AddImages(s, ImagesOf(pod)).0;
            && o.err.None? && o.state.pods == s.pods[pod.namespace + "/" + pod.name := pod]
            && o.state.images == added.images && o.state.queue == added.queue
            && o.state.transitions == added.transitions
  {
    AddImagesKeepsInv(s, ImagesOf(pod));
  }

  lemma ImagesAdded(s: State, images: seq<Image>)
    requires Inv(s)
    ensures Step(s, DoAllImages(images)) == Outcome(AddImages(s, images).0, None)
    ensures |images| == 1 ==> Step(s, DoAddImage(images[0])) == Step(s, DoAllImages(images))
  {
    AddImagesKeepsInv(s, images);
    if |images| == 1 {
      AddImageInClosedForm(s, images[0]);
      assert images[..0] == [];
      AddImagesLast(s, images);
    }
  }

  function Adding(pods: seq<Pod>): (actions: seq<Action>)
    ensures |actions| == |pods| && forall i :: 0 <= i < |pods| ==> actions[i] == DoAddPod(pods[i])
  {
    seq(|pods|, i requires 0 <= i < |pods| => DoAddPod(pods[i]))
  }

  lemma RunOfOneMore(s: State, actions: seq<Action>, a: Action)
    ensures Run(s, actions + [a]) == Step(Run(s, actions), a).state
  {
    assert (actions + [a])[..|actions|] == actions;
  }

  lemma {:induction false} PodsAddedInTurn(s: State, pods: seq<Pod>)
    ensures AddPods(s, pods).0 == Run(s, Adding(pods))
  {
    if pods != [] {
      hide AddPod;
      var n := |pods| - 1;
      PodsAddedInTurn(s, pods[..n]);
      assert Adding(pods) == Adding(pods[..n]) + [DoAddPod(pods[n])];
      RunOfOneMore(s, Adding(pods[..n]), DoAddPod(pods[n]));
    }
  }

  /** Setting all pods is forgetting the old ones and adding the given ones, one after another. */
  lemma PodsSet(s: State, pods: seq<Pod>)
    ensures Step(s, DoAllPods(pods)).state == Run(s.(pods := map[]), Adding(pods))
  {
    PodsAddedInTurn(s.(pods := map[]), pods);
  }

  /** Deleting a pod removes exactly that pod, and is an error for an unknown one. */
  lemma PodDeleted(s: State, name: string)
    ensures var o := Step(s, DoDeletePod(name));
            && o.state.images == s.images && o.state.queue == s.queue && o.state.transitions == s.transitions
            && (forall k :: k in o.state.pods <==> k in s.pods && k != name)
            && (forall k :: k in o.state.pods ==> o.state.pods[k] == s.pods[k])
            && o.err == if name in s.pods then None else Some(PodNotFound(name))
  {
  }

  // ---------- The scan queue ----------

  /** When the operations on the queue fail, which no action makes them do in a reachable state. */
  lemma QueueOperationsFailIff(s: State, sha: string, priority: int)
    requires forall k :: k in s.queue ==> s.queue[k].Node?
    ensures AddToQueue(s, sha).err == if sha !in s.images then Some(ShaNotFound(sha))
                                      else if sha in s.queue then Some(AlreadyQueued(sha)) else None
    ensures AddToQueue(s, sha).err.Some? ==> AddToQueue(s, sha).state == s
    ensures RemoveFromQueue(s, sha).err == if sha in s.queue then None else Some(NotQueued(sha))
    ensures RemoveFromQueue(s, sha).state == s.(queue := s.queue - {sha})
    ensures SetQueuePriority(s, sha, priority).err == if sha in s.queue then None else Some(NotQueued(sha))
    ensures SetQueuePriority(s, sha, priority).err.Some? ==> SetQueuePriority(s, sha, priority).state == s
  {
    if sha !in s.queue { assert s.queue - {sha} == s.queue; }
  }
}
