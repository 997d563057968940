/**
 pkg/core/model/modelextensions.go: the reports made from one snapshot of the core model, which are read-only
 actions of its loop.
 */
module CoreReports {
  import opened Options
  import opened HubData
  import opened ScanStatuses
  import opened CoreState
  import opened CoreInvariants
  import opened Counting
  import opened Listings

  datatype Scan = Scan(overallStatus: string, policyViolations: int, vulnerabilities: int)

  /** No scan and no error means that scanning is not finished. */
  datatype ScanLookup = ScanLookup(scan: Option<Scan>, err: Option<CoreError>)

  datatype ScannedPod = ScannedPod(namespace: string, name: string, scan: Scan)

  datatype ScannedImage = ScannedImage(repository: string, tag: string, sha: string, scan: Scan)

  function ScanOf(results: ScanResults): Scan
  {
    Scan(results.overallStatus, PolicyViolationCount(results), VulnerabilityCount(results))
  }

  function ScanOfImage(s: State, sha: string): ScanLookup
  {
    if sha !in s.images then ScanLookup(None, Some(ShaNotFound(sha)))
    else if s.images[sha].status != Complete then ScanLookup(None, None)
    else if s.images[sha].results.None? then ScanLookup(None, Some(MissingResults(sha)))
    else ScanLookup(Some(ScanOf(s.images[sha].results.value)), None)
  }

  /** The accumulated scan of a list of containers; the first one without a scan decides. */
  function ScanOfContainers(s: State, containers: seq<Container>): ScanLookup
  {
    if containers == [] then ScanLookup(Some(Scan(POLICY_STATUS_NOT_IN_VIOLATION, 0, 0)), None)
    else
      var before := ScanOfContainers(s, containers[..|containers| - 1]);
      var last := ScanOfImage(s, containers[|containers| - 1].image.sha);
      if before.scan.None? then before
      else if last.scan.None? then last
      else
        ScanLookup(Some(Scan(
          if last.scan.value.overallStatus != POLICY_STATUS_NOT_IN_VIOLATION then last.scan.value.overallStatus
          else before.scan.value.overallStatus,
          before.scan.value.policyViolations + last.scan.value.policyViolations,
          before.scan.value.vulnerabilities + last.scan.value.vulnerabilities)), None)
  }

  function ScanOfPod(s: State, name: string): ScanLookup
  {
    if name !in s.pods then ScanLookup(None, Some(PodNotFound(name)))
    else ScanOfContainers(s, s.pods[name].containers)
  }

  method ScanResultsForImage(s: State, sha: string) returns (scan: Option<Scan>, err: Option<CoreError>)
    ensures ScanLookup(scan, err) == ScanOfImage(s, sha)
  {
    if sha !in s.images {
      return None, Some(ShaNotFound(sha));
    }
    var imageInfo := s.images[sha];
    if imageInfo.status != Complete {
      return None, None;
    }
    if imageInfo.results.None? {
      return None, Some(MissingResults(sha));
    }
    scan, err := Some(ScanOf(imageInfo.results.value)), None;
  }

  lemma {:induction false} StoppedStaysStopped(s: State, containers: seq<Container>, i: nat)
    requires i <= |containers| && ScanOfContainers(s, containers[..i]).scan.None?
    ensures ScanOfContainers(s, containers) == ScanOfContainers(s, containers[..i])
  {
    if i < |containers| {
      var front := containers[..|containers| - 1];
      assert front[..i] == containers[..i];
      StoppedStaysStopped(s, front, i);
    } else {
      assert containers[..i] == containers;
    }
  }

  method ScanResultsForPod(s: State, podName: string) returns (scan: Option<Scan>, err: Option<CoreError>)
    ensures ScanLookup(scan, err) == ScanOfPod(s, podName)
  {
    if podName !in s.pods {
      return None, Some(PodNotFound(podName));
    }
    var containers := s.pods[podName].containers;
    var overallStatus, policyViolationCount, vulnerabilityCount := POLICY_STATUS_NOT_IN_VIOLATION, 0, 0;
    for i := 0 to |containers|
      invariant ScanOfContainers(s, containers[..i])
                == ScanLookup(Some(Scan(overallStatus, policyViolationCount, vulnerabilityCount)), None)
    {
      assert containers[..i + 1][..i] == containers[..i];
      var imageScan, e := ScanResultsForImage(s, containers[i].image.sha);
      if e.Some? {
        StoppedStaysStopped(s, containers, i + 1);
        return None, e;
      }
      if imageScan.None? {
        StoppedStaysStopped(s, containers, i + 1);
        return None, None;
      }
      policyViolationCount := policyViolationCount + imageScan.value.policyViolations;
      vulnerabilityCount := vulnerabilityCount + imageScan.value.vulnerabilities;
      if imageScan.value.overallStatus != POLICY_STATUS_NOT_IN_VIOLATION {
        overallStatus := imageScan.value.overallStatus;
      }
    }
    assert containers[..|containers|] == containers;
    scan, err := Some(Scan(overallStatus, policyViolationCount, vulnerabilityCount)), None;
  }

  // ---------- What a lookup means ----------

  /**
   An image has a scan once it is complete, with its own status and counts; only an unknown sha or lost results
   are errors.
   */
  lemma ImageLookup(s: State, sha: string)
    ensures var l := ScanOfImage(s, sha);
            if sha !in s.images then l.scan.None? && l.err == Some(ShaNotFound(sha))
            else if s.images[sha].status != Complete then l.scan.None? && l.err.None?
            else match s.images[sha].results
              case None => l.scan.None? && l.err == Some(MissingResults(sha))
              case Some(results) =>
                && l.err.None? && l.scan.Some? && l.scan.value.overallStatus == results.overallStatus
                && l.scan.value.policyViolations == PolicyViolationCount(results)
                && l.scan.value.vulnerabilities == VulnerabilityCount(results)
  {
    hide PolicyViolationCount, VulnerabilityCount;
  }

  lemma {:induction false} AllScanned(s: State, containers: seq<Container>)
    requires forall c :: c in containers ==> ScanOfImage(s, c.image.sha).scan.Some?
    ensures ScanOfContainers(s, containers).scan.Some?
  {
    if containers != [] {
      AllScanned(s, containers[..|containers| - 1]);
    }
  }

  /** The first container whose image has no scan decides about all of them, whether it is unfinished or an error. */
  lemma {:induction false} FirstUnscannedDecides(s: State, containers: seq<Container>, i: nat)
    requires i < |containers| && ScanOfImage(s, containers[i].image.sha).scan.None?
    requires forall j :: 0 <= j < i ==> ScanOfImage(s, containers[j].image.sha).scan.Some?
    ensures ScanOfContainers(s, containers) == ScanOfImage(s, containers[i].image.sha)
  {
    hide ScanOfImage;
    AllScanned(s, containers[..i]);
    assert containers[..i + 1][..i] == containers[..i];
    StoppedStaysStopped(s, containers, i + 1);
  }

  /** A pod is looked up by its qualified name, and has the scan of its containers. */
  lemma PodLookup(s: State, name: string)
    ensures ScanOfPod(s, name) == if name in s.pods then ScanOfContainers(s, s.pods[name].containers)
                                  else ScanLookup(None, Some(PodNotFound(name)))
    ensures ScanOfContainers(s, []) == ScanLookup(Some(Scan("NOT_IN_VIOLATION", 0, 0)), None)
  {
  }

  // ---------- What a pod's scan means ----------

  predicate IsComplete(s: State, sha: string)
  {
    sha in s.images && s.images[sha].status == Complete && s.images[sha].results.Some?
  }

  function ImageScan(s: State, sha: string): Scan
    requires IsComplete(s, sha)
  {
    ScanOf(s.images[sha].results.value)
  }

  /** Container i is the last one whose image is not free of violations. */
  ghost predicate IsLastViolation(s: State, containers: seq<Container>, i: int)
    requires forall c :: c in containers ==> IsComplete(s, c.image.sha)
  {
    && 0 <= i < |containers|
    && ImageScan(s, containers[i].image.sha).overallStatus != POLICY_STATUS_NOT_IN_VIOLATION
    && forall j :: i < j < |containers| ==>
         ImageScan(s, containers[j].image.sha).overallStatus == POLICY_STATUS_NOT_IN_VIOLATION
  }

  /** The sum of a count over the containers, one summand each. */
  function Total(containers: seq<Container>, count: string -> int): int
  {
    if containers == [] then 0 else count(containers[0].image.sha) + Total(containers[1..], count)
  }

  lemma {:induction false} TotalOfOneMore(containers: seq<Container>, c: Container, count: string -> int)
    ensures Total(containers + [c], count) == Total(containers, count) + count(c.image.sha)
  {
    if containers == [] {
      assert [c][1..] == [];
    } else {
      TotalOfOneMore(containers[1..], c, count);
      assert (containers + [c])[1..] == containers[1..] + [c];
    }
  }

  function ViolationsOf(s: State): string -> int
  {
    (sha: string) => if IsComplete(s, sha) then ImageScan(s, sha).policyViolations else 0
  }

  function VulnerabilitiesOf(s: State): string -> int
  {
    (sha: string) => if IsComplete(s, sha) then ImageScan(s, sha).vulnerabilities else 0
  }

  /**
   In a reachable state looking a container list up never errs, and finds a scan exactly when every image is
   complete.
   */
  lemma {:induction false} ContainersScannedIffComplete(s: State, containers: seq<Container>)
    requires InfosOk(s) && forall c :: c in containers ==> c.image.sha in s.images
    ensures ScanOfContainers(s, containers).err.None?
    ensures ScanOfContainers(s, containers).scan.Some?
            <==> forall c :: c in containers ==> s.images[c.image.sha].status == Complete
  {
    if containers != [] {
      var front, last := containers[..|containers| - 1], containers[|containers| - 1];
      assert containers == front + [last];
      ContainersScannedIffComplete(s, front);
    }
  }

  lemma CountsAt(s: State, sha: string)
    requires IsComplete(s, sha)
    ensures ViolationsOf(s)(sha) == ImageScan(s, sha).policyViolations
    ensures VulnerabilitiesOf(s)(sha) == ImageScan(s, sha).vulnerabilities
  {
  }

  /** A last container in violation is the last violation; one that is not changes nothing. */
  lemma LastViolationOfOneMore(s: State, front: seq<Container>, last: Container)
    requires forall c :: c in front + [last] ==> IsComplete(s, c.image.sha)
    ensures forall c :: c in front ==> IsComplete(s, c.image.sha)
    ensures forall i :: IsLastViolation(s, front + [last], i) ==> 0 <= i <= |front|
    ensures forall i :: IsLastViolation(s, front, i) ==> 0 <= i < |front|
    ensures if ImageScan(s, last.image.sha).overallStatus != POLICY_STATUS_NOT_IN_VIOLATION
            then forall i :: IsLastViolation(s, front + [last], i) <==> i == |front|
            else forall i :: IsLastViolation(s, front + [last], i) <==> IsLastViolation(s, front, i)
  {
    forall c | c in front
      ensures IsComplete(s, c.image.sha)
    {
      assert c in front + [last];
    }
    var containers := front + [last];
    assert containers[|front|] == last && forall j :: 0 <= j < |front| ==> containers[j] == front[j];
    forall i
      ensures IsLastViolation(s, front, i)
              && ImageScan(s, last.image.sha).overallStatus == POLICY_STATUS_NOT_IN_VIOLATION
              ==> IsLastViolation(s, containers, i)
      ensures IsLastViolation(s, containers, i) && i != |front| ==> IsLastViolation(s, front, i)
    {
    }
  }

  /**
   Violations and vulnerabilities are summed with multiplicity; the overall status is that of the last
   violation, if any.
   */
  lemma {:induction false} ContainersScanMeans(s: State, containers: seq<Container>)
    requires forall c :: c in containers ==> IsComplete(s, c.image.sha)
    ensures ScanOfContainers(s, containers).scan.Some?
    ensures var scan := ScanOfContainers(s, containers).scan.value;
            && scan.policyViolations == Total(containers, ViolationsOf(s))
            && scan.vulnerabilities == Total(containers, VulnerabilitiesOf(s))
            && (forall i :: IsLastViolation(s, containers, i)
                            ==> scan.overallStatus == ImageScan(s, containers[i].image.sha).overallStatus)
            && ((forall i :: !IsLastViolation(s, containers, i))
                ==> scan.overallStatus == POLICY_STATUS_NOT_IN_VIOLATION)
  {
    if containers != [] {
      var n := |containers| - 1;
      var front, last := containers[..n], containers[n];
      assert containers == front + [last];
      ContainersScanMeans(s, front);
      TotalOfOneMore(front, last, ViolationsOf(s));
      TotalOfOneMore(front, last, VulnerabilitiesOf(s));
      LastViolationOfOneMore(s, front, last);
      hide Total, IsLastViolation, ScanOf, ViolationsOf, VulnerabilitiesOf;
      CountsAt(s, last.image.sha);
      if ImageScan(s, last.image.sha).overallStatus != POLICY_STATUS_NOT_IN_VIOLATION {
        assert IsLastViolation(s, containers, n);
      } else {
        forall i | IsLastViolation(s, containers, i)
          ensures IsLastViolation(s, front, i) && 0 <= i < n && containers[i] == front[i]
        {
        }
      }
    }
  }

  /**
   In every reachable state the scan of a known pod is found without error, exactly when all its images are
   complete.
   */
  lemma PodScannedIffComplete(s: State, name: string)
    requires Inv(s) && name in s.pods
    ensures ScanOfPod(s, name).err.None?
    ensures ScanOfPod(s, name).scan.Some? <==> forall c :: c in s.pods[name].containers ==> IsComplete(s, c.image.sha)
  {
    ContainersScannedIffComplete(s, s.pods[name].containers);
  }

  // ---------- All results ----------

  function ScannedPods(s: State): set<string>
  {
    set name | name in s.pods && ScanOfPod(s, name).scan.Some?
  }

  function ScannedImages(s: State): set<string>
  {
    set sha | sha in s.images && IsComplete(s, sha)
  }

  function PodReport(s: State, name: string): ScannedPod
    requires name in ScannedPods(s)
  {
    ScannedPod(s.pods[name].namespace, s.pods[name].name, ScanOfPod(s, name).scan.value)
  }

  function ImageReport(s: State, sha: string): ScannedImage
    requires sha in ScannedImages(s) && s.images[sha].repoTags != []
  {
    var image := ImageOf(s.images[sha]);
    ScannedImage(image.repository, image.tag, image.sha, ImageScan(s, sha))
  }

  /** pods holds the report of each key, once, in the order given. */
  ghost predicate PodsReported(s: State, pods: seq<ScannedPod>, order: seq<string>, keys: set<string>)
  {
    && Lists(order, keys) && |pods| == |order|
    && forall i :: 0 <= i < |order| ==> order[i] in ScannedPods(s) && pods[i] == PodReport(s, order[i])
  }

  ghost predicate ImagesReported(s: State, images: seq<ScannedImage>, order: seq<string>, keys: set<string>)
  {
    && Lists(order, keys) && |images| == |order|
    && forall i :: 0 <= i < |order| ==>
         && order[i] in ScannedImages(s) && s.images[order[i]].repoTags != []
         && images[i] == ImageReport(s, order[i])
  }

  /** Field by field, what is reported of a pod and of an image, and which of them are reported. */
  lemma ReportedFields(
    s: State, pods: seq<ScannedPod>, images: seq<ScannedImage>, podOrder: seq<string>, imageOrder: seq<string>)
    requires PodsReported(s, pods, podOrder, ScannedPods(s)) && ImagesReported(s, images, imageOrder, ScannedImages(s))
    ensures forall name :: name in podOrder <==> name in s.pods && ScanOfPod(s, name).scan.Some?
    ensures |pods| == |podOrder| && forall i :: 0 <= i < |pods| ==>
              var name := podOrder[i];
              && name in s.pods && pods[i].name == s.pods[name].name && pods[i].namespace == s.pods[name].namespace
              && Some(pods[i].scan) == ScanOfPod(s, name).scan
    ensures forall sha :: sha in imageOrder
                          <==> sha in s.images && s.images[sha].status == Complete && s.images[sha].results.Some?
    ensures |images| == |imageOrder| && forall i :: 0 <= i < |images| ==>
              var sha := imageOrder[i];
              && sha in s.images && s.images[sha].repoTags != []
              && images[i].repository == s.images[sha].repoTags[0].repository
              && images[i].tag == s.images[sha].repoTags[0].tag && images[i].sha == s.images[sha].sha
              && Some(images[i].scan) == ScanOfImage(s, sha).scan
  {
    hide ScanOfPod, ScanOf;
  }

  lemma NothingReported(s: State)
    ensures PodsReported(s, [], [], ScannedPods(s) - s.pods.Keys)
    ensures ImagesReported(s, [], [], ScannedImages(s) - s.images.Keys)
  {
  }

  lemma ReportOneMorePod(s: State, pods: seq<ScannedPod>, order: seq<string>, todo: set<string>, name: string)
    requires PodsReported(s, pods, order, ScannedPods(s) - todo) && name in todo && name in s.pods
    ensures name in ScannedPods(s) <==> ScanOfPod(s, name).scan.Some?
    ensures name in ScannedPods(s)
            ==> PodsReported(s, pods + [PodReport(s, name)], order + [name], ScannedPods(s) - (todo - {name}))
    ensures name !in ScannedPods(s) ==> PodsReported(s, pods, order, ScannedPods(s) - (todo - {name}))
  {
    hide ScanOfPod, PodReport;
    assert name !in order;
  }

  lemma ReportOneMoreImage(s: State, images: seq<ScannedImage>, order: seq<string>, todo: set<string>, sha: string)
    requires ImagesReported(s, images, order, ScannedImages(s) - todo) && sha in todo && sha in s.images
    requires s.images[sha].repoTags != []
    ensures sha in ScannedImages(s) <==> s.images[sha].status == Complete && s.images[sha].results.Some?
    ensures sha in ScannedImages(s)
            ==> ImagesReported(s, images + [ImageReport(s, sha)], order + [sha], ScannedImages(s) - (todo - {sha}))
    ensures sha !in ScannedImages(s) ==> ImagesReported(s, images, order, ScannedImages(s) - (todo - {sha}))
  {
    hide ImageReport;
    assert sha !in order;
  }

  lemma {:induction false} ContainersErrorsHaveNoScan(s: State, containers: seq<Container>)
    ensures ScanOfContainers(s, containers).err.Some? ==> ScanOfContainers(s, containers).scan.None?
  {
    if containers != [] {
      ContainersErrorsHaveNoScan(s, containers[..|containers| - 1]);
    }
  }

  lemma PodErrorsHaveNoScan(s: State, name: string)
    ensures ScanOfPod(s, name).err.Some? ==> ScanOfPod(s, name).scan.None?
  {
    if name in s.pods {
      ContainersErrorsHaveNoScan(s, s.pods[name].containers);
    }
  }

  /** The first loop. */
  method ScanResultsOfPods(s: State) returns (pods: seq<ScannedPod>, errors: seq<CoreError>, ghost order: seq<string>)
    ensures PodsReported(s, pods, order, ScannedPods(s))
    ensures errors == [] <==> forall name :: name in s.pods ==> ScanOfPod(s, name).err.None?
  {
    hide PodsReported, ScanOfPod, ScannedPods;
    NothingReported(s);
    errors, pods, order := [], [], [];
    var todo := s.pods.Keys;
    while todo != {}
      invariant todo <= s.pods.Keys
      invariant PodsReported(s, pods, order, ScannedPods(s) - todo)
      invariant errors == [] <==> forall name :: name in s.pods && name !in todo ==> ScanOfPod(s, name).err.None?
      decreases |todo|
    {
      var podName :| podName in todo;
      ReportOneMorePod(s, pods, order, todo, podName);
      PodErrorsHaveNoScan(s, podName);
      todo := todo - {podName};
      var podScan, e := ScanResultsForPod(s, podName);
      if e.Some? {
        errors := errors + [e.value];
      } else if podScan.Some? {
        pods := pods + [ScannedPod(s.pods[podName].namespace, s.pods[podName].name, podScan.value)];
        order := order + [podName];
      }
    }
    assert ScannedPods(s) - todo == ScannedPods(s);
  }

  /** The second loop. An image without a repo tag would panic. */
  method ScanResultsOfImages(s: State)
    returns (images: seq<ScannedImage>, errors: seq<CoreError>, ghost order: seq<string>)
    requires forall k :: k in s.images ==> s.images[k].repoTags != []
    ensures ImagesReported(s, images, order, ScannedImages(s))
    ensures errors == [] <==> forall k :: k in s.images && s.images[k].status == Complete ==> s.images[k].results.Some?
  {
    hide ImagesReported, ScannedImages;
    NothingReported(s);
    errors, images, order := [], [], [];
    var todo := s.images.Keys;
    while todo != {}
      invariant todo <= s.images.Keys
      invariant ImagesReported(s, images, order, ScannedImages(s) - todo)
      invariant errors == [] <==> forall k :: k in s.images && k !in todo && s.images[k].status == Complete
                                              ==> s.images[k].results.Some?
      decreases |todo|
    {
      var sha :| sha in todo;
      ReportOneMoreImage(s, images, order, todo, sha);
      todo := todo - {sha};
      var imageInfo := s.images[sha];
      if imageInfo.status == Complete {
        if imageInfo.results.None? {
          errors := errors + [MissingResults(sha)];
        } else {
          var image := ImageOf(imageInfo);
          images := images + [ScannedImage(image.repository, image.tag, image.sha, ScanOf(imageInfo.results.value))];
          order := order + [sha];
        }
      }
    }
    assert ScannedImages(s) - todo == ScannedImages(s);
  }

  lemma ReachableHasNoErrors(s: State)
    requires Inv(s)
    ensures forall name :: name in s.pods ==> ScanOfPod(s, name).err.None?
    ensures forall k :: k in s.images && s.images[k].status == Complete ==> s.images[k].results.Some?
  {
    forall name | name in s.pods ensures ScanOfPod(s, name).err.None? { PodScannedIffComplete(s, name); }
  }

  /**
   Reports every pod that has a scan and every complete image that has results, each exactly once, in the order
   in which the maps happened to be walked.
   */
  method ScanResults(s: State)
    returns (pods: seq<ScannedPod>, images: seq<ScannedImage>, err: Option<CoreError>,
             ghost podOrder: seq<string>, ghost imageOrder: seq<string>)
    requires forall k :: k in s.images ==> s.images[k].repoTags != []
    ensures PodsReported(s, pods, podOrder, ScannedPods(s))
    ensures ImagesReported(s, images, imageOrder, ScannedImages(s))
    ensures err.None? <==> && (forall name :: name in s.pods ==> ScanOfPod(s, name).err.None?)
                           && (forall k :: k in s.images && s.images[k].status == Complete
                                           ==> s.images[k].results.Some?)
    ensures Inv(s) ==> err.None?
  {
    hide PodsReported, ImagesReported, ScanOfPod, ScannedPods, ScannedImages, Inv;
    var podErrors, imageErrors;
    pods, podErrors, podOrder := ScanResultsOfPods(s);
    images, imageErrors, imageOrder := ScanResultsOfImages(s);
    err := CombineErrors(podErrors + imageErrors);
    if Inv(s) {
      ReachableHasNoErrors(s);
    }
  }
}
