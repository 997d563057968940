/** pkg/core/model/modelextensions.go, the metrics: bucket counts over one snapshot of the core model. */
module CoreMetrics {
  import opened Options
  import opened HubData
  import opened ScanStatuses
  import opened CoreState
  import opened CoreInvariants
  import opened CoreReports
  import opened Counting

  const UNKNOWN_STATUS := "Unknown"

  datatype Metrics = Metrics(
    scanStatusCounts: map<ScanStatus, int>,
    numberOfImages: int,
    numberOfPods: int,
    containerCounts: map<int, int>,
    imageCountHistogram: map<int, int>,
    podStatus: map<string, int>,
    imageStatus: map<string, int>,
    podPolicyViolations: map<int, int>,
    imagePolicyViolations: map<int, int>,
    podVulnerabilities: map<int, int>,
    imageVulnerabilities: map<int, int>)

  // ---------- Which bucket ----------

  function Scanned(scan: Option<Scan>): Scan
  {
    if scan.Some? then scan.value else Scan(UNKNOWN_STATUS, -1, -1)
  }

  function PodStatusBucket(s: State): string -> string { name => Scanned(ScanOfPod(s, name).scan).overallStatus }

  function PodViolationsBucket(s: State): string -> int { name => Scanned(ScanOfPod(s, name).scan).policyViolations }

  function PodVulnerabilitiesBucket(s: State): string -> int
  {
    name => Scanned(ScanOfPod(s, name).scan).vulnerabilities
  }

  function ImageStatusBucket(s: State): string -> string { sha => Scanned(ScanOfImage(s, sha).scan).overallStatus }

  function ImageViolationsBucket(s: State): string -> int { sha => Scanned(ScanOfImage(s, sha).scan).policyViolations }

  function ImageVulnerabilitiesBucket(s: State): string -> int
  {
    sha => Scanned(ScanOfImage(s, sha).scan).vulnerabilities
  }

  function ScanStatusBucket(s: State): string -> ScanStatus
  {
    sha => if sha in s.images then s.images[sha].status else Unknown
  }

  function SizeOf(s: State): string -> int
  {
    name => if name in s.pods then |s.pods[name].containers| else 0
  }

  /** The containers of the named pods, each as pod name and position. */
  function Slots(s: State, names: set<string>): set<(string, int)>
  {
    set name, i | name in names && name in s.pods && 0 <= i < |s.pods[name].containers| :: (name, i)
  }

  /** The first n containers of one pod. */
  function SlotsUpTo(name: string, n: nat): set<(string, int)>
  {
    set i | 0 <= i < n :: (name, i)
  }

  function SlotImage(s: State): ((string, int)) -> Image
  {
    (slot: (string, int)) =>
      if slot.0 in s.pods && 0 <= slot.1 < |s.pods[slot.0].containers| then s.pods[slot.0].containers[slot.1].image
      else Image("", "", "", 0, "", "")
  }

  function CountAtImage(counts: map<Image, int>): Image -> int
  {
    image => if image in counts then counts[image] else 0
  }

  /** Pods whose scan can be looked up, and images that are not missing the results of a completed scan. */
  function SoundPods(s: State): set<string> { set name | name in s.pods && ScanOfPod(s, name).err.None? }

  function SoundImages(s: State): set<string> { set sha | sha in s.images && ScanOfImage(s, sha).err.None? }

  /** How often each image is referenced from a container. */
  ghost function References(s: State): map<Image, int>
  {
    Counts(Slots(s, s.pods.Keys), SlotImage(s))
  }

  /** Every bucket map counts exactly what it is named after. */
  ghost predicate Measures(s: State, m: Metrics)
  {
    && m.numberOfImages == |s.images| && m.numberOfPods == |s.pods|
    && CountsOf(s.images.Keys, ScanStatusBucket(s), m.scanStatusCounts)
    && CountsOf(s.pods.Keys, SizeOf(s), m.containerCounts)
    && CountsOf(References(s).Keys, CountAtImage(References(s)), m.imageCountHistogram)
    && CountsOf(SoundPods(s), PodStatusBucket(s), m.podStatus)
    && CountsOf(SoundPods(s), PodViolationsBucket(s), m.podPolicyViolations)
    && CountsOf(SoundPods(s), PodVulnerabilitiesBucket(s), m.podVulnerabilities)
    && CountsOf(SoundImages(s), ImageStatusBucket(s), m.imageStatus)
    && CountsOf(SoundImages(s), ImageViolationsBucket(s), m.imagePolicyViolations)
    && CountsOf(SoundImages(s), ImageVulnerabilitiesBucket(s), m.imageVulnerabilities)
  }

  // ---------- Computing them ----------

  lemma NothingCounted<K, V>(f: K -> V)
    ensures CountsOf({}, f, map[])
  {
  }

  method CountStatuses(s: State) returns (statusCounts: map<ScanStatus, int>)
    ensures CountsOf(s.images.Keys, ScanStatusBucket(s), statusCounts)
  {
    hide CountsOf, Bump;
    statusCounts := map[];
    var todo := s.images.Keys;
    NothingCounted(ScanStatusBucket(s));
    assert s.images.Keys - todo == {};
    while todo != {}
      invariant todo <= s.images.Keys
      invariant CountsOf(s.images.Keys - todo, ScanStatusBucket(s), statusCounts)
      decreases |todo|
    {
      var sha :| sha in todo;
      BumpCounts(s.images.Keys - todo, ScanStatusBucket(s), statusCounts, sha);
      assert s.images.Keys - (todo - {sha}) == s.images.Keys - todo + {sha};
      todo := todo - {sha};
      statusCounts := Bump(statusCounts, s.images[sha].status);
    }
    assert s.images.Keys - todo == s.images.Keys;
  }

  method CountContainers(s: State) returns (containerCounts: map<int, int>)
    ensures CountsOf(s.pods.Keys, SizeOf(s), containerCounts)
  {
    hide CountsOf, Bump;
    containerCounts := map[];
    var todo := s.pods.Keys;
    NothingCounted(SizeOf(s));
    assert s.pods.Keys - todo == {};
    while todo != {}
      invariant todo <= s.pods.Keys
      invariant CountsOf(s.pods.Keys - todo, SizeOf(s), containerCounts)
      decreases |todo|
    {
      var name :| name in todo;
      BumpCounts(s.pods.Keys - todo, SizeOf(s), containerCounts, name);
      assert s.pods.Keys - (todo - {name}) == s.pods.Keys - todo + {name};
      todo := todo - {name};
      containerCounts := Bump(containerCounts, |s.pods[name].containers|);
    }
    assert s.pods.Keys - todo == s.pods.Keys;
  }

  lemma NoSlotsOf(name: string)
    ensures SlotsUpTo(name, 0) == {}
  {
  }

  lemma OneMoreSlot(s: State, names: set<string>, name: string, i: nat)
    requires name !in names && name in s.pods && i < |s.pods[name].containers|
    ensures (name, i) !in Slots(s, names) + SlotsUpTo(name, i)
    ensures Slots(s, names) + SlotsUpTo(name, i) + {(name, i)} == Slots(s, names) + SlotsUpTo(name, i + 1)
    ensures SlotImage(s)((name, i)) == s.pods[name].containers[i].image
  {
    assert SlotsUpTo(name, i + 1) == SlotsUpTo(name, i) + {(name, i)};
  }

  lemma SlotsOfOneMore(s: State, names: set<string>, name: string)
    requires name in s.pods && name in names
    ensures Slots(s, names) == Slots(s, names - {name}) + SlotsUpTo(name, |s.pods[name].containers|)
    ensures Slots(s, names - {name}) !! SlotsUpTo(name, |s.pods[name].containers|)
  {
  }

  /** The inner loop over the containers of one pod. */
  method CountPodReferences(s: State, name: string, ghost names: set<string>, counts: map<Image, int>)
    returns (imageCounts: map<Image, int>)
    requires name in s.pods && name !in names && CountsOf(Slots(s, names), SlotImage(s), counts)
    ensures CountsOf(Slots(s, names + {name}), SlotImage(s), imageCounts)
  {
    hide CountsOf, Bump, Slots, SlotsUpTo, SlotImage;
    imageCounts := counts;
    var containers := s.pods[name].containers;
    ghost var done := Slots(s, names);
    NoSlotsOf(name);
    assert done + {} == done;
    for i := 0 to |containers|
      invariant CountsOf(done + SlotsUpTo(name, i), SlotImage(s), imageCounts)
    {
      OneMoreSlot(s, names, name, i);
      BumpCounts(done + SlotsUpTo(name, i), SlotImage(s), imageCounts, (name, i));
      imageCounts := Bump(imageCounts, containers[i].image);
    }
    assert names + {name} - {name} == names;
    SlotsOfOneMore(s, names + {name}, name);
  }

  lemma NoSlots(s: State)
    ensures Slots(s, {}) == {}
  {
  }

  method CountReferences(s: State) returns (imageCounts: map<Image, int>)
    ensures CountsOf(Slots(s, s.pods.Keys), SlotImage(s), imageCounts) && imageCounts == References(s)
  {
    hide CountsOf, Bump, Slots, SlotsUpTo, SlotImage;
    imageCounts := map[];
    var todo := s.pods.Keys;
    ghost var names: set<string> := {};
    NothingCounted(SlotImage(s));
    NoSlots(s);
    while todo != {}
      invariant names + todo == s.pods.Keys && names !! todo
      invariant CountsOf(Slots(s, names), SlotImage(s), imageCounts)
      decreases |todo|
    {
      var name :| name in todo;
      todo := todo - {name};
      imageCounts := CountPodReferences(s, name, names, imageCounts);
      names := names + {name};
    }
    assert names == s.pods.Keys;
    CountsAreUnique(Slots(s, s.pods.Keys), SlotImage(s), imageCounts);
  }

  /** How many images are referenced how often. */
  method CountImageCounts(imageCounts: map<Image, int>) returns (histogram: map<int, int>)
    ensures CountsOf(imageCounts.Keys, CountAtImage(imageCounts), histogram)
  {
    hide CountsOf, Bump;
    histogram := map[];
    var images := imageCounts.Keys;
    NothingCounted(CountAtImage(imageCounts));
    assert imageCounts.Keys - images == {};
    while images != {}
      invariant images <= imageCounts.Keys
      invariant CountsOf(imageCounts.Keys - images, CountAtImage(imageCounts), histogram)
      decreases |images|
    {
      var image :| image in images;
      BumpCounts(imageCounts.Keys - images, CountAtImage(imageCounts), histogram, image);
      assert imageCounts.Keys - (images - {image}) == imageCounts.Keys - images + {image};
      images := images - {image};
      histogram := Bump(histogram, imageCounts[image]);
    }
    assert imageCounts.Keys - images == imageCounts.Keys;
  }

  lemma PodBucketsOf(s: State, name: string)
    ensures var scan := Scanned(ScanOfPod(s, name).scan);
            && PodStatusBucket(s)(name) == scan.overallStatus
            && PodViolationsBucket(s)(name) == scan.policyViolations
            && PodVulnerabilitiesBucket(s)(name) == scan.vulnerabilities
  {
    hide ScanOfPod;
  }

  method CountPods(s: State)
    returns (status: map<string, int>, violations: map<int, int>, vulnerabilities: map<int, int>)
    ensures CountsOf(SoundPods(s), PodStatusBucket(s), status)
    ensures CountsOf(SoundPods(s), PodViolationsBucket(s), violations)
    ensures CountsOf(SoundPods(s), PodVulnerabilitiesBucket(s), vulnerabilities)
  {
    hide CountsOf, Bump, ScanOfPod, PodStatusBucket, PodViolationsBucket, PodVulnerabilitiesBucket;
    status, violations, vulnerabilities := map[], map[], map[];
    var todo := s.pods.Keys;
    NothingCounted(PodStatusBucket(s));
    NothingCounted(PodViolationsBucket(s));
    NothingCounted(PodVulnerabilitiesBucket(s));
    assert SoundPods(s) - todo == {};
    while todo != {}
      invariant todo <= s.pods.Keys
      invariant CountsOf(SoundPods(s) - todo, PodStatusBucket(s), status)
      invariant CountsOf(SoundPods(s) - todo, PodViolationsBucket(s), violations)
      invariant CountsOf(SoundPods(s) - todo, PodVulnerabilitiesBucket(s), vulnerabilities)
      decreases |todo|
    {
      var name :| name in todo;
      ghost var done := SoundPods(s) - todo;
      todo := todo - {name};
      var scan, err := ScanResultsForPod(s, name);
      if err.Some? {
        assert SoundPods(s) - todo == done;
        continue;
      }
      BumpCounts(done, PodStatusBucket(s), status, name);
      BumpCounts(done, PodViolationsBucket(s), violations, name);
      BumpCounts(done, PodVulnerabilitiesBucket(s), vulnerabilities, name);
      assert SoundPods(s) - todo == done + {name};
      PodBucketsOf(s, name);
      if scan.Some? {
        status := Bump(status, scan.value.overallStatus);
        violations := Bump(violations, scan.value.policyViolations);
        vulnerabilities := Bump(vulnerabilities, scan.value.vulnerabilities);
      } else {
        status := Bump(status, UNKNOWN_STATUS);
        violations := Bump(violations, -1);
        vulnerabilities := Bump(vulnerabilities, -1);
      }
    }
    assert SoundPods(s) - todo == SoundPods(s);
  }

  lemma ImageBucketsOf(s: State, sha: string)
    requires sha in s.images
    ensures var info := s.images[sha];
            var scan := if info.status == Complete && info.results.Some? then ScanOf(info.results.value)
                        else Scan(UNKNOWN_STATUS, -1, -1);
            && ImageStatusBucket(s)(sha) == scan.overallStatus
            && ImageViolationsBucket(s)(sha) == scan.policyViolations
            && ImageVulnerabilitiesBucket(s)(sha) == scan.vulnerabilities
            && (ScanOfImage(s, sha).err.None? <==> info.status == Complete ==> info.results.Some?)
  {
    hide PolicyViolationCount, VulnerabilityCount;
  }

  method CountImages(s: State)
    returns (status: map<string, int>, violations: map<int, int>, vulnerabilities: map<int, int>)
    ensures CountsOf(SoundImages(s), ImageStatusBucket(s), status)
    ensures CountsOf(SoundImages(s), ImageViolationsBucket(s), violations)
    ensures CountsOf(SoundImages(s), ImageVulnerabilitiesBucket(s), vulnerabilities)
  {
    hide CountsOf, Bump, ScanOfImage, ImageStatusBucket, ImageViolationsBucket, ImageVulnerabilitiesBucket,
         PolicyViolationCount, VulnerabilityCount;
    status, violations, vulnerabilities := map[], map[], map[];
    var todo := s.images.Keys;
    NothingCounted(ImageStatusBucket(s));
    NothingCounted(ImageViolationsBucket(s));
    NothingCounted(ImageVulnerabilitiesBucket(s));
    assert SoundImages(s) - todo == {};
    while todo != {}
      invariant todo <= s.images.Keys
      invariant CountsOf(SoundImages(s) - todo, ImageStatusBucket(s), status)
      invariant CountsOf(SoundImages(s) - todo, ImageViolationsBucket(s), violations)
      invariant CountsOf(SoundImages(s) - todo, ImageVulnerabilitiesBucket(s), vulnerabilities)
      decreases |todo|
    {
      var sha :| sha in todo;
      ghost var done := SoundImages(s) - todo;
      todo := todo - {sha};
      ImageBucketsOf(s, sha);
      var imageInfo := s.images[sha];
      if imageInfo.status == Complete && imageInfo.results.None? {
        assert SoundImages(s) - todo == done;
        continue;
      }
      BumpCounts(done, ImageStatusBucket(s), status, sha);
      BumpCounts(done, ImageViolationsBucket(s), violations, sha);
      BumpCounts(done, ImageVulnerabilitiesBucket(s), vulnerabilities, sha);
      assert SoundImages(s) - todo == done + {sha};
      if imageInfo.status == Complete {
        var results := imageInfo.results.value;
        status := Bump(status, results.overallStatus);
        violations := Bump(violations, PolicyViolationCount(results));
        vulnerabilities := Bump(vulnerabilities, VulnerabilityCount(results));
      } else {
        status := Bump(status, UNKNOWN_STATUS);
        violations := Bump(violations, -1);
        vulnerabilities := Bump(vulnerabilities, -1);
      }
    }
    assert SoundImages(s) - todo == SoundImages(s);
  }

  method ComputeMetrics(s: State) returns (m: Metrics)
    ensures Measures(s, m)
  {
    hide CountsOf, References;
    var scanStatusCounts := CountStatuses(s);
    var containerCounts := CountContainers(s);
    var imageCounts := CountReferences(s);
    var histogram := CountImageCounts(imageCounts);
    var podStatus, podViolations, podVulnerabilities := CountPods(s);
    var imageStatus, imageViolations, imageVulnerabilities := CountImages(s);
    m := Metrics(scanStatusCounts, |s.images|, |s.pods|, containerCounts, histogram, podStatus, imageStatus,
                 podViolations, imageViolations, podVulnerabilities, imageVulnerabilities);
  }

  /** Which buckets a pod counts in: those of its scan, or Unknown and -1 as long as it has none. */
  lemma PodBucketsMean(s: State, name: string)
    ensures var scan := ScanOfPod(s, name).scan;
            && PodStatusBucket(s)(name) == (if scan.Some? then scan.value.overallStatus else "Unknown")
            && PodViolationsBucket(s)(name) == (if scan.Some? then scan.value.policyViolations else -1)
            && PodVulnerabilitiesBucket(s)(name) == (if scan.Some? then scan.value.vulnerabilities else -1)
    ensures name in s.pods ==> SizeOf(s)(name) == |s.pods[name].containers|
  {
    hide ScanOfPod;
  }

  /** And an image, in the same way, besides that of its scan status. */
  lemma ImageBucketsMean(s: State, sha: string)
    ensures var scan := ScanOfImage(s, sha).scan;
            && ImageStatusBucket(s)(sha) == (if scan.Some? then scan.value.overallStatus else "Unknown")
            && ImageViolationsBucket(s)(sha) == (if scan.Some? then scan.value.policyViolations else -1)
            && ImageVulnerabilitiesBucket(s)(sha) == (if scan.Some? then scan.value.vulnerabilities else -1)
    ensures sha in s.images ==> ScanStatusBucket(s)(sha) == s.images[sha].status
  {
    hide ScanOfImage;
  }

  /** A slot is a place for a container in a pod, and refers to that container's image. */
  lemma SlotsMean(s: State, name: string, i: int)
    ensures (name, i) in Slots(s, s.pods.Keys) <==> name in s.pods && 0 <= i < |s.pods[name].containers|
    ensures (name, i) in Slots(s, s.pods.Keys) ==> SlotImage(s)((name, i)) == s.pods[name].containers[i].image
  {
  }

  // ---------- What they conserve ----------

  lemma {:induction false} SlotsUpToSize(name: string, n: nat)
    ensures |SlotsUpTo(name, n)| == n
  {
    if n > 0 {
      SlotsUpToSize(name, n - 1);
      assert SlotsUpTo(name, n) == SlotsUpTo(name, n - 1) + {(name, n - 1)};
    }
  }

  lemma {:induction false} SlotsSize(s: State, names: set<string>)
    requires names <= s.pods.Keys
    ensures |Slots(s, names)| == SumOver(names, SizeOf(s))
    decreases names
  {
    if names == {} {
      assert Slots(s, names) == {};
    } else {
      var name := Pick(names);
      SlotsOfOneMore(s, names, name);
      SlotsSize(s, names - {name});
      SlotsUpToSize(name, |s.pods[name].containers|);
    }
  }

  lemma EverythingIsSound(s: State)
    requires Inv(s)
    ensures SoundPods(s) == s.pods.Keys && SoundImages(s) == s.images.Keys
  {
    forall name | name in s.pods ensures ScanOfPod(s, name).err.None? { PodScannedIffComplete(s, name); }
  }

  lemma ContainersCountedByPod(s: State, m: map<int, int>)
    requires CountsOf(s.pods.Keys, SizeOf(s), m)
    ensures Weighted(m, Identity()) == |Slots(s, s.pods.Keys)|
  {
    hide *;
    CountedNumbersAddUp(s.pods.Keys, SizeOf(s), m);
    SlotsSize(s, s.pods.Keys);
  }

  lemma ReferencesAreCounts(s: State)
    ensures CountsOf(Slots(s, s.pods.Keys), SlotImage(s), References(s))
  {
    hide Slots, SlotImage;
    CountsAreCounts(Slots(s, s.pods.Keys), SlotImage(s));
  }

  lemma CountOfImage(counts: map<Image, int>, image: Image)
    requires image in counts
    ensures CountAtImage(counts)(image) == counts[image]
  {
  }

  lemma ContainersCountedByImage(s: State, histogram: map<int, int>)
    requires CountsOf(References(s).Keys, CountAtImage(References(s)), histogram)
    ensures Weighted(histogram, Identity()) == |Slots(s, s.pods.Keys)|
  {
    hide *;
    var imageCounts := References(s);
    ReferencesAreCounts(s);
    forall v | v in imageCounts ensures CountAtImage(imageCounts)(v) == imageCounts[v] { CountOfImage(imageCounts, v); }
    HistogramRemembers(Slots(s, s.pods.Keys), SlotImage(s), imageCounts, CountAtImage(imageCounts), histogram);
  }

  /** Both histograms of containers have the same total: each container is counted once per pod and once per image. */
  lemma ContainersConserved(s: State, m: Metrics)
    requires Measures(s, m)
    ensures Weighted(m.imageCountHistogram, Identity()) == Weighted(m.containerCounts, Identity())
    ensures Weighted(m.containerCounts, Identity()) == |Slots(s, s.pods.Keys)|
  {
    hide CountsOf, Weighted, Slots, SlotImage, SizeOf, Identity, CountAtImage, References;
    ContainersCountedByPod(s, m.containerCounts);
    ContainersCountedByImage(s, m.imageCountHistogram);
  }

  /** In every reachable state the buckets of each pod map add up to the pods, and of each image map to the images. */
  lemma BucketsConserved(s: State, m: Metrics)
    requires Inv(s) && Measures(s, m)
    ensures Weighted(m.podStatus, (v: string) => 1) == m.numberOfPods
    ensures Weighted(m.podPolicyViolations, (v: int) => 1) == m.numberOfPods
    ensures Weighted(m.podVulnerabilities, (v: int) => 1) == m.numberOfPods
    ensures Weighted(m.scanStatusCounts, (v: ScanStatus) => 1) == m.numberOfImages
    ensures Weighted(m.imageStatus, (v: string) => 1) == m.numberOfImages
    ensures Weighted(m.imagePolicyViolations, (v: int) => 1) == m.numberOfImages
    ensures Weighted(m.imageVulnerabilities, (v: int) => 1) == m.numberOfImages
  {
    hide CountsOf, Weighted;
    EverythingIsSound(s);
    assert |s.pods| == |s.pods.Keys| && |s.images| == |s.images.Keys|;
    CountsAddUp(SoundPods(s), PodStatusBucket(s), m.podStatus);
    CountsAddUp(SoundPods(s), PodViolationsBucket(s), m.podPolicyViolations);
    CountsAddUp(SoundPods(s), PodVulnerabilitiesBucket(s), m.podVulnerabilities);
    CountsAddUp(s.images.Keys, ScanStatusBucket(s), m.scanStatusCounts);
    CountsAddUp(SoundImages(s), ImageStatusBucket(s), m.imageStatus);
    CountsAddUp(SoundImages(s), ImageViolationsBucket(s), m.imagePolicyViolations);
    CountsAddUp(SoundImages(s), ImageVulnerabilitiesBucket(s), m.imageVulnerabilities);
  }
}
