/**
 pkg/core/model/model.go as functions on the whole state of the core model: what each action of the action
 loop does to it. CoreModel.dfy proves the imperative model against these functions, and CoreInvariants.dfy
 proves what every run of them keeps.
 */
module CoreState {
  import opened Options
  import opened Heap
  import opened HubData
  import opened ScanStatuses

  datatype Image = Image(
    repository: string, tag: string, sha: string, priority: int, projectName: string, projectVersion: string)

  datatype Container = Container(image: Image, name: string)

  datatype Pod = Pod(name: string, uid: string, namespace: string, containers: seq<Container>) {
    function QualifiedName(): string { namespace + "/" + name }
  }

  datatype RepoTag = RepoTag(repository: string, tag: string)

  datatype Info = Info(
    status: ScanStatus,
    results: Option<ScanResults>,
    sha: string,
    repoTags: seq<RepoTag>,
    priority: int,
    projectName: string,
    projectVersion: string)

  datatype CoreError =
    | ShaNotFound(sha: string)
    | IllegalTransition(from: ScanStatus, to: ScanStatus)
    | AlreadyQueued(sha: string)
    | NotQueued(sha: string)
    | NotInQueueState(sha: string)
    | UnexpectedNilResults(status: ScanStatus)
    | CannotHandleFailedScan(status: ScanStatus)
    | PodNotFound(name: string)
    | MissingResults(sha: string)
    | Combined(errors: seq<CoreError>)

  /** An entry of the transition log; `from` is absent when the sha was not found. */
  datatype Transition = Transition(sha: string, from: Option<ScanStatus>, to: ScanStatus, err: Option<CoreError>)

  /** The scan queue, seen as the finite map its heap stands for. */
  type Queue = map<string, Slot<string>>

  datatype State = State(
    pods: map<string, Pod>, images: map<string, Info>, queue: Queue, transitions: seq<Transition>)

  datatype Outcome = Outcome(state: State, err: Option<CoreError>)

  const EMPTY_STATE := State(map[], map[], map[], [])

  const FAILED_SCAN_PRIORITY := -1

  function CombineErrors(errors: seq<CoreError>): Option<CoreError>
  {
    if errors == [] then None else Some(Combined(errors))
  }

  // ---------- Images ----------

  function NewInfo(image: Image): Info
  {
    Info(Unknown, None, image.sha, [RepoTag(image.repository, image.tag)], image.priority, image.projectName,
         image.projectVersion)
  }

  /** The image that an info stands for; its first repo tag must exist. */
  function ImageOf(info: Info): Image
    requires info.repoTags != []
  {
    Image(info.repoTags[0].repository, info.repoTags[0].tag, info.sha, info.priority, info.projectName,
          info.projectVersion)
  }

  function WithInfo(s: State, sha: string, info: Info): State
  {
    s.(images := s.images[sha := info])
  }

  // ---------- The scan queue ----------

  function AddToQueue(s: State, sha: string): Outcome
  {
    if sha !in s.images then Outcome(s, Some(ShaNotFound(sha)))
    else if sha in s.queue then Outcome(s, Some(AlreadyQueued(sha)))
    else Outcome(s.(queue := s.queue[sha := Node(sha, s.images[sha].priority, sha)]), None)
  }

  function RemoveFromQueue(s: State, sha: string): Outcome
  {
    if sha !in s.queue then Outcome(s, Some(NotQueued(sha)))
    else Outcome(s.(queue := s.queue - {sha}), None)
  }

  function SetQueuePriority(s: State, sha: string, priority: int): Outcome
  {
    if sha !in s.queue || s.queue[sha].Nil? then Outcome(s, Some(NotQueued(sha)))
    else Outcome(s.(queue := s.queue[sha := Node(sha, priority, s.queue[sha].value)]), None)
  }

  // ---------- Transitions ----------

  function LeaveState(s: State, sha: string, status: ScanStatus): Outcome
  {
    if status == InQueue then RemoveFromQueue(s, sha) else Outcome(s, None)
  }

  function EnterState(s: State, sha: string, status: ScanStatus): Outcome
  {
    if status == InQueue then AddToQueue(s, sha) else Outcome(s, None)
  }

  function SetImageScanStatusForSha(s: State, sha: string, to: ScanStatus): Outcome
  {
    if sha !in s.images then Outcome(s, Some(ShaNotFound(sha)))
    else
      var from := s.images[sha].status;
      if !IsLegalTransition(from, to) then Outcome(s, Some(IllegalTransition(from, to)))
      else
        var left := LeaveState(s, sha, from);
        if left.err.Some? then left
        else
          var entered := EnterState(left.state, sha, to);
          if entered.err.Some? then entered
          else Outcome(WithInfo(entered.state, sha, s.images[sha].(status := to)), None)
  }

  /** Attempts a transition and logs the attempt, successful or not. */
  function SetImageScanStatus(s: State, sha: string, to: ScanStatus): Outcome
  {
    var from := if sha in s.images then Some(s.images[sha].status) else None;
    var o := SetImageScanStatusForSha(s, sha, to);
    Outcome(o.state.(transitions := o.state.transitions + [Transition(sha, from, to, o.err)]), o.err)
  }

  // ---------- Actions ----------

  function AddImage(s: State, image: Image): Outcome
  {
    if image.sha !in s.images then Outcome(WithInfo(s, image.sha, NewInfo(image)), None)
    else
      var info := s.images[image.sha];
      if image.priority <= info.priority || info.priority < 0 then Outcome(s, None)
      else
        var raised := WithInfo(s, image.sha, info.(priority := image.priority));
        if info.status != InQueue then Outcome(raised, None)
        else SetQueuePriority(raised, image.sha, image.priority)
  }

  /** Adds images one after another, collecting the errors. */
  function AddImages(s: State, images: seq<Image>): (State, seq<CoreError>)
  {
    if images == [] then (s, [])
    else
      var (before, errors) := AddImages(s, images[..|images| - 1]);
      var o := AddImage(before, images[|images| - 1]);
      (o.state, if o.err.Some? then errors + [o.err.value] else errors)
  }

  function ImagesOf(pod: Pod): (images: seq<Image>)
    ensures |images| == |pod.containers|
    ensures forall i :: 0 <= i < |images| ==> images[i] == pod.containers[i].image
  {
    seq(|pod.containers|, i requires 0 <= i < |pod.containers| => pod.containers[i].image)
  }

  function AddPod(s: State, pod: Pod): Outcome
  {
    var (added, errors) := AddImages(s, ImagesOf(pod));
    Outcome(added.(pods := added.pods[pod.QualifiedName() := pod]), CombineErrors(errors))
  }

  function AddPods(s: State, pods: seq<Pod>): (State, seq<CoreError>)
  {
    if pods == [] then (s, [])
    else
      var (before, errors) := AddPods(s, pods[..|pods| - 1]);
      var o := AddPod(before, pods[|pods| - 1]);
      (o.state, if o.err.Some? then errors + [o.err.value] else errors)
  }

  function AllPods(s: State, pods: seq<Pod>): Outcome
  {
    var (added, errors) := AddPods(s.(pods := map[]), pods);
    Outcome(added, CombineErrors(errors))
  }

  function AllImages(s: State, images: seq<Image>): Outcome
  {
    var (added, errors) := AddImages(s, images);
    Outcome(added, CombineErrors(errors))
  }

  function DeletePod(s: State, name: string): Outcome
  {
    if name !in s.pods then Outcome(s, Some(PodNotFound(name)))
    else Outcome(s.(pods := s.pods - {name}), None)
  }

  function ScanDidFinish(s: State, sha: string, results: Option<ScanResults>): Outcome
  {
    if sha !in s.images then Outcome(s, Some(ShaNotFound(sha)))
    else
      var info := s.images[sha];
      if results.None? then
        if info.status == Unknown then SetImageScanStatus(s, sha, InQueue)
        else Outcome(s, Some(UnexpectedNilResults(info.status)))
      else
        match SummaryOf(results.value)
        case Success =>
          var stored := WithInfo(s, sha, info.(results := results));
          if info.status == Complete then Outcome(stored, None)
          else SetImageScanStatus(stored, sha, Complete)
        case InProgress =>
          if info.status == Unknown || info.status == InQueue then SetImageScanStatus(s, sha, RunningHubScan)
          else Outcome(s, None)
        case Failure =>
          if info.status == Unknown || info.status == RunningHubScan then SetImageScanStatus(s, sha, InQueue)
          else Outcome(s, Some(CannotHandleFailedScan(info.status)))
  }

  function SummaryIfAny(results: Option<ScanResults>): Option<SummaryStatus>
  {
    if results.Some? then Some(SummaryOf(results.value)) else None
  }

  /** Which transition a report about an image asks for, if any. */
  function TransitionAsked(status: ScanStatus, summary: Option<SummaryStatus>): Option<ScanStatus>
  {
    if summary.None? then (if status == Unknown then Some(InQueue) else None)
    else match summary.value
      case Success => if status == Complete then None else Some(Complete)
      case InProgress => if status == Unknown || status == InQueue then Some(RunningHubScan) else None
      case Failure => if status == Unknown || status == RunningHubScan then Some(InQueue) else None
  }

  /** What a report that asks for no transition is answered. */
  function ReportRefusal(status: ScanStatus, summary: Option<SummaryStatus>): Option<CoreError>
  {
    if summary.None? then Some(UnexpectedNilResults(status))
    else if summary.value == Failure then Some(CannotHandleFailedScan(status))
    else None
  }

  /** The state in which a report asks for its transition: a success is stored before. */
  function Stored(s: State, sha: string, results: Option<ScanResults>): State
    requires sha in s.images
  {
    if SummaryIfAny(results) == Some(Success) then WithInfo(s, sha, s.images[sha].(results := results)) else s
  }

  /** A report first stores a success and then attempts the transition it asks for, or answers that there is none. */
  lemma ScanDidFinishInTwoSteps(s: State, sha: string, results: Option<ScanResults>)
    requires sha in s.images
    ensures var status, summary := s.images[sha].status, SummaryIfAny(results);
            ScanDidFinish(s, sha, results) ==
              if TransitionAsked(status, summary).Some?
              then SetImageScanStatus(Stored(s, sha, results), sha, TransitionAsked(status, summary).value)
              else Outcome(Stored(s, sha, results), ReportRefusal(status, summary))
  {
    hide SetImageScanStatus, SummaryOf;
  }

  function StartScanClient(s: State, sha: string): Outcome
  {
    if sha !in s.images then Outcome(s, Some(ShaNotFound(sha)))
    else if s.images[sha].status != InQueue then Outcome(s, Some(NotInQueueState(sha)))
    else SetImageScanStatus(s, sha, RunningScanClient)
  }

  /** A failed scan client lowers the priority before the legality of the transition is looked at. */
  function FinishRunningScanClient(s: State, sha: string, failed: bool): Outcome
  {
    if sha !in s.images then Outcome(s, Some(ShaNotFound(sha)))
    else if failed then
      SetImageScanStatus(WithInfo(s, sha, s.images[sha].(priority := FAILED_SCAN_PRIORITY)), sha, InQueue)
    else SetImageScanStatus(s, sha, RunningHubScan)
  }

  /** The state-changing actions of the loop; updating a pod is adding it again. */
  datatype Action =
    | DoAddPod(pod: Pod)
    | DoAllPods(pods: seq<Pod>)
    | DoAddImage(image: Image)
    | DoAllImages(images: seq<Image>)
    | DoDeletePod(name: string)
    | DoScanDidFinish(sha: string, results: Option<ScanResults>)
    | DoStartScanClient(sha: string)
    | DoFinishScanJob(sha: string, failed: bool)

  function Step(s: State, a: Action): Outcome
  {
    match a
    case DoAddPod(pod) => AddPod(s, pod)
    case DoAllPods(pods) => AllPods(s, pods)
    case DoAddImage(image) => AddImage(s, image)
    case DoAllImages(images) => AllImages(s, images)
    case DoDeletePod(name) => DeletePod(s, name)
    case DoScanDidFinish(sha, results) => ScanDidFinish(s, sha, results)
    case DoStartScanClient(sha) => StartScanClient(s, sha)
    case DoFinishScanJob(sha, failed) => FinishRunningScanClient(s, sha, failed)
  }

  /** The state after a run of actions. */
  function Run(s: State, actions: seq<Action>): State
  {
    if actions == [] then s
    else Step(Run(s, actions[..|actions| - 1]), actions[|actions| - 1]).state
  }

  /** What peeking at the scan queue may answer: some image that nothing queued outranks. */
  ghost predicate IsNextImage(s: State, next: Option<Image>)
  {
    match next
    case None => s.queue == map[]
    case Some(image) =>
      && IsTop(s.queue, image.sha) && image.sha in s.images
      && s.images[image.sha].repoTags != [] && image == ImageOf(s.images[image.sha])
  }
}
