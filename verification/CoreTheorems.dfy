/** Consequences of the core invariant, over whole runs. */
module CoreTheorems {
  import opened Options
  import opened Heap
  import opened HubData
  import opened ScanStatuses
  import opened CoreState
  import opened CoreInvariants

  // ---------- How a state may develop ----------

  /** What an image was created with and keeps. */
  predicate SameIdentity(a: Info, b: Info)
  {
    a.sha == b.sha && a.repoTags == b.repoTags && a.projectName == b.projectName && a.projectVersion == b.projectVersion
  }

  /** One image's record develops: it is not forgotten, keeps its identity, and a negative priority stays negative. */
  ghost predicate InfoEvolves(s: State, s': State, k: string)
  {
    k in s.images ==>
      && k in s'.images && SameIdentity(s.images[k], s'.images[k])
      && (s.images[k].priority < 0 ==> s'.images[k].priority < 0)
  }

  /** The log only grows, and every record develops. */
  ghost predicate Evolves(s: State, s': State)
  {
    && |s.transitions| <= |s'.transitions| && s'.transitions[..|s.transitions|] == s.transitions
    && (forall k :: k in s.images ==> InfoEvolves(s, s', k))
  }

  /** No priority is lowered. */
  ghost predicate NoneLowered(s: State, s': State)
  {
    forall k :: k in s.images && k in s'.images ==> s.images[k].priority <= s'.images[k].priority
  }

  lemma EvolvesTransitively(s: State, s': State, s'': State)
    requires Evolves(s, s') && Evolves(s', s'')
    ensures Evolves(s, s'')
    ensures NoneLowered(s, s') && NoneLowered(s', s'') ==> NoneLowered(s, s'')
  {
    assert s.transitions == s''.transitions[..|s'.transitions|][..|s.transitions|];
    forall k | k in s.images
      ensures k in s'.images && InfoEvolves(s, s'', k)
    {
      assert InfoEvolves(s, s', k) && InfoEvolves(s', s'', k);
    }
  }

  lemma AttemptEvolves(s: State, sha: string, to: ScanStatus)
    requires QueueAgrees(s)
    ensures Evolves(s, SetImageScanStatus(s, sha, to).state) && NoneLowered(s, SetImageScanStatus(s, sha, to).state)
  {
    hide SetImageScanStatus;
    TransitionSucceedsIffLegal(s, sha, to);
  }

  /** Amending an info in place: what it does to agreement and development. */
  lemma AmendEvolves(s: State, sha: string, info: Info)
    requires QueueAgrees(s) && sha in s.images
    requires info.status == s.images[sha].status && SameIdentity(s.images[sha], info)
    ensures Evolves(s, s) && NoneLowered(s, s)
    ensures var s' := WithInfo(s, sha, info);
            && QueueAgrees(s')
            && (info.priority == s.images[sha].priority ==> Evolves(s, s') && NoneLowered(s, s'))
            && (info.priority < 0 ==> Evolves(s, s'))
            && (ExactPriorities(s) ==>
                  (ExactPriorities(s') <==> info.status != InQueue || info.priority == s.images[sha].priority))
  {
    if info.status == InQueue {
      assert sha in s.queue;
    }
  }

  lemma AddImageEvolves(s: State, image: Image)
    requires QueueAgrees(s)
    ensures Evolves(s, AddImage(s, image).state) && NoneLowered(s, AddImage(s, image).state)
  {
    hide AddImage;
    AddImageInClosedForm(s, image);
  }

  lemma {:induction false} AddImagesEvolves(s: State, images: seq<Image>)
    requires Inv(s)
    ensures Evolves(s, AddImages(s, images).0) && NoneLowered(s, AddImages(s, images).0)
  {
    if images == [] {
    } else {
      var front, last := images[..|images| - 1], images[|images| - 1];
      hide Evolves, NoneLowered, AddImage, QueueAgrees, PrioritiesAgree, InfosOk, PodsOk, LogAgrees;
      AddImagesEvolves(s, front);
      AddImagesKeepsInv(s, front);
      var mid := AddImages(s, front).0;
      AddImageEvolves(mid, last);
      EvolvesTransitively(s, mid, AddImage(mid, last).state);
    }
  }

  lemma AddPodEvolves(s: State, pod: Pod)
    requires Inv(s)
    ensures Evolves(s, AddPod(s, pod).state) && NoneLowered(s, AddPod(s, pod).state)
  {
    AddImagesEvolves(s, ImagesOf(pod));
  }

  lemma {:induction false} AddPodsEvolves(s: State, pods: seq<Pod>)
    requires Inv(s)
    ensures Evolves(s, AddPods(s, pods).0) && NoneLowered(s, AddPods(s, pods).0)
  {
    if pods != [] {
      var front := pods[..|pods| - 1];
      AddPodsEvolves(s, front);
      AddPodsKeepsInv(s, front);
      AddPodEvolves(AddPods(s, front).0, pods[|pods| - 1]);
      EvolvesTransitively(s, AddPods(s, front).0, AddPods(s, pods).0);
    }
  }

  lemma AttemptKeepsExact(s: State, sha: string, to: ScanStatus)
    requires QueueAgrees(s)
    ensures ExactPriorities(s) ==> ExactPriorities(SetImageScanStatus(s, sha, to).state)
    ensures !(sha in s.images && IsLegalTransition(s.images[sha].status, to))
            ==> (ExactPriorities(s) <==> ExactPriorities(SetImageScanStatus(s, sha, to).state))
  {
    hide SetImageScanStatus;
    TransitionSucceedsIffLegal(s, sha, to);
  }

  lemma ScanDidFinishEvolves(s: State, sha: string, results: Option<ScanResults>)
    requires QueueAgrees(s)
    ensures Evolves(s, ScanDidFinish(s, sha, results).state) && NoneLowered(s, ScanDidFinish(s, sha, results).state)
    ensures ExactPriorities(s) ==> ExactPriorities(ScanDidFinish(s, sha, results).state)
  {
    if sha in s.images {
      hide ScanDidFinish, SetImageScanStatus, ExactPriorities, Evolves, NoneLowered, QueueAgrees;
      hide TransitionAsked, SummaryOf;
      AmendEvolves(s, sha, s.images[sha].(results := results));
      ScanDidFinishInTwoSteps(s, sha, results);
      var stored := Stored(s, sha, results);
      var target := TransitionAsked(s.images[sha].status, SummaryIfAny(results));
      if target.Some? {
        AttemptEvolves(stored, sha, target.value);
        EvolvesTransitively(s, stored, SetImageScanStatus(stored, sha, target.value).state);
        AttemptKeepsExact(stored, sha, target.value);
      }
    } else {
      assert Evolves(s, s) && NoneLowered(s, s);
    }
  }

  lemma FinishRunningScanClientEvolves(s: State, sha: string, failed: bool)
    requires Inv(s)
    ensures Evolves(s, FinishRunningScanClient(s, sha, failed).state)
    ensures !failed ==> NoneLowered(s, FinishRunningScanClient(s, sha, failed).state)
  {
    assert Evolves(s, s) && NoneLowered(s, s);
    if sha in s.images {
      hide SetImageScanStatus, Evolves, NoneLowered, QueueAgrees, PrioritiesAgree, InfosOk, PodsOk, LogAgrees;
      AmendEvolves(s, sha, s.images[sha].(priority := FAILED_SCAN_PRIORITY));
      var lowered := WithInfo(s, sha, s.images[sha].(priority := FAILED_SCAN_PRIORITY));
      AttemptEvolves(lowered, sha, InQueue);
      AttemptEvolves(s, sha, RunningHubScan);
      EvolvesTransitively(s, lowered, SetImageScanStatus(lowered, sha, InQueue).state);
    }
  }

  lemma PodsOkWithout(s: State)
    ensures PodsOk(s.(pods := map[]))
  {
  }

  lemma ForgettingPodsEvolves(s: State, pods: map<string, Pod>)
    ensures Evolves(s, s.(pods := pods)) && NoneLowered(s, s.(pods := pods))
    ensures s.(pods := s.pods) == s
  {
  }

  /** One action of the loop; only a failed scan client lowers a priority. */
  lemma StepEvolves(s: State, a: Action)
    requires Inv(s)
    ensures Evolves(s, Step(s, a).state)
    ensures !(a.DoFinishScanJob? && a.failed) ==> NoneLowered(s, Step(s, a).state)
  {
    hide Evolves, NoneLowered, QueueAgrees, PrioritiesAgree, InfosOk, PodsOk, LogAgrees, AddImage, AddImages, AddPods,
         ScanDidFinish, SetImageScanStatus, FinishRunningScanClient;
    match a
    case DoAddPod(pod) => AddPodEvolves(s, pod);
    case DoAllPods(pods) =>
      PodsOkWithout(s);
      InvIgnoresPods(s, map[]);
      AddPodsEvolves(s.(pods := map[]), pods);
      ForgettingPodsEvolves(s, map[]);
      EvolvesTransitively(s, s.(pods := map[]), AddPods(s.(pods := map[]), pods).0);
    case DoAddImage(image) => AddImageEvolves(s, image);
    case DoAllImages(images) => AddImagesEvolves(s, images);
    case DoDeletePod(name) =>
      ForgettingPodsEvolves(s, s.pods);
      ForgettingPodsEvolves(s, s.pods - {name});
    case DoScanDidFinish(sha, results) => ScanDidFinishEvolves(s, sha, results);
    case DoStartScanClient(sha) =>
      ForgettingPodsEvolves(s, s.pods);
      AttemptEvolves(s, sha, RunningScanClient);
    case DoFinishScanJob(sha, failed) => FinishRunningScanClientEvolves(s, sha, failed);
  }

  /** Over any run the same; a run without a failed scan client lowers no priority. */
  lemma {:induction false} RunEvolves(s: State, actions: seq<Action>)
    requires Inv(s)
    ensures Inv(Run(s, actions)) && Evolves(s, Run(s, actions))
    ensures (forall a :: a in actions ==> !(a.DoFinishScanJob? && a.failed)) ==> NoneLowered(s, Run(s, actions))
  {
    hide Inv, Evolves, NoneLowered, Step;
    if actions != [] {
      var front := actions[..|actions| - 1];
      RunEvolves(s, front);
      StepKeepsInv(Run(s, front), actions[|actions| - 1]);
      StepEvolves(Run(s, front), actions[|actions| - 1]);
      EvolvesTransitively(s, Run(s, front), Run(s, actions));
      assert actions == front + [actions[|actions| - 1]];
    } else {
      ForgettingPodsEvolves(s, s.pods);
    }
  }

  // ---------- What the log says about statuses ----------

  /** Between two states of a run the history of a sha is extended by the successes logged in between. */
  lemma HistoryExtends(s: State, s': State, sha: string)
    requires Evolves(s, s')
    ensures History(s'.transitions, sha)
            == History(s.transitions, sha) + History(s'.transitions[|s.transitions|..], sha)
  {
    hide InfoEvolves;
    HistorySplits(s.transitions, s'.transitions[|s.transitions|..], sha);
    assert s'.transitions == s.transitions + s'.transitions[|s.transitions|..];
  }

  /** Nothing follows Complete in a chain, and nothing in it leads to Unknown. */
  lemma ChainSuffix(h: seq<Transition>, more: seq<Transition>, before: ScanStatus, after: ScanStatus)
    requires IsChain(h, before) && IsChain(h + more, after)
    ensures more == [] ==> after == before
    ensures more != [] ==> after != Unknown && before != Complete
  {
    if more == [] {
      assert h + more == h;
    } else {
      assert (h + more)[|h + more| - 1] == more[|more| - 1] && (h + more)[|h|] == more[0];
      if h != [] { assert (h + more)[|h| - 1] == h[|h| - 1]; }
    }
  }

  lemma StatusFollowsLogBetween(s: State, s': State, sha: string)
    requires Inv(s) && Inv(s') && Evolves(s, s') && sha in s.images
    ensures s.images[sha].status != Unknown ==> s'.images[sha].status != Unknown
    ensures s.images[sha].status == Complete ==> s'.images[sha].status == Complete
    ensures History(s'.transitions[|s.transitions|..], sha) == [] ==> s'.images[sha].status == s.images[sha].status
  {
    hide IsChain, History, QueueAgrees, PrioritiesAgree, PodsOk, InfosOk;
    HistoryExtends(s, s', sha);
    ChainSuffix(History(s.transitions, sha), History(s'.transitions[|s.transitions|..], sha),
                s.images[sha].status, s'.images[sha].status);
  }

  /**
   Along any run Unknown is never entered again, Complete is never left, and a status changes only with a logged
   success.
   */
  lemma StatusFollowsLog(s: State, actions: seq<Action>, sha: string)
    requires Inv(s) && sha in s.images
    ensures var s' := Run(s, actions);
            && sha in s'.images
            && (s.images[sha].status != Unknown ==> s'.images[sha].status != Unknown)
            && (s.images[sha].status == Complete ==> s'.images[sha].status == Complete)
            && |s.transitions| <= |s'.transitions|
            && (History(s'.transitions[|s.transitions|..], sha) == [] ==> s'.images[sha].status == s.images[sha].status)
  {
    hide Inv, History, Run;
    RunEvolves(s, actions);
    StatusFollowsLogBetween(s, Run(s, actions), sha);
  }

  /** Some success of sha into status `to` is logged at or after position `from`. */
  ghost predicate Entered(log: seq<Transition>, from: nat, sha: string, to: ScanStatus)
  {
    exists i :: from <= i < |log| && log[i].sha == sha && log[i].err.None? && log[i].to == to
  }

  lemma {:induction false} HistoryIsLogged(log: seq<Transition>, sha: string)
    ensures History(log, sha) != []
            ==> var last := History(log, sha)[|History(log, sha)| - 1];
                last in log && last.sha == sha && last.err.None?
  {
    if log != [] {
      HistoryIsLogged(log[..|log| - 1], sha);
    }
  }

  lemma NewStatusIsLoggedBetween(s: State, s': State, sha: string)
    requires Inv(s) && Inv(s') && Evolves(s, s') && sha in s'.images
    requires if sha in s.images then s.images[sha].status != s'.images[sha].status else s'.images[sha].status != Unknown
    ensures Entered(s'.transitions, |s.transitions|, sha, s'.images[sha].status)
  {
    HistoryExtends(s, s', sha);
    var more := s'.transitions[|s.transitions|..];
    HistoryIsLogged(more, sha);
    var h := History(more, sha);
    assert IsChain(History(s'.transitions, sha), s'.images[sha].status);
    if sha in s.images {
      ChainSuffix(History(s.transitions, sha), h, s.images[sha].status, s'.images[sha].status);
    }
    assert h != [];
    var i :| 0 <= i < |more| && more[i] == h[|h| - 1];
    assert s'.transitions[|s.transitions| + i] == more[i];
  }

  /**
   An image that is in a status it was not in before a run, or is new and not unknown, has entered it by a
   logged success.
   */
  lemma NewStatusIsLogged(s: State, actions: seq<Action>, sha: string)
    requires Inv(s) && sha in Run(s, actions).images
    requires var status := Run(s, actions).images[sha].status;
             if sha in s.images then s.images[sha].status != status else status != Unknown
    ensures Entered(Run(s, actions).transitions, |s.transitions|, sha, Run(s, actions).images[sha].status)
  {
    hide Inv, Entered, Run;
    RunEvolves(s, actions);
    NewStatusIsLoggedBetween(s, Run(s, actions), sha);
  }

  // ---------- Who starts scan clients ----------

  /** Entry p of the log is a success of sha into RunningScanClient. */
  predicate IsStart(log: seq<Transition>, p: int, sha: string)
  {
    0 <= p < |log| && log[p].sha == sha && log[p].err.None? && log[p].to == RunningScanClient
  }

  lemma QueueOfInv(s: State)
    requires Inv(s)
    ensures QueueAgrees(s)
  {
  }

  lemma {:induction false} AddImagesLogsNothing(s: State, images: seq<Image>)
    requires Inv(s)
    ensures AddImages(s, images).0.transitions == s.transitions
  {
    if images != [] {
      hide Inv, AddImage;
      var front := images[..|images| - 1];
      AddImagesLogsNothing(s, front);
      AddImagesKeepsInv(s, front);
      QueueOfInv(AddImages(s, front).0);
      AddImageInClosedForm(AddImages(s, front).0, images[|images| - 1]);
    }
  }

  lemma {:induction false} AddPodsLogsNothing(s: State, pods: seq<Pod>)
    requires Inv(s)
    ensures AddPods(s, pods).0.transitions == s.transitions
  {
    if pods != [] {
      hide Inv, AddImages;
      var front := pods[..|pods| - 1];
      AddPodsLogsNothing(s, front);
      AddPodsKeepsInv(s, front);
      AddImagesLogsNothing(AddPods(s, front).0, ImagesOf(pods[|pods| - 1]));
    }
  }

  /** An attempted transition logs one entry, which says what was attempted, from where, and what became of it. */
  lemma AttemptLogsOne(s: State, sha: string, to: ScanStatus)
    requires QueueAgrees(s)
    ensures var o := SetImageScanStatus(s, sha, to);
            var from := if sha in s.images then Some(s.images[sha].status) else None;
            o.state.transitions == s.transitions + [Transition(sha, from, to, o.err)]
  {
    var o := SetImageScanStatusForSha(s, sha, to);
    assert o.state.transitions == s.transitions;
  }

  /** Starting a scan client of an image logs at most one entry, about that image. */
  lemma StartLogsOwn(s: State, sha: string, p: int, other: string)
    requires Inv(s) && p >= |s.transitions|
    ensures IsStart(StartScanClient(s, sha).state.transitions, p, other) ==> other == sha && p == |s.transitions|
  {
    hide SetImageScanStatus, Inv;
    QueueOfInv(s);
    AttemptLogsOne(s, sha, RunningScanClient);
  }

  lemma AskedIsNoStart(status: ScanStatus, summary: Option<SummaryStatus>)
    ensures TransitionAsked(status, summary) != Some(RunningScanClient)
  {
  }

  lemma ReportStartsNothing(s: State, k: string, results: Option<ScanResults>, p: int, sha: string)
    requires QueueAgrees(s) && p >= |s.transitions|
    ensures !IsStart(ScanDidFinish(s, k, results).state.transitions, p, sha)
  {
    if k in s.images {
      hide SetImageScanStatus, ScanDidFinish, TransitionAsked, QueueAgrees;
      ScanDidFinishInTwoSteps(s, k, results);
      AmendEvolves(s, k, s.images[k].(results := results));
      AskedIsNoStart(s.images[k].status, SummaryIfAny(results));
      var target := TransitionAsked(s.images[k].status, SummaryIfAny(results));
      if target.Some? {
        AttemptLogsOne(Stored(s, k, results), k, target.value);
      }
    }
  }

  lemma AmendKeepsQueue(s: State, sha: string, info: Info)
    requires QueueAgrees(s) && sha in s.images && info.status == s.images[sha].status
    ensures QueueAgrees(WithInfo(s, sha, info))
  {
  }

  /** No other action logs a success into RunningScanClient. */
  lemma OthersStartNothing(s: State, a: Action, p: int, sha: string)
    requires Inv(s) && !a.DoStartScanClient? && p >= |s.transitions|
    ensures !IsStart(Step(s, a).state.transitions, p, sha)
  {
    hide Inv, SetImageScanStatus, AddImage, AddImages, AddPods, ScanDidFinish, TransitionAsked, QueueAgrees;
    QueueOfInv(s);
    match a
    case DoAddPod(pod) => AddImagesLogsNothing(s, ImagesOf(pod));
    case DoAllPods(pods) =>
      PodsOkWithout(s);
      InvIgnoresPods(s, map[]);
      AddPodsLogsNothing(s.(pods := map[]), pods);
    case DoAddImage(image) => AddImageInClosedForm(s, image);
    case DoAllImages(images) => AddImagesLogsNothing(s, images);
    case DoDeletePod(_) =>
    case DoScanDidFinish(k, results) => ReportStartsNothing(s, k, results, p, sha);
    case DoFinishScanJob(k, failed) =>
      if k in s.images {
        var lowered := s.images[k].(priority := FAILED_SCAN_PRIORITY);
        AmendKeepsQueue(s, k, lowered);
        AttemptLogsOne(WithInfo(s, k, lowered), k, InQueue);
        AttemptLogsOne(s, k, RunningHubScan);
      }
  }

  // ---------- How long a life can be ----------

  /** How often an image went back into the queue from a running scan. */
  function Requeues(h: seq<Transition>): nat
  {
    if h == [] then 0
    else
      var t := h[|h| - 1];
      Requeues(h[..|h| - 1]) + if t.from.Some? && IsRequeue(t.from.value, t.to) then 1 else 0
  }

  lemma {:induction false} ChainIsBounded(h: seq<Transition>, status: ScanStatus)
    requires IsChain(h, status)
    ensures |h| + Rank(status) <= 4 + 3 * Requeues(h)
  {
    if h != [] {
      var front, t := h[..|h| - 1], h[|h| - 1];
      if front != [] { assert t.from == Some(front[|front| - 1].to); }
      ChainIsBounded(front, t.from.value);
    }
  }

  /** An image re-queued R times has made at most 4 + 3R successful transitions, less what it still has to go. */
  lemma TransitionsAreBounded(actions: seq<Action>, sha: string)
    requires sha in Run(EMPTY_STATE, actions).images
    ensures var s := Run(EMPTY_STATE, actions);
            var h := History(s.transitions, sha);
            |h| + Rank(s.images[sha].status) <= 4 + 3 * Requeues(h)
  {
    RunKeepsInv(actions);
    var s := Run(EMPTY_STATE, actions);
    ChainIsBounded(History(s.transitions, sha), s.images[sha].status);
  }

  // ---------- Priorities ----------

  lemma AddImageKeepsExact(s: State, image: Image)
    requires QueueAgrees(s) && ExactPriorities(s)
    ensures ExactPriorities(AddImage(s, image).state)
  {
    hide AddImage;
    AddImageInClosedForm(s, image);
  }

  lemma {:induction false} AddImagesKeepsExact(s: State, images: seq<Image>)
    requires Inv(s) && ExactPriorities(s)
    ensures ExactPriorities(AddImages(s, images).0)
  {
    if images != [] {
      hide ExactPriorities, AddImage, QueueAgrees, PrioritiesAgree, InfosOk, PodsOk, LogAgrees;
      var front := images[..|images| - 1];
      AddImagesKeepsInv(s, front);
      AddImagesKeepsExact(s, front);
      AddImageKeepsExact(AddImages(s, front).0, images[|images| - 1]);
    }
  }

  lemma {:induction false} AddPodsKeepsExact(s: State, pods: seq<Pod>)
    requires Inv(s) && ExactPriorities(s)
    ensures ExactPriorities(AddPods(s, pods).0)
  {
    if pods != [] {
      var front := pods[..|pods| - 1];
      AddPodsKeepsInv(s, front);
      AddPodsKeepsExact(s, front);
      AddImagesKeepsExact(AddPods(s, front).0, ImagesOf(pods[|pods| - 1]));
    }
  }

  /**
   The one way to break exact agreement: a scan client reported failed while its image is queued with another
   priority.
   */
  predicate IsLateFailure(s: State, a: Action)
  {
    && a.DoFinishScanJob? && a.failed && a.sha in s.images
    && s.images[a.sha].status == InQueue && s.images[a.sha].priority != FAILED_SCAN_PRIORITY
  }

  lemma FinishKeepsExactIff(s: State, sha: string, failed: bool)
    requires Inv(s) && ExactPriorities(s)
    ensures ExactPriorities(FinishRunningScanClient(s, sha, failed).state)
            <==> !IsLateFailure(s, DoFinishScanJob(sha, failed))
  {
    if sha in s.images {
      hide SetImageScanStatus, ExactPriorities, Evolves, NoneLowered;
      hide QueueAgrees, PrioritiesAgree, InfosOk, PodsOk, LogAgrees;
      AmendEvolves(s, sha, s.images[sha].(priority := FAILED_SCAN_PRIORITY));
      var lowered := WithInfo(s, sha, s.images[sha].(priority := FAILED_SCAN_PRIORITY));
      AttemptKeepsExact(lowered, sha, InQueue);
      AttemptKeepsExact(s, sha, RunningHubScan);
    }
  }

  /** Exact agreement of queue and image priorities survives an action if and only if it is not a late failure. */
  lemma ExactPrioritiesSurviveIff(s: State, a: Action)
    requires Inv(s) && ExactPriorities(s)
    ensures ExactPriorities(Step(s, a).state) <==> !IsLateFailure(s, a)
  {
    match a
    case DoAddPod(pod) => AddImagesKeepsExact(s, ImagesOf(pod));
    case DoAllPods(pods) =>
      InvIgnoresPods(s, map[]);
      AddPodsKeepsExact(s.(pods := map[]), pods);
    case DoAddImage(image) => AddImageKeepsExact(s, image);
    case DoAllImages(images) => AddImagesKeepsExact(s, images);
    case DoDeletePod(name) =>
    case DoScanDidFinish(sha, results) => ScanDidFinishEvolves(s, sha, results);
    case DoStartScanClient(sha) => AttemptKeepsExact(s, sha, RunningScanClient);
    case DoFinishScanJob(sha, failed) => FinishKeepsExactIff(s, sha, failed);
  }

  /** A new image about which the hubs know nothing goes into the queue. */
  lemma QueueingRun(image: Image)
    ensures var s := Run(EMPTY_STATE, [DoAddImage(image), DoScanDidFinish(image.sha, None)]);
            && image.sha in s.images && s.images[image.sha] == NewInfo(image).(status := InQueue)
            && s.queue == map[image.sha := Node(image.sha, image.priority, image.sha)]
  {
    var a0, a1 := DoAddImage(image), DoScanDidFinish(image.sha, None);
    assert [a0, a1][..1] == [a0] && [a0][..0] == [];
    var s1 := Run(EMPTY_STATE, [a0]);
    assert s1 == Step(Run(EMPTY_STATE, []), a0).state == WithInfo(EMPTY_STATE, image.sha, NewInfo(image));
    assert Run(EMPTY_STATE, [a0, a1]) == Step(s1, a1).state;
  }

  /** A reachable state in which the queue still holds a priority that the image has lost. */
  lemma ExactPrioritiesAreNotInvariant()
    ensures exists actions :: !ExactPriorities(Run(EMPTY_STATE, actions))
  {
    var image := Image("r", "t", "s", 5, "", "");
    var actions, last := [DoAddImage(image), DoScanDidFinish("s", None)], DoFinishScanJob("s", true);
    QueueingRun(image);
    RunKeepsInv(actions);
    hide Inv, Step;
    ExactPrioritiesSurviveIff(Run(EMPTY_STATE, actions), last);
    assert (actions + [last])[..|actions|] == actions;
    assert Run(EMPTY_STATE, actions + [last]) == Step(Run(EMPTY_STATE, actions), last).state;
  }

  // ---------- Finished scans ----------

  /**
   A successful scan result is stored whatever the status, but completes the image, without an error, exactly
   when it was unknown, on the hub, or complete already: the code asks for a transition from InQueue and from
   RunningScanClient too, and the table rejects both.
   */
  lemma SuccessCompletesIff(s: State, sha: string, results: ScanResults)
    requires Inv(s) && sha in s.images && SummaryOf(results) == Success
    ensures var o := ScanDidFinish(s, sha, Some(results));
            var before := s.images[sha].status;
            var completes := before == Unknown || before == RunningHubScan || before == Complete;
            && sha in o.state.images && o.state.images[sha].results == Some(results)
            && (o.err.None? <==> completes)
            && o.state.images[sha].status == (if completes then Complete else before)
            && (!completes ==> o.state.queue == s.queue)
  {
    hide SetImageScanStatus, PrioritiesAgree, InfosOk, PodsOk, LogAgrees;
    TransitionSucceedsIffLegal(WithInfo(s, sha, s.images[sha].(results := Some(results))), sha, Complete);
  }

  /** A reachable state in which a success is answered with an error and leaves its image in the queue. */
  lemma SuccessMayNotComplete(results: ScanResults)
    requires SummaryOf(results) == Success
    ensures exists actions, sha ::
              var s := Run(EMPTY_STATE, actions);
              && sha in s.images && s.images[sha].status == InQueue
              && var o := ScanDidFinish(s, sha, Some(results));
                 o.err.Some? && sha in o.state.images && o.state.images[sha].status == InQueue
  {
    var sha := "s";
    var image := Image("r", "t", sha, 5, "", "");
    var actions := [DoAddImage(image), DoScanDidFinish(sha, None)];
    QueueingRun(image);
    RunKeepsInv(actions);
    var s := Run(EMPTY_STATE, actions);
    hide Inv, Run, ScanDidFinish;
    SuccessCompletesIff(s, sha, results);
    assert sha in s.images && ScanDidFinish(s, sha, Some(results)).err.Some?;
  }

  lemma InProgressMovesUnknown(s: State, sha: string, results: ScanResults)
    requires Inv(s) && sha in s.images && SummaryOf(results) == InProgress
    ensures var s' := ScanDidFinish(s, sha, Some(results)).state;
            && sha in s'.images
            && s'.images[sha].status == if s.images[sha].status in {Unknown, InQueue} then RunningHubScan
                                        else s.images[sha].status
  {
    hide SetImageScanStatus, PrioritiesAgree, InfosOk, PodsOk, LogAgrees;
    TransitionSucceedsIffLegal(s, sha, RunningHubScan);
  }

  /** Where a report takes an unknown image. */
  function ReportTarget(results: Option<ScanResults>): ScanStatus
  {
    TransitionAsked(Unknown, SummaryIfAny(results)).value
  }

  lemma ReportTargetIsLegal(results: Option<ScanResults>)
    ensures IsLegalTransition(Unknown, ReportTarget(results))
  {
    hide SummaryOf;
  }

  lemma ReportOnUnknownAttempts(s: State, sha: string, results: Option<ScanResults>) returns (base: State)
    requires QueueAgrees(s) && sha in s.images && s.images[sha].status == Unknown
    ensures ScanDidFinish(s, sha, results) == SetImageScanStatus(base, sha, ReportTarget(results))
    ensures QueueAgrees(base)
    ensures base.images == s.images[sha := if ReportTarget(results) == Complete then s.images[sha].(results := results)
                                           else s.images[sha]]
  {
    hide SetImageScanStatus, ScanDidFinish, SummaryOf, QueueAgrees;
    AmendEvolves(s, sha, s.images[sha].(results := results));
    ScanDidFinishInTwoSteps(s, sha, results);
    base := Stored(s, sha, results);
  }

  lemma AttemptOnImage(s: State, sha: string, to: ScanStatus)
    requires QueueAgrees(s) && sha in s.images
    ensures var o, legal := SetImageScanStatus(s, sha, to), IsLegalTransition(s.images[sha].status, to);
            && (o.err.None? <==> legal)
            && o.state.images == (if legal then s.images[sha := s.images[sha].(status := to)] else s.images)
            && o.state.queue == (if !legal then s.queue
                                 else if to == InQueue then s.queue[sha := Node(sha, s.images[sha].priority, sha)]
                                 else s.queue - {sha})
            && o.state.pods == s.pods
  {
    hide SetImageScanStatus, IsLegalTransition, QueueAgrees;
    TransitionSucceedsIffLegal(s, sha, to);
  }

  /** A report about an unknown image always succeeds; a success is stored with the image, and no other one changes. */
  lemma ReportOnUnknown(s: State, sha: string, results: Option<ScanResults>)
    requires Inv(s) && sha in s.images && s.images[sha].status == Unknown
    ensures var o, to := ScanDidFinish(s, sha, results), ReportTarget(results);
            && o.err.None? && Inv(o.state)
            && o.state.images == s.images[sha := s.images[sha].(
                   status := to, results := if to == Complete then results else s.images[sha].results)]
  {
    hide Inv, ScanDidFinish, SetImageScanStatus, QueueAgrees, ReportTarget, IsLegalTransition;
    ScanDidFinishKeepsInv(s, sha, results);
    QueueOfInv(s);
    var base := ReportOnUnknownAttempts(s, sha, results);
    ReportTargetIsLegal(results);
    AttemptOnImage(base, sha, ReportTarget(results));
    var moved := base.images[sha].(status := ReportTarget(results));
    assert s.images[sha := base.images[sha]][sha := moved] == s.images[sha := moved];
  }

  /** Starting a scan client succeeds exactly for a queued image, and takes it out of the queue. */
  lemma StartSucceedsIff(s: State, sha: string)
    requires Inv(s)
    ensures var o := StartScanClient(s, sha);
            && (o.err.None? <==> sha in s.images && s.images[sha].status == InQueue)
            && (if o.err.None? then o.state == Moved(s, sha, RunningScanClient) else o.state == s)
  {
    hide SetImageScanStatus;
    TransitionSucceedsIffLegal(s, sha, RunningScanClient);
  }

  /**
   A clean finish of a scan client sends the image on to the hub scan exactly if it is not there or complete
   already.
   */
  lemma CleanFinishSucceedsIff(s: State, sha: string)
    requires Inv(s) && sha in s.images
    ensures var o := FinishRunningScanClient(s, sha, false);
            var info := s.images[sha];
            var legal := info.status != RunningHubScan && info.status != Complete;
            && (o.err.None? <==> legal)
            && o.state.images == (if legal then s.images[sha := info.(status := RunningHubScan)] else s.images)
            && o.state.queue == (if legal then s.queue - {sha} else s.queue) && o.state.pods == s.pods
  {
    hide SetImageScanStatus, Inv;
    QueueOfInv(s);
    AttemptOnImage(s, sha, RunningHubScan);
  }

  /**
   A failed one sends it back into the queue exactly if it is not there and not complete, but costs it its priority
   in any case.
   */
  lemma FailedFinishSucceedsIff(s: State, sha: string)
    requires Inv(s) && sha in s.images
    ensures var o := FinishRunningScanClient(s, sha, true);
            var info := s.images[sha].(priority := FAILED_SCAN_PRIORITY);
            var legal := info.status != InQueue && info.status != Complete;
            && (o.err.None? <==> legal)
            && o.state.images == s.images[sha := if legal then info.(status := InQueue) else info]
            && o.state.queue == (if legal then s.queue[sha := Node(sha, FAILED_SCAN_PRIORITY, sha)] else s.queue)
            && o.state.pods == s.pods
  {
    hide SetImageScanStatus, Inv, QueueAgrees;
    var info := s.images[sha].(priority := FAILED_SCAN_PRIORITY);
    QueueOfInv(s);
    AmendKeepsQueue(s, sha, info);
    AttemptOnImage(WithInfo(s, sha, info), sha, InQueue);
    assert s.images[sha := info][sha := info.(status := InQueue)] == s.images[sha := info.(status := InQueue)];
  }

  /** Hub updates for one image, delivered in order. */
  function Deliver(s: State, sha: string, updates: seq<ScanResults>): State
  {
    if updates == [] then s
    else ScanDidFinish(Deliver(s, sha, updates[..|updates| - 1]), sha, Some(updates[|updates| - 1])).state
  }

  /**
   Published updates may overtake each other. In whatever order InProgress and Success updates arrive, one
   success among them completes an unknown image or one on the hub, and without one it does not complete.
   */
  lemma {:induction false} AnyOrderCompletes(s: State, sha: string, updates: seq<ScanResults>)
    requires Inv(s) && sha in s.images && (s.images[sha].status == Unknown || s.images[sha].status == RunningHubScan)
    requires forall u :: u in updates ==> SummaryOf(u) != Failure
    ensures Inv(Deliver(s, sha, updates)) && sha in Deliver(s, sha, updates).images
    ensures var status := Deliver(s, sha, updates).images[sha].status;
            if exists u :: u in updates && SummaryOf(u) == Success then status == Complete
            else status == Unknown || status == RunningHubScan
  {
    hide ScanDidFinish, SummaryOf, Inv;
    if updates != [] {
      var front, u := updates[..|updates| - 1], updates[|updates| - 1];
      AnyOrderCompletes(s, sha, front);
      var mid := Deliver(s, sha, front);
      assert updates == front + [u] && u in updates;
      if SummaryOf(u) == Success {
        SuccessCompletesIff(mid, sha, u);
      } else {
        InProgressMovesUnknown(mid, sha, u);
      }
      ScanDidFinishKeepsInv(mid, sha, Some(u));
    }
  }

  // ---------- Pods ----------

  /** Pods filed under their qualified names, a later one replacing an earlier one. */
  function Filed(known: map<string, Pod>, pods: seq<Pod>): map<string, Pod>
  {
    if pods == [] then known
    else Filed(known, pods[..|pods| - 1])[pods[|pods| - 1].QualifiedName() := pods[|pods| - 1]]
  }

  lemma {:induction false} AddPodsFiles(s: State, pods: seq<Pod>)
    requires Inv(s)
    ensures AddPods(s, pods).0.pods == Filed(s.pods, pods)
  {
    if pods != [] {
      hide Inv, AddImages;
      var front := pods[..|pods| - 1];
      AddPodsFiles(s, front);
      AddPodsKeepsInv(s, front);
      AddImagesKeepsInv(AddPods(s, front).0, ImagesOf(pods[|pods| - 1]));
    }
  }

  /** Pod i is the last one of its name. */
  ghost predicate IsLastOfName(pods: seq<Pod>, i: int)
  {
    0 <= i < |pods| && forall j :: i < j < |pods| ==> pods[j].QualifiedName() != pods[i].QualifiedName()
  }

  lemma {:induction false} FiledMeans(known: map<string, Pod>, pods: seq<Pod>)
    ensures forall name :: name in Filed(known, pods) <==>
              name in known || exists i :: 0 <= i < |pods| && pods[i].QualifiedName() == name
    ensures forall i :: IsLastOfName(pods, i)
              ==> && pods[i].QualifiedName() in Filed(known, pods)
                  && Filed(known, pods)[pods[i].QualifiedName()] == pods[i]
  {
    if pods != [] {
      var n := |pods| - 1;
      var front := pods[..n];
      FiledMeans(known, front);
      assert pods == front + [pods[n]];
      forall i | IsLastOfName(pods, i) && i < n
        ensures IsLastOfName(front, i) && pods[i].QualifiedName() != pods[n].QualifiedName()
      {
      }
    }
  }

  /**
   Setting all pods replaces the old ones: then exactly the given names are known, each for the last pod of that
   name.
   */
  lemma AllPodsReplaces(s: State, pods: seq<Pod>)
    requires Inv(s)
    ensures var s' := AllPods(s, pods).state;
            && (forall name :: name in s'.pods <==> exists i :: 0 <= i < |pods| && pods[i].QualifiedName() == name)
            && (forall i :: IsLastOfName(pods, i)
                  ==> pods[i].QualifiedName() in s'.pods && s'.pods[pods[i].QualifiedName()] == pods[i])
  {
    hide Inv, AddPods, Filed, IsLastOfName;
    InvIgnoresPods(s, map[]);
    AddPodsFiles(s.(pods := map[]), pods);
    FiledMeans(map[], pods);
  }

  // ---------- The next image ----------

  /**
   Peeking at the heap agrees with a naive search: nothing is answered exactly when no image is queued, and
   otherwise a queued image that no other queued image outranks.
   */
  lemma NextImageAgreesWithSearch(s: State, next: Option<Image>)
    requires Inv(s) && IsNextImage(s, next)
    ensures next.None? <==> forall k :: k in s.images ==> s.images[k].status != InQueue
    ensures next.Some? ==>
              var sha := next.value.sha;
              && sha in s.images && s.images[sha].status == InQueue && next.value == ImageOf(s.images[sha])
              && forall k :: k in s.images && s.images[k].status == InQueue
                             ==> k in s.queue && SlotPriority(s.queue[k]) <= SlotPriority(s.queue[sha])
  {
    if next.None? {
      forall k | k in s.images ensures s.images[k].status != InQueue { assert k !in s.queue; }
    } else {
      assert next.value.sha in s.queue;
    }
  }
}
