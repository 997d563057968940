/** What every run of the core model keeps, and what follows from it. */
module CoreInvariants {
  import opened Options
  import opened Heap
  import opened HubData
  import opened ScanStatuses
  import opened CoreState

  // ---------- The invariant ----------

  /** A sha is a key of the queue, with itself as value, exactly when its image is in status InQueue. */
  ghost predicate QueueAgrees(s: State)
  {
    && (forall k :: k in s.queue <==> k in s.images && s.images[k].status == InQueue)
    && (forall k :: k in s.queue ==> s.queue[k].Node? && s.queue[k].key == k && s.queue[k].value == k)
  }

  /** The priority in the queue is the image's, unless a failed scan has since lowered the latter. */
  ghost predicate PrioritiesAgree(s: State)
  {
    forall k :: k in s.queue && k in s.images ==>
      SlotPriority(s.queue[k]) == s.images[k].priority || s.images[k].priority == FAILED_SCAN_PRIORITY
  }

  ghost predicate ExactPriorities(s: State)
  {
    forall k :: k in s.queue && k in s.images ==> SlotPriority(s.queue[k]) == s.images[k].priority
  }

  ghost predicate InfoOk(sha: string, info: Info)
  {
    && info.sha == sha && info.repoTags != []
    && (info.results.Some? ==> SummaryOf(info.results.value) == Success)
    && (info.status == Complete ==> info.results.Some?)
  }

  /** Every info bears its sha and a repo tag; stored results are successes, and a complete image has some. */
  ghost predicate InfosOk(s: State)
  {
    forall k :: k in s.images ==> InfoOk(k, s.images[k])
  }

  /** Pods are filed under their qualified names, and the image of every container is known. */
  ghost predicate PodsOk(s: State)
  {
    forall name :: name in s.pods ==>
      && s.pods[name].QualifiedName() == name
      && forall c :: c in s.pods[name].containers ==> c.image.sha in s.images
  }

  /** The successful transitions of one sha. */
  function History(log: seq<Transition>, sha: string): seq<Transition>
  {
    if log == [] then []
    else
      var t := log[|log| - 1];
      History(log[..|log| - 1], sha) + if t.sha == sha && t.err.None? then [t] else []
  }

  /** h leads from Unknown to status by legal transitions, each starting where the one before it ended. */
  ghost predicate IsChain(h: seq<Transition>, status: ScanStatus)
  {
    && (h == [] ==> status == Unknown)
    && (h != [] ==> h[0].from == Some(Unknown) && h[|h| - 1].to == status)
    && (forall i :: 0 <= i < |h| ==> h[i].from.Some? && IsLegalTransition(h[i].from.value, h[i].to))
    && (forall i, j :: 0 <= i && j == i + 1 < |h| ==> h[j].from == Some(h[i].to))
  }

  /** The log replays to the current status of every image, and holds no success for any other sha. */
  ghost predicate LogAgrees(s: State)
  {
    forall k :: if k in s.images then IsChain(History(s.transitions, k), s.images[k].status)
                else History(s.transitions, k) == []
  }

  ghost predicate Inv(s: State)
  {
    QueueAgrees(s) && PrioritiesAgree(s) && InfosOk(s) && PodsOk(s) && LogAgrees(s)
  }

  // ---------- The log ----------

  lemma HistoryOfOneMore(log: seq<Transition>, t: Transition, sha: string)
    ensures History(log + [t], sha) == History(log, sha) + if t.sha == sha && t.err.None? then [t] else []
  {
    assert (log + [t])[..|log|] == log;
  }

  lemma {:induction false} HistorySplits(a: seq<Transition>, b: seq<Transition>, sha: string)
    ensures History(a + b, sha) == History(a, sha) + History(b, sha)
  {
    if b == [] {
      assert a + b == a;
    } else {
      var b', t := b[..|b| - 1], b[|b| - 1];
      HistorySplits(a, b', sha);
      hide History;
      assert b == b' + [t] && a + b == (a + b') + [t];
      HistoryOfOneMore(a + b', t, sha);
      HistoryOfOneMore(b', t, sha);
    }
  }

  lemma ChainGrows(h: seq<Transition>, status: ScanStatus, t: Transition)
    requires IsChain(h, status) && t.from == Some(status) && IsLegalTransition(status, t.to)
    ensures IsChain(h + [t], t.to)
  {
  }

  // ---------- Transitions ----------

  /** The state after a successful transition, in closed form. */
  function Moved(s: State, sha: string, to: ScanStatus): State
    requires sha in s.images
  {
    var info := s.images[sha];
    State(
      s.pods,
      s.images[sha := info.(status := to)],
      if to == InQueue then s.queue[sha := Node(sha, info.priority, sha)] else s.queue - {sha},
      s.transitions + [Transition(sha, Some(info.status), to, None)])
  }

  /**
   While queue and status agree, an attempted transition succeeds exactly when it is legal: leaving and entering
   a state never fail. A rejected one changes nothing but the log.
   */
  lemma TransitionSucceedsIffLegal(s: State, sha: string, to: ScanStatus)
    requires QueueAgrees(s)
    ensures var o := SetImageScanStatus(s, sha, to);
            var legal := sha in s.images && IsLegalTransition(s.images[sha].status, to);
            && (o.err.None? <==> legal)
            && (legal ==> o.state == Moved(s, sha, to))
            && (!legal ==>
                  && o.err == Some(if sha in s.images then IllegalTransition(s.images[sha].status, to)
                                   else ShaNotFound(sha))
                  && o.state.pods == s.pods && o.state.images == s.images && o.state.queue == s.queue
                  && |o.state.transitions| == |s.transitions| + 1
                  && o.state.transitions[..|s.transitions|] == s.transitions
                  && o.state.transitions[|s.transitions|].err == o.err)
  {
    if sha in s.images && IsLegalTransition(s.images[sha].status, to) {
      if s.images[sha].status != InQueue && to != InQueue {
        assert s.queue - {sha} == s.queue;
      }
    }
  }

  lemma MovedKeepsLog(s: State, sha: string, to: ScanStatus)
    requires LogAgrees(s) && sha in s.images && IsLegalTransition(s.images[sha].status, to)
    ensures LogAgrees(Moved(s, sha, to))
  {
    hide IsChain, History;
    var s' := Moved(s, sha, to);
    var t := Transition(sha, Some(s.images[sha].status), to, None);
    forall k
      ensures if k in s'.images then IsChain(History(s'.transitions, k), s'.images[k].status)
              else History(s'.transitions, k) == []
    {
      HistoryOfOneMore(s.transitions, t, k);
      if k == sha {
        ChainGrows(History(s.transitions, k), s.images[k].status, t);
      } else {
        assert History(s.transitions, k) + [] == History(s.transitions, k);
      }
    }
  }

  lemma MovedKeepsQueue(s: State, sha: string, to: ScanStatus)
    requires QueueAgrees(s) && PrioritiesAgree(s) && sha in s.images
    ensures QueueAgrees(Moved(s, sha, to)) && PrioritiesAgree(Moved(s, sha, to))
  {
  }

  lemma MovedKeepsRecords(s: State, sha: string, to: ScanStatus)
    requires InfosOk(s) && PodsOk(s) && sha in s.images
    requires to == Complete ==> s.images[sha].results.Some?
    ensures InfosOk(Moved(s, sha, to)) && PodsOk(Moved(s, sha, to))
  {
  }

  lemma MovedKeepsInv(s: State, sha: string, to: ScanStatus)
    requires Inv(s) && sha in s.images && IsLegalTransition(s.images[sha].status, to)
    requires to == Complete ==> s.images[sha].results.Some?
    ensures Inv(Moved(s, sha, to))
  {
    hide QueueAgrees, PrioritiesAgree, InfosOk, PodsOk, LogAgrees, IsLegalTransition, Moved;
    MovedKeepsQueue(s, sha, to);
    MovedKeepsRecords(s, sha, to);
    MovedKeepsLog(s, sha, to);
  }

  lemma AttemptKeepsInv(s: State, sha: string, to: ScanStatus)
    requires Inv(s)
    requires to == Complete && sha in s.images ==> s.images[sha].results.Some?
    ensures Inv(SetImageScanStatus(s, sha, to).state)
  {
    TransitionSucceedsIffLegal(s, sha, to);
    var o := SetImageScanStatus(s, sha, to);
    if o.err.None? {
      MovedKeepsInv(s, sha, to);
    } else {
      forall k
        ensures History(o.state.transitions, k) == History(s.transitions, k)
      {
        HistoryOfOneMore(s.transitions, o.state.transitions[|s.transitions|], k);
        assert o.state.transitions == s.transitions + [o.state.transitions[|s.transitions|]];
      }
    }
  }

  // ---------- Every action keeps the invariant ----------

  /** An unlogged change keeps the log right as long as it moves no image and adds only unknown ones. */
  lemma UnloggedChangeKeepsLog(s: State, s': State)
    requires LogAgrees(s) && s'.transitions == s.transitions && s.images.Keys <= s'.images.Keys
    requires forall k :: k in s.images ==> s'.images[k].status == s.images[k].status
    requires forall k :: k in s'.images && k !in s.images ==> s'.images[k].status == Unknown
    ensures LogAgrees(s')
  {
    forall k
      ensures if k in s'.images then IsChain(History(s'.transitions, k), s'.images[k].status)
              else History(s'.transitions, k) == []
    {
      if k !in s.images { assert History(s.transitions, k) == []; }
    }
  }

  /**
   Changing what an info says, but not its status, keeps the invariant; so does raising the priority with the
   queue's.
   */
  lemma AmendKeepsInv(s: State, sha: string, info: Info)
    requires Inv(s) && sha in s.images && InfoOk(sha, info) && info.status == s.images[sha].status
    ensures info.priority == s.images[sha].priority || info.priority == FAILED_SCAN_PRIORITY || info.status != InQueue
            ==> Inv(WithInfo(s, sha, info))
    ensures info.status == InQueue
            ==> Inv(WithInfo(s, sha, info).(queue := s.queue[sha := Node(sha, info.priority, sha)]))
  {
    hide LogAgrees, InfoOk;
    UnloggedChangeKeepsLog(s, WithInfo(s, sha, info));
    UnloggedChangeKeepsLog(s, WithInfo(s, sha, info).(queue := s.queue[sha := Node(sha, info.priority, sha)]));
  }

  lemma NewInfoKeepsInv(s: State, image: Image)
    requires Inv(s) && image.sha !in s.images
    ensures Inv(WithInfo(s, image.sha, NewInfo(image)))
  {
    hide LogAgrees;
    UnloggedChangeKeepsLog(s, WithInfo(s, image.sha, NewInfo(image)));
  }

  /**
   Adding an image never fails. It creates an unknown image, or raises a non-negative priority, in the queue too
   if the image is queued; it never lowers one.
   */
  lemma AddImageInClosedForm(s: State, image: Image)
    requires QueueAgrees(s)
    ensures AddImage(s, image).err.None?
    ensures var sha, s' := image.sha, AddImage(s, image).state;
            if sha !in s.images then s' == WithInfo(s, sha, NewInfo(image))
            else
              var info := s.images[sha];
              if image.priority <= info.priority || info.priority < 0 then s' == s
              else
                var raised := WithInfo(s, sha, info.(priority := image.priority));
                if info.status != InQueue then s' == raised
                else s' == raised.(queue := s.queue[sha := Node(sha, image.priority, sha)])
  {
  }

  lemma AddImageKeepsInv(s: State, image: Image)
    requires Inv(s)
    ensures Inv(AddImage(s, image).state) && AddImage(s, image).err.None?
    ensures image.sha in AddImage(s, image).state.images
    ensures AddImage(s, image).state.pods == s.pods && s.images.Keys <= AddImage(s, image).state.images.Keys
  {
    hide QueueAgrees, LogAgrees, PodsOk, PrioritiesAgree, AddImage;
    AddImageInClosedForm(s, image);
    if image.sha !in s.images {
      NewInfoKeepsInv(s, image);
    } else {
      AmendKeepsInv(s, image.sha, s.images[image.sha].(priority := image.priority));
    }
  }

  lemma AddImagesLast(s: State, images: seq<Image>)
    requires images != []
    ensures var before := AddImages(s, images[..|images| - 1]);
            var o := AddImage(before.0, images[|images| - 1]);
            AddImages(s, images).0 == o.state
            && (o.err.None? ==> AddImages(s, images).1 == before.1)
  {
    hide AddImage;
  }

  /** Adding images never fails, and makes every one of them known. */
  lemma {:induction false} AddImagesKeepsInv(s: State, images: seq<Image>)
    requires Inv(s)
    ensures Inv(AddImages(s, images).0) && AddImages(s, images).1 == []
    ensures AddImages(s, images).0.pods == s.pods && s.images.Keys <= AddImages(s, images).0.images.Keys
    ensures forall i :: i in images ==> i.sha in AddImages(s, images).0.images
  {
    if images != [] {
      hide Inv, AddImage, AddImages;
      var front, last := images[..|images| - 1], images[|images| - 1];
      AddImagesKeepsInv(s, front);
      AddImageKeepsInv(AddImages(s, front).0, last);
      AddImagesLast(s, images);
      assert images == front + [last];
    }
  }

  /** Only PodsOk looks at the pods. */
  lemma InvIgnoresPods(s: State, pods: map<string, Pod>)
    requires Inv(s) && PodsOk(s.(pods := pods))
    ensures Inv(s.(pods := pods))
  {
  }

  lemma AddPodKeepsInv(s: State, pod: Pod)
    requires Inv(s)
    ensures Inv(AddPod(s, pod).state) && AddPod(s, pod).err.None?
  {
    AddImagesKeepsInv(s, ImagesOf(pod));
    var added := AddImages(s, ImagesOf(pod)).0;
    forall c | c in pod.containers
      ensures c.image.sha in added.images
    {
      var i :| 0 <= i < |pod.containers| && pod.containers[i] == c;
      assert ImagesOf(pod)[i] in ImagesOf(pod);
    }
    InvIgnoresPods(added, added.pods[pod.QualifiedName() := pod]);
  }

  lemma {:induction false} AddPodsKeepsInv(s: State, pods: seq<Pod>)
    requires Inv(s)
    ensures Inv(AddPods(s, pods).0) && AddPods(s, pods).1 == []
  {
    if pods != [] {
      AddPodsKeepsInv(s, pods[..|pods| - 1]);
      AddPodKeepsInv(AddPods(s, pods[..|pods| - 1]).0, pods[|pods| - 1]);
    }
  }

  lemma ScanDidFinishKeepsInv(s: State, sha: string, results: Option<ScanResults>)
    requires Inv(s)
    ensures Inv(ScanDidFinish(s, sha, results).state)
  {
    if sha in s.images {
      if results.None? {
        AttemptKeepsInv(s, sha, InQueue);
      } else {
        match SummaryOf(results.value)
        case Success =>
          AmendKeepsInv(s, sha, s.images[sha].(results := results));
          var stored := WithInfo(s, sha, s.images[sha].(results := results));
          AttemptKeepsInv(stored, sha, Complete);
        case InProgress => AttemptKeepsInv(s, sha, RunningHubScan);
        case Failure => AttemptKeepsInv(s, sha, InQueue);
      }
    }
  }

  lemma FinishRunningScanClientKeepsInv(s: State, sha: string, failed: bool)
    requires Inv(s)
    ensures Inv(FinishRunningScanClient(s, sha, failed).state)
  {
    if sha in s.images {
      AmendKeepsInv(s, sha, s.images[sha].(priority := FAILED_SCAN_PRIORITY));
      var lowered := WithInfo(s, sha, s.images[sha].(priority := FAILED_SCAN_PRIORITY));
      AttemptKeepsInv(lowered, sha, InQueue);
      AttemptKeepsInv(s, sha, RunningHubScan);
    }
  }

  /** One action, whatever its arguments, keeps the invariant; adding images or pods reports no error. */
  lemma StepKeepsInv(s: State, a: Action)
    requires Inv(s)
    ensures Inv(Step(s, a).state)
    ensures a.DoAddPod? || a.DoAllPods? || a.DoAddImage? || a.DoAllImages? ==> Step(s, a).err.None?
  {
    match a
    case DoAddPod(pod) => AddPodKeepsInv(s, pod);
    case DoAllPods(pods) =>
      InvIgnoresPods(s, map[]);
      AddPodsKeepsInv(s.(pods := map[]), pods);
    case DoAddImage(image) => AddImageKeepsInv(s, image);
    case DoAllImages(images) => AddImagesKeepsInv(s, images);
    case DoDeletePod(name) => InvIgnoresPods(s, s.pods - {name});
    case DoScanDidFinish(sha, results) => ScanDidFinishKeepsInv(s, sha, results);
    case DoStartScanClient(sha) => AttemptKeepsInv(s, sha, RunningScanClient);
    case DoFinishScanJob(sha, failed) => FinishRunningScanClientKeepsInv(s, sha, failed);
  }

  /** Every reachable state satisfies the invariant. */
  lemma {:induction false} RunKeepsInv(actions: seq<Action>)
    ensures Inv(Run(EMPTY_STATE, actions))
  {
    if actions != [] {
      RunKeepsInv(actions[..|actions| - 1]);
      StepKeepsInv(Run(EMPTY_STATE, actions[..|actions| - 1]), actions[|actions| - 1]);
    }
  }
}
