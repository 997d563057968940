# Perceptor: a verified model of its state machines

Perceptor schedules scans of container images on Black Duck hubs. Its core model knows pods, images and a queue of
images waiting to be scanned; a dispatcher hands queued images to scan clients, as long as some hub has room; each hub
side keeps track of the scans on that hub, polls them, and publishes what it finds back to the core. All of this runs as
a handful of loops that process one action at a time. This project models those loops and proves what every run of
them keeps.

| Part | Specification and theorems | Imperative form |
|---|---|---|
| Indexed max-heap, `pkg/util/priorityqueue.go` | `Heap.dfy`, `Powers.dfy` | `PriorityQueue.dfy` |
| Core model, `pkg/core/model/` | `ScanStatus.dfy`, `CoreState.dfy`, `CoreInvariants.dfy`, `CoreTheorems.dfy`, `CoreOutcomes.dfy` | `CoreModel.dfy` |
| Reports and metrics, `pkg/core/model/modelextensions.go` | `CoreReports.dfy`, `CoreMetrics.dfy`, `Counting.dfy` | methods in the first two |
| Hub side, `pkg/hub/model.go`, `datatypes.go` | `HubData.dfy`, `HubScans.dfy`, `HubOutcomes.dfy` | `HubModel.dfy` |
| Dispatch and reconciliation, `pkg/core/perceptor.go`, `scanscheduler.go` | `Dispatch.dfy`, `DispatchRuns.dfy` (interleaved) | `Perceptor.dfy` (uninterrupted) |
| Timer, `pkg/util/timer.go` | `TimerState.dfy` | `Timer.dfy` |
| Login, `pkg/hub/hub.go` | `LoginState.dfy` (interleaved) | `Hub.dfy` |
| Circuit breaker, `pkg/hub/circuitbreaker.go` | `BreakerState.dfy` | `CircuitBreaker.dfy` |

`Options.dfy` and `Listings.dfy` hold what several parts share.

The code that updates fields in place is a class whose methods have the branches of the original; each is proved to do
to an abstract value of the object what a function on values says. The theorems are about those functions: invariants
of every run, refinement of simple forms, conservation, and safety of the interleaved protocols. What those functions
come to, case by case, is stated as well, with the statuses, stages and numbers themselves rather than in their own
terms: `CoreOutcomes.dfy` and `HubOutcomes.dfy` for the actions of the core and of a hub, and lemmas named after
outcomes or meanings elsewhere. `dafny verify dfyconfig.toml` checks everything.

## What the code does that one might not expect

Where a promise in the code's comments or an obvious reading of it fails, the model does what the code does, and the
exact condition under which it holds is proved:

- A successful scan result for an image that is queued, or with a scan client, is stored but does not complete the
  image: the code asks for a transition that its own table rejects. `CoreTheorems.SuccessCompletesIff`, with a run in
  `CoreTheorems.SuccessMayNotComplete`.
- A scan client reported as failed while its image is queued lowers the image's priority to -1 but not the queue's,
  and the transition is then rejected. Exact agreement of the two priorities survives precisely the other actions.
  `CoreTheorems.ExactPrioritiesSurviveIff`, with a run in `CoreTheorems.ExactPrioritiesAreNotInvariant`.
- A hub scan in stage Complete has results that are not in progress, but they may be a failure: that every complete
  scan was a success survives precisely the actions that do not finish a hub scan with a failed summary.
  `HubScans.SuccessesSurviveIff`, with a run in `HubScans.CompleteIsNotSuccess`; `Perceptors.UnknownImagesPass` says
  what the core makes of such a scan.
- The exponential backoff overflows a 64-bit duration from the 34th failure in a row on, after which the delay is
  positive for only a few counts. `BreakerStates.BackoffIsExactIff`, `BreakerStates.DelayIsPositiveIff`.
- A hub that is up need not have its work timers running: a resume is refused while a pause is waiting for an action
  to finish. `LoginStates.LoginResumesIffPaused`, with a run in `LoginStates.UpDoesNotMeanRunning`.
- The upward sift has no early exit: it takes exactly as many rounds as the slot is deep. `PriorityQueues.PriorityQueue.SiftUp`.

## Model

| member | source | states |
|---|---|---|
| Heap.ParentChild | pkg/util/priorityqueue.go:304-314 | with truncating division the root is its own parent, and any other slot has exactly one parent, of which it is the left or right child; the children of i are 2i + 1 and 2i + 2 |
| Powers.Log2IsFloor | pkg/util/priorityqueue.go:258-302 | the logarithm in which sift steps are counted is the floored base-two logarithm |
| Heap.RootIsMaximal | pkg/util/priorityqueue.go:114-120 | the local order of parents and children makes the root a global maximum |
| Heap.SwapStep | pkg/util/priorityqueue.go:250-256 | exchanging two nodes and re-indexing both keys leaves the represented map from keys to nodes unchanged |
| Heap.RiseByStep | pkg/util/priorityqueue.go:292-300 | an upward sift that need not swap moves on to the parent, and at the root leaves only downward disorder at its starting slot |
| Heap.RiseBySwap | pkg/util/priorityqueue.go:292-300 | a swap moves the only upward disorder to the parent without creating any elsewhere |
| Heap.SinkBySwap | pkg/util/priorityqueue.go:260-282 | swapping with the larger child moves the only downward disorder to that child |
| Heap.AppendStep | pkg/util/priorityqueue.go:107-108 | writing a node with a new key after the last one adds exactly that key, disorder being possible only there |
| Heap.ReplaceStep | pkg/util/priorityqueue.go:159-160 | changing one node's priority changes one entry of the represented map, disorder being possible only around it |
| Heap.MoveLastStep | pkg/util/priorityqueue.go:184-188 | refilling a slot from the last one takes away exactly the slot's key, whose index entry becomes stray |
| Heap.ExtendStep | pkg/util/priorityqueue.go:243-247 | copying into a longer array represents the same map |
| Heap.IsHeapMeans | pkg/util/priorityqueue.go:36-40 | the representation is heap order, an index that is exact in both directions, and nil slots past the live ones |
| Heap.HeapOrderMeans | pkg/util/priorityqueue.go:203-222 | heap order says exactly that the nodes in slots 2i + 1 and 2i + 2 have no higher priority than the one in slot i |
| Heap.FullRange | pkg/util/priorityqueue.go:229-231 | pigeonhole: n numbers below n are all the numbers below n |
| Heap.ImageSize | pkg/util/priorityqueue.go:229-231 | an injective index has as many slots as keys |
| Heap.IndexIsBijection | pkg/util/priorityqueue.go:223-231 | the two index checks together say exactly that keys and live slots are in bijection |
| Heap.PopsAreSorted | pkg/util/priorityqueue.go:122-141 | any way of emptying a queue by legal pops yields every key exactly once, in non-increasing order of priority |
| Heap.PopsOneMore | pkg/util/priorityqueue.go:122-141 | a legal pop extends a legal sequence of pops by one key |
| PriorityQueues.PriorityQueue.constructor | pkg/util/priorityqueue.go:47-53 | a new queue of any capacity is a valid, empty heap |
| PriorityQueues.PriorityQueue.ContentsFacts | pkg/util/priorityqueue.go:36-40 | the index has exactly the keys of the represented map, which has `size` of them, and each node bears its key |
| PriorityQueues.PriorityQueue.Add | pkg/util/priorityqueue.go:101-112 | refuses a present key, changing nothing; otherwise adds exactly that entry; keeps the heap; floor(log2(size)) + 1 sift rounds |
| PriorityQueues.PriorityQueue.Append | pkg/util/priorityqueue.go:107-110 | with room in the array, adds exactly the new entry and keeps the heap |
| PriorityQueues.PriorityQueue.Peek | pkg/util/priorityqueue.go:114-120 | nothing exactly when empty, otherwise the value of an entry that none outranks |
| PriorityQueues.PriorityQueue.Pop | pkg/util/priorityqueue.go:122-141 | errs exactly when empty, otherwise removes exactly one entry that none outranks and returns its value; logarithmically many steps |
| PriorityQueues.PriorityQueue.Set | pkg/util/priorityqueue.go:153-164 | errs exactly for a missing key, otherwise changes exactly that key's priority; logarithmically many steps |
| PriorityQueues.PriorityQueue.Remove | pkg/util/priorityqueue.go:172-197 | errs exactly for a missing key, otherwise removes exactly that entry and returns its value; logarithmically many steps |
| PriorityQueues.PriorityQueue.HasKey | pkg/util/priorityqueue.go:166-170 | true exactly for the keys of the represented map |
| PriorityQueues.PriorityQueue.Drain | pkg/util/priorityqueue_test.go:304-313 | popping until empty returns a permutation of the contents in non-increasing order of priority |
| PriorityQueues.PriorityQueue.ResizeIfNecessary | pkg/util/priorityqueue.go:239-248 | doubles the array exactly when it is full; the represented map is the same |
| PriorityQueues.PriorityQueue.Swap | pkg/util/priorityqueue.go:250-256 | exchanges two slots and keeps the represented map |
| PriorityQueues.PriorityQueue.SiftUp | pkg/util/priorityqueue.go:286-302 | repairs upward disorder at a slot, keeps the represented map, in exactly floor(log2(index + 1)) + 1 rounds |
| PriorityQueues.PriorityQueue.SiftDown | pkg/util/priorityqueue.go:258-284 | repairs downward disorder at a slot, keeps the represented map, in at most floor(log2(size)) - floor(log2(index + 1)) swaps |
| PriorityQueues.PriorityQueue.CheckOrder | pkg/util/priorityqueue.go:203-222 | the loop with its two early exits finds a fault exactly if some child outranks its parent |
| PriorityQueues.PriorityQueue.CheckIndex | pkg/util/priorityqueue.go:223-228 | finds a fault exactly if some key is not that of the node it points at |
| PriorityQueues.PriorityQueue.CheckValidity | pkg/util/priorityqueue.go:199-235 | finds no fault exactly when heap order holds and each indexed key is that of its node, with as many keys as nodes; for an index into the live slots, exactly when the index is a bijection; with nil slots after them, exactly when the queue is valid |
| HubData.ScanSummaryStatus | pkg/hub/datatypes.go:215-238 | success if any summary is one, else in progress if any is, else failure, also without summaries |
| HubData.SummaryMeans | pkg/hub/datatypes.go:215-238 | success exactly if some summary is one, in progress exactly if some is and none is a success, failure exactly if all are |
| HubData.CountsMean | pkg/hub/datatypes.go:116-160 | violations are the IN_VIOLATION count, vulnerabilities the HIGH and CRITICAL counts of VULNERABILITY added up, zero where not reported |
| CoreInvariants.TransitionSucceedsIffLegal | pkg/core/model/model.go:320-448 | leaving and entering a state never fail on a legal transition; an attempt succeeds exactly when legal, with this new state; a rejected one changes only the log |
| CoreInvariants.HistorySplits | pkg/core/model/model.go:441-442 | the successes logged for a sha are those of the earlier part of the log followed by those of the later part |
| CoreInvariants.MovedKeepsInv | pkg/core/model/model.go:342-365 | a legal transition keeps queue agreement, priority agreement, the log's chain and the image records' invariant |
| CoreInvariants.AttemptKeepsInv | pkg/core/model/model.go:434-448 | any attempted transition, legal or not, keeps the invariant |
| CoreInvariants.AddImageInClosedForm | pkg/core/model/model.go:367-397 | adding an image never fails; it creates an unknown image or raises a non-negative priority, in the queue too; it never lowers one |
| CoreInvariants.AddImageKeepsInv | pkg/core/model/model.go:262-267 | adding an image keeps the invariant and makes the image known |
| CoreInvariants.AddImagesKeepsInv | pkg/core/model/model.go:526-535 | adding any list of images keeps the invariant, reports no error and makes all of them known |
| CoreInvariants.AddPodKeepsInv | pkg/core/model/model.go:243-259 | adding a pod keeps the invariant, its containers' images being known afterwards, and reports no error |
| CoreInvariants.AddPodsKeepsInv | pkg/core/model/model.go:514-524 | adding any list of pods keeps the invariant and reports no error |
| CoreInvariants.ScanDidFinishKeepsInv | pkg/core/model/model.go:269-304 | a finished scan with any result, in any status, keeps the invariant |
| CoreInvariants.FinishRunningScanClientKeepsInv | pkg/core/model/model.go:478-493 | a finished or failed scan client, in any status, keeps the invariant |
| CoreInvariants.StepKeepsInv | pkg/core/model/model.go:60-92 | every action of the loop with any arguments keeps the invariant; adding pods or images reports no error |
| CoreInvariants.RunKeepsInv | pkg/core/model/model.go:60-92 | after every run: queued exactly when InQueue, log replays to the status, priorities agree unless lowered, results are successes, pods' images are known |
| CoreTheorems.StepEvolves | pkg/core/model/model.go:94-153 | no action forgets an image, rewrites the log or makes a negative priority non-negative; only a failed scan client lowers a priority |
| CoreTheorems.RunEvolves | pkg/core/model/model.go:94-153 | the same over any run from any state that satisfies the invariant, no priority being lowered in a run without a failed scan client |
| CoreTheorems.StatusFollowsLog | pkg/core/model/model.go:434-448 | along any run Unknown is never re-entered, Complete never left, and a status changes only with a logged success |
| CoreTheorems.NewStatusIsLogged | pkg/core/model/model.go:434-448 | an image in another status than before a run has a success logged in that run that entered it |
| CoreState.ScanDidFinishInTwoSteps | pkg/core/model/model.go:269-304 | whatever the status and the report, a success is stored first and then the one transition asked for is attempted, or none |
| CoreTheorems.AttemptLogsOne | pkg/core/model/model.go:434-448 | every attempted transition, rejected or not, logs exactly one entry: its sha, where it started, where to, and its error |
| CoreTheorems.StartLogsOwn | pkg/core/model/model.go:465-476 | starting a scan client logs no start of another image |
| CoreTheorems.OthersStartNothing | pkg/core/model/model.go:94-153 | no other action logs a success into RunningScanClient |
| CoreTheorems.ChainIsBounded | pkg/core/model/scanstatus.go:66-86 | rank argument: a chain of legal transitions with R re-queueings has at most 4 + 3R links, less the rank of its end |
| CoreTheorems.TransitionsAreBounded | pkg/core/model/scanstatus.go:66-95 | in every run an image re-queued R times has made at most 4 + 3R successful transitions |
| CoreTheorems.ExactPrioritiesSurviveIff | pkg/core/model/model.go:478-493 | exact agreement of queue and image priorities survives an action exactly unless it reports a failed client for a queued image of another priority than -1 |
| CoreTheorems.ExactPrioritiesAreNotInvariant | pkg/core/model/model.go:486-492 | a run after which the queue holds a priority the image has lost |
| CoreTheorems.SuccessCompletesIff | pkg/core/model/model.go:281-288 | a success is always stored, and completes the image without error exactly from Unknown, RunningHubScan or Complete |
| CoreTheorems.SuccessMayNotComplete | pkg/core/model/model.go:281-288 | a run after which a success is answered with an error and leaves its image in the queue |
| CoreTheorems.ReportOnUnknown | pkg/core/model/model.go:269-304 | a report on an unknown image always succeeds, moves it to the status fitting the report, stores a success with it, and changes no other image |
| CoreTheorems.StartSucceedsIff | pkg/core/model/model.go:465-476 | starting a scan client succeeds exactly for a queued image; otherwise nothing changes, not even the log |
| CoreTheorems.CleanFinishSucceedsIff | pkg/core/model/model.go:478-493 | a clean finish succeeds exactly for an image that is Unknown, InQueue or RunningScanClient; images, queue and pods are otherwise as they were |
| CoreTheorems.FailedFinishSucceedsIff | pkg/core/model/model.go:478-493 | a failed finish re-queues with priority -1 exactly an image that is Unknown, RunningScanClient or RunningHubScan; otherwise it lowers the priority and changes neither queue nor status |
| CoreTheorems.AnyOrderCompletes | pkg/core/model/model.go:269-304 | InProgress and Success updates in any order complete an Unknown or RunningHubScan image exactly if one is a success |
| CoreTheorems.FiledMeans | pkg/core/model/model.go:257-257 | filing pods under qualified names keeps for each name its last pod |
| CoreTheorems.AllPodsReplaces | pkg/core/model/model.go:514-524 | afterwards exactly the given names are known, each for the last pod of that name |
| CoreTheorems.NextImageAgreesWithSearch | pkg/core/model/model.go:450-463 | peeking at the heap agrees with a naive search for an InQueue image of maximal queued priority |
| CoreOutcomes.ReportInClosedForm | pkg/core/model/model.go:269-304 | error, record and queue after any report; nothing but the one image, its place in the queue and the log changes |
| CoreOutcomes.MissingReport | pkg/core/model/model.go:274-280 | no results: Unknown goes to InQueue and into the queue, any other status is an error and stays |
| CoreOutcomes.SuccessReport | pkg/core/model/model.go:281-288 | a success is stored; Unknown and RunningHubScan become Complete, Complete stays, InQueue and RunningScanClient stay with an error |
| CoreOutcomes.InProgressReport | pkg/core/model/model.go:289-295 | a scan in progress is never an error; Unknown and InQueue become RunningHubScan, any other status stays |
| CoreOutcomes.FailureReport | pkg/core/model/model.go:296-303 | a failure takes Unknown and RunningHubScan to InQueue and into the queue; any other status stays with an error |
| CoreOutcomes.ClientStart | pkg/core/model/model.go:465-476 | InQueue becomes RunningScanClient and leaves the queue; otherwise an error, and not even the log changes |
| CoreOutcomes.ClientFinish | pkg/core/model/model.go:478-493 | Unknown, InQueue and RunningScanClient become RunningHubScan; RunningHubScan and Complete stay with an error |
| CoreOutcomes.ClientFailure | pkg/core/model/model.go:478-493 | the priority becomes -1 in every status; Unknown, RunningScanClient and RunningHubScan are re-queued with it; InQueue and Complete stay with an error, the queue as it was |
| CoreOutcomes.UnknownSha | pkg/core/model/model.go:269-273 | a report, a start or a finish for an unknown sha is an error and changes nothing, not even the log |
| CoreOutcomes.NewImage | pkg/core/model/imageinfo.go:45-86 | a new image is Unknown, without results, and given back exactly as it came |
| CoreOutcomes.AddImagesTakesHighest | pkg/core/model/model.go:367-397 | adding images makes exactly the given ones known; each priority becomes the highest of the old and the given, negative ones staying; nothing else changes |
| CoreOutcomes.ImagesAdded | pkg/core/model/model.go:124-136 | the actions for one image and for all images add them, without an error |
| CoreOutcomes.PodAdded | pkg/core/model/model.go:96-108 | the action adds the images of the pod's containers and files the pod under namespace/name, without an error |
| CoreOutcomes.PodsSet | pkg/core/model/model.go:117-122 | the action forgets all pods and then adds the given ones, one after another |
| CoreOutcomes.PodDeleted | pkg/core/model/model.go:110-115 | the action removes exactly that pod, and is an error if there is none |
| CoreOutcomes.QualifiedNamesTellApart | pkg/core/model/pod.go:34-37 | without a slash in namespaces, two pods have the same qualified name exactly if namespace and name agree |
| CoreOutcomes.QueueOperationsFailIff | pkg/core/model/model.go:415-430 | adding fails exactly for an unknown or a queued sha, removing and re-prioritising exactly for one not queued; failures change nothing |
| CoreModel.ImageInfo.constructor | pkg/core/model/imageinfo.go:45-57 | a new record is Unknown, has no results and bears the image's sha, repo tag, priority and project |
| CoreModel.ImageInfo.SetScanStatus | pkg/core/model/imageinfo.go:59-62 | changes the status and nothing else |
| CoreModel.ImageInfo.SetPriority | pkg/core/model/imageinfo.go:64-69 | changes the priority and nothing else |
| CoreModel.ImageInfo.GetImage | pkg/core/model/imageinfo.go:82-86 | the image bears the first repo tag, of which there must be one |
| CoreModel.ImageInfo.FirstRepoTag | pkg/core/model/imageinfo.go:95-101 | the first tag, of which there must be one |
| CoreModel.Model.constructor | pkg/core/model/model.go:51-59 | a new model is the empty state |
| CoreModel.Model.Apply | pkg/core/model/model.go:62-83 | one turn of the loop on the records and the heap does what the specification's step does, and keeps the invariant |
| CoreModel.Model.Process | pkg/core/model/model.go:60-92 | processing any list of actions with real records and a real heap refines the specification's run |
| CoreModel.Model.AddImageToScanQueue | pkg/core/model/model.go:415-421 | refines adding the sha with its image's priority to the queue as a map |
| CoreModel.Model.SetImagePriority | pkg/core/model/model.go:423-425 | refines changing one priority in the queue as a map |
| CoreModel.Model.RemoveImageFromScanQueue | pkg/core/model/model.go:427-430 | refines removing the sha from the queue as a map |
| CoreModel.Model.GetNextImageFromScanQueue | pkg/core/model/model.go:450-463 | in states satisfying the invariant never panics, and answers an image that nothing queued outranks, or nothing if none is queued |
| CoreModel.Model.LeaveState | pkg/core/model/model.go:320-329 | dequeues exactly when leaving InQueue |
| CoreModel.Model.EnterState | pkg/core/model/model.go:331-340 | enqueues exactly when entering InQueue |
| CoreModel.Model.SetImageScanStatusForSha | pkg/core/model/model.go:342-365 | refines the unlogged attempt at a transition, error by error; writes one record only |
| CoreModel.Model.SetImageScanStatus | pkg/core/model/model.go:434-448 | refines the logged attempt at a transition |
| CoreModel.Model.CreateImage | pkg/core/model/model.go:367-397 | refines adding an image; answers whether it was new |
| CoreModel.Model.AddImage | pkg/core/model/model.go:261-267 | refines adding an image |
| CoreModel.Model.AddPod | pkg/core/model/model.go:237-259 | the loop over containers refines adding their images in order and then filing the pod |
| CoreModel.Model.AllPods | pkg/core/model/model.go:514-524 | the loop refines adding the pods in order to an empty set of pods |
| CoreModel.Model.AllImages | pkg/core/model/model.go:526-535 | the loop refines adding the images in order |
| CoreModel.Model.DeletePod | pkg/core/model/model.go:505-512 | removes a known pod and errs for an unknown one, leaving the images alone |
| CoreModel.Model.ScanDidFinish | pkg/core/model/model.go:269-304 | refines the handling of a report, including results stored before a rejected transition |
| CoreModel.Model.StartScanClient | pkg/core/model/model.go:465-476 | refines the start of a scan client |
| CoreModel.Model.FinishRunningScanClient | pkg/core/model/model.go:478-493 | refines the end of a scan client, including a priority lowered before a rejected transition |
| CoreModel.Model.GetShas | pkg/core/model/model.go:495-503 | exactly the shas in the status, each once |
| CoreReports.ScanResultsForImage | pkg/core/model/modelextensions.go:64-82 | refines the lookup of one image's scan, error by error |
| CoreReports.ScanResultsForPod | pkg/core/model/modelextensions.go:33-62 | the loop with early exits refines the accumulated scan of the pod's containers |
| CoreReports.ImageLookup | pkg/core/model/modelextensions.go:64-82 | an image has a scan exactly if it is complete with results, and then their status and counts; an unknown sha and lost results are the errors |
| CoreReports.FirstUnscannedDecides | pkg/core/model/modelextensions.go:42-49 | the first container whose image has no scan decides about the pod, be it unfinished or an error |
| CoreReports.PodLookup | pkg/core/model/modelextensions.go:33-41 | an unknown pod is an error; a pod without containers is scanned, without violations |
| CoreReports.ContainersScannedIffComplete | pkg/core/model/modelextensions.go:42-49 | in sound states the lookup never errs, and finds a scan exactly when every container's image is complete |
| CoreReports.ContainersScanMeans | pkg/core/model/modelextensions.go:39-61 | violations and vulnerabilities are sums over containers with multiplicity; the overall status is the last one that is not NOT_IN_VIOLATION |
| CoreReports.PodScannedIffComplete | pkg/core/model/modelextensions.go:33-62 | in every reachable state a known pod's lookup does not err and finds a scan exactly when all its images are complete |
| CoreReports.ScanResults | pkg/core/model/modelextensions.go:84-128 | reports exactly the pods that have a scan and the complete images, each once; errs exactly for inconsistencies, of which reachable states have none |
| CoreReports.ScanResultsOfPods | pkg/core/model/modelextensions.go:86-103 | the first loop reports exactly the pods that have a scan, each once, and errs exactly for those whose lookup does |
| CoreReports.ScanResultsOfImages | pkg/core/model/modelextensions.go:105-125 | the second loop reports exactly the complete images that have results, each once, and errs exactly for those that lack them |
| CoreReports.ReachableHasNoErrors | pkg/core/model/modelextensions.go:84-128 | no reachable state has a pod whose lookup errs or a complete image without results |
| CoreReports.ReportedFields | pkg/core/model/modelextensions.go:84-125 | which pods and images are reported, and each field of what is reported of them |
| CoreMetrics.CountStatuses | pkg/core/model/modelextensions.go:199-203 | each status is counted exactly as often as images have it |
| CoreMetrics.CountContainers | pkg/core/model/modelextensions.go:205-209 | each number of containers is counted exactly as often as pods have it |
| CoreMetrics.CountReferences | pkg/core/model/modelextensions.go:211-217 | each image is counted exactly as often as containers refer to it |
| CoreMetrics.CountPodReferences | pkg/core/model/modelextensions.go:214-216 | the inner loop adds exactly the references of one pod's containers |
| CoreMetrics.CountImageCounts | pkg/core/model/modelextensions.go:218-221 | each reference count is counted exactly as often as images have it |
| CoreMetrics.CountPods | pkg/core/model/modelextensions.go:223-241 | the three pod maps count exactly the scans of the pods that can be looked up, unscanned ones as Unknown and -1 |
| CoreMetrics.CountImages | pkg/core/model/modelextensions.go:243-261 | the three image maps count exactly the images not missing results, incomplete ones as Unknown and -1 |
| CoreMetrics.ComputeMetrics | pkg/core/model/modelextensions.go:198-276 | every field of the metrics counts what it is named after |
| CoreMetrics.PodBucketsMean | pkg/core/model/modelextensions.go:223-241 | a pod counts under the status and numbers of its scan, or under Unknown and -1 |
| CoreMetrics.ImageBucketsMean | pkg/core/model/modelextensions.go:243-261 | so does an image, besides under its scan status |
| CoreMetrics.SlotsMean | pkg/core/model/modelextensions.go:211-217 | what is counted per image are exactly the containers of the known pods |
| CoreMetrics.ContainersConserved | pkg/core/model/modelextensions.go:205-221 | the histogram by pod and the histogram by image have the same weighted total, the number of containers |
| CoreMetrics.BucketsConserved | pkg/core/model/modelextensions.go:198-276 | in every reachable state the pod buckets each add up to the pods and the image buckets each to the images |
| Counting.BumpCounts | pkg/core/model/modelextensions.go:202-202 | incrementing a bucket, which may be missing, keeps the counts exact for one more element |
| Counting.CountingConserves | pkg/core/model/modelextensions.go:198-276 | summing weights bucket by bucket equals summing them element by element |
| Counting.CountsAddUp | pkg/core/model/modelextensions.go:199-203 | the buckets of exact counts add up to the number of elements |
| Counting.HistogramRemembers | pkg/core/model/modelextensions.go:211-221 | a histogram of counts, weighted, gives back the number of elements first counted |
| HubScans.HubStepKeepsResults | pkg/hub/model.go:156-271 | after every hub action a scan in stage Complete has results that are not in progress |
| HubScans.InProgressChanges | pkg/hub/model.go:127-271 | exactly which scans each action adds to or removes from the ones taking up capacity |
| HubScans.UnknownChanges | pkg/hub/model.go:127-271 | exactly which scans each action makes unknown, or takes from the unknown ones |
| HubScans.CompletionIsPublished | pkg/hub/model.go:156-220 | one action publishes at most one update, and exactly the name and results of what becomes complete by it |
| HubScans.SuccessesSurviveIff | pkg/hub/model.go:202-242 | that every complete scan was a success survives an action if and only if it does not finish a hub scan with a failed summary |
| HubScans.CompleteIsNotSuccess | pkg/hub/model.go:202-242 | a run after which a complete scan has a failed summary |
| HubScans.CompleteScansSucceedUnlessFinishFailed | pkg/hub/model.go:156-271 | over any run without such an action every complete scan was a success |
| HubScans.HubRunPublishes | pkg/hub/model.go:80-271 | after every run each complete scan has final results, and exactly these have been published under its name; every update bears the name of its results |
| HubScans.UnknownIffOnlyListed | pkg/hub/model.go:127-271 | after every run a scan is unknown if and only if it was listed and never fetched or started, and known if and only if one of the three |
| HubScans.FetchPollIsRun | pkg/hub/model.go:182-200 | the poll for unknown scans is a run of actions, so that the theorems about runs cover it with others in between |
| HubScans.CheckPollIsRun | pkg/hub/model.go:222-242 | so is the poll for completion |
| HubScans.PollsKeepResults | pkg/hub/model.go:182-242 | neither poll, whatever the server answers, leaves a complete scan without final results; the completion poll takes up no capacity |
| HubOutcomes.TakesUpRoom | pkg/hub/model.go:289-303 | a scan takes up room exactly in stages ScanClient and HubScan, and is unknown exactly in stage Unknown |
| HubOutcomes.ScansNotFetched | pkg/hub/model.go:127-139 | a failed fetch of the code locations changes nothing |
| HubOutcomes.ScansFetched | pkg/hub/model.go:127-139 | a successful one is remembered; listed names not known before are Unknown, every other record is as it was |
| HubOutcomes.ResultsFetched | pkg/hub/model.go:156-180 | a success makes the scan Complete, one in progress HubScan, a failure Failure; results stored and published, no other scan changed |
| HubOutcomes.ScanFinished | pkg/hub/model.go:202-220 | a scan in HubScan becomes Complete with the results, published; any other stage and an unknown name are errors that change nothing |
| HubOutcomes.ClientStarted | pkg/hub/model.go:246-252 | the scan is in ScanClient without results, no other scan changed |
| HubOutcomes.ClientFinished | pkg/hub/model.go:254-271 | a scan in ScanClient goes to HubScan, or to Failure if it failed, with its results; anything else is an error that changes nothing |
| HubOutcomes.KeptMeanwhile | pkg/hub/model.go:127-271 | a scan stays as it is, and updates stay published, during any actions that do not mention it |
| HubOutcomes.ScanLifeCycle | pkg/hub/model.go:202-271 | a scan that is started, finished cleanly by its client and found successful is Complete and published, whatever happens to others in between |
| HubOutcomes.FetchPollOutcome | pkg/hub/model.go:182-200 | the poll records for each scan it asked for what was found of it, by stage, and leaves every other alone |
| HubOutcomes.CheckPollOutcome | pkg/hub/model.go:222-242 | the poll completes each scan on the hub that it found no longer in progress, success or failure, and leaves every other alone |
| HubModels.HubModel.constructor | pkg/hub/model.go:45-56 | a new hub side knows no scans and has fetched none |
| HubModels.HubModel.Publish | pkg/hub/model.go:80-88 | adds one update to those awaiting delivery |
| HubModels.HubModel.DidFetchScans | pkg/hub/model.go:127-139 | the loop makes every listed location known, leaves known ones alone, and does nothing after a failed fetch |
| HubModels.HubModel.GetUnknownScans | pkg/hub/model.go:141-154 | exactly the unknown scans, each once |
| HubModels.HubModel.DidFetchScanResults | pkg/hub/model.go:156-180 | the scan takes the stage of its summary and the results, known before or not, and is published |
| HubModels.HubModel.FetchUnknownScans | pkg/hub/model.go:182-200 | polls every scan unknown at the beginning exactly once, skipping failures and missing results |
| HubModels.HubModel.ScanDidFinish | pkg/hub/model.go:202-220 | completes and publishes a hub scan; errs, changing nothing, for an unknown scan or another stage |
| HubModels.HubModel.CheckScansForCompletion | pkg/hub/model.go:222-242 | polls every scan in progress at the beginning exactly once and finishes those no longer in progress |
| HubModels.HubModel.StartScanClient | pkg/hub/model.go:246-252 | replaces whatever was recorded by a scan in stage ScanClient without results |
| HubModels.HubModel.FinishScanClient | pkg/hub/model.go:254-271 | moves a scan from ScanClient to HubScan or Failure, and errs, changing nothing, otherwise |
| HubModels.HubModel.GetInProgressScans | pkg/hub/model.go:289-303 | exactly the scans in stage HubScan or ScanClient, each once, so that their number is the list's length |
| Dispatch.HubMovesKeepsRoom | pkg/hub/model.go:127-271 | no hub action but the dispatcher's adds to the scans that were dispatched to the hub |
| Dispatch.DispatchTakesOne | pkg/hub/model.go:246-252 | a start with room left keeps the dispatched scans within the limit |
| Dispatch.ApplyKeepsSysInv | pkg/core/perceptor.go:163-360 | every step of the interleaved protocol keeps: a hub the dispatcher has committed to has room, and dispatched scans stay within the limit |
| Dispatch.RunKeepsSysInv | pkg/core/perceptor.go:163-360 | the same, and the core's invariant, in every state of every interleaved run |
| Dispatch.CapacityIsRespected | pkg/core/scanscheduler.go:35-45 | in every interleaved run a hub's scans in progress never exceed its limit plus those it found in progress by fetching results, let alone plus how often it found one |
| Dispatch.ApplyKeepsSpent | pkg/core/perceptor.go:319-360 | a handed-out image stays out of the dispatcher's hands until it re-enters the queue, whatever comes between peek and start |
| Dispatch.SpentUntilRequeued | pkg/core/perceptor.go:319-360 | the same from a hand-out to any later state of the run |
| Dispatch.HandedOutAgainOnlyAfterRequeue | pkg/core/perceptor.go:319-360 | between two hand-outs of one image, in any interleaved run, a success of that image into InQueue is logged |
| Dispatch.CoreEvolves | pkg/core/perceptor.go:163-360 | between any two states of an interleaved run the core's log only grows and its invariant holds |
| Dispatch.EveryStartWasHandedOut | pkg/core/perceptor.go:340-357 | every success into RunningScanClient logged in an interleaved run is the start that follows one hand-out of that image, with nothing else done by the dispatcher in between |
| Dispatch.StartsNeedOwnHandOuts | pkg/core/perceptor.go:340-357 | two such successes have a hand-out of the second image between them, so that no hand-out starts two scan clients |
| Dispatch.RunningWasHandedOut | pkg/core/perceptor.go:340-357 | an image that is RunningScanClient in the core has been handed out |
| DispatchRuns.CoreRunsOnItsOwn | pkg/core/perceptor.go:128-172 | in every interleaved run the core goes through a run of its own, of the actions sent to it and the starts of what was handed out |
| DispatchRuns.HubsRunOnTheirOwn | pkg/core/perceptor.go:163-172 | so does every hub, with an unchanged limit |
| DispatchRuns.MovesAreCounted | pkg/hub/model.go:156-180 | the record of scans found in progress counts exactly the fetched results in progress of scans that took up no room |
| DispatchRuns.LimitIsRespected | pkg/core/scanscheduler.go:35-45 | in every interleaved run a hub's scans in progress never exceed its limit plus the number of those fetches, counted off the run |
| DispatchRuns.CheckHubDecides | pkg/core/scanscheduler.go:37-42 | a hub is assigned exactly if fewer scans are in progress there than its limit, and struck off otherwise |
| DispatchRuns.LookingSincePeek | pkg/core/scanscheduler.go:35-45 | a dispatcher that still looks for a hub has found all others full since its peek |
| DispatchRuns.GivesUpOnlyWhenFull | pkg/core/scanscheduler.go:43-44 | it gives up only after it found every hub full since its peek |
| DispatchRuns.HandOutProgress | pkg/core/perceptor.go:340-357 | a hand-out is next started in the core and then recorded at its hub, with nothing else done by the dispatcher in between |
| DispatchRuns.HandOutIsRecorded | pkg/core/perceptor.go:355-356 | before the dispatcher turns to another image, what it handed out has been started in the core and is in stage ScanClient at its hub |
| TimerStates.ReceiveKeepsInv | pkg/util/timer.go:133-199 | every case of the select loop keeps: one action in flight exactly in RunningAction, a live ticker exactly in Ready and RunningAction |
| TimerStates.ModeMeans | pkg/util/timer.go:153-183 | what the mode of a history says about its last resume and last accepted pause |
| TimerStates.UnbrokenIsOrderly | pkg/util/timer.go:153-183 | an unbroken history alternates resumes and accepted pauses and starts actions only in between |
| TimerStates.QuiescenceLasts | pkg/util/timer.go:135-152 | ticks, finished actions and new delays neither begin nor end quiescence, and start nothing while it lasts |
| TimerStates.PauseQuiesces | pkg/util/timer.go:153-169 | after a request to pause a timer is quiescent, and the request is accepted exactly if it was not before |
| TimerStates.ResumeTakesEffectIff | pkg/util/timer.go:170-183 | a resume ends quiescence exactly if no pause is waiting for an action to finish |
| TimerStates.RequestOutcomes | pkg/util/timer.go:153-183 | status and answer of every request in every state; a refused one changes nothing |
| TimerStates.ActionOutcomes | pkg/util/timer.go:135-152 | a finished action makes the timer ready, or paused if asked for; a tick while running is dropped |
| TimerStates.StopIsFinal | pkg/util/timer.go:184-194 | after a stop nothing is received; the ticker is left alive exactly if an action was running |
| TimerStates.DelayIsLastSet | pkg/util/timer.go:91-107 | a new timer is paused with its delay; the delay is the one last set, and setting it does nothing else |
| TimerStates.ActionStartsIff | pkg/util/timer.go:122-183 | an action starts exactly on a tick while ready and on an immediate resume while paused; only a finish takes one out of flight |
| TimerStates.EveryRunIsOrderly | pkg/util/timer.go:109-200 | over every run of a new timer: at most one action in flight, resumes and accepted pauses alternate, no action starts in a pause |
| TimerStates.ActionsAreAccountedFor | pkg/util/timer.go:109-200 | over every run of a new timer the actions started are exactly the ticks while ready and immediate resumes while paused, and equal the finished ones plus at most one in flight |
| Timers.Timer.constructor | pkg/util/timer.go:91-107 | a new timer is paused, with no ticker and no action in flight |
| Timers.Timer.NewRunningTimer | pkg/util/timer.go:78-89 | a new timer to which the resume has been applied, which is never refused |
| Timers.Timer.ExecuteAction | pkg/util/timer.go:122-132 | one more action is in flight, and a queued pause is forgotten |
| Timers.Timer.OnDidFinishAction | pkg/util/timer.go:135-142 | refines the machine's step: a queued pause takes effect, otherwise the timer is ready again |
| Timers.Timer.OnTick | pkg/util/timer.go:143-152 | refines the machine's step: a tick starts an action only when ready |
| Timers.Timer.Pause | pkg/util/timer.go:153-208 | refines the machine's step and reply in every state, and stops a ticker only if there is one |
| Timers.Timer.Resume | pkg/util/timer.go:170-215 | refines the machine's step and reply in every state; with a delay that is not positive a paused timer would panic |
| Timers.Timer.OnStop | pkg/util/timer.go:184-194 | refines the machine's step: stopped, with the ticker left alive if an action was running |
| Timers.Timer.OnSetDelay | pkg/util/timer.go:195-197 | refines the machine's step: any delay is stored and nothing else changes |
| LoginStates.HappenKeepsInv | pkg/hub/hub.go:134-155 | a login, each of its calls to the four timers, and any step of a timer in between keep: timers already told to pause, or not yet told to resume, are quiescent |
| LoginStates.RunKeepsLoginInv | pkg/hub/hub.go:134-155 | the same over every interleaved run |
| LoginStates.LoginOutcomes | pkg/hub/hub.go:138-154 | after a login the status is its outcome; the timers are called exactly if that is a change |
| LoginStates.TimersRunOnTheirOwn | pkg/hub/hub.go:134-155 | in every interleaved run each work timer goes through a run of its own, of its steps and the requests of the logins |
| LoginStates.DownMeansQuiescent | pkg/hub/hub.go:140-145 | while the hub is down each work timer is paused or finishing one action with a pause queued; in any continuation without a successful login this stays so and no timer starts an action |
| LoginStates.LoginResumesIffPaused | pkg/hub/hub.go:146-151 | a login's request to resume takes effect exactly for a timer with no pause still waiting |
| LoginStates.UpDoesNotMeanRunning | pkg/hub/hub.go:146-151 | a run after which the hub is up and a work timer is quiescent all the same |
| LoginStates.RunFourCalls | pkg/hub/hub.go:138-154 | an uninterrupted change of status sends exactly one request to each of the four timers |
| Hubs.Hub.constructor | pkg/hub/hub.go:60-99 | a new hub is down with four paused, distinct work timers and no errors, and its login and metrics timers are running |
| Hubs.Hub.RecordError | pkg/hub/hub.go:108-119 | appends an error if there is one and then halves a list that exceeds 1000, which therefore never exceeds 1000 |
| Hubs.RecordedMeans | pkg/hub/hub.go:108-119 | up to 1000 errors are kept in order; the one that exceeds them makes the oldest 500 go |
| Hubs.RepliesMean | pkg/hub/hub.go:142-151 | with room in the log exactly the refusals are added, in the order of the calls |
| Hubs.Hub.PauseWorkTimers | pkg/hub/hub.go:142-145 | each of the four timers receives one request to pause, and exactly the refusals are recorded |
| Hubs.Hub.ResumeWorkTimers | pkg/hub/hub.go:148-151 | each of the four timers receives one request to resume at once, and exactly the refusals are recorded |
| Hubs.Hub.DidLogin | pkg/hub/hub.go:138-155 | uninterrupted, the action is the run of one login and four calls, or no change but a recorded error; keeps the invariant |
| BreakerStates.BackoffIsExactIff | pkg/hub/circuitbreaker.go:123-126 | the 64-bit product of 2^n and a second is the intended duration exactly for n <= 33 |
| BreakerStates.WrapMeans | pkg/hub/circuitbreaker.go:125-125 | the product is the one 64-bit value that differs from the true one by a multiple of 2^64 |
| BreakerStates.DelayIsCapped | pkg/hub/circuitbreaker.go:123-126 | the delay never exceeds the maximum; up to n = 33 it is 2^n seconds if that is no more than the maximum, and the maximum otherwise |
| BreakerStates.DelayGrows | pkg/hub/circuitbreaker.go:123-126 | up to n = 33 the delay is positive and non-decreasing in n, for any positive maximum |
| BreakerStates.DelayIsPositiveIff | pkg/hub/circuitbreaker.go:123-126 | for every n: the delay is positive exactly for n <= 33 and eight listed counts after that |
| BreakerStates.IssuedIsAtRest | pkg/hub/circuitbreaker.go:134-148 | after a request the breaker is never left checking, and a disabled one has failures and a check time |
| BreakerStates.RequestOutcomes | pkg/hub/circuitbreaker.go:86-148 | executed exactly unless disabled with the check time not passed; a success makes a disabled breaker like new; a failure disables it for the delay of its count |
| BreakerStates.LateOutcomes | pkg/hub/circuitbreaker.go:95-121 | no outcome changes a disabled breaker, and a success changes a checking one only |
| BreakerStates.ResetIsNew | pkg/hub/circuitbreaker.go:63-69 | a reset makes any breaker like new |
| BreakerStates.ObserveMeans | pkg/hub/circuitbreaker.go:134-148 | the streak observed is the number of executed requests, the end of the first and the start and end of the last |
| BreakerStates.OneMoreFailure | pkg/hub/circuitbreaker.go:86-108 | one more failed request extends a streak: the count goes up by one and the wait was sat out |
| BreakerStates.FailuresFormStreak | pkg/hub/circuitbreaker.go:86-148 | any sequence of requests of which none succeeds forms a streak |
| BreakerStates.FailuresAreSpreadOut | pkg/hub/circuitbreaker.go:86-148 | k executed failures in a row lie further apart than the k - 1 delays between them, for any k and any starting count |
| BreakerStates.DelaysAreAsIntended | pkg/hub/circuitbreaker.go:123-126 | up to the 33rd failure each delay is 2^i seconds, or the maximum where that is less, and the sum is no less for starting later in a streak |
| BreakerStates.FailuresSpanIntendedDelays | pkg/hub/circuitbreaker.go:86-148 | k >= 2 failures in a row, anywhere in a streak of at most 34, span more than the k - 1 intended delays between them, and more than the first k - 1 |
| CircuitBreakers.CircuitBreaker.constructor | pkg/hub/circuitbreaker.go:41-51 | a new breaker is enabled and at rest |
| CircuitBreakers.CircuitBreaker.Reset | pkg/hub/circuitbreaker.go:63-69 | from any state: enabled, no failures, no check time |
| CircuitBreakers.CircuitBreaker.IsAbleToIssueRequest | pkg/hub/circuitbreaker.go:82-93 | only a disabled breaker whose check time has passed changes, to checking; able exactly unless still disabled |
| CircuitBreakers.CircuitBreaker.Failure | pkg/hub/circuitbreaker.go:95-108 | disables an enabled or checking breaker, counts the failure and sets the check time; a disabled one is left alone |
| CircuitBreakers.CircuitBreaker.Success | pkg/hub/circuitbreaker.go:110-121 | only a checking breaker changes, to a fresh enabled one |
| CircuitBreakers.CircuitBreaker.SetNextCheckTime | pkg/hub/circuitbreaker.go:123-128 | the check time is now plus the delay for the current count, and no later than now plus the maximum |
| CircuitBreakers.CircuitBreaker.IssueRequest | pkg/hub/circuitbreaker.go:130-148 | refines one issued request: not executed while disabled, otherwise counted by its outcome; the breaker ends at rest |
| Perceptors.MergedHaveResults | pkg/core/perceptor.go:86-97 | merging the scans of all hubs keeps that complete scans have final results |
| Perceptors.MergedScans | pkg/core/perceptor.go:86-97 | a scan is among the merged ones exactly if some hub knows it, with the record of the last hub that does |
| Perceptors.PassOneSha | pkg/core/perceptor.go:105-124 | resolving one unknown image makes of its record what its merged hub record says, and changes no other image |
| Perceptors.GatherScans | pkg/core/perceptor.go:86-103 | ready exactly when every hub has fetched its scans, and then each scan that some hub knows, as the last such hub has it |
| Perceptors.ResolveUnknown | pkg/core/perceptor.go:104-124 | the loop changes exactly the given unknown images, each as its merged hub record says |
| Perceptors.UnknownImagesPass | pkg/core/perceptor.go:72-124 | with all hubs ready, an unknown image without a record at any hub is queued, and otherwise the last hub that has one decides: success completes it with those results, other ends queue it, and it stays unknown while that is unknown or in progress; otherwise nothing changes |
| Perceptors.ResolvedOnHubs | pkg/core/perceptor.go:105-124 | what the merged record makes of an image is what the hubs' own records make of it |
| Perceptors.AssignImage | pkg/core/scanscheduler.go:35-45 | a hub with fewer scans in progress than its limit if there is one, and none only if every hub has at least as many |
| Perceptors.ChooseJob | pkg/core/perceptor.go:327-338 | an image that nothing queued outranks and a hub with fewer scans in progress than its limit, each missing only if there is none |
| Perceptors.GetNextImage | pkg/core/perceptor.go:319-360 | uninterrupted, a job exactly if an image is queued, some hub has fewer scans in progress than its limit and the chosen one's host is configured; then running in the core and recorded at that hub alone, within its limit; never answered exactly if the host is not |
| Perceptors.StartBoth | pkg/core/perceptor.go:355-356 | the image is started in the core and at the hub, each as its model says |
| Perceptors.PostFinishScan | pkg/core/perceptor.go:373-391 | the hub, if known, and then the core are told; a scan with a client goes to HubScan at the hub and RunningHubScan in the core, or to Failure and back to InQueue, freeing its room |

## Left out

- HTTP, JSON, configuration, logging, recording of metrics and time stamps: no bearing on the state.
- The raw hub client and `fetchScan`: an arbitrary function from names to a failure, nothing, or results that may bear another name.
- `deleteImage` and pruning: never called.
- `SetHubs`: the set of hubs is fixed, as the original changes it from two goroutines without synchronisation.
- HubModels.HubModel.FetchUnknownScans: the method runs its poll without other hub actions in between; with them, what `HubScans.HubRunPublishes` and `HubScans.UnknownIffOnlyListed` say of every run holds, but not that the state is the one function of names and answers.
- HubModels.HubModel.CheckScansForCompletion: the same.
- Scheduling of goroutines, channel buffers and memory races: actions are atomic and may come in any order. Updates published by a hub reach the core, in `Dispatch.dfy`, as arbitrary core actions.
- PriorityQueues.PriorityQueue.Add: requires an array with slots, as doubling one without any gives no room and the original would panic; the public constructor makes 10.
- The order among equal priorities: the heap promises none.
- Integers are unbounded, except that the breaker's durations wrap around at 64 bits.
- Heap nodes and a hub's scan records are values in the array and the map rather than pointers, so aliasing of them is not captured; image records are objects, and two images never sharing one is part of the invariant.
- Reports and metrics work on a snapshot of the core's state; the loop gives them one, as nothing else runs meanwhile. Fields of the reports that are copied without being computed with, such as the components URL, are omitted.
- `MinDuration` goes through 64-bit floating point, which rounds a configured maximum above 2^53 nanoseconds; the products it is compared with are exact. The conversion of 2^n for n >= 63 to an integer, which the language leaves open, is taken to yield the smallest one, as it does on amd64.
- Clock readings are parameters; no more is required of them than that a request does not end before it started.
- A timer after it was stopped: its loop has ended, and nothing is said about the callers that wait for it.
- The work the metrics, login and refresh timers do, and the status for client errors, which nothing sets.
- `getStateMetrics`, `ScansCount`, `apiModel`, `Values`, `Dump` and the other accessors and mappings: straight copies.
