/** pkg/core/model/scanstatus.go: the life cycle of an image. */
module ScanStatuses {

  datatype ScanStatus = Unknown | InQueue | RunningScanClient | RunningHubScan | Complete

  /** The table of legal transitions; nothing leaves Complete and nothing enters Unknown. */
  predicate IsLegalTransition(from: ScanStatus, to: ScanStatus)
  {
    match from
    case Unknown => to == InQueue || to == RunningHubScan || to == Complete
    case InQueue => to == RunningScanClient || to == RunningHubScan
    case RunningScanClient => to == InQueue || to == RunningHubScan
    case RunningHubScan => to == InQueue || to == Complete
    case Complete => false
  }

  /** Distance still to go: every legal transition lowers the rank, except that a re-queueing may raise it by two. */
  function Rank(status: ScanStatus): nat
  {
    match status
    case Unknown => 4
    case InQueue => 3
    case RunningScanClient => 2
    case RunningHubScan => 1
    case Complete => 0
  }

  /** Back into the queue from a running scan. */
  predicate IsRequeue(from: ScanStatus, to: ScanStatus)
  {
    to == InQueue && (from == RunningScanClient || from == RunningHubScan)
  }
}
