/** pkg/hub/datatypes.go: what a Black Duck hub reports about a scan. */
module HubData {
  import opened Options

  datatype SummaryStatus = InProgress | Success | Failure

  /** The parts of the scan results that the models look at. */
  datatype ScanResults = ScanResults(
    codeLocationName: string,
    scanSummaries: seq<SummaryStatus>,
    overallStatus: string,
    componentVersionStatusCounts: map<string, int>,
    riskCategories: map<string, map<string, int>>)

  const POLICY_STATUS_NOT_IN_VIOLATION := "NOT_IN_VIOLATION"
  const POLICY_STATUS_IN_VIOLATION := "IN_VIOLATION"
  const RISK_CATEGORY_VULNERABILITY := "VULNERABILITY"
  const RISK_STATUS_HIGH := "HIGH"
  const RISK_STATUS_CRITICAL := "CRITICAL"

  /** One success decides; failing that, one scan in progress; no summaries at all count as a failure. */
  function SummaryOf(results: ScanResults): SummaryStatus
  {
    if Success in results.scanSummaries then Success
    else if InProgress in results.scanSummaries then InProgress
    else Failure
  }

  /**
   A success anywhere decides; a scan in progress only without one; a failure means that nothing else was
   reported.
   */
  lemma SummaryMeans(results: ScanResults)
    ensures SummaryOf(results) == Success <==> Success in results.scanSummaries
    ensures SummaryOf(results) == InProgress
            <==> Success !in results.scanSummaries && InProgress in results.scanSummaries
    ensures SummaryOf(results) == Failure <==> forall status :: status in results.scanSummaries ==> status == Failure
  {
    if SummaryOf(results) == Failure {
      forall status | status in results.scanSummaries
        ensures status == Failure
      {
        assert status != Success && status != InProgress;
      }
    }
  }

  method ScanSummaryStatus(results: ScanResults) returns (status: SummaryStatus)
    ensures status == SummaryOf(results)
  {
    var inProgress := false;
    for i := 0 to |results.scanSummaries|
      invariant Success !in results.scanSummaries[..i]
      invariant inProgress <==> InProgress in results.scanSummaries[..i]
    {
      match results.scanSummaries[i]
      case Success => return Success;
      case InProgress => inProgress := true;
      case Failure =>
    }
    assert results.scanSummaries[..|results.scanSummaries|] == results.scanSummaries;
    status := if inProgress then InProgress else Failure;
  }

  /** Go's reading of a missing map entry. */
  function CountAt(counts: map<string, int>, key: string): int
  {
    if key in counts then counts[key] else 0
  }

  function PolicyViolationCount(results: ScanResults): int
  {
    CountAt(results.componentVersionStatusCounts, POLICY_STATUS_IN_VIOLATION)
  }

  function VulnerabilityCount(results: ScanResults): int
  {
    if RISK_CATEGORY_VULNERABILITY !in results.riskCategories then 0
    else
      var counts := results.riskCategories[RISK_CATEGORY_VULNERABILITY];
      CountAt(counts, RISK_STATUS_HIGH) + CountAt(counts, RISK_STATUS_CRITICAL)
  }

  /** High and critical risks both count as vulnerabilities, and no others; what is not reported counts as zero. */
  lemma CountsMean(results: ScanResults)
    ensures PolicyViolationCount(results)
            == if "IN_VIOLATION" in results.componentVersionStatusCounts
               then results.componentVersionStatusCounts["IN_VIOLATION"] else 0
    ensures "VULNERABILITY" !in results.riskCategories ==> VulnerabilityCount(results) == 0
    ensures "VULNERABILITY" in results.riskCategories ==>
              var counts := results.riskCategories["VULNERABILITY"];
              VulnerabilityCount(results) == (if "HIGH" in counts then counts["HIGH"] else 0)
                                             + (if "CRITICAL" in counts then counts["CRITICAL"] else 0)
  {
  }
}
