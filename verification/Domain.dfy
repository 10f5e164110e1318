/** The result types the run engine fills and the API serves. */
module Domain {
  import opened Text

  datatype Status = Passed | Failed | Error | Skipped | Running

  datatype ReceiverResult = ReceiverResult(kind: string, triggerIndex: nat, status: Status, error: string)

  datatype TestResult = TestResult(
    runID: string,
    status: Status,
    attempts: nat,
    receivers: seq<ReceiverResult>,
    error: string,
    triggerVars: Env)

  /** passed < failed < error. */
  function Rank(s: Status): nat {
    match s case Passed => 0 case Failed => 1 case Error => 2 case Skipped => 3 case Running => 4
  }
}
