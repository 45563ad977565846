/** The closing verdict `displayFinalStatus` prints under the transaction summary. */
module Display {
  import opened Poller

  datatype Verdict = PaymentSuccessful | PaymentFailed | UnknownStatus(raw: string)

  /** The switch on the normalised status; an unknown status is shown as the gateway sent it. */
  function ClassifyFinalStatus(txn: Transaction): (v: Verdict)
    ensures v == PaymentSuccessful <==> NormalizeStatus(txn.status) == "SUCCESSFUL"
    ensures v == PaymentFailed <==> NormalizeStatus(txn.status) == "FAILED"
    ensures v.UnknownStatus? <==> !IsTerminal(NormalizeStatus(txn.status))
    ensures v.UnknownStatus? ==> v.raw == txn.status
  {
    match NormalizeStatus(txn.status)
    case "SUCCESSFUL" => PaymentSuccessful
    case "FAILED" => PaymentFailed
    case _ => UnknownStatus(txn.status)
  }

  /** A transaction the poll returns always gets a definite verdict, never "unknown". */
  lemma PolledTransactionHasVerdict(outcomes: seq<CheckOutcome>)
    requires MaxAttempts <= |outcomes|
    ensures Poll(outcomes).result.Success? ==> !ClassifyFinalStatus(Poll(outcomes).result.value).UnknownStatus?
  {
  }
}
