/**
 * `normalizeStatus` and `pollTransactionStatus`: the bounded status poll.
 *
 * The gateway's answers to successive `checkTransactionStatus` calls are an
 * abstract sequence of outcomes, so the loop becomes a function of that
 * sequence. Its trace records what the caller sees: the result, how many status
 * checks were made, and the normalised status printed (and slept on) after
 * each non-terminal attempt.
 */
module Poller {
  import opened Wrappers
  import opened Text
  import opened Errors

  /** A transaction snapshot as `checkTransactionStatus` decodes it (the float amount is left out). */
  datatype Transaction = Transaction(
    reference: string,
    externalReference: string,
    status: string,
    currency: string,
    operator: string,
    code: string,
    operatorReference: string,
    description: string)

  /**
   * What `checkTransactionStatus` can fail with: a gateway error from
   * `formatAPIError`, or a transport or decode error from Go's libraries.
   */
  type CheckError = e: Error | e.Api? || e.Opaque? witness Opaque("")

  /** One status check: a decoded snapshot, or the error it failed with. */
  datatype CheckOutcome = Fetched(txn: Transaction) | CheckFailed(cause: CheckError)

  /** The attempt budget of `pollTransactionStatus`. */
  const MaxAttempts: nat := 40

  /** `normalizeStatus`: trimmed and upper-cased. */
  function NormalizeStatus(s: string): (r: string)
    ensures |r| <= |s|
    ensures Trimmed(r)
  {
    var t := TrimSpace(s);
    ToUpperKeepsTrimmed(t);
    ToUpper(t)
  }

  /** The normal form has no lower-case letter. */
  lemma NormalizeStatusUpper(s: string)
    ensures forall i :: 0 <= i < |NormalizeStatus(s)| ==> !IsLower(NormalizeStatus(s)[i])
  {
    ToUpperIdempotent(TrimSpace(s));
  }

  /** A string already trimmed and without lower-case letters is its own normal form. */
  lemma NormalizeStatusFixpoint(s: string)
    requires Trimmed(s)
    requires forall i :: 0 <= i < |s| ==> !IsLower(s[i])
    ensures NormalizeStatus(s) == s
  {
    TrimSpaceFixpoint(s);
    ToUpperPointwise(s);
  }

  lemma NormalizeStatusIdempotent(s: string)
    ensures NormalizeStatus(NormalizeStatus(s)) == NormalizeStatus(s)
  {
    NormalizeStatusUpper(s);
    NormalizeStatusFixpoint(NormalizeStatus(s));
  }

  /** Surrounding white space and letter case do not matter to the comparison. */
  lemma NormalizeStatusIgnoresPaddingAndCase(w1: string, s: string, w2: string)
    requires AllSpace(w1) && AllSpace(w2)
    ensures NormalizeStatus(w1 + s + w2) == NormalizeStatus(s)
    ensures NormalizeStatus(ToUpper(s)) == NormalizeStatus(s)
  {
    TrimSpaceIgnoresPadding(w1, s, w2);
    TrimSpaceToUpper(s);
    ToUpperIdempotent(TrimSpace(s));
  }

  /** Statuses that differ only in the case of their letters have the same normal form. */
  lemma NormalizeStatusIgnoresCase(s: string, t: string)
    requires EqualIgnoringCase(s, t)
    ensures NormalizeStatus(s) == NormalizeStatus(t)
  {
    ToUpperEqualIffIgnoringCase(s, t);
    TrimSpaceToUpper(s);
    TrimSpaceToUpper(t);
  }

  /** "successful" and "SUCCESSFUL" differ only in letter case. */
  lemma SuccessfulIgnoringCase()
    ensures EqualIgnoringCase("successful", "SUCCESSFUL")
  {
    var s, t := "successful", "SUCCESSFUL";
    forall i | 0 <= i < |s| ensures SameIgnoringCase(s[i], t[i]) {
      assert IsLower(s[i]);
    }
  }

  lemma SuccessfulNormalForm()
    ensures NormalizeStatus("SUCCESSFUL") == "SUCCESSFUL"
  {
    NormalizeStatusFixpoint("SUCCESSFUL");
  }

  /** A lower-case status with a stray space and newline still counts as SUCCESSFUL. */
  lemma PaddedLowerCaseSuccessful()
    ensures NormalizeStatus(" successful\n") == "SUCCESSFUL"
    ensures IsTerminal(NormalizeStatus(" successful\n"))
  {
    assert " successful\n" == " " + "successful" + "\n";
    NormalizeStatusIgnoresPaddingAndCase(" ", "successful", "\n");
    SuccessfulIgnoringCase();
    NormalizeStatusIgnoresCase("successful", "SUCCESSFUL");
    SuccessfulNormalForm();
  }

  predicate IsTerminal(s: string) {
    s == "SUCCESSFUL" || s == "FAILED"
  }

  /** An outcome after which the loop sleeps and tries again. */
  predicate Continues(o: CheckOutcome) {
    o.Fetched? && !IsTerminal(NormalizeStatus(o.txn.status))
  }

  /** What the loop returns when it stops on an outcome. */
  function Decided(o: CheckOutcome): Result<Transaction, Error> {
    match o
    case Fetched(txn) => Success(txn)
    case CheckFailed(e) => Failure(e)
  }

  datatype PollTrace = PollTrace(result: Result<Transaction, Error>, calls: nat, progress: seq<string>)

  /**
   * The loop of `pollTransactionStatus` with `budget` attempts left. It either
   * stops on the first outcome that is an error or has a terminal status, or
   * makes all `budget` checks and times out; every attempt before the stop is
   * reported in `progress`.
   */
  function PollWith(outcomes: seq<CheckOutcome>, budget: nat): (t: PollTrace)
    requires budget <= |outcomes|
    ensures t.calls <= budget
    ensures t.calls == |t.progress| || t.calls == |t.progress| + 1
    ensures t.calls == |t.progress| ==> t.calls == budget && t.result == Failure(PollTimedOut)
    ensures t.calls == |t.progress| + 1 ==> t.result == Decided(outcomes[t.calls - 1])
    ensures t.result.Success? ==> IsTerminal(NormalizeStatus(t.result.value.status))
    decreases budget
  {
    if budget == 0 then
      PollTrace(Failure(PollTimedOut), 0, [])
    else
      match outcomes[0]
      case CheckFailed(e) => PollTrace(Failure(e), 1, [])
      case Fetched(txn) =>
        var s := NormalizeStatus(txn.status);
        if IsTerminal(s) then
          PollTrace(Success(txn), 1, [])
        else
          var rest := PollWith(outcomes[1..], budget - 1);
          assert rest.calls > 0 ==> outcomes[rest.calls] == outcomes[1..][rest.calls - 1];
          PollTrace(rest.result, rest.calls + 1, [s] + rest.progress)
  }

  /** Every progress report is the normalised, non-terminal status of the snapshot at that attempt. */
  lemma {:induction false} PollReportsEachAttempt(outcomes: seq<CheckOutcome>, budget: nat)
    requires budget <= |outcomes|
    ensures var t := PollWith(outcomes, budget);
      forall i :: 0 <= i < |t.progress| ==>
        Continues(outcomes[i]) && t.progress[i] == NormalizeStatus(outcomes[i].txn.status)
    decreases budget
  {
    if budget > 0 && Continues(outcomes[0]) {
      PollReportsEachAttempt(outcomes[1..], budget - 1);
      var rest := PollWith(outcomes[1..], budget - 1);
      var t := PollWith(outcomes, budget);
      assert t.progress == [NormalizeStatus(outcomes[0].txn.status)] + rest.progress;
      forall i | 1 <= i < |t.progress|
        ensures Continues(outcomes[i]) && t.progress[i] == NormalizeStatus(outcomes[i].txn.status)
      {
        assert t.progress[i] == rest.progress[i - 1];
        assert outcomes[i] == outcomes[1..][i - 1];
      }
    }
  }

  /** When polling stops before the budget runs out, the attempt it stopped on is an error or a terminal status. */
  lemma {:induction false} PollStopsOnDecisive(outcomes: seq<CheckOutcome>, budget: nat)
    requires budget <= |outcomes|
    ensures var t := PollWith(outcomes, budget);
      t.calls == |t.progress| + 1 ==> !Continues(outcomes[t.calls - 1])
    decreases budget
  {
    if budget > 0 && Continues(outcomes[0]) {
      PollStopsOnDecisive(outcomes[1..], budget - 1);
      var rest := PollWith(outcomes[1..], budget - 1);
      if rest.calls == |rest.progress| + 1 {
        assert outcomes[rest.calls] == outcomes[1..][rest.calls - 1];
      }
    }
  }

  /** `pollTransactionStatus` itself: forty attempts. */
  function Poll(outcomes: seq<CheckOutcome>): (t: PollTrace)
    requires MaxAttempts <= |outcomes|
    ensures t.calls <= MaxAttempts
    ensures t.result.Success? ==> IsTerminal(NormalizeStatus(t.result.value.status))
  {
    PollWith(outcomes, MaxAttempts)
  }

  /**
   * If outcome `k` is the first error or terminal status, polling returns it
   * after exactly `k + 1` checks, with `k` progress reports and no timeout.
   */
  lemma {:induction false} PollStopsAtFirstDecisive(outcomes: seq<CheckOutcome>, budget: nat, k: nat)
    requires budget <= |outcomes| && k < budget
    requires forall j :: 0 <= j < k ==> Continues(outcomes[j])
    requires !Continues(outcomes[k])
    ensures PollWith(outcomes, budget).calls == k + 1
    ensures PollWith(outcomes, budget).result == Decided(outcomes[k])
    ensures |PollWith(outcomes, budget).progress| == k
  {
    if k > 0 {
      assert Continues(outcomes[0]);
      forall j | 0 <= j < k - 1 ensures Continues(outcomes[1..][j]) {
        assert outcomes[1..][j] == outcomes[j + 1];
      }
      PollStopsAtFirstDecisive(outcomes[1..], budget - 1, k - 1);
    }
  }

  /**
   * If no outcome within the budget is decisive, exactly `budget` checks are
   * made, each followed by a progress report and a sleep, and polling times out.
   */
  lemma {:induction false} PollTimesOut(outcomes: seq<CheckOutcome>, budget: nat)
    requires budget <= |outcomes|
    requires forall j :: 0 <= j < budget ==> Continues(outcomes[j])
    ensures PollWith(outcomes, budget).calls == budget
    ensures PollWith(outcomes, budget).result == Failure(PollTimedOut)
    ensures |PollWith(outcomes, budget).progress| == budget
  {
    if budget > 0 {
      assert Continues(outcomes[0]);
      forall j | 0 <= j < budget - 1 ensures Continues(outcomes[1..][j]) {
        assert outcomes[1..][j] == outcomes[j + 1];
      }
      PollTimesOut(outcomes[1..], budget - 1);
    }
  }

  /**
   * The timeout error comes only from spending the whole budget: a failed
   * status check is never mistaken for a timeout.
   */
  lemma TimeoutOnlyWhenBudgetSpent(outcomes: seq<CheckOutcome>, budget: nat)
    requires budget <= |outcomes|
    ensures var t := PollWith(outcomes, budget);
      t.result == Failure(PollTimedOut) <==> t.calls == |t.progress|
  {
    var t := PollWith(outcomes, budget);
    if t.calls == |t.progress| + 1 {
      var o := outcomes[t.calls - 1];
      assert o.CheckFailed? ==> o.cause.Api? || o.cause.Opaque?;
    }
  }

  /** A PENDING snapshot keeps the loop going and is reported as "PENDING". */
  lemma PendingContinues(o: CheckOutcome)
    requires o.Fetched? && o.txn.status == "PENDING"
    ensures Continues(o) && NormalizeStatus(o.txn.status) == "PENDING"
  {
    NormalizeStatusFixpoint("PENDING");
  }

  /** A SUCCESSFUL snapshot stops the loop. */
  lemma SuccessfulStops(o: CheckOutcome)
    requires o.Fetched? && o.txn.status == "SUCCESSFUL"
    ensures !Continues(o)
  {
    NormalizeStatusFixpoint("SUCCESSFUL");
  }

  /**
   * Two PENDING snapshots and then a SUCCESSFUL one: the poll returns the third
   * snapshot after three checks and two progress reports.
   */
  lemma PendingPendingSuccessful(outcomes: seq<CheckOutcome>)
    requires MaxAttempts <= |outcomes|
    requires outcomes[0].Fetched? && outcomes[0].txn.status == "PENDING"
    requires outcomes[1].Fetched? && outcomes[1].txn.status == "PENDING"
    requires outcomes[2].Fetched? && outcomes[2].txn.status == "SUCCESSFUL"
    ensures Poll(outcomes) == PollTrace(Success(outcomes[2].txn), 3, ["PENDING", "PENDING"])
  {
    PendingContinues(outcomes[0]);
    PendingContinues(outcomes[1]);
    SuccessfulStops(outcomes[2]);
    PollStopsAtFirstDecisive(outcomes, MaxAttempts, 2);
  }
}
