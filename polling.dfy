/** The bounded task-polling loop the four server handlers share: read the
    task's status up to a fixed number of times; relay a non-ok HTTP answer;
    stop with the first output URL on SUCCEEDED with a non-empty output; stop
    with a failure on FAILED or CANCELED; otherwise try again. The delay and
    jitter between reads are left out: the loop is modelled over attempts,
    and the answers of the status endpoint are given in order as `answers`. */
module Polling {
  import opened Relay

  /** Attempt ceiling of every server-side loop. */
  const MaxTries: nat := 36

  /** How a poll ends. `TimedOut` is observed by the handler only; it is not a
      provider state. */
  datatype Verdict =
    | Ready(url: string, status: string)
    | ProviderFailed(status: string)
    | HttpError(code: int, text: string)
    | TimedOut

  predicate IsFailureStatus(status: string) {
    status == "FAILED" || status == "CANCELED"
  }

  /** What one read decides, in the order the loop body tests it; `None`
      means the loop goes on. */
  function Classify(r: StatusRead): Option<Verdict> {
    if !r.ok then Some(HttpError(r.code, r.text))
    else if r.status == "SUCCEEDED" && |r.output| > 0 then Some(Ready(r.output[0], r.status))
    else if IsFailureStatus(r.status) then Some(ProviderFailed(r.status))
    else None
  }

  predicate Decides(r: StatusRead) {
    Classify(r).Some?
  }

  /** Index of the first deciding read in `answers[i..limit]`, or `limit`. */
  function FirstDecisive(answers: seq<StatusRead>, i: nat, limit: nat): (k: nat)
    requires i <= limit <= |answers|
    ensures i <= k <= limit
    ensures forall j :: i <= j < k ==> !Decides(answers[j])
    ensures k < limit ==> Decides(answers[k])
    decreases limit - i
  {
    if i == limit then limit
    else if Decides(answers[i]) then i
    else FirstDecisive(answers, i + 1, limit)
  }

  /** How the loop ends when it may make `limit` answers. */
  function Outcome(answers: seq<StatusRead>, limit: nat): Verdict
    requires limit <= |answers|
  {
    var k := FirstDecisive(answers, 0, limit);
    if k < limit then Classify(answers[k]).value else TimedOut
  }

  /** How many status answers the loop makes. */
  function ReadsMade(answers: seq<StatusRead>, limit: nat): nat
    requires limit <= |answers|
  {
    var k := FirstDecisive(answers, 0, limit);
    if k < limit then k + 1 else limit
  }

  /** The first deciding read among the first `limit` is the one at `k`. */
  lemma FirstDecisiveIs(answers: seq<StatusRead>, limit: nat, k: nat)
    requires k < limit <= |answers|
    requires Decides(answers[k])
    requires forall j :: 0 <= j < k ==> !Decides(answers[j])
    ensures FirstDecisive(answers, 0, limit) == k
  {
  }

  /** The loop itself. Each iteration consumes one read. */
  method Poll(answers: seq<StatusRead>, limit: nat) returns (v: Verdict, made: nat)
    requires limit <= |answers|
    ensures v == Outcome(answers, limit) && made == ReadsMade(answers, limit)
    ensures made <= limit
  {
    var tries := 0;
    while tries < limit
      invariant tries <= limit
      invariant forall j :: 0 <= j < tries ==> !Decides(answers[j])
    {
      var task := answers[tries];
      if !task.ok {
        FirstDecisiveIs(answers, limit, tries);
        return HttpError(task.code, task.text), tries + 1;
      }
      if task.status == "SUCCEEDED" && |task.output| > 0 {
        FirstDecisiveIs(answers, limit, tries);
        return Ready(task.output[0], task.status), tries + 1;
      }
      if task.status == "FAILED" || task.status == "CANCELED" {
        FirstDecisiveIs(answers, limit, tries);
        return ProviderFailed(task.status), tries + 1;
      }
      tries := tries + 1;
    }
    return TimedOut, limit;
  }

  /** At most `limit` answers; a timeout uses all of them, any other ending
      stops at a read that decided it, after answers that all asked to go on. */
  lemma ReadCount(answers: seq<StatusRead>, limit: nat)
    requires limit <= |answers|
    ensures ReadsMade(answers, limit) <= limit
    ensures Outcome(answers, limit).TimedOut? <==> ReadsMade(answers, limit) == limit && (limit == 0 || !Decides(answers[limit - 1]))
    ensures forall j :: 0 <= j < ReadsMade(answers, limit) - 1 ==> !Decides(answers[j])
    ensures !Outcome(answers, limit).TimedOut? ==>
      ReadsMade(answers, limit) >= 1 && Classify(answers[ReadsMade(answers, limit) - 1]) == Some(Outcome(answers, limit))
  {
  }

  /** A timeout happens exactly when none of the first `limit` answers decides. */
  lemma TimeoutIffNoDecision(answers: seq<StatusRead>, limit: nat)
    requires limit <= |answers|
    ensures Outcome(answers, limit).TimedOut? <==> forall j :: 0 <= j < limit ==> !Decides(answers[j])
  {
    var k := FirstDecisive(answers, 0, limit);
    if k < limit {
      assert Decides(answers[k]);
      assert Classify(answers[k]).value != TimedOut;
    }
  }

  /** Success carries the first output URL of a SUCCEEDED read with a
      non-empty output, and that read was an ok HTTP answer. */
  lemma SuccessIsFirstOutput(answers: seq<StatusRead>, limit: nat)
    requires limit <= |answers|
    requires Outcome(answers, limit).Ready?
    ensures var r := answers[ReadsMade(answers, limit) - 1];
      r.ok && r.status == "SUCCEEDED" && |r.output| > 0 &&
      Outcome(answers, limit) == Ready(r.output[0], r.status)
  {
  }

  /** Failure comes from a FAILED or CANCELED read, a relayed error from a non-ok one. */
  lemma FailureCauses(answers: seq<StatusRead>, limit: nat)
    requires limit <= |answers|
    ensures Outcome(answers, limit).ProviderFailed? ==>
      var r := answers[ReadsMade(answers, limit) - 1];
      r.ok && IsFailureStatus(r.status) && Outcome(answers, limit).status == r.status
    ensures Outcome(answers, limit).HttpError? ==>
      var r := answers[ReadsMade(answers, limit) - 1];
      !r.ok && Outcome(answers, limit) == HttpError(r.code, r.text)
  {
  }

  /** Reads after the deciding one are never looked at: two answer streams
      that agree on the answers made lead to the same ending. */
  lemma LaterReadsIgnored(answers: seq<StatusRead>, other: seq<StatusRead>, limit: nat)
    requires limit <= |answers| && limit <= |other|
    requires answers[..ReadsMade(answers, limit)] == other[..ReadsMade(answers, limit)]
    ensures Outcome(other, limit) == Outcome(answers, limit)
    ensures ReadsMade(other, limit) == ReadsMade(answers, limit)
  {
    var n := ReadsMade(answers, limit);
    var k := FirstDecisive(answers, 0, limit);
    forall j | 0 <= j < n ensures other[j] == answers[j] {
      assert other[j] == other[..n][j];
    }
    if k < limit {
      FirstDecisiveIs(other, limit, k);
    }
  }
}
