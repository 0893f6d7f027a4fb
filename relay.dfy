/**
 * The two calls the deploy route makes to the sponsored-transaction relay:
 * submitting a sponsored call (with its error rewrite) and polling the
 * relay task until it yields a transaction hash or the time budget runs out.
 * The relay and the clock are oracles: `status(k)` is what the k-th status
 * request returns and `latency(k)` how many milliseconds it took.
 */
module Relay {
  import opened Wrappers
  import opened Text

  /** What one getTaskStatus request reports. */
  datatype TaskStatus =
    | ExecSuccess(transactionHash: string)
    | ExecReverted(lastCheckMessage: string)
    | Cancelled
    | Pending       // any other task state, or no status at all
    | Unreachable   // the status request itself raised an error

  const PollInterval: nat := 2000
  const DefaultTimeout: nat := 300000
  const UnauthorizedTarget: string := "Unauthorized sponsored targ"

  function WhitelistMessage(target: string): string {
    "Contract not whitelisted for sponsorship. Whitelist " + target + " in Gelato."
  }

  /**
   * sponsoredCall: the relay's reply to the submission, with an
   * "unauthorized target" rejection replaced by an actionable message naming
   * the target; every other error goes on unchanged.
   */
  function SponsoredCall(reply: Result<string>, target: string): (r: Result<string>)
    ensures reply.Ok? ==> r == reply
    ensures reply.Err? && Contains(reply.error, UnauthorizedTarget) ==>
              r == Err(WhitelistMessage(target)) && Contains(r.error, target)
    ensures reply.Err? && !Contains(reply.error, UnauthorizedTarget) ==> r == reply
  {
    match reply
    case Ok(_) => reply
    case Err(message) =>
      if Contains(message, UnauthorizedTarget) then
        ContainsSelf(target);
        ContainsLeft(target, " in Gelato.", target);
        ContainsRight("Contract not whitelisted for sponsorship. Whitelist ", target + " in Gelato.", target);
        assert WhitelistMessage(target) == "Contract not whitelisted for sponsorship. Whitelist " + (target + " in Gelato.");
        Err(WhitelistMessage(target))
      else reply
  }

  function TimeoutMessage(timeout: nat): string {
    "Gelato task polling timed out after " + NatToString(timeout) + "ms"
  }

  /** Milliseconds elapsed when poll k starts: every earlier poll took its latency and then slept PollInterval. */
  function PollStart(latency: nat -> nat, k: nat): nat {
    if k == 0 then 0 else PollStart(latency, k - 1) + latency(k - 1) + PollInterval
  }

  /**
   * The outcome of waitForTask from poll k on, with `elapsed` milliseconds
   * gone. Reverted and cancelled tasks raise inside the loop's own try block,
   * whose handler only sleeps, so they are treated like a pending task.
   */
  function Poll(status: nat -> TaskStatus, latency: nat -> nat, timeout: nat, k: nat, elapsed: nat): Result<string>
    decreases timeout - elapsed
  {
    if elapsed >= timeout then Err(TimeoutMessage(timeout))
    else if status(k).ExecSuccess? then Ok(status(k).transactionHash)
    else Poll(status, latency, timeout, k + 1, elapsed + latency(k) + PollInterval)
  }

  /** waitForTask(taskId, timeout) from the first poll. */
  function Wait(status: nat -> TaskStatus, latency: nat -> nat, timeout: nat): Result<string> {
    Poll(status, latency, timeout, 0, 0)
  }

  /** The polling loop itself, proved to compute Wait. */
  method WaitForTask(status: nat -> TaskStatus, latency: nat -> nat, timeout: nat) returns (r: Result<string>)
    ensures r == Wait(status, latency, timeout)
  {
    var k, elapsed := 0, 0;
    while elapsed < timeout
      invariant elapsed == PollStart(latency, k)
      invariant Poll(status, latency, timeout, k, elapsed) == Wait(status, latency, timeout)
      decreases timeout - elapsed
    {
      var s := status(k);
      if s.ExecSuccess? {
        return Ok(s.transactionHash);
      }
      // ExecReverted and Cancelled raise here and are caught by the same
      // handler as a failed request: all of them sleep and poll again.
      elapsed := elapsed + latency(k) + PollInterval;
      k := k + 1;
    }
    r := Err(TimeoutMessage(timeout));
  }

  /** No status among polls k..j-1 reports success. */
  predicate NoSuccessBetween(status: nat -> TaskStatus, k: nat, j: nat) {
    forall i :: k <= i < j ==> !status(i).ExecSuccess?
  }

  lemma {:induction false} PollStartMonotonic(latency: nat -> nat, k: nat, j: nat)
    requires k <= j
    ensures PollStart(latency, k) <= PollStart(latency, j)
    decreases j - k
  {
    if k < j {
      PollStartMonotonic(latency, k, j - 1);
    }
  }

  /** Each poll costs at least PollInterval, so poll k starts no earlier than k * PollInterval. */
  lemma {:induction false} PollStartAtLeast(latency: nat -> nat, k: nat)
    ensures PollStart(latency, k) >= PollInterval * k
  {
    if k > 0 {
      PollStartAtLeast(latency, k - 1);
    }
  }

  /** Only polls started before the deadline happen: with the default budget at most 150. */
  lemma PollsWithinDefaultBudget(latency: nat -> nat, k: nat)
    requires PollStart(latency, k) < DefaultTimeout
    ensures k < 150
  {
    PollStartAtLeast(latency, k);
  }

  lemma {:induction false} PollSound(status: nat -> TaskStatus, latency: nat -> nat, timeout: nat, k: nat, h: string)
    requires Poll(status, latency, timeout, k, PollStart(latency, k)) == Ok(h)
    ensures exists j :: k <= j && PollStart(latency, j) < timeout && status(j) == ExecSuccess(h)
                        && NoSuccessBetween(status, k, j)
    decreases timeout - PollStart(latency, k)
  {
    if !status(k).ExecSuccess? {
      PollSound(status, latency, timeout, k + 1, h);
      var j :| k + 1 <= j && PollStart(latency, j) < timeout && status(j) == ExecSuccess(h)
               && NoSuccessBetween(status, k + 1, j);
      assert NoSuccessBetween(status, k, j);
    } else {
      assert NoSuccessBetween(status, k, k);
    }
  }

  lemma {:induction false} PollComplete(status: nat -> TaskStatus, latency: nat -> nat, timeout: nat, k: nat, j: nat, h: string)
    requires k <= j && PollStart(latency, j) < timeout && status(j) == ExecSuccess(h)
    requires NoSuccessBetween(status, k, j)
    ensures Poll(status, latency, timeout, k, PollStart(latency, k)) == Ok(h)
    decreases j - k
  {
    PollStartMonotonic(latency, k, j);
    if k < j {
      PollComplete(status, latency, timeout, k + 1, j, h);
    }
  }

  /**
   * waitForTask yields hash h exactly when some poll started before the
   * deadline reports ExecSuccess(h) and no earlier poll reported success.
   */
  lemma WaitSucceedsIff(status: nat -> TaskStatus, latency: nat -> nat, timeout: nat, h: string)
    ensures Wait(status, latency, timeout) == Ok(h) <==>
            exists j :: PollStart(latency, j) < timeout && status(j) == ExecSuccess(h) && NoSuccessBetween(status, 0, j)
  {
    if Wait(status, latency, timeout) == Ok(h) {
      PollSound(status, latency, timeout, 0, h);
    }
    if exists j :: PollStart(latency, j) < timeout && status(j) == ExecSuccess(h) && NoSuccessBetween(status, 0, j) {
      var j :| PollStart(latency, j) < timeout && status(j) == ExecSuccess(h) && NoSuccessBetween(status, 0, j);
      PollComplete(status, latency, timeout, 0, j, h);
    }
  }

  lemma {:induction false} PollFailsOnlyByTimeout(status: nat -> TaskStatus, latency: nat -> nat, timeout: nat, k: nat, elapsed: nat)
    ensures Poll(status, latency, timeout, k, elapsed).Err? ==>
            Poll(status, latency, timeout, k, elapsed).error == TimeoutMessage(timeout)
    decreases timeout - elapsed
  {
    if elapsed < timeout && !status(k).ExecSuccess? {
      PollFailsOnlyByTimeout(status, latency, timeout, k + 1, elapsed + latency(k) + PollInterval);
    }
  }

  /** The only error waitForTask reports is the timeout. */
  lemma WaitFailsOnlyByTimeout(status: nat -> TaskStatus, latency: nat -> nat, timeout: nat)
    ensures Wait(status, latency, timeout).Err? ==>
            Wait(status, latency, timeout).error == TimeoutMessage(timeout)
  {
    PollFailsOnlyByTimeout(status, latency, timeout, 0, 0);
  }

  /** The transaction hash a status carries when it reports success. */
  function SuccessHash(s: TaskStatus): Option<string> {
    if s.ExecSuccess? then Some(s.transactionHash) else None
  }

  lemma {:induction false} PollSeesOnlySuccess(s1: nat -> TaskStatus, s2: nat -> TaskStatus, latency: nat -> nat,
                                               timeout: nat, k: nat, elapsed: nat)
    requires forall i :: SuccessHash(s1(i)) == SuccessHash(s2(i))
    ensures Poll(s1, latency, timeout, k, elapsed) == Poll(s2, latency, timeout, k, elapsed)
    decreases timeout - elapsed
  {
    assert SuccessHash(s1(k)) == SuccessHash(s2(k));
    if elapsed < timeout && !s1(k).ExecSuccess? {
      PollSeesOnlySuccess(s1, s2, latency, timeout, k + 1, elapsed + latency(k) + PollInterval);
    }
  }

  /**
   * Reverted, cancelled, pending and unreachable polls are indistinguishable:
   * two relays that agree on which polls succeed, with which hash, give the
   * same outcome.
   */
  lemma WaitIgnoresFailures(s1: nat -> TaskStatus, s2: nat -> TaskStatus, latency: nat -> nat, timeout: nat)
    requires forall i :: SuccessHash(s1(i)) == SuccessHash(s2(i))
    ensures Wait(s1, latency, timeout) == Wait(s2, latency, timeout)
  {
    PollSeesOnlySuccess(s1, s2, latency, timeout, 0, 0);
  }

  /** A task that reverts on the first poll and succeeds on the second still yields its hash. */
  lemma RevertedThenSuccess(status: nat -> TaskStatus, latency: nat -> nat, timeout: nat, h: string)
    requires status(0).ExecReverted? && status(1) == ExecSuccess(h)
    requires latency(0) + PollInterval < timeout
    ensures Wait(status, latency, timeout) == Ok(h)
  {
    assert PollStart(latency, 1) == latency(0) + PollInterval;
    PollComplete(status, latency, timeout, 0, 1, h);
  }
}
