/**
 * The liveness probe `check` (all_channels/main.py:80-98): up to five
 * attempts, each a HEAD request and, for an unexpected status, a GET
 * fallback. The network is abstracted as a reply stream: `reply(k)` is what
 * the `k`-th request of the probe receives, a status code or a raised
 * exception (connection error, timeout, ...). `time.sleep(5)` is counted,
 * not performed.
 */
module Probe {
  import opened Wrappers

  datatype Reply = Status(code: int) | Raised

  /** Live: a 200 was seen. Dead: a 404 on HEAD or an exception. Exhausted: five attempts without a verdict. */
  datatype Verdict = Live | Dead | Exhausted

  /** How a probe ended: its verdict, the attempt it ended on, the sleeps taken and the requests sent. */
  datatype Run = Run(verdict: Verdict, attempts: nat, sleeps: nat, requests: nat)

  const MaxAttempts := 5
  const StatusOk := 200
  const StatusTooManyRequests := 429
  const StatusNotFound := 404

  /**
   * The probe from attempt `attempt` on, after `sent` requests and `slept`
   * sleeps: the transition table of the retry loop, one attempt per call.
   */
  function ProbeFrom(reply: nat -> Reply, attempt: nat, sent: nat, slept: nat): Run
    requires 1 <= attempt <= MaxAttempts + 1
    decreases MaxAttempts + 1 - attempt
  {
    if attempt > MaxAttempts then Run(Exhausted, MaxAttempts, slept, sent)
    else
      match reply(sent)
      case Raised => Run(Dead, attempt, slept, sent + 1)
      case Status(head) =>
        if head == StatusOk then Run(Live, attempt, slept, sent + 1)
        else if head == StatusTooManyRequests then ProbeFrom(reply, attempt + 1, sent + 1, slept + 1)
        else if head == StatusNotFound then Run(Dead, attempt, slept, sent + 1)
        else
          match reply(sent + 1)
          case Raised => Run(Dead, attempt, slept, sent + 2)
          case Status(get) =>
            if get == StatusOk then Run(Live, attempt, slept, sent + 2)
            else ProbeFrom(reply, attempt + 1, sent + 2, slept)
  }

  /** The whole probe of one URL. */
  function Probe(reply: nat -> Reply): Run {
    ProbeFrom(reply, 1, 0, 0)
  }

  /** What `check(u)` returns: the URL itself when live, `None` otherwise. */
  function Outcome(u: string, reply: nat -> Reply): Option<string> {
    if Probe(reply).verdict == Live then Some(u) else None
  }

  /**
   * `check(u)`: the bounded retry loop with early returns. It returns the URL
   * exactly when the probe is live and `None` otherwise, and reports how many
   * times it slept and on which attempt it stopped.
   */
  method Check(u: string, reply: nat -> Reply) returns (res: Option<string>, sleeps: nat, attempts: nat)
    ensures res.Some? <==> Probe(reply).verdict == Live
    ensures res.Some? ==> res.value == u
    ensures sleeps == Probe(reply).sleeps && attempts == Probe(reply).attempts
  {
    ghost var run := Probe(reply);
    var sent := 0;
    sleeps := 0;
    for i := 1 to MaxAttempts + 1
      invariant ProbeFrom(reply, i, sent, sleeps) == run
    {
      attempts := i;
      var r := reply(sent);
      sent := sent + 1;
      if r.Raised? {
        assert run == Run(Dead, i, sleeps, sent);
        return None, sleeps, attempts;
      }
      if r.code == StatusOk {
        assert run == Run(Live, i, sleeps, sent);
        return Some(u), sleeps, attempts;
      }
      if r.code == StatusTooManyRequests {
        sleeps := sleeps + 1;
        continue;
      }
      if r.code == StatusNotFound {
        assert run == Run(Dead, i, sleeps, sent);
        return None, sleeps, attempts;
      }
      r := reply(sent);
      sent := sent + 1;
      if r.Raised? {
        assert run == Run(Dead, i, sleeps, sent);
        return None, sleeps, attempts;
      }
      if r.code == StatusOk {
        assert run == Run(Live, i, sleeps, sent);
        return Some(u), sleeps, attempts;
      }
    }
    assert run == Run(Exhausted, MaxAttempts, sleeps, sent);
    attempts := MaxAttempts;
    res := None;
  }


  /**
   * Bounds of every run from attempt `attempt`: it ends on an attempt between
   * `attempt` and five, sleeps at most once per attempt, and is Exhausted
   * only on the fifth.
   */
  lemma {:induction false} ProbeFromBounds(reply: nat -> Reply, attempt: nat, sent: nat, slept: nat)
    requires 1 <= attempt <= MaxAttempts
    ensures var r := ProbeFrom(reply, attempt, sent, slept);
      attempt <= r.attempts <= MaxAttempts
      && slept <= r.sleeps <= slept + (r.attempts - attempt + 1)
      && (r.verdict == Exhausted ==> r.attempts == MaxAttempts)
    decreases MaxAttempts - attempt, 1
  {
    var r := ProbeFrom(reply, attempt, sent, slept);
    match reply(sent)
    case Raised =>
    case Status(head) =>
      if head == StatusTooManyRequests {
        RetryBounds(reply, attempt, sent + 1, slept + 1, r);
      } else if head != StatusOk && head != StatusNotFound && reply(sent + 1).Status? && reply(sent + 1).code != StatusOk {
        RetryBounds(reply, attempt, sent + 2, slept, r);
      }
  }

  /** The bounds of a retry `r` that continues with the next attempt after `slept` sleeps. */
  lemma {:induction false} RetryBounds(reply: nat -> Reply, attempt: nat, sent: nat, slept: nat, r: Run)
    requires 1 <= attempt <= MaxAttempts && r == ProbeFrom(reply, attempt + 1, sent, slept)
    ensures attempt + 1 <= r.attempts + 1 <= MaxAttempts + 1
      && slept <= r.sleeps <= slept + (r.attempts - attempt)
      && (r.verdict == Exhausted ==> r.attempts == MaxAttempts)
    decreases MaxAttempts - attempt, 0
  {
    if attempt < MaxAttempts {
      ProbeFromBounds(reply, attempt + 1, sent, slept);
    }
  }

  /** Every attempt sends one request (HEAD) or two (HEAD, then GET). */
  lemma {:induction false} ProbeFromRequests(reply: nat -> Reply, attempt: nat, sent: nat, slept: nat)
    requires 1 <= attempt <= MaxAttempts
    ensures var r := ProbeFrom(reply, attempt, sent, slept);
      var tries := r.attempts - attempt + 1;
      sent + tries <= r.requests <= sent + 2 * tries
    decreases MaxAttempts - attempt, 1
  {
    var r := ProbeFrom(reply, attempt, sent, slept);
    match reply(sent)
    case Raised =>
    case Status(head) =>
      if head == StatusTooManyRequests {
        RetryRequests(reply, attempt, sent + 1, slept + 1, r);
      } else if head != StatusOk && head != StatusNotFound && reply(sent + 1).Status? && reply(sent + 1).code != StatusOk {
        RetryRequests(reply, attempt, sent + 2, slept, r);
      }
  }

  /** A retry after attempt `attempt`: the run `r` continues with the next attempt from `sent` requests. */
  lemma {:induction false} RetryRequests(reply: nat -> Reply, attempt: nat, sent: nat, slept: nat, r: Run)
    requires 1 <= attempt <= MaxAttempts && r == ProbeFrom(reply, attempt + 1, sent, slept)
    ensures attempt + 1 <= r.attempts + 1 && sent + (r.attempts - attempt) <= r.requests <= sent + 2 * (r.attempts - attempt)
    decreases MaxAttempts - attempt, 0
  {
    if attempt < MaxAttempts {
      ProbeFromBounds(reply, attempt + 1, sent, slept);
      ProbeFromRequests(reply, attempt + 1, sent, slept);
    }
  }

  /** A probe makes at most five attempts, ten requests and five sleeps. */
  lemma ProbeBounds(reply: nat -> Reply)
    ensures 1 <= Probe(reply).attempts <= MaxAttempts
    ensures Probe(reply).sleeps <= Probe(reply).attempts
    ensures Probe(reply).attempts <= Probe(reply).requests <= 2 * Probe(reply).attempts
  {
    ProbeFromBounds(reply, 1, 0, 0);
    ProbeFromRequests(reply, 1, 0, 0);
  }

  /**
   * Why a probe ended is visible in the last reply it received: a live probe
   * last saw a 200, a dead one last saw an exception or a 404.
   */
  lemma {:induction false} ProbeFromLastReply(reply: nat -> Reply, attempt: nat, sent: nat, slept: nat)
    requires 1 <= attempt <= MaxAttempts + 1
    ensures var r := ProbeFrom(reply, attempt, sent, slept);
      r.requests >= sent
      && (r.verdict == Live ==> r.requests > 0 && reply(r.requests - 1) == Status(StatusOk))
      && (r.verdict == Dead ==>
            r.requests > 0 && (reply(r.requests - 1) == Raised || reply(r.requests - 1) == Status(StatusNotFound)))
    decreases MaxAttempts + 1 - attempt, 1
  {
    var r := ProbeFrom(reply, attempt, sent, slept);
    if attempt > MaxAttempts {
      assert r.verdict == Exhausted;
    } else {
      match reply(sent)
      case Raised =>
        assert r == Run(Dead, attempt, slept, sent + 1);
      case Status(head) =>
        if head == StatusOk || head == StatusNotFound {
          assert r.requests == sent + 1;
        } else if head == StatusTooManyRequests {
          RetryLastReply(reply, attempt, sent + 1, slept + 1, r);
        } else if reply(sent + 1).Raised? || reply(sent + 1).code == StatusOk {
          assert r.requests == sent + 2;
        } else {
          RetryLastReply(reply, attempt, sent + 2, slept, r);
        }
    }
  }

  /** The last reply of a retry `r` that continues with the next attempt from `sent` requests. */
  lemma {:induction false} RetryLastReply(reply: nat -> Reply, attempt: nat, sent: nat, slept: nat, r: Run)
    requires 1 <= attempt <= MaxAttempts && r == ProbeFrom(reply, attempt + 1, sent, slept)
    ensures r.requests >= sent
      && (r.verdict == Live ==> r.requests > 0 && reply(r.requests - 1) == Status(StatusOk))
      && (r.verdict == Dead ==>
            r.requests > 0 && (reply(r.requests - 1) == Raised || reply(r.requests - 1) == Status(StatusNotFound)))
    decreases MaxAttempts + 1 - attempt, 0
  {
    ProbeFromLastReply(reply, attempt + 1, sent, slept);
  }

  /** A HEAD 200 on the first attempt: live after one attempt, one request, no sleep. */
  lemma LiveAtFirstAttempt(reply: nat -> Reply)
    requires reply(0) == Status(StatusOk)
    ensures Probe(reply) == Run(Live, 1, 0, 1)
  {
  }

  /** A 404 on the first HEAD: dead at once, with no further attempt and no sleep. */
  lemma DeadOnNotFound(reply: nat -> Reply)
    requires reply(0) == Status(StatusNotFound)
    ensures Probe(reply) == Run(Dead, 1, 0, 1)
  {
  }

  /** An exception on the first request: dead at once, never retried. */
  lemma DeadOnException(reply: nat -> Reply)
    requires reply(0) == Raised
    ensures Probe(reply) == Run(Dead, 1, 0, 1)
  {
  }

  /** An unexpected HEAD status falls back to GET; a GET 200 makes the probe live in the same attempt. */
  lemma LiveByGetFallback(reply: nat -> Reply, code: int)
    requires code != StatusOk && code != StatusTooManyRequests && code != StatusNotFound
    requires reply(0) == Status(code) && reply(1) == Status(StatusOk)
    ensures Probe(reply) == Run(Live, 1, 0, 2)
  {
  }

  /** Rate limited on attempts 1 to 4 and a 200 on attempt 5: live after exactly four sleeps. */
  lemma LiveAfterFourRateLimits(reply: nat -> Reply)
    requires forall k :: 0 <= k < 4 ==> reply(k) == Status(StatusTooManyRequests)
    requires reply(4) == Status(StatusOk)
    ensures Probe(reply) == Run(Live, 5, 4, 5)
  {
    assert reply(0) == Status(StatusTooManyRequests);
    assert reply(1) == Status(StatusTooManyRequests);
    assert reply(2) == Status(StatusTooManyRequests);
    assert reply(3) == Status(StatusTooManyRequests);
  }

  /** Rate limited on all five attempts: exhausted, after five sleeps, and `check` returns `None`. */
  lemma ExhaustedByRateLimits(reply: nat -> Reply)
    requires forall k :: 0 <= k < 5 ==> reply(k) == Status(StatusTooManyRequests)
    ensures Probe(reply) == Run(Exhausted, 5, 5, 5)
  {
    assert reply(0) == Status(StatusTooManyRequests);
    assert reply(1) == Status(StatusTooManyRequests);
    assert reply(2) == Status(StatusTooManyRequests);
    assert reply(3) == Status(StatusTooManyRequests);
    assert reply(4) == Status(StatusTooManyRequests);
  }
}
