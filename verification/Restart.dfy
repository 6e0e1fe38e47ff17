/** The restart policy a run fixes: when a process starts again, how often, and after what wait. */
module Restart {

  import opened Bitmaps
  import opened Common

  const MAX_INT64 := 0x7fff_ffff_ffff_ffff

  /** A duration in nanoseconds, as an int64 holds it. */
  type Duration = d: int | -MAX_INT64 - 1 <= d <= MAX_INT64

  const BACKOFF_CAP: Duration := 60_000_000_000

  datatype Policy = No | OnFailure | Always | UnlessStopped

  datatype Exit = Exit(code: int, signal: int) {
    predicate Failed() {
      code != 0 || signal != 0
    }
  }

  datatype State = Running | Restarting | Exited | Killed | GaveUp | Stopped {
    predicate Ended(): (b: bool)
      ensures b <==> !Running? && !Restarting?
    {
      Exited? || Killed? || GaveUp? || Stopped?
    }
  }

  datatype Refusal = UnknownPolicy | NegativeRetries | BadBackoff

  datatype Parsed = Accepted(restart: RestartPolicy) | Refused(refusal: Refusal)

  datatype RestartPolicy = RestartPolicy(policy: Policy, retries: int, backoff: Duration, reset: Duration) {
    /** What every parsed policy that starts a process again satisfies. */
    predicate Valid() {
      policy.No? || (retries >= 0 && backoff > 0)
    }

    predicate Limited() {
      policy.OnFailure? && retries > 0
    }

    predicate Applies(exit: Exit) {
      match policy
      case Always | UnlessStopped => true
      case OnFailure => exit.Failed()
      case No => false
    }

    /** What follows an exit after `started` starts again. */
    function Next(exit: Exit, started: nat): (s: State)
      ensures s.Restarting? <==>
              || policy.Always? || policy.UnlessStopped?
              || (policy.OnFailure? && (exit.code != 0 || exit.signal != 0) && (retries <= 0 || started < retries))
      ensures s.GaveUp? <==>
              policy.OnFailure? && (exit.code != 0 || exit.signal != 0) && 0 < retries <= started
      ensures s.Exited? <==> !s.Restarting? && !s.GaveUp?
    {
      if !Applies(exit) then Exited
      else if Limited() && started >= retries then GaveUp
      else Restarting
    }
  }

  function PolicyNamed(policy: string): (p: (bool, Policy)) {
    if policy == "no" then (true, No)
    else if policy == "on-failure" then (true, OnFailure)
    else if policy == "always" then (true, Always)
    else if policy == "unless-stopped" then (true, UnlessStopped)
    else (false, No)
  }

  function ParseRestart(policy: string, retries: int, backoff: Duration, reset: Duration): (r: Parsed)
    ensures r.Accepted? ==>
              match r.restart.policy
              case No => policy == "no"
              case OnFailure => policy == "on-failure"
              case Always => policy == "always"
              case UnlessStopped => policy == "unless-stopped"
    ensures r == Refused(UnknownPolicy) <==> policy !in {"no", "on-failure", "always", "unless-stopped"}
    ensures r == Refused(NegativeRetries) <==> policy in {"on-failure", "always", "unless-stopped"} && retries < 0
    ensures r.Accepted? ==>
              r.restart.Valid() && r.restart.retries == retries && r.restart.backoff == backoff
              && r.restart.reset == reset
    ensures r.Accepted? <==> policy == "no" ||
                             (policy in {"on-failure", "always", "unless-stopped"} && retries >= 0 && backoff > 0)
  {
    var (known, p) := PolicyNamed(policy);
    if !known then Refused(UnknownPolicy)
    else if p.No? then Accepted(RestartPolicy(p, retries, backoff, reset))
    else if retries < 0 then Refused(NegativeRetries)
    else if backoff <= 0 then Refused(BadBackoff)
    else Accepted(RestartPolicy(p, retries, backoff, reset))
  }

  lemma {:induction false} DoublingStaysPast(backoff: int, i: nat, n: nat)
    requires i <= n && backoff > 0
    ensures backoff * Pow2(i) <= backoff * Pow2(n)
    decreases n - i
  {
    if i < n {
      assert backoff * Pow2(i + 1) == 2 * (backoff * Pow2(i));
      DoublingStaysPast(backoff, i + 1, n);
    }
  }

  /** The wait doubles once per start again and stops at the cap: `Min(backoff * 2^started, cap)`. Every value on the
      way is a Duration, so nothing overflows however often the process started again. */
  method Wait(r: RestartPolicy, started: nat) returns (w: Duration)
    requires r.backoff > 0
    ensures w == Min(r.backoff * Pow2(started), BACKOFF_CAP)
    ensures 0 < w <= BACKOFF_CAP
  {
    w := r.backoff;
    for i := 0 to started
      invariant w > 0 && w == r.backoff * Pow2(i)
    {
      if w >= BACKOFF_CAP {
        DoublingStaysPast(r.backoff, i, started);
        break;
      }
      assert r.backoff * Pow2(i + 1) == 2 * (r.backoff * Pow2(i));
      w := w * 2;
    }
    if w > BACKOFF_CAP {
      w := BACKOFF_CAP;
    }
  }

  /** A longer streak never waits less. */
  lemma {:induction false} WaitRises(r: RestartPolicy, a: nat, b: nat)
    requires r.backoff > 0 && a <= b
    ensures Min(r.backoff * Pow2(a), BACKOFF_CAP) <= Min(r.backoff * Pow2(b), BACKOFF_CAP)
  {
    DoublingStaysPast(r.backoff, a, b);
  }
}
