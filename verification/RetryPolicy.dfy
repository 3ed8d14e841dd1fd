/** When a failed delivery is tried again, and when to stop. */
module RetryPolicy {
  import opened Channel

  type Time = nat

  /** The text stored with a row or an attempt, by where it came from. */
  datatype Reason =
    | NoReason
    | AttemptsExhausted
    | ExpiredInQueue
    | PayloadGone
    | ShuttingDown
    | NoCapacity(detail: string)
    | Said(text: string)

  const SECOND: nat := 1_000_000_000
  const MINUTE: nat := 60 * SECOND
  const HOUR: nat := 60 * MINUTE

  datatype Policy = Policy(maxAttempts: int, backoff: seq<nat>, maxAge: int) {

    /** Nothing left unset: what every decision starts from. */
    predicate Complete() {
      maxAttempts > 0 && backoff != [] && maxAge > 0
    }

    function Normalize(): (p: Policy)
      ensures p.Complete()
      ensures Complete() ==> p == this
    {
      Policy(
        if maxAttempts <= 0 then DEFAULT_POLICY.maxAttempts else maxAttempts,
        if backoff == [] then DEFAULT_POLICY.backoff else backoff,
        if maxAge <= 0 then DEFAULT_POLICY.maxAge else maxAge)
    }

    function Delay(attempts: int): nat {
      var p := Normalize();
      var i := if attempts < 0 then 0 else attempts;
      p.backoff[if i >= |p.backoff| then |p.backoff| - 1 else i]
    }

    function Retry(attempts: int, age: int, now: Time): Option<Time> {
      var p := Normalize();
      if attempts >= p.maxAttempts then None
      else if p.maxAge > 0 && age >= p.maxAge then None
      else Some(now + p.Delay(attempts))
    }

    function ExhaustedReason(attempts: int, age: int): Reason {
      var p := Normalize();
      if attempts >= p.maxAttempts then AttemptsExhausted
      else if p.maxAge > 0 && age >= p.maxAge then ExpiredInQueue
      else NoReason
    }
  }

  const DEFAULT_POLICY := Policy(5, [30 * SECOND, 2 * MINUTE, 10 * MINUTE, HOUR, 4 * HOUR], 24 * HOUR)

  /** The two ways of asking "is there another try" agree, for policies with fields left unset too. */
  lemma RetryIffNotExhausted(p: Policy, attempts: int, age: int, now: Time)
    ensures p.Retry(attempts, age, now).Some? <==> p.ExhaustedReason(attempts, age) == NoReason
    ensures p.Retry(attempts, age, now).Some? ==> p.Retry(attempts, age, now).value >= now
  {
  }

  /**
   * Another try is due after the wait listed for that many attempts, the last one listed from then on, and there is
   * one exactly while attempts and age are both below their limits; the attempts are what is reported first.
   */
  lemma RetryExactly(p: Policy, attempts: nat, age: int, now: Time)
    requires p.maxAttempts >= 1 && |p.backoff| >= 1 && p.maxAge >= 1
    ensures var wait := p.backoff[if attempts < |p.backoff| then attempts else |p.backoff| - 1];
            p.Retry(attempts, age, now) ==
            if attempts < p.maxAttempts && age < p.maxAge then Some(now + wait) else None
    ensures p.ExhaustedReason(attempts, age) == if attempts >= p.maxAttempts then AttemptsExhausted
                                                else if age >= p.maxAge then ExpiredInQueue else NoReason
  {
  }

  /** Five attempts in a day, half a minute, two and ten minutes, an hour and four hours apart, if not set otherwise. */
  lemma Defaults(p: Policy)
    ensures p.Normalize().maxAttempts == if p.maxAttempts >= 1 then p.maxAttempts else 5
    ensures p.Normalize().maxAge == if p.maxAge >= 1 then p.maxAge else 86_400_000_000_000
    ensures p.Normalize().backoff ==
            if |p.backoff| >= 1 then p.backoff
            else [30_000_000_000, 120_000_000_000, 600_000_000_000, 3_600_000_000_000, 14_400_000_000_000]
  {
  }
}
