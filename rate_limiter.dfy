/** Monthly per-provider call quotas. The limiter keeps a usage counter per
    provider name, updated in place; persisting it to a JSON file is not
    part of this model, and the counters loaded at start-up are given to
    the constructor. */
module RateLimiter {

  /** A provider's configured monthly quota. */
  datatype ProviderLimit = ProviderLimit(name: string, monthlyLimit: int)

  /** What `check_limit` logs before answering. */
  datatype Alert = NoAlert | Warning | Critical

  const CriticalRatio: real := 0.95
  const DefaultAlertThreshold: real := 0.8

  /** Usage of `provider` in a usage map; 0 for a provider never counted. */
  function UsageIn(usage: map<string, int>, provider: string): (n: int)
    ensures provider !in usage ==> n == 0
    ensures provider in usage ==> n == usage[provider]
  {
    if provider in usage then usage[provider] else 0
  }

  /** The quota left: never negative, and exactly what is left while any is. */
  function RemainingOf(used: int, limit: ProviderLimit): (n: int)
    ensures n >= 0 && n >= limit.monthlyLimit - used
    ensures n == 0 || n == limit.monthlyLimit - used
    ensures used >= limit.monthlyLimit ==> n == 0
  {
    if limit.monthlyLimit - used > 0 then limit.monthlyLimit - used else 0
  }

  /** `check_limit`'s answer: one more call fits within the quota. */
  predicate Allows(used: int, limit: ProviderLimit) {
    used + 1 <= limit.monthlyLimit
  }

  /** The log level chosen from `used / max(monthly_limit, 1)`. */
  function AlertFor(used: int, limit: ProviderLimit, alertThreshold: real): (a: Alert)
    ensures var d := if limit.monthlyLimit > 1 then limit.monthlyLimit else 1;
      (a == Critical <==> used as real >= CriticalRatio * d as real)
      && (a == Warning <==> used as real < CriticalRatio * d as real && used as real >= alertThreshold * d as real)
  {
    var d := if limit.monthlyLimit > 1 then limit.monthlyLimit else 1;
    var ratio := used as real / d as real;
    if ratio >= CriticalRatio then Critical
    else if ratio >= alertThreshold then Warning
    else NoAlert
  }

  class Limiter {
    var usage: map<string, int>

    /** Starts from the counters loaded from storage (empty when none). */
    constructor(loaded: map<string, int>)
      ensures usage == loaded
    {
      usage := loaded;
    }

    function GetUsage(provider: string): (n: int)
      reads this
      ensures n == UsageIn(usage, provider)
      ensures provider !in usage ==> n == 0
    {
      UsageIn(usage, provider)
    }

    function GetRemaining(provider: string, limit: ProviderLimit): (n: int)
      reads this
      ensures n >= 0
      ensures n == RemainingOf(GetUsage(provider), limit)
    {
      RemainingOf(GetUsage(provider), limit)
    }

    /** True when one more call stays within the quota. Reading the counter
        changes nothing; the thresholds only choose what is logged. */
    function CheckLimit(provider: string, limit: ProviderLimit): (ok: bool)
      reads this
      ensures ok <==> GetUsage(provider) + 1 <= limit.monthlyLimit
      ensures ok <==> GetRemaining(provider, limit) >= 1
    {
      Allows(GetUsage(provider), limit)
    }

    /** Adds `count` to one provider's counter and to no other. */
    method Increment(provider: string, count: int)
      modifies this
      ensures usage == old(usage)[provider := old(GetUsage(provider)) + count]
      ensures GetUsage(provider) == old(GetUsage(provider)) + count
      ensures forall p :: p != provider ==> GetUsage(p) == old(GetUsage(p))
    {
      usage := usage[provider := UsageIn(usage, provider) + count];
    }

    /** The calling pattern of the tier-1 providers, check then count: ask,
        and count the call only when it is allowed. The providers count only
        after a successful request; here the request is taken to succeed,
        the case that counts most. A counter within its quota stays within it. */
    method GuardedCall(provider: string, limit: ProviderLimit) returns (allowed: bool)
      modifies this
      ensures allowed == old(CheckLimit(provider, limit))
      ensures usage == if allowed then old(usage)[provider := old(GetUsage(provider)) + 1] else old(usage)
      ensures old(GetUsage(provider)) <= limit.monthlyLimit ==> GetUsage(provider) <= limit.monthlyLimit
    {
      allowed := CheckLimit(provider, limit);
      if allowed {
        Increment(provider, 1);
      }
    }
  }

  /** Usage after a sequence of guarded calls, each to the provider named
      in `calls` and each request succeeding, with quotas given per provider. */
  function AfterGuardedCalls(usage: map<string, int>, calls: seq<string>, limits: string -> int): (r: map<string, int>)
    decreases |calls|
  {
    if calls == [] then usage
    else
      var p := calls[0];
      var next := if Allows(UsageIn(usage, p), ProviderLimit(p, limits(p))) then usage[p := UsageIn(usage, p) + 1] else usage;
      AfterGuardedCalls(next, calls[1..], limits)
  }

  predicate WithinLimits(usage: map<string, int>, limits: string -> int) {
    forall p :: p in usage ==> usage[p] <= limits(p)
  }

  /** If every increment by one is preceded by a check that allowed it, no
      provider's usage ever exceeds its quota. */
  lemma {:induction false} GuardedCallsStayWithinLimits(usage: map<string, int>, calls: seq<string>, limits: string -> int)
    requires WithinLimits(usage, limits)
    ensures WithinLimits(AfterGuardedCalls(usage, calls, limits), limits)
    decreases |calls|
  {
    if calls != [] {
      var p := calls[0];
      var next := if Allows(UsageIn(usage, p), ProviderLimit(p, limits(p))) then usage[p := UsageIn(usage, p) + 1] else usage;
      assert WithinLimits(next, limits);
      GuardedCallsStayWithinLimits(next, calls[1..], limits);
    }
  }

  /** Guarded calls never lower a counter and raise it by one per allowed
      call at most: usage never exceeds the initial usage plus the calls made. */
  lemma {:induction false} GuardedCallsCountAtMostCalls(usage: map<string, int>, calls: seq<string>, limits: string -> int, p: string)
    ensures UsageIn(usage, p) <= UsageIn(AfterGuardedCalls(usage, calls, limits), p) <= UsageIn(usage, p) + |calls|
    decreases |calls|
  {
    if calls != [] {
      var q := calls[0];
      var next := if Allows(UsageIn(usage, q), ProviderLimit(q, limits(q))) then usage[q := UsageIn(usage, q) + 1] else usage;
      GuardedCallsCountAtMostCalls(next, calls[1..], limits, p);
    }
  }

  /** A refused call is always logged as critical once the quota is positive. */
  lemma RefusalIsCritical(used: int, limit: ProviderLimit, alertThreshold: real)
    requires limit.monthlyLimit >= 1 && !Allows(used, limit)
    ensures AlertFor(used, limit, alertThreshold) == Critical
  {
  }

  /** With a zero quota nothing is allowed, yet an unused provider is not
      logged as critical: the ratio divides by `max(limit, 1)`. */
  lemma ZeroQuotaRefusesSilently(limit: ProviderLimit)
    requires limit.monthlyLimit == 0
    ensures !Allows(0, limit)
    ensures AlertFor(0, limit, DefaultAlertThreshold) == NoAlert
  {
  }
}
