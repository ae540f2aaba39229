/** The per-tenant concurrency limiter: two Lua scripts over one Redis counter per tenant. */
module Limiter {

  /** The Redis key of a tenant's counter of active jobs. */
  function ActiveKey(tenant: string): string {
    "tenant:" + (tenant + ":active_jobs")
  }

  lemma {:induction false} ActiveKeyIsInjective(t: string, u: string)
    requires ActiveKey(t) == ActiveKey(u)
    ensures t == u
  {
    var k := ActiveKey(t);
    assert |t| == |k| - 19 == |u|;
    assert t == k[7..7 + |t|] && u == k[7..7 + |u|];
  }

  /** The counter's value; an absent key reads as 0 although the script treats it apart. */
  function Count(active: map<string, int>, tenant: string): int {
    if ActiveKey(tenant) in active then active[ActiveKey(tenant)] else 0
  }

  /** The acquire script: refuse only if the key exists and has reached the limit, else INCR. */
  function AcquireScript(active: map<string, int>, tenant: string, max: int): (r: (map<string, int>, int)) {
    var key := ActiveKey(tenant);
    if key in active && active[key] >= max then (active, -1)
    else (active[key := Count(active, tenant) + 1], Count(active, tenant) + 1)
  }

  /** The release script: DECR, but never below 0. */
  function ReleaseScript(active: map<string, int>, tenant: string): map<string, int> {
    var key := ActiveKey(tenant);
    if key in active && active[key] > 0 then active[key := active[key] - 1] else active
  }

  /** What the limit really is: the first acquire of a tenant is admitted whatever the setting. */
  function Cap(max: int): (cap: nat)
    ensures cap >= 1 && cap >= max
  {
    if max >= 1 then max else 1
  }

  lemma {:induction false} OtherTenantsKeepTheirCount(active: map<string, int>, tenant: string, n: int, other: string)
    ensures Count(active[ActiveKey(tenant) := n], other) == if other == tenant then n else Count(active, other)
  {
    if other != tenant && ActiveKey(other) == ActiveKey(tenant) {
      ActiveKeyIsInjective(other, tenant);
    }
  }

  /** An admitted acquire counts one job more and stays within the cap; a refused one changes nothing. */
  lemma {:induction false} AcquireEffect(active: map<string, int>, tenant: string, max: int)
    requires 0 <= Count(active, tenant) <= Cap(max)
    ensures var (after, reply) := AcquireScript(active, tenant, max);
            && (forall t :: t != tenant ==> Count(after, t) == Count(active, t))
            && (reply == -1 ==> after == active && Count(active, tenant) >= max)
            && (reply != -1 ==> Count(after, tenant) == Count(active, tenant) + 1 == reply <= Cap(max))
  {
    var n := Count(active, tenant) + 1;
    forall t ensures Count(active[ActiveKey(tenant) := n], t) == if t == tenant then n else Count(active, t) {
      OtherTenantsKeepTheirCount(active, tenant, n, t);
    }
  }

  lemma {:induction false} ReleaseEffect(active: map<string, int>, tenant: string)
    ensures var after := ReleaseScript(active, tenant);
            && (forall t :: t != tenant ==> Count(after, t) == Count(active, t))
            && Count(after, tenant)
               == if Count(active, tenant) > 0 then Count(active, tenant) - 1 else Count(active, tenant)
  {
    var n := Count(active, tenant) - 1;
    forall t ensures Count(active[ActiveKey(tenant) := n], t) == if t == tenant then n else Count(active, t) {
      OtherTenantsKeepTheirCount(active, tenant, n, t);
    }
  }

  class RedisRateLimiter {
    var active: map<string, int>
    const maxActive: int

    constructor (maxActive: int)
      ensures this.maxActive == maxActive && active == map[]
    {
      this.maxActive := maxActive;
      active := map[];
    }

    /** Run the acquire script; true means the job may start. */
    method Acquire(tenant: string) returns (admitted: bool)
      modifies this`active
      ensures active == AcquireScript(old(active), tenant, maxActive).0
      ensures admitted <==> AcquireScript(old(active), tenant, maxActive).1 != -1
    {
      var key, result := ActiveKey(tenant), -1;
      if !(key in active && active[key] >= maxActive) {
        active := active[key := (if key in active then active[key] else 0) + 1];
        result := active[key];
      }
      return result != -1;
    }

    /** Run the release script. */
    method Release(tenant: string)
      modifies this`active
      ensures active == ReleaseScript(old(active), tenant)
    {
      var key := ActiveKey(tenant);
      if key in active && active[key] > 0 {
        active := active[key := active[key] - 1];
      }
    }
  }
}
