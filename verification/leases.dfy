/**
 * The resource leases of `DataConsistencyManager` (transformation_engine.py).
 *
 * A lease is the Redis key `lock:<resource>` written with SET NX EX 30: it is
 * created only when no live key exists and expires thirty seconds later.
 * Release deletes the key whoever wrote it.  Time is an explicit clock
 * reading in seconds.
 */
module Leases {

  type Time = int

  /** The live keys of the store: resource id to expiry instant. */
  type LeaseStore = map<string, Time>

  /** `lock_timeout` of transformation_engine.py:50, in seconds. */
  const LockTimeout: int := 30

  datatype Acquired = Acquired(store: LeaseStore, granted: bool)

  /** A lease exists for `resource` and has not reached its expiry at `now`. */
  predicate Live(s: LeaseStore, resource: string, now: Time) {
    resource in s && now < s[resource]
  }

  /** `acquire_lock`: SET NX with a 30 s expiry; true exactly when the key was written. */
  function Acquire(s: LeaseStore, resource: string, now: Time): (r: Acquired)
    ensures r.granted <==> !Live(s, resource, now)
    ensures r.granted ==> r.store == s[resource := now + LockTimeout]
    ensures !r.granted ==> r.store == s
  {
    if Live(s, resource, now) then Acquired(s, false)
    else Acquired(s[resource := now + LockTimeout], true)
  }

  /** `release_lock`: DELETE of the key, whether or not it is held and by whom. */
  function Release(s: LeaseStore, resource: string): (r: LeaseStore)
    ensures resource !in r
    ensures forall other :: other != resource ==> (other in r <==> other in s)
    ensures forall other :: other != resource && other in s ==> r[other] == s[other]
  {
    s - {resource}
  }

  /** A granted lease is live for exactly the thirty seconds after the acquire. */
  lemma GrantedLeaseLifetime(s: LeaseStore, resource: string, now: Time, later: Time)
    requires Acquire(s, resource, now).granted
    ensures Live(Acquire(s, resource, now).store, resource, later) <==> later < now + LockTimeout
  {
  }

  /** While a granted lease is live, a second acquire of the same resource is refused. */
  lemma SecondAcquireRefused(s: LeaseStore, resource: string, now: Time, later: Time)
    requires Acquire(s, resource, now).granted
    requires now <= later < now + LockTimeout
    ensures !Acquire(Acquire(s, resource, now).store, resource, later).granted
  {
  }

  /** Once any lease on the resource has expired, acquiring it succeeds again. */
  lemma AcquireAfterExpiry(s: LeaseStore, resource: string, now: Time)
    requires resource in s && s[resource] <= now
    ensures Acquire(s, resource, now).granted
  {
  }

  /** Release is idempotent. */
  lemma ReleaseIdempotent(s: LeaseStore, resource: string)
    ensures Release(Release(s, resource), resource) == Release(s, resource)
  {
  }

  /** Releasing a resource that holds no lease leaves the store as it was. */
  lemma ReleaseUnheldIsNoOp(s: LeaseStore, resource: string)
    requires resource !in s
    ensures Release(s, resource) == s
  {
  }

  /** After a release, acquiring the same resource succeeds at any time. */
  lemma AcquireAfterRelease(s: LeaseStore, resource: string, now: Time)
    ensures Acquire(Release(s, resource), resource, now).granted
  {
  }

  /** Acquire and release of one resource leave every other resource's lease unchanged. */
  lemma OtherResourcesUnaffected(s: LeaseStore, resource: string, other: string, now: Time, t: Time)
    requires other != resource
    ensures Live(Acquire(s, resource, now).store, other, t) <==> Live(s, other, t)
    ensures Live(Release(s, resource), other, t) <==> Live(s, other, t)
  {
  }
}
