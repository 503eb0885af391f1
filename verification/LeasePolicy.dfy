/** TTL negotiation and expiry arithmetic. Times are whole seconds since the epoch. */
module LeasePolicy {
  import opened Prelude

  type U64 = x: int | 0 <= x < 0x1_0000_0000_0000_0000

  /** Request: let the server choose. */
  const ANY: U64 := 0
  const FOREVER: U64 := 0xFFFF_FFFF_FFFF_FFFF
  /** 100 years: the longest finite lease an uncapped server grants. */
  const MAX_TTL: U64 := 100 * 365 * 24 * 60 * 60

  /** Largest i64, and the largest whole number of seconds a chrono TimeDelta holds. */
  const I64_MAX: int := 0x7FFF_FFFF_FFFF_FFFF
  const DELTA_MAX: int := I64_MAX / 1000
  /** Last representable second: 262142-12-31T23:59:59Z. */
  const MAX_UTC: int := 8_210_266_876_799

  /** Leap years up to and including a year. */
  function LeapYears(y: int): int {
    y / 4 - y / 100 + y / 400
  }

  /** It is the last second of the year 262142, counted from 1970. */
  lemma MaxUtcIsLastSecond()
    ensures MAX_UTC == (365 * (262143 - 1970) + LeapYears(262142) - LeapYears(1969)) * 86400 - 1
  {}

  datatype Config = Config(maxTtl: Option<U64>, preferredTtl: U64)

  function Negotiate(c: Config, requested: U64): U64 {
    if requested == ANY then c.preferredTtl
    else if requested == FOREVER then
      (match c.maxTtl case None => FOREVER case Some(m) => m)
    else
      match c.maxTtl
      case None => if requested > MAX_TTL then FOREVER else requested
      case Some(m) => if requested < m then requested else m
  }

  function CheckedExpiry(from: int, ttl: U64): Option<int> {
    if ttl > I64_MAX || ttl > DELTA_MAX || from + ttl > MAX_UTC then None else Some(from + ttl)
  }

  function ExpiryFor(from: int, ttl: U64): Option<int> {
    if ttl == FOREVER then Some(MAX_UTC) else CheckedExpiry(from, ttl)
  }

  /** Preferred TTL within the cap, finite values at most 100 years. */
  predicate WellFormed(c: Config) {
    && c.preferredTtl <= MAX_TTL
    && (c.maxTtl.Some? ==> c.preferredTtl <= c.maxTtl.value <= MAX_TTL)
  }

  /** A finite request within the cap (100 years if there is none) is granted as asked, a
      longer one gets the cap (FOREVER if there is none), and ANY gets the preferred TTL. */
  lemma GrantedAsAsked(c: Config, requested: U64)
    ensures requested == 0 ==> Negotiate(c, requested) == c.preferredTtl
    ensures requested > 0 && c.maxTtl.Some? ==>
              Negotiate(c, requested) == if requested <= c.maxTtl.value then requested else c.maxTtl.value
    ensures requested > 0 && c.maxTtl.None? ==>
              Negotiate(c, requested) == if requested <= 3_153_600_000 then requested else 18_446_744_073_709_551_615
  {}

  /** An expiry is the last instant for FOREVER and `from + ttl` otherwise, and there is one
      exactly if that can be represented. */
  lemma ExpiryExactly(from: int, ttl: U64)
    requires 0 <= from
    ensures ExpiryFor(from, ttl).Some? <==> ttl == 18_446_744_073_709_551_615 || from + ttl <= MAX_UTC
    ensures ExpiryFor(from, ttl).Some? ==>
              ExpiryFor(from, ttl).value == if ttl == 18_446_744_073_709_551_615 then MAX_UTC else from + ttl
  {}

  /** Under a well-formed policy every request gets a TTL within the cap whose expiry can
      be computed, and FOREVER exactly when uncapped and the request was FOREVER or
      longer than 100 years. */
  lemma NegotiationIsSafe(c: Config, requested: U64, now: int)
    requires WellFormed(c) && now + MAX_TTL <= MAX_UTC
    ensures var granted := Negotiate(c, requested);
            && (c.maxTtl.Some? ==> granted <= c.maxTtl.value)
            && (granted == FOREVER <==> c.maxTtl.None? && requested > MAX_TTL)
            && ExpiryFor(now, granted).Some?
            && (granted != FOREVER ==> ExpiryFor(now, granted).value == now + granted)
  {}

  /** The cap binds every request exactly when the preferred TTL is within it: a request
      that leaves the choice to the server is granted the preferred TTL uncapped. */
  lemma CapBindsExactly(c: Config)
    requires c.maxTtl.Some?
    ensures (forall requested: U64 :: Negotiate(c, requested) <= c.maxTtl.value)
            <==> c.preferredTtl <= c.maxTtl.value
  {
    assert Negotiate(c, ANY) == c.preferredTtl;
  }

  /** Whether a granted TTL has an expiry at all. */
  predicate Representable(now: int, ttl: U64) {
    ttl == FOREVER || now + ttl <= MAX_UTC
  }

  /** No request can be refused for overflow exactly when the preferred TTL has an expiry
      and the cap, if any, is itself a finite TTL with an expiry. (A cap spelled as the
      FOREVER number is no cap for the requests just below it.) */
  lemma NeverOverflowsExactly(c: Config, now: int)
    requires 0 <= now && now + MAX_TTL <= MAX_UTC
    ensures (forall requested: U64 :: ExpiryFor(now, Negotiate(c, requested)).Some?)
            <==> Representable(now, c.preferredTtl) && (c.maxTtl.Some? ==> now + c.maxTtl.value <= MAX_UTC)
  {
    assert Negotiate(c, ANY) == c.preferredTtl;
    if c.maxTtl.Some? {
      assert Negotiate(c, FOREVER) == c.maxTtl.value;
      if c.maxTtl.value == FOREVER { assert Negotiate(c, MAX_UTC + 1) == MAX_UTC + 1; }
    }
  }
}
