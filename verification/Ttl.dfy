/** Time-to-live arithmetic: int64 nanoseconds, the configured maximum, and the
    expiry stamps the SQL backends store. Times are nanoseconds since the epoch. */
module Ttl {
  import opened Numbers
  import opened Wrappers

  const SECOND := 1_000_000_000

  /** `time.Duration(n) * time.Second`. */
  function Seconds(n: int): int {
    Wrap64(n * SECOND)
  }

  function ResolveTtl(maxTtl: int, requested: int): int {
    if maxTtl == 0 then requested
    else if requested == 0 then maxTtl
    else if requested > maxTtl then maxTtl
    else requested
  }

  /** SQLite keeps Unix seconds, PostgreSQL the time itself. */
  datatype Backend = Sqlite | Postgres

  function Stamp(b: Backend, t: int): int {
    match b case Sqlite => t / SECOND case Postgres => t
  }

  /** The expire_at column of a Save at time `born`; NULL when ttl is not positive. */
  function ExpireAt(b: Backend, born: int, ttl: int): Option<int> {
    if ttl > 0 then Some(Stamp(b, born + ttl)) else None
  }

  /** The test of every read: expired from its stamp on. */
  predicate Expired(b: Backend, expireAt: Option<int>, now: int) {
    expireAt.Some? && Stamp(b, now) >= expireAt.value
  }

  /** The test of the cleanup DELETE, which is strict. */
  predicate Sweepable(b: Backend, expireAt: Option<int>, now: int) {
    expireAt.Some? && expireAt.value < Stamp(b, now)
  }

  lemma StampMonotone(b: Backend, t: int, u: int)
    requires t <= u
    ensures Stamp(b, t) <= Stamp(b, u)
  {}

  lemma ExpiredStays(b: Backend, expireAt: Option<int>, t: int, u: int)
    requires t <= u && Expired(b, expireAt, t)
    ensures Expired(b, expireAt, u)
  {
    StampMonotone(b, t, u);
  }

  /** The int64 product is exact just up to 9223372036 seconds. */
  lemma SecondsExact(n: int)
    requires 0 <= n < TWO63
    ensures Seconds(n) == n * SECOND <==> n <= 9223372036
  {
    if n <= 9223372036 {
      assert 0 <= n * SECOND < TWO63;
      assert (n * SECOND + TWO63) % TWO64 == n * SECOND + TWO63;
    } else {
      assert n * SECOND >= TWO63;
    }
  }

  /** Under a positive maximum the resolved TTL is in (0, max] exactly when the low
      64 bits of the nanosecond count leave the sign bit clear; below the limit they do,
      and a request within the maximum is honoured. */
  lemma ResolvedWithinMax(maxTtl: int, n: int)
    requires 0 < maxTtl && 0 <= n < TWO63
    ensures 0 < ResolveTtl(maxTtl, Seconds(n)) <= maxTtl <==> (n * SECOND) % TWO64 < TWO63
    ensures n <= 9223372036 ==> (n * SECOND) % TWO64 < TWO63
    ensures n <= 9223372036 && 0 < n * SECOND <= maxTtl ==> ResolveTtl(maxTtl, Seconds(n)) == n * SECOND
  {
    SecondsExact(n);
    SignBit(n * SECOND);
  }

  /** What is stored exactly: without a maximum the request itself, up to the int64 limit
      and modulo 2^64 above it; with a positive one the maximum for a request of zero or
      of more than that. */
  lemma ResolvedExactly(maxTtl: int, n: int)
    requires 0 <= n < TWO63
    ensures var r := ResolveTtl(maxTtl, Seconds(n));
      && (maxTtl == 0 && n <= 9223372036 ==> r == n * SECOND)
      && (maxTtl == 0 ==> -TWO63 <= r < TWO63 && (r - n * SECOND) % TWO64 == 0)
      && (maxTtl > 0 ==> r <= maxTtl)
      && (maxTtl > 0 && n <= 9223372036 && (n == 0 || n * SECOND > maxTtl) ==> r == maxTtl)
  {
    SecondsExact(n);
    WrapIsModulo(n * SECOND);
  }

  lemma WrapIsModulo(x: int)
    ensures -TWO63 <= Wrap64(x) < TWO63 && (Wrap64(x) - x) % TWO64 == 0
  {
    var q := (x + TWO63) / TWO64;
    assert Wrap64(x) - x == -q * TWO64;
  }

  lemma SignBit(x: int)
    ensures Wrap64(x) >= 0 <==> x % TWO64 < TWO63
    ensures Wrap64(x) == if x % TWO64 < TWO63 then x % TWO64 else x % TWO64 - TWO64
  {
    var q, r := x / TWO64, x % TWO64;
    assert x == q * TWO64 + r;
    if r < TWO63 {
      assert x + TWO63 == q * TWO64 + (r + TWO63);
    } else {
      assert x + TWO63 == (q + 1) * TWO64 + (r - TWO63);
    }
  }

  /** What goes wrong above the limit: one second more, and a paste under a
      one-hour maximum is stored without any expiry. */
  lemma HugeTtlNeverExpires(b: Backend, born: int)
    ensures var ttl := ResolveTtl(3600 * SECOND, Seconds(9223372037));
      ttl < 0 && ExpireAt(b, born, ttl) == None
  {}

  /** A stored paste is live to within one second of its TTL and never after it; exactly
      as long on PostgreSQL. */
  lemma LivePeriod(b: Backend, born: int, ttl: int, t: int)
    requires ttl > 0
    ensures t <= born + ttl - SECOND ==> !Expired(b, ExpireAt(b, born, ttl), t)
    ensures t >= born + ttl ==> Expired(b, ExpireAt(b, born, ttl), t)
    ensures b == Postgres && t < born + ttl ==> !Expired(b, ExpireAt(b, born, ttl), t)
  {}

  /** The cleanup only ever deletes what reads already treat as expired. */
  lemma SweptIsExpired(b: Backend, expireAt: Option<int>, now: int)
    requires Sweepable(b, expireAt, now)
    ensures Expired(b, expireAt, now)
  {}
}
