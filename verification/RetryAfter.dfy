/** How long a rate-limited client is told to wait: auth/github.go's arithmetic and the header lfs/handler.go sends. */
module RetryAfter {
  import opened ByteText
  import opened Numbers

  const SECOND: int := 1_000_000_000
  const DEFAULT_WAIT: int := 60 * SECOND
  const MAX_WAIT: int := 3600 * SECOND
  const TWO_64: int := 0x1_0000_0000_0000_0000

  /** time.Time{} as seconds since 1970: the "unknown" reset time. */
  const ZERO_TIME: int := -62135596800

  /** The value of a product in int64: it wraps. */
  function Wrap(x: int): (r: int64)
    ensures MIN_INT64 <= x <= MAX_INT64 ==> r == x
  {
    (x - MIN_INT64) % TWO_64 + MIN_INT64
  }

  /** time.Until: the difference of two instants saturates. */
  function Saturate(x: int): (r: int64) {
    if x > MAX_INT64 then MAX_INT64 else if x < MIN_INT64 then MIN_INT64 else x
  }

  /** time.Unix counts from the year 1 and wraps: the second since 1970 it really stands for. */
  function UnixTime(seconds: int64): (t: int)
    ensures seconds <= MAX_INT64 + ZERO_TIME ==> t == seconds
    ensures seconds > MAX_INT64 + ZERO_TIME ==> t == seconds - TWO_64
  {
    Wrap(seconds - ZERO_TIME) + ZERO_TIME
  }

  function UntilReset(reset: int64, now: int): (wait: int64)
    ensures wait >= SECOND
  {
    var t := UnixTime(reset);
    if t == ZERO_TIME then DEFAULT_WAIT
    else if Saturate(t * SECOND - now) < SECOND then SECOND else Saturate(t * SECOND - now)
  }

  /** retryAfter: the Retry-After and X-RateLimit-Reset headers as parsed, None when they do not parse. */
  function FromHeaders(seconds: Option<int64>, reset: Option<int64>, now: int): (wait: int64) {
    if seconds.Some? && seconds.value > 0 then Wrap(seconds.value * SECOND)
    else if reset.Some? then UntilReset(reset.value, now)
    else DEFAULT_WAIT
  }

  /** How GitHub limited the call: primary limit, secondary limit (its own wait, 0 when absent), or status 429. */
  datatype Limit = Primary(reset: int64) | Secondary(wait: int64)
                 | TooManyRequests(seconds: Option<int64>, resetHeader: Option<int64>)

  function Requested(limit: Limit, now: int): (wait: int64) {
    match limit
    case Primary(reset) => UntilReset(reset, now)
    case Secondary(wait) => if wait == 0 then DEFAULT_WAIT else wait
    case TooManyRequests(seconds, reset) => FromHeaders(seconds, reset, now)
  }

  function RateLimited(limit: Limit, now: int): (wait: int64) {
    if Requested(limit, now) < MAX_WAIT then Requested(limit, now) else MAX_WAIT
  }

  function CeilSeconds(wait: int): int {
    -(-wait / SECOND)
  }

  /** The Retry-After header of the answer to the client. */
  function ClientSeconds(wait: int): (s: int) {
    if CeilSeconds(wait) > 1 then CeilSeconds(wait) else 1
  }

  /** Whatever GitHub sends, wrapped products and past resets included, the client waits 1 to 3600 seconds. */
  lemma ClientWaitIsBounded(limit: Limit, now: int)
    ensures 1 <= ClientSeconds(RateLimited(limit, now)) <= 3600
  {
    var w := RateLimited(limit, now);
    assert -w >= -MAX_WAIT;
    assert -w / SECOND >= -3600;
  }

  /**
   * A Retry-After header is passed on, capped at an hour, exactly when its nanosecond product fits int64 or wraps
   * to more than 3599 seconds; it fits for every value up to 9223372036.
   */
  lemma HeaderIsHonoured(seconds: int64, reset: Option<int64>, now: int)
    requires 0 < seconds
    ensures ClientSeconds(RateLimited(TooManyRequests(Some(seconds), reset), now))
            == (if seconds < 3600 then seconds else 3600)
            <==> seconds <= 9223372036 || Wrap(seconds * SECOND) > 3599 * SECOND
  {
    var w := Wrap(seconds * SECOND);
    if seconds <= 9223372036 {
      assert w == seconds * SECOND;
      if seconds < 3600 {
        assert -(seconds * SECOND) / SECOND == -seconds;
      }
    } else if w <= 3599 * SECOND {
      assert -w / SECOND >= -3599;
    } else if w < MAX_WAIT {
      assert -w / SECOND == -3600;
    }
  }

  /** Beyond that the product wraps: a client told to wait 9223372037 seconds is sent back after one. */
  lemma WrappedHeaderIsShort(now: int)
    ensures ClientSeconds(RateLimited(TooManyRequests(Some(9223372037), None), now)) == 1
  {
    assert Wrap(9223372037 * SECOND) == 9223372037 * SECOND - TWO_64;
  }

  /** The whole number of seconds from 1 to 3600 that covers a wait, as far as it goes. */
  ghost predicate IsCovering(seconds: int, wait: int) {
    && 1 <= seconds <= 3600
    && (seconds < 3600 ==> wait <= seconds * SECOND)
    && (seconds > 1 ==> (seconds - 1) * SECOND < wait)
  }

  lemma CeilingCovers(wait: int)
    requires wait <= MAX_WAIT
    ensures IsCovering(ClientSeconds(wait), wait)
  {
    var c := CeilSeconds(wait);
    assert -wait == (-wait / SECOND) * SECOND + (-wait) % SECOND;
    assert c * SECOND - SECOND < wait <= c * SECOND;
    assert c <= 3600;
  }

  /**
   * The client is told the fewest whole seconds that cover what GitHub asked for, between one and 3600: the time to
   * the reset, the wait of a secondary limit, and a minute when GitHub gave neither.
   */
  lemma WaitIsCovered(limit: Limit, now: int)
    ensures var s := ClientSeconds(RateLimited(limit, now));
            match limit
            case Primary(reset) =>
              if reset == -62135596800 then s == 60 else IsCovering(s, UnixTime(reset) * 1_000_000_000 - now)
            case Secondary(wait) => if wait == 0 then s == 60 else IsCovering(s, wait)
            case TooManyRequests(seconds, reset) =>
              if seconds.Some? && seconds.value > 0 then IsCovering(s, Wrap(seconds.value * 1_000_000_000))
              else if reset.None? || reset.value == -62135596800 then s == 60
              else IsCovering(s, UnixTime(reset.value) * 1_000_000_000 - now)
  {
    CeilingCovers(RateLimited(limit, now));
  }
}
