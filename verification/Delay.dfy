/** Publish-time delay and TTL arithmetic (store/delay.go).  Durations are
    nanoseconds, as Go's time.Duration; clocks are Unix seconds. */
module Delay {
  import opened Tables

  const SECOND := 1_000_000_000
  const HOUR := 3600 * SECOND
  const MAX_DELAY := 90 * 24 * HOUR
  const DEFAULT_PUBLISH_TTL := 7 * 24 * HOUR

  /** An absolute expiry is optional; a TTL of zero or less means "not given". */
  datatype PublishOpts = PublishOpts(ttl: int, expiresAt: Option<int>, delay: int, maxAttempts: int)

  datatype DelayError = DelayNegative | DelayTooLong | DelayExceedsTTL

  /** Go's integer division, which truncates toward zero. */
  function TruncDiv(a: int, b: int): int
    requires b > 0
  {
    if a >= 0 then a / b else -((-a) / b)
  }

  function DurationSec(d: int): (sec: int)
    ensures sec >= 1
    ensures d >= SECOND ==> sec * SECOND <= d < (sec + 1) * SECOND
  {
    var sec := TruncDiv(d, SECOND);
    if sec < 1 then 1 else sec
  }

  function DelaySec(d: int): (sec: int)
    ensures sec >= 0
    ensures d >= 0 ==> sec * SECOND <= d < (sec + 1) * SECOND
  {
    if d <= 0 then 0 else TruncDiv(d, SECOND)
  }

  function ValidatePublishDelay(opts: PublishOpts, now: int): Option<DelayError> {
    if opts.delay < 0 then Some(DelayNegative)
    else if opts.delay > MAX_DELAY then Some(DelayTooLong)
    else
      var delaySec := DelaySec(opts.delay);
      if delaySec == 0 then None
      else
        var expires :=
          if opts.ttl > 0 then now + DurationSec(opts.ttl)
          else if opts.expiresAt.Some? then opts.expiresAt.value
          else now + DurationSec(DEFAULT_PUBLISH_TTL);
        if now + delaySec >= expires then Some(DelayExceedsTTL) else None
  }

  /** The two columns a publish at clock `now` writes (driver/sqlite/publish.go). */
  function StoredExpiry(opts: PublishOpts, now: int): int {
    var ttlSec := if opts.ttl > 0 then DurationSec(opts.ttl) else DurationSec(DEFAULT_PUBLISH_TTL);
    if opts.ttl <= 0 && opts.expiresAt.Some? then opts.expiresAt.value else now + ttlSec
  }

  function StoredAvailable(opts: PublishOpts, now: int): int {
    now + DelaySec(opts.delay)
  }

  /** The client's options that fill what a publish leaves out. */
  datatype Defaults = Defaults(ttl: int, maxAttempts: int)

  /** What Client.Publish passes on: a missing TTL or attempt limit is filled
      from its options, and it has no absolute expiry to offer. */
  function ClientOpts(ttl: int, delay: int, maxAttempts: int, defaults: Defaults): PublishOpts {
    PublishOpts(if ttl <= 0 then defaults.ttl else ttl, None, delay, if maxAttempts <= 0 then defaults.maxAttempts else maxAttempts)
  }

  predicate HasClaimWindow(opts: PublishOpts, now: int) {
    StoredAvailable(opts, now) < StoredExpiry(opts, now)
  }

  /** The publishes that slip past the window check: no whole second of delay,
      no TTL, and an absolute expiry that has already come. */
  predicate AlreadyExpired(opts: PublishOpts, now: int) {
    && DelaySec(opts.delay) == 0
    && opts.ttl <= 0
    && opts.expiresAt.Some?
    && opts.expiresAt.value <= now
  }

  /** Validation accepts exactly the delays in range that leave a claim window,
      plus the already-expired publishes, which it never looks at. */
  lemma ValidationIsTheClaimWindow(opts: PublishOpts, now: int)
    ensures ValidatePublishDelay(opts, now).None? <==>
            0 <= opts.delay <= MAX_DELAY && (HasClaimWindow(opts, now) || AlreadyExpired(opts, now))
    ensures AlreadyExpired(opts, now) ==> !HasClaimWindow(opts, now)
  {
    assert DelaySec(opts.delay) == 0 && !AlreadyExpired(opts, now) ==> HasClaimWindow(opts, now);
  }

  /** An accepted publish whose row no claim can ever see. */
  lemma AcceptedWithoutWindow()
    ensures ValidatePublishDelay(PublishOpts(0, Some(99), 0, 5), 100).None?
    ensures !HasClaimWindow(PublishOpts(0, Some(99), 0, 5), 100)
  {
  }

  /** Unless an absolute expiry decides, the verdict is the same on every clock,
      so the client's host-clock check and the driver's database-clock check
      agree; and whatever the client lets through has a claim window on the
      database clock. */
  lemma VerdictIgnoresClock(opts: PublishOpts, host: int, db: int)
    requires opts.ttl > 0 || opts.expiresAt.None?
    ensures ValidatePublishDelay(opts, host) == ValidatePublishDelay(opts, db)
    ensures ValidatePublishDelay(opts, host).None? ==> HasClaimWindow(opts, db)
  {
    ValidationIsTheClaimWindow(opts, db);
  }

  lemma ClientPublishHasClaimWindow(ttl: int, delay: int, maxAttempts: int, defaults: Defaults, host: int, db: int)
    requires defaults.ttl > 0
    ensures var opts := ClientOpts(ttl, delay, maxAttempts, defaults);
            && ValidatePublishDelay(opts, host) == ValidatePublishDelay(opts, db)
            && (ValidatePublishDelay(opts, host).None? ==> HasClaimWindow(opts, db))
  {
    VerdictIgnoresClock(ClientOpts(ttl, delay, maxAttempts, defaults), host, db);
  }
}
