/** Durations, the two duration conversions of the queue, the smoothed
    RTT/variance estimator and the retransmission timeout derived from it. */
module Rtt {
  import opened Types

  /** A point on the monotonic clock, in nanoseconds. */
  type Instant = nat

  const NANOS_PER_SEC: nat := 1_000_000_000
  const MICROS_PER_SEC: nat := 1_000_000
  const NANOS_PER_MS: nat := 1_000_000
  const NANOS_PER_MICRO: nat := 1_000

  /** Samples are clamped to 30 000 ms above 30 whole seconds; a duration of
      30 s and 999 ms passes unclamped, so this is the largest sample. */
  const MAX_SAMPLE_MS: nat := 30_999

  /** The retransmission timeout never falls below this many milliseconds. */
  const MIN_TIMEOUT_MS: nat := 500

  type SubsecNanos = n: int | 0 <= n < 1_000_000_000

  /** `std::time::Duration`: whole seconds plus the nanoseconds below one second. */
  datatype Duration = Duration(secs: nat, subsecNanos: SubsecNanos)

  /** `later.duration_since(earlier)`. */
  function Elapsed(earlier: Instant, later: Instant): (d: Duration)
    requires earlier <= later
    ensures d.secs * NANOS_PER_SEC + d.subsecNanos == later - earlier
  {
    Duration((later - earlier) / NANOS_PER_SEC, (later - earlier) % NANOS_PER_SEC)
  }

  function TotalNanos(d: Duration): nat {
    d.secs * NANOS_PER_SEC + d.subsecNanos
  }

  /** `as_ms`: the duration in whole milliseconds, except that anything over 30
      whole seconds becomes exactly 30 000. */
  function AsMs(d: Duration): (ms: nat)
    ensures ms <= MAX_SAMPLE_MS
    ensures d.secs > 30 ==> ms == 30_000
    ensures d.secs <= 30 ==> ms == TotalNanos(d) / NANOS_PER_MS
  {
    if d.secs > 30 then
      30_000
    else
      var subSecs := d.subsecNanos / NANOS_PER_MS;
      DivSplit(d.secs, d.subsecNanos);
      d.secs * 1000 + subSecs
  }

  lemma DivSplit(secs: nat, nanos: SubsecNanos)
    ensures (secs * NANOS_PER_SEC + nanos) / NANOS_PER_MS == secs * 1000 + nanos / NANOS_PER_MS
  {
  }

  lemma DivUnique(x: int, q: int, r: int, m: int)
    requires m > 0 && 0 <= r < m && x == q * m + r
    ensures x / m == q && x % m == r
  {
    var q', r' := x / m, x % m;
    assert q' * m + r' == x;
    if q' < q {
      assert (q - q') * m == r' - r;
      MulAtLeast(q - q', m);
    } else if q < q' {
      assert (q' - q) * m == r - r';
      MulAtLeast(q' - q, m);
    }
  }

  lemma MulAtLeast(k: int, m: int)
    requires k >= 1 && m > 0
    ensures k * m >= m
  {
  }

  /** `as_micros`: the duration in whole microseconds modulo 2^32. The seconds
      are scaled with a 64-bit wrapping multiply and truncated to 32 bits; the
      sub-second microseconds are then added modulo 2^32. */
  function AsMicros(d: Duration): (us: uint32)
    ensures us == (TotalNanos(d) / NANOS_PER_MICRO) % U32_MODULUS
  {
    var scaled := d.secs * MICROS_PER_SEC;
    var ret := scaled % U64_MODULUS % U32_MODULUS;
    ModOfMod(scaled);
    ModAdd(scaled, d.subsecNanos / NANOS_PER_MICRO);
    DivUnique(TotalNanos(d), scaled + d.subsecNanos / NANOS_PER_MICRO, d.subsecNanos % NANOS_PER_MICRO, NANOS_PER_MICRO);
    (ret + d.subsecNanos / NANOS_PER_MICRO) % U32_MODULUS
  }

  lemma ModOfMod(x: nat)
    ensures x % U64_MODULUS % U32_MODULUS == x % U32_MODULUS
  {
  }

  lemma ModAdd(x: nat, y: nat)
    ensures (x % U32_MODULUS + y) % U32_MODULUS == (x + y) % U32_MODULUS
  {
  }

  /** Rust's signed `/`: the quotient rounds toward zero, so the remainder
      takes the sign of the dividend (Dafny's own `/` is Euclidean). */
  function TruncDiv(a: int, b: int): (q: int)
    requires b > 0
    ensures a >= 0 ==> 0 <= a - q * b < b
    ensures a < 0 ==> -b < a - q * b <= 0
  {
    if a >= 0 then a / b else -((-a) / b)
  }

  /** The smoothed round-trip time (ms, `u64` in the source) and its smoothed
      absolute deviation (`i64`). */
  datatype Estimator = Estimator(rtt: nat, variance: int)

  /** The range the estimator stays in: no sample exceeds MAX_SAMPLE_MS, so
      neither field can leave [0, MAX_SAMPLE_MS] and the source's `u64`/`i64`
      arithmetic never overflows. */
  predicate Bounded(e: Estimator) {
    e.rtt <= MAX_SAMPLE_MS && 0 <= e.variance <= MAX_SAMPLE_MS
  }

  predicate Between(x: int, a: int, b: int) {
    (a <= x <= b) || (b <= x <= a)
  }

  /** One sample fed into the estimator: the variance moves a quarter of the way
      towards |rtt - sample| (signed, truncating division), then the rtt moves an
      eighth of the way towards the sample (unsigned, so floor division). */
  function Update(e: Estimator, sample: nat): (r: Estimator)
    ensures Between(r.rtt, e.rtt, sample)
    ensures Between(r.variance, e.variance, Abs(e.rtt - sample))
    ensures e.variance >= 0 ==> r.variance >= 0
    ensures Bounded(e) && sample <= MAX_SAMPLE_MS ==> Bounded(r)
  {
    var delta := Abs(e.rtt - sample);
    var variance := e.variance + TruncDiv(delta - e.variance, 4);
    var rtt := if e.rtt >= sample then e.rtt - (e.rtt - sample) / 8
               else e.rtt + (sample - e.rtt) / 8;
    Estimator(rtt, variance)
  }

  /** The gains of the estimator: the rtt moves an eighth of the way to the
      sample and the variance a quarter of the way to |rtt - sample|, each
      step rounded toward zero as Rust's integer division rounds. */
  lemma UpdateGains(e: Estimator, sample: nat)
    ensures var r := Update(e, sample);
            var x := Abs(e.rtt - sample) - e.variance;
            var y := sample - e.rtt;
            (x >= 0 ==> 0 <= x - 4 * (r.variance - e.variance) < 4)
            && (x < 0 ==> -4 < x - 4 * (r.variance - e.variance) <= 0)
            && (y >= 0 ==> 0 <= y - 8 * (r.rtt - e.rtt) < 8)
            && (y < 0 ==> -8 < y - 8 * (r.rtt - e.rtt) <= 0)
  {
  }

  /** `socket_timeout`, in milliseconds: rtt + variance, but never under 500. */
  function SocketTimeoutMs(e: Estimator): (ms: int)
    ensures ms >= MIN_TIMEOUT_MS
    ensures ms == e.rtt + e.variance || ms == MIN_TIMEOUT_MS
    ensures e.rtt + e.variance > MIN_TIMEOUT_MS ==> ms == e.rtt + e.variance
  {
    var timeout := e.rtt + e.variance;
    if timeout > 500 then timeout else 500
  }
}
