/** The delays of `errorBackoff` in controllers/valssecret_controller.go, in nanoseconds. */
module Backoff {
  import opened Decimal

  const SECOND: int := 1_000_000_000
  const MIN_BACKOFF: int := 3 * SECOND
  const MAX_BACKOFF: int := 120 * SECOND

  /** `math.Pow(1.5, n)` */
  function Power(n: nat): real {
    if n == 0 then 1.0 else 1.5 * Power(n - 1)
  }

  /** `math.Round`: to the nearest integer, half away from zero. */
  function Round(x: real): int {
    if x >= 0.0 then (x + 0.5).Floor else -((0.5 - x).Floor)
  }

  function Clamp(delay: int): int {
    if delay < MIN_BACKOFF then MIN_BACKOFF
    else if delay > MAX_BACKOFF then MAX_BACKOFF
    else delay
  }

  /** The delay for the factor that the conversion to `time.Duration` yields; both
      the product and the sum are those of 64-bit integers. */
  function DelayOf(factor: int): int {
    Clamp(Wrap64(MIN_BACKOFF + Wrap64(SECOND * factor)))
  }

  function Delay(errors: nat): int {
    DelayOf(Wrap64(Round(Power(errors))))
  }

  function Jittered(delay: int, random: real): int {
    delay + Round((random - 0.5) * delay as real * 0.2)
  }

  /** The clamp holds for every factor, so also where the power or the product
      left the range of 64-bit integers. */
  lemma DelayInRange(factor: int, random: real)
    requires 0.0 <= random < 1.0
    ensures 3_000_000_000 <= DelayOf(factor) <= 120_000_000_000
    ensures 2_700_000_000 <= Jittered(DelayOf(factor), random) <= 132_000_000_000
  {
    var delay := DelayOf(factor);
    JitterWithinTenth(delay, random);
  }

  lemma JitterWithinTenth(delay: int, random: real)
    requires 0.0 <= random < 1.0
    requires MIN_BACKOFF <= delay <= MAX_BACKOFF
    ensures 9 * MIN_BACKOFF / 10 <= Jittered(delay, random) <= 11 * MAX_BACKOFF / 10
  {
    WithinTenth(random - 0.5, delay as real);
    RoundedTenth(delay, (random - 0.5) * delay as real * 0.2);
  }

  lemma WithinTenth(share: real, d: real)
    requires -0.5 <= share <= 0.5 && d >= 0.0
    ensures -0.1 * d <= share * d * 0.2 <= 0.1 * d
  {
    Between(share, d);
    Fifth(share * d, d);
  }

  lemma Between(share: real, d: real)
    requires -0.5 <= share <= 0.5 && d >= 0.0
    ensures -0.5 * d <= share * d <= 0.5 * d
  {
    assert (share + 0.5) * d >= 0.0;
    assert (0.5 - share) * d >= 0.0;
  }

  lemma Fifth(x: real, d: real)
    requires -0.5 * d <= x <= 0.5 * d
    ensures -0.1 * d <= x * 0.2 <= 0.1 * d
  {
  }

  lemma RoundedTenth(delay: int, jitter: real)
    requires MIN_BACKOFF <= delay <= MAX_BACKOFF
    requires -0.1 * delay as real <= jitter <= 0.1 * delay as real
    ensures 9 * MIN_BACKOFF / 10 <= delay + Round(jitter) <= 11 * MAX_BACKOFF / 10
  {
  }

  lemma {:induction false} PowerSum(a: nat, b: nat)
    ensures Power(a + b) == Power(a) * Power(b)
  {
    if a > 0 {
      PowerSum(a - 1, b);
    }
  }

  lemma {:induction false} PowerGrows(a: nat, b: nat)
    requires a <= b
    ensures 1.0 <= Power(a) <= Power(b)
  {
    if a < b {
      PowerGrows(a, b - 1);
    } else if 0 < a {
      PowerGrows(a - 1, a - 1);
    }
  }

  lemma Powers()
    ensures 86.4 < Power(11) < 86.5
    ensures 129.7 < Power(12) < 129.8
    ensures 7.2e9 < Power(56) < 7.3e9
    ensures 10.8e9 < Power(57) < 10.95e9
  {
    assert Power(4) == 5.0625;
    PowerSum(4, 4);
    PowerSum(8, 3);
    assert Power(3) == 3.375;
    PowerSum(11, 1);
    PowerSum(7, 7);
    PowerSum(4, 3);
    PowerSum(14, 14);
    PowerSum(28, 28);
    PowerSum(56, 1);
    assert Power(1) == 1.5;
  }

  lemma NothingWraps(factor: int)
    requires 0 <= factor <= 7_300_000_001
    ensures DelayOf(Wrap64(factor)) == Clamp(MIN_BACKOFF + SECOND * factor)
  {
    WrapInRange(factor);
    WrapInRange(SECOND * factor);
    WrapInRange(MIN_BACKOFF + SECOND * factor);
  }

  /** Up to 56 errors nothing wraps around. */
  lemma DelayIsExact(errors: nat)
    requires errors <= 56
    ensures Delay(errors) == Clamp(MIN_BACKOFF + SECOND * Round(Power(errors)))
  {
    Powers();
    PowerGrows(errors, 56);
    var factor := Round(Power(errors));
    assert 1 <= factor <= 7_300_000_001;
    NothingWraps(factor);
  }

  /** Five seconds after the first and the second failure, then six, eight and eleven. */
  lemma FirstDelays()
    ensures Delay(1) == Delay(2) == 5_000_000_000
    ensures Delay(3) == 6_000_000_000 && Delay(4) == 8_000_000_000 && Delay(5) == 11_000_000_000
  {
    assert Power(1) == 1.5 && Power(2) == 2.25 && Power(3) == 3.375;
    assert Power(4) == 5.0625 && Power(5) == 7.59375;
    DelayIsExact(1);
    DelayIsExact(2);
    DelayIsExact(3);
    DelayIsExact(4);
    DelayIsExact(5);
  }

  /** The random number moves the delay, to the nanosecond, from a tenth below to a tenth
      above it; the middle leaves it as it is. */
  lemma JitterFollowsRandom(delay: int, random: real)
    ensures -0.5 <= (Jittered(delay, random) - delay) as real - (random * 2.0 - 1.0) * (delay as real / 10.0) <= 0.5
    ensures Jittered(delay, 0.5) == delay
    ensures Jittered(3_000_000_000, 0.0) == 2_700_000_000 && Jittered(120_000_000_000, 0.75) == 126_000_000_000
  {
    TenthsAgree(random, delay as real);
    RoundIsNear((random - 0.5) * delay as real * 0.2);
  }

  lemma TenthsAgree(random: real, d: real)
    ensures (random - 0.5) * d * 0.2 == (random * 2.0 - 1.0) * (d / 10.0)
  {
  }

  lemma RoundIsNear(x: real)
    ensures -0.5 <= Round(x) as real - x <= 0.5
  {
  }

  lemma RoundGrows(x: real, y: real)
    requires 0.0 <= x <= y
    ensures Round(x) <= Round(y)
  {
  }

  lemma DelayGrows(fewer: nat, more: nat)
    requires fewer <= more <= 56
    ensures Delay(fewer) <= Delay(more)
    ensures Delay(more) == 120_000_000_000 <==> 12 <= more
  {
    PowerGrows(fewer, more);
    RoundGrows(Power(fewer), Power(more));
    DelayIsExact(fewer);
    DelayIsExact(more);
    RoundedAt(more);
  }

  /** 117 seconds on top of the shortest wait make the longest. */
  lemma RoundedAt(errors: nat)
    ensures Round(Power(errors)) >= 117 <==> 12 <= errors
  {
    Powers();
    if 12 <= errors {
      PowerGrows(12, errors);
    } else {
      PowerGrows(errors, 11);
    }
  }

  /** At the 57th error in a row the product wraps to a negative number, and the
      longest wait becomes the shortest. */
  lemma DelayCollapses()
    ensures Delay(56) == 120_000_000_000
    ensures Delay(57) == 3_000_000_000
  {
    DelayGrows(56, 56);
    Powers();
    Overflows(Round(Power(57)));
  }

  lemma Overflows(factor: int)
    requires 10_800_000_000 <= factor <= 10_950_000_001
    ensures DelayOf(Wrap64(factor)) == MIN_BACKOFF
  {
    WrapInRange(factor);
    var product := SECOND * factor - 0x1_0000_0000_0000_0000;
    assert Wrap64(SECOND * factor) == product;
    WrapInRange(MIN_BACKOFF + product);
  }
}
