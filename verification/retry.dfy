/** Retry policy of failed operations (internal/backend/dispatcher.go). Delays are Go
    durations, 64-bit counts of nanoseconds. */
module Retry {
  const MAX_AUTOMATIC_ATTEMPTS: nat := 3
  const SECOND: nat := 1_000_000_000
  const BASE_DELAY: nat := 30
  const MAX_DELAY: nat := 300
  const JITTER_DIVISOR: nat := 5
  const WORD: nat := 0x1_0000_0000_0000_0000

  datatype ErrorClass = RateLimit | Unavailable | OtherClass(name: string)

  predicate RetriesAutomatically(failure: ErrorClass, attempts: nat) {
    attempts < MAX_AUTOMATIC_ATTEMPTS && (failure.RateLimit? || failure.Unavailable?)
  }

  function Doubled(delay: nat, times: nat): nat {
    if times == 0 then delay else 2 * Doubled(delay, times - 1)
  }

  /** What a 64-bit register keeps of `x`. */
  function Wrap(x: int): int { (x + WORD / 2) % WORD - WORD / 2 }

  /** The base delay shifted left once for each attempt after the first. */
  function Shifted(attempts: nat): int
    requires attempts > 0
  {
    Wrap(Doubled(BASE_DELAY * SECOND, attempts - 1))
  }

  /** retryBaseDelayForAttempts */
  function BaseDelay(attempts: nat): int {
    if attempts <= 1 then BASE_DELAY * SECOND
    else if Shifted(attempts) > MAX_DELAY * SECOND then MAX_DELAY * SECOND
    else Shifted(attempts)
  }

  function JitterHash(identity: string, slots: nat): nat
    requires slots > 1
  {
    if identity == "" then 17
    else (JitterHash(identity[..|identity| - 1], slots) * 31 + identity[|identity| - 1] as int) % slots
  }

  function JitterSlot(identity: string, attempts: nat, slots: nat): nat {
    if slots <= 1 then 0 else (JitterHash(identity, slots) * 31 + attempts) % slots
  }

  /** retryJitterSlot, over the bytes of the identity. */
  method ComputeJitterSlot(identity: string, attempts: nat, slots: nat) returns (slot: nat)
    ensures slot == JitterSlot(identity, attempts, slots)
    ensures slots > 0 ==> slot < slots
  {
    if slots <= 1 {
      return 0;
    }
    var hash := 17;
    for i := 0 to |identity|
      invariant hash == JitterHash(identity[..i], slots)
    {
      assert identity[..i + 1][..i] == identity[..i];
      hash := (hash * 31 + identity[i] as int) % slots;
    }
    assert identity[..|identity|] == identity;
    slot := (hash * 31 + attempts) % slots;
  }

  /** The largest jitter, in whole seconds. */
  function JitterSeconds(delay: int): nat { if delay <= 0 then 0 else delay / JITTER_DIVISOR / SECOND }

  function Jitter(identity: string, attempts: nat, delay: int): nat {
    if JitterSeconds(delay) == 0 then 0 else JitterSlot(identity, attempts, JitterSeconds(delay) + 1) * SECOND
  }

  /** retryDelay */
  function RetryDelay(identity: string, attempts: nat): int {
    var delay := BaseDelay(attempts);
    if delay >= MAX_DELAY * SECOND then MAX_DELAY * SECOND
    else if delay + Jitter(identity, attempts, delay) > MAX_DELAY * SECOND then MAX_DELAY * SECOND
    else delay + Jitter(identity, attempts, delay)
  }

  /** The delay of an attempt that is retried automatically, in seconds. */
  function RetrySeconds(identity: string, attempts: nat): (seconds: nat)
    requires attempts < MAX_AUTOMATIC_ATTEMPTS
    ensures BASE_DELAY <= seconds <= MAX_DELAY
  {
    EarlyAttemptsFit(attempts);
    RetryDelayBounds(identity, attempts);
    RetryDelay(identity, attempts) / SECOND
  }

  // ------------------------------------------------------------------ arithmetic

  function Power2(n: nat): (p: nat)
    ensures p > 0
  {
    if n == 0 then 1 else 2 * Power2(n - 1)
  }

  lemma {:induction false} PowerSum(a: nat, b: nat)
    ensures Power2(a) * Power2(b) == Power2(a + b)
    decreases a
  {
    if a > 0 {
      PowerSum(a - 1, b);
      assert Power2(a) * Power2(b) == 2 * (Power2(a - 1) * Power2(b));
    }
  }

  lemma {:induction false} DoubledIs(delay: nat, times: nat)
    ensures Doubled(delay, times) == delay * Power2(times)
  {
    if times > 0 {
      DoubledIs(delay, times - 1);
      assert delay * (2 * Power2(times - 1)) == 2 * (delay * Power2(times - 1));
    }
  }

  lemma LargePowers()
    ensures Power2(10) == 1024 && Power2(25) == 0x200_0000 && Power2(39) == COARSE && Power2(64) == WORD
  {
    assert Power2(5) == 32;
    PowerSum(5, 5);
    PowerSum(10, 5);
    assert Power2(4) == 16;
    PowerSum(10, 10);
    PowerSum(20, 5);
    PowerSum(10, 4);
    PowerSum(14, 25);
    PowerSum(39, 25);
  }

  lemma ModUnique(x: int, m: nat, k: int, r: nat)
    requires m > 0 && x == m * k + r && r < m
    ensures x % m == r
  {
    var d := x / m - k;
    assert m * d == r - x % m;
    assert d >= 1 ==> m * d >= m;
    assert d <= -1 ==> m * d + m <= 0;
  }

  predicate Bit(n: nat, i: nat) { n / Power2(i) % 2 == 1 }

  /** The next bit and the rest. */
  lemma SplitMod(n: nat, q: nat)
    requires q > 0
    ensures n % (2 * q) == (n / q % 2) * q + n % q
  {
    var d := n / q;
    assert n == q * d + n % q && d == 2 * (d / 2) + d % 2;
    assert q * d == (2 * q) * (d / 2) + (d % 2) * q;
    assert (d % 2) * q <= q;
    ModUnique(n, 2 * q, d / 2, (d % 2) * q + n % q);
  }

  // -------------------------------------------------------------------- overflow

  /** The odd factor of the base delay in nanoseconds; the other one is the tenth power
      of two. */
  const ODD: nat := 29296875

  const COARSE: nat := 0x80_0000_0000

  /** The attempts whose shift runs out of bits: the 25 bits of the odd factor reach the
      sign bit one after the other, and from the 55th attempt on none is left. */
  predicate Overflows(attempts: nat) { attempts >= 55 || (attempts >= 30 && Bit(ODD, 54 - attempts)) }

  lemma FirstLateShift()
    ensures Doubled(BASE_DELAY * SECOND, 29) % WORD == ODD % Power2(25) * Power2(39)
  {
    LargePowers();
    DoubledIs(BASE_DELAY * SECOND, 29);
    PowerSum(10, 29);
    assert BASE_DELAY * SECOND * Power2(29) == ODD * (Power2(10) * Power2(29));
  }

  /** The bits a late shift keeps. */
  lemma {:induction false} KeptBits(attempts: nat)
    requires 30 <= attempts <= 55
    ensures Doubled(BASE_DELAY * SECOND, attempts - 1) % WORD == ODD % Power2(55 - attempts) * Power2(attempts + 9)
  {
    if attempts == 30 {
      FirstLateShift();
    } else {
      KeptBits(attempts - 1);
      Halves(attempts);
      NextShift(Doubled(BASE_DELAY * SECOND, attempts - 2), Power2(55 - attempts), Power2(attempts + 8));
    }
  }

  lemma Halves(attempts: nat)
    requires 30 < attempts <= 55
    ensures Power2(55 - attempts) * Power2(attempts + 9) == WORD
    ensures Power2(attempts + 9) == 2 * Power2(attempts + 8) && Power2(56 - attempts) == 2 * Power2(55 - attempts)
  {
    LargePowers();
    PowerSum(55 - attempts, attempts + 9);
  }

  /** One more shift drops the leading bit. */
  lemma NextShift(before: nat, q: nat, unit: nat)
    requires q > 0 && q * (2 * unit) == WORD && before % WORD == ODD % (2 * q) * unit
    ensures 2 * before % WORD == ODD % q * (2 * unit)
  {
    var bit, rest := ODD / q % 2, ODD % q;
    SplitMod(ODD, q);
    Redistribute(bit, q, rest, unit);
    var k := before / WORD;
    assert before == WORD * k + (bit * q + rest) * unit;
    assert rest * (2 * unit) < q * (2 * unit);
    assert WORD * (2 * k + bit) == 2 * (WORD * k) + WORD * bit;
    ModUnique(2 * before, WORD, 2 * k + bit, rest * (2 * unit));
  }

  lemma Redistribute(bit: nat, q: nat, rest: nat, unit: nat)
    ensures 2 * ((bit * q + rest) * unit) == bit * (q * (2 * unit)) + rest * (2 * unit)
  {
    assert (bit * q + rest) * unit == (bit * q) * unit + rest * unit;
    assert (bit * q) * unit == bit * (q * unit);
    assert q * (2 * unit) == 2 * (q * unit);
  }

  lemma {:induction false} NoBitsLeft(attempts: nat)
    requires attempts >= 55
    ensures Doubled(BASE_DELAY * SECOND, attempts - 1) % WORD == 0
  {
    if attempts == 55 {
      KeptBits(55);
    } else {
      NoBitsLeft(attempts - 1);
    }
  }

  lemma {:induction false} DoubledGrows(delay: nat, a: nat, b: nat)
    requires a <= b
    ensures delay <= Doubled(delay, a) <= Doubled(delay, b)
    decreases b
  {
    if a < b {
      DoubledGrows(delay, a, b - 1);
    } else if a > 0 {
      DoubledGrows(delay, a - 1, b - 1);
    }
  }

  lemma EarlyShift(attempts: nat)
    requires 0 < attempts <= 29
    ensures Shifted(attempts) == Doubled(BASE_DELAY * SECOND, attempts - 1)
  {
    LargePowers();
    DoubledGrows(BASE_DELAY * SECOND, attempts - 1, 29);
    DoubledGrows(BASE_DELAY * SECOND, attempts - 1, 28);
    DoubledIs(BASE_DELAY * SECOND, 28);
    PowerSum(10, 28);
    PowerSum(1, 38);
    assert BASE_DELAY * SECOND * Power2(28) == ODD * (Power2(10) * Power2(28));
  }

  /** The sign of a shifted delay, and its size when it is positive. */
  lemma ShiftedSign(attempts: nat)
    requires attempts >= 30
    ensures Overflows(attempts) ==> if attempts < 55 then Shifted(attempts) < 0 else Shifted(attempts) == 0
    ensures !Overflows(attempts) ==> Shifted(attempts) > MAX_DELAY * SECOND
  {
    if attempts >= 55 {
      NoBitsLeft(attempts);
    } else {
      var q, u, rest := Power2(54 - attempts), Power2(attempts + 9), ODD % Power2(54 - attempts);
      KeptBits(attempts);
      Halves(attempts + 1);
      SplitMod(ODD, q);
      SignOf(Doubled(BASE_DELAY * SECOND, attempts - 1), ODD / q % 2, q, u, rest);
      LateUnit(attempts);
      LeadingBit(attempts);
    }
  }

  lemma LateUnit(attempts: nat)
    requires attempts >= 30
    ensures Power2(attempts + 9) >= COARSE
  {
    LargePowers();
    PowerSum(attempts - 30, 39);
    assert Power2(attempts - 30) * COARSE >= COARSE;
  }

  /** The odd factor has a bit left as long as it is not shifted out. */
  lemma LeadingBit(attempts: nat)
    requires 30 <= attempts <= 54
    ensures var q := Power2(54 - attempts); ODD % q > 0 || ODD / q % 2 == 1
  {
    RestIsOdd(Power2(54 - attempts));
  }

  lemma RestIsOdd(q: nat)
    requires q > 0
    ensures if q % 2 == 0 then ODD % q > 0 else q == 1 ==> ODD / q % 2 == 1
  {
    if q % 2 == 0 {
      assert ODD == q * (ODD / q) + ODD % q;
      assert q * (ODD / q) == 2 * ((q / 2) * (ODD / q));
    }
  }

  lemma SignOf(x: nat, bit: nat, q: nat, u: nat, rest: nat)
    requires bit <= 1 && rest < q && q * (2 * u) == WORD && x % WORD == (bit * q + rest) * u
    ensures bit == 1 ==> Wrap(x) < 0
    ensures bit == 0 ==> Wrap(x) == rest * u
    ensures rest > 0 ==> rest * u >= u
  {
    Redistribute(bit, q, rest, u);
    assert q * (2 * u) == 2 * (q * u) && rest * (2 * u) == 2 * (rest * u);
    assert rest * u < q * u;
    assert bit * WORD == if bit == 1 then WORD else 0;
    WrapOf(x, (bit * q + rest) * u);
    assert rest > 0 ==> rest * u >= 1 * u;
  }

  lemma WrapOf(x: nat, kept: nat)
    requires x % WORD == kept
    ensures Wrap(x) == if kept < WORD / 2 then kept else kept - WORD
  {
  }

  // -------------------------------------------------------------------- bounds

  lemma EarlyAttemptsFit(attempts: nat)
    requires attempts <= 29
    ensures !Overflows(attempts)
  {
  }

  /** A base delay is positive exactly without overflow, and then within its bounds. */
  lemma BaseDelayBounds(attempts: nat)
    ensures if Overflows(attempts) then BaseDelay(attempts) <= 0
      else BASE_DELAY * SECOND <= BaseDelay(attempts) <= MAX_DELAY * SECOND
    ensures !Overflows(attempts) && attempts > 29 ==> BaseDelay(attempts) == MAX_DELAY * SECOND
  {
    if attempts > 29 {
      ShiftedSign(attempts);
    } else if attempts > 0 {
      EarlyShift(attempts);
      DoubledGrows(BASE_DELAY * SECOND, 0, attempts - 1);
    }
  }

  /** A retry is due between half a minute and five minutes later exactly if the shift
      has not run out of bits. */
  lemma RetryDelayBounds(identity: string, attempts: nat)
    ensures BASE_DELAY * SECOND <= RetryDelay(identity, attempts) <= MAX_DELAY * SECOND <==> !Overflows(attempts)
  {
    BaseDelayBounds(attempts);
  }

  /** The first attempt whose delay is negative, and the first without a delay. */
  lemma ThirtiethAttemptOverflows(identity: string)
    ensures Overflows(30) && RetryDelay(identity, 30) < 0 && RetryDelay(identity, 55) == 0
  {
    LargePowers();
    assert Power2(25) == 2 * Power2(24);
    ShiftedSign(30);
    ShiftedSign(55);
  }

  /** A later attempt never waits less than an earlier one, whatever the jitter. */
  lemma RetryDelayGrows(identity: string, other: string, attempts: nat)
    requires attempts > 0 && !Overflows(attempts) && !Overflows(attempts + 1)
    ensures RetryDelay(identity, attempts) <= RetryDelay(other, attempts + 1)
  {
    var delay := BaseDelay(attempts);
    BaseDelayBounds(attempts);
    BaseDelayBounds(attempts + 1);
    if attempts <= 28 {
      EarlyShift(attempts);
      EarlyShift(attempts + 1);
      assert Doubled(BASE_DELAY * SECOND, attempts) == 2 * Doubled(BASE_DELAY * SECOND, attempts - 1);
      assert Jitter(identity, attempts, delay) <= delay / JITTER_DIVISOR;
    }
  }
}
