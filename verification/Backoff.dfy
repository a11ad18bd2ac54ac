/** Reconnect delays (internal/control/backoff.go) in 64-bit arithmetic, and the supervisor loop
    that draws them (internal/control/client.go's run). */
module Backoff {
  import opened Basics

  /** time.Duration: int64 nanoseconds. */
  type Duration = x: int | -TWO_63 <= x < TWO_63

  function Pow2(n: nat): nat {
    if n == 0 then 1 else 2 * Pow2(n - 1)
  }

  function Min(a: int, b: int): int {
    if a <= b then a else b
  }

  /** The documented envelope: min(cap, base * 2^attempt). A negative attempt never doubles. */
  function Envelope(base: int, cap: int, attempt: int): int {
    Min(cap, base * Pow2(if attempt < 0 then 0 else attempt))
  }

  lemma {:induction false} Pow2Grows(m: nat, n: nat)
    requires m <= n
    ensures 1 <= Pow2(m) <= Pow2(n)
    decreases n
  {
    if m < n {
      Pow2Grows(m, n - 1);
    } else if m > 0 {
      Pow2Grows(m - 1, n - 1);
    }
  }

  lemma {:induction false} Pow2Adds(m: nat, n: nat)
    ensures Pow2(m + n) == Pow2(m) * Pow2(n)
    decreases n
  {
    if n > 0 {
      Pow2Adds(m, n - 1);
    }
  }

  lemma Pow2Of63()
    ensures Pow2(63) == TWO_63
  {
    assert Pow2(9) == 0x200;
    Pow2Adds(9, 9);
    assert Pow2(18) == 0x4_0000;
    Pow2Adds(18, 9);
    assert Pow2(27) == 0x800_0000;
    Pow2Adds(27, 27);
    assert Pow2(54) == 0x40_0000_0000_0000;
    Pow2Adds(54, 9);
  }

  /** Once the doubled base has reached the cap, no further attempt changes the envelope. */
  lemma EnvelopeSaturates(base: int, cap: int, i: nat, attempt: int)
    requires 0 < base && i <= attempt && base * Pow2(i) >= cap
    ensures Envelope(base, cap, attempt) == cap
  {
    Pow2Grows(i, attempt);
    assert base * Pow2(attempt) >= base * Pow2(i);
  }

  /** The envelope starts at the base, doubles with each attempt, and stays at the cap once there. */
  lemma EnvelopeDoublesToTheCap(base: int, cap: int, attempt: int)
    requires 0 < base <= cap
    ensures attempt <= 0 ==> Envelope(base, cap, attempt) == base
    ensures attempt >= 0 ==>
      var now, next := Envelope(base, cap, attempt), Envelope(base, cap, attempt + 1);
      base <= now <= cap && next == if 2 * now < cap then 2 * now else cap
  {
    if attempt >= 0 {
      Pow2Grows(0, attempt);
      Pow2Grows(attempt, attempt + 1);
      assert base * Pow2(attempt + 1) == 2 * (base * Pow2(attempt));
      assert base * Pow2(attempt) >= base;
    }
  }

  /** The doubling loop is bounded by the width of a duration, whatever the attempt index. */
  lemma DoublingsAreLogarithmic(base: int, cap: int, n: nat)
    requires 0 < base && cap < TWO_63 && (n > 0 ==> base * Pow2(n - 1) < cap)
    ensures n <= 63
  {
    if n > 63 {
      Pow2Grows(63, n - 1);
      Pow2Of63();
    }
  }

  /** NewBackoff's check and Delay's two halves: the wrapping doubling loop and the clamped draw. */
  class Schedule {
    const base: int
    const cap: int

    predicate Valid() {
      0 < base <= cap < TWO_63
    }

    constructor (base: Duration, cap: Duration)
      requires 0 < base <= cap
      ensures Valid() && this.base == base && this.cap == cap
    {
      this.base, this.cap := base, cap;
    }

    /** For every int64 base and cap and every attempt, the wrapping loop computes the mathematical
        envelope, and it doubles only while the envelope is still below the cap. */
    method EnvelopeFor(attempt: int) returns (envelope: int, doublings: nat)
      requires Valid()
      ensures envelope == Envelope(base, cap, attempt) && 0 < envelope <= cap
      ensures doublings > 0 ==> base * Pow2(doublings - 1) < cap
      ensures doublings <= 63
    {
      var d, i := base, 0;
      doublings := 0;
      while i < attempt && d < cap
        invariant 0 <= i && (i == 0 || i <= attempt)
        invariant doublings == i && d == base * Pow2(i) && 0 < d
        invariant i > 0 ==> base * Pow2(i - 1) < cap
        decreases attempt - i
      {
        ghost var doubled := 2 * d;
        assert doubled == base * Pow2(i + 1);
        d := Wrap64(d * 2);
        doublings := doublings + 1;
        if d <= 0 {
          assert doubled >= TWO_63 > cap;
          EnvelopeSaturates(base, cap, i + 1, attempt);
          d := cap;
          break;
        }
        i := i + 1;
      }
      envelope := cap;
      if d < envelope {
        envelope := d;
      }
      if i < attempt && d >= cap && d == base * Pow2(i) {
        EnvelopeSaturates(base, cap, i, attempt);
      }
      DoublingsAreLogarithmic(base, cap, doublings);
    }

    /** The jittered delay lies in [0, envelope), whatever the float product rounded to. */
    method Delay(attempt: int, product: int) returns (delay: int)
      requires Valid() && product >= 0
      ensures 0 <= delay < Envelope(base, cap, attempt)
      ensures product < Envelope(base, cap, attempt) ==> delay == product
    {
      var envelope, _ := EnvelopeFor(attempt);
      delay := product;
      if delay >= envelope {
        delay := envelope - 1;
      }
    }
  }

  /** NewBackoff refuses a non-positive base or cap, and a cap below the base, and nothing else. */
  method NewBackoff(base: Duration, cap: Duration) returns (b: Schedule?)
    ensures b == null <==> base <= 0 || cap <= 0 || cap < base
    ensures b != null ==> b.Valid() && b.base == base && b.cap == cap
  {
    if base <= 0 || cap <= 0 || cap < base {
      return null;
    }
    b := new Schedule(base, cap);
  }

  // ---------------------------------------------------------------------------
  // The supervisor
  // ---------------------------------------------------------------------------

  /** How one supervision cycle ended: before the session came up, or after serving it. */
  datatype Cycle = DialFailed | HandshakeFailed | SessionServed

  predicate Served(c: Cycle) {
    c.SessionServed?
  }

  /** Wait i drew attempt index w, which is the number of waits since the last served session (or
      since the start): the first wait after a session draws index 0, the next 1, and so on. */
  ghost predicate CountsSinceServed(cycles: seq<Cycle>, i: nat, w: nat)
    requires i < |cycles|
  {
    && w <= i && (w == i || Served(cycles[i - w]))
    && forall j | i - w < j <= i :: !Served(cycles[j])
  }

  function Sum(xs: seq<int>): int {
    if xs == [] then 0 else Sum(xs[..|xs| - 1]) + xs[|xs| - 1]
  }

  /** What the waits may add up to: the sum of the envelopes they were drawn from. */
  function Envelopes(base: int, cap: int, waits: seq<nat>): int {
    if waits == [] then 0
    else Envelopes(base, cap, waits[..|waits| - 1]) + Envelope(base, cap, waits[|waits| - 1])
  }

  /** The loop so far: every wait counted, and the next attempt index ready. */
  ghost predicate AllCounted(cycles: seq<Cycle>, waits: seq<nat>, attempt: nat) {
    && |waits| <= |cycles|
    && (forall i | 0 <= i < |waits| :: CountsSinceServed(cycles, i, waits[i]))
    && attempt == if waits == [] then 0 else waits[|waits| - 1] + 1
  }

  /** The loop's bookkeeping: reset on a served session, one more otherwise. */
  lemma OneMoreCount(cycles: seq<Cycle>, waits: seq<nat>, attempt: nat, drawn: nat)
    requires AllCounted(cycles, waits, attempt) && |waits| < |cycles|
    requires drawn == if Served(cycles[|waits|]) then 0 else attempt
    ensures AllCounted(cycles, waits + [drawn], drawn + 1)
  {
    assert CountsSinceServed(cycles, |waits|, drawn);
  }

  /** Every delay is drawn below its own envelope, and together they stay below the sum. */
  ghost predicate DelaysFit(base: int, cap: int, delays: seq<int>, waits: seq<nat>) {
    && |delays| == |waits|
    && (forall i | 0 <= i < |waits| :: 0 <= delays[i] < Envelope(base, cap, waits[i]))
    && Sum(delays) + |delays| <= Envelopes(base, cap, waits)
  }

  lemma OneMoreDelay(base: int, cap: int, delays: seq<int>, waits: seq<nat>, delay: int, wait: nat)
    requires 0 <= delay < Envelope(base, cap, wait) && DelaysFit(base, cap, delays, waits)
    ensures DelaysFit(base, cap, delays + [delay], waits + [wait])
    ensures Sum(delays + [delay]) == Sum(delays) + delay
  {
    assert (delays + [delay])[..|delays|] == delays && (waits + [wait])[..|waits|] == waits;
  }

  /** The supervisor loop over any sequence of cycles and draws: each wait uses the count of waits
      since the last session, and all the waits together stay below the sum of their envelopes. */
  method Supervise(b: Schedule, cycles: seq<Cycle>, products: seq<nat>)
    returns (waits: seq<nat>, delays: seq<int>)
    requires b.Valid() && |products| == |cycles|
    ensures |waits| == |cycles| && forall i | 0 <= i < |waits| :: CountsSinceServed(cycles, i, waits[i])
    ensures DelaysFit(b.base, b.cap, delays, waits)
  {
    waits, delays := [], [];
    var attempt, n := 0, 0;
    while n < |cycles|
      invariant 0 <= n == |waits| <= |cycles|
      invariant AllCounted(cycles, waits, attempt)
      invariant DelaysFit(b.base, b.cap, delays, waits)
    {
      ghost var before := attempt;
      if Served(cycles[n]) {
        attempt := 0;
      }
      OneMoreCount(cycles, waits, before, attempt);
      var delay := b.Delay(attempt, products[n]);
      OneMoreDelay(b.base, b.cap, delays, waits, delay, attempt);
      waits, delays := waits + [attempt], delays + [delay];
      attempt, n := attempt + 1, n + 1;
    }
  }
}
