/** Millisecond clocks and the kernel's comparison of them after truncation to 32 bits. */
module Clock {
  import opened Types

  const HALF := 0x8000_0000

  /** `time_before((unsigned long) a, (unsigned long) b)` where `unsigned long` has 32 bits: the wrapped
      difference, read as a signed word, is negative. */
  predicate TimeBefore(a: nat, b: nat) {
    (a - b) % U32 >= HALF
  }

  predicate TimeAfter(a: nat, b: nat) {
    TimeBefore(b, a)
  }

  /** Two instants are close when fewer than 2^31 ms, about 25 days, separate them. */
  predicate Close(a: nat, b: nat) {
    -HALF < a - b < HALF
  }

  lemma TimeBeforeIsOrder(a: nat, b: nat)
    requires Close(a, b)
    ensures TimeBefore(a, b) <==> a < b
  {
    if a < b {
      assert (a - b) % U32 == a - b + U32;
    }
  }

  /** How far two instants may be apart, to the millisecond: the truncated comparison agrees with the order of
      the full clock exactly when the distance, reduced to 32 bits, has not reached the wrong half. */
  lemma TimeBeforeExactly(a: nat, b: nat)
    ensures (TimeBefore(a, b) <==> a < b) <==> if a < b then 0 < (b - a) % U32 <= HALF else (a - b) % U32 < HALF
  {
    if a < b {
      Negated(b - a);
    }
  }

  lemma Negated(d: int)
    requires d >= 0
    ensures (-d) % U32 == if d % U32 == 0 then 0 else U32 - d % U32
  {
    var q, r := d / U32, d % U32;
    assert d == q * U32 + r;
    if r == 0 {
      ModOf(-q, 0);
    } else {
      ModOf(-q - 1, U32 - r);
    }
  }

  lemma ModOf(q: int, r: nat)
    requires r < U32
    ensures (q * U32 + r) % U32 == r
  {
  }
}
