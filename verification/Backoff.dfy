/** The repeat-offender ladder behind a block's TTL. Durations are nanoseconds. */
module Backoff {

  const DEFAULT_BASE: nat := 60_000_000_000
  const DEFAULT_MAX: nat := 30 * 24 * 3600 * 1_000_000_000
  const MAX_INT64: nat := 0x7fff_ffff_ffff_ffff

  function Base(base: int): nat { if base <= 0 then DEFAULT_BASE else base }
  function Cap(cap: int): nat { if cap <= 0 then DEFAULT_MAX else cap }

  /** base * 2^k */
  function Doubled(base: nat, k: nat): nat { if k == 0 then base else 2 * Doubled(base, k - 1) }

  function Min(a: nat, b: nat): nat { if a <= b then a else b }

  /** The TTL of the `offenses`-th block: the base doubled once per earlier offense, capped. */
  function Rung(base: int, cap: int, offenses: int): nat {
    Min(Doubled(Base(base), if offenses <= 1 then 0 else offenses - 1), Cap(cap))
  }

  lemma {:induction false} DoubledGrows(base: nat, i: nat, j: nat)
    requires i <= j
    ensures base <= Doubled(base, i) <= Doubled(base, j)
  {
    if i < j { DoubledGrows(base, i, j - 1); }
    else if i > 0 { DoubledGrows(base, i - 1, j - 1); }
  }

  /** Every rung is positive, within the cap, and no lower than an earlier one. */
  lemma LadderClimbs(base: int, cap: int, i: int, j: int)
    requires i <= j
    ensures 0 < Rung(base, cap, i) <= Rung(base, cap, j) <= Cap(cap)
    ensures i <= 1 ==> Rung(base, cap, i) == Min(Base(base), Cap(cap))
    ensures 1 <= i < j ==> Rung(base, cap, j) >= Min(2 * Rung(base, cap, i), Cap(cap))
    ensures 1 <= i == j - 1 ==> Rung(base, cap, j) == Min(2 * Rung(base, cap, i), Cap(cap))
  {
    var a, b := if i <= 1 then 0 else i - 1, if j <= 1 then 0 else j - 1;
    DoubledGrows(Base(base), a, b);
    if 1 <= i < j { DoubledGrows(Base(base), a + 1, b); }
  }

  /** `rounds` counts the doublings: the loop stops after log2(cap / base) of
      them however large or corrupt `offenses` is, and no value it computes
      leaves the range of the inputs, so nothing overflows. */
  method BlockBackoffTTL(base: int, cap: int, offenses: int) returns (ttl: nat, rounds: nat)
    ensures ttl == Rung(base, cap, offenses)
    ensures rounds > 0 ==> Doubled(Base(base), rounds) <= Cap(cap)
    ensures Cap(cap) <= MAX_INT64 ==> ttl <= MAX_INT64
  {
    var b, c := Base(base), Cap(cap);
    ttl, rounds := b, 0;
    var n := 1;
    while n < offenses && ttl < c
      invariant n == rounds + 1
      invariant rounds > 0 ==> n <= offenses
      invariant ttl == Doubled(b, rounds)
      invariant rounds > 0 ==> ttl <= c
      decreases c - ttl
    {
      if ttl > c / 2 {
        RungCapped(base, cap, offenses, rounds + 1);
        return c, rounds;
      }
      ttl := ttl * 2;
      rounds := rounds + 1;
      n := n + 1;
    }
    if n < offenses { RungCapped(base, cap, offenses, rounds); }
    if ttl > c || ttl <= 0 { ttl := c; }
  }

  lemma RungCapped(base: int, cap: int, offenses: int, k: nat)
    requires k < offenses && Doubled(Base(base), k) >= Cap(cap)
    ensures Rung(base, cap, offenses) == Cap(cap)
  {
    DoubledGrows(Base(base), k, offenses - 1);
  }
}
