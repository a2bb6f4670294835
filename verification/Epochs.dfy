/**
 * Epoch arithmetic of the block manager, and the election condition that block
 * finalisation evaluates with it. `slots` is SLOTS_PER_EPOCH (100 on mainnet and
 * testnet, 30 on devnet).
 */
module Epochs {
  import opened Primitives

  /** `calculate_current_epoch`: the quotient is cast to u64. */
  function CurrentEpoch(n: nat, slots: nat): nat
    requires slots >= 1
  {
    if n == 0 then 0 else n / slots % U64_LIMIT
  }

  function HasEpochEnded(n: nat, slots: nat): bool
    requires slots >= 1
  {
    CurrentEpoch(n + 1, slots) > CurrentEpoch(n, slots)
  }

  /** The condition under which finalising block `n` elects for the next epoch. */
  function Elects(n: nat, headerEpoch: nat, slots: nat): bool
    requires slots >= 1
  {
    CurrentEpoch(n + 1, slots) > headerEpoch
  }

  /** The epochs elected by finalising blocks 1 to `last`, each with its own epoch in its header. */
  function Elections(last: nat, slots: nat): seq<nat>
    requires slots >= 1
  {
    if last == 0 then [] else
    Elections(last - 1, slots)
    + if Elects(last, CurrentEpoch(last, slots), slots) then [CurrentEpoch(last + 1, slots)] else []
  }

  function UpTo(k: nat): seq<nat> { seq(k, i requires 0 <= i => i + 1) }

  /** The quotient goes up by one exactly on multiples of `slots`. */
  lemma QuotientStep(n: nat, slots: nat)
    requires slots >= 1
    ensures (n + 1) / slots == n / slots + (if (n + 1) % slots == 0 then 1 else 0)
  {
    var q, r := n / slots, n % slots;
    assert n == q * slots + r;
    if r + 1 == slots {
      assert n + 1 == (q + 1) * slots + 0;
      DivModUnique(n + 1, slots, q + 1, 0);
    } else {
      assert n + 1 == q * slots + (r + 1);
      DivModUnique(n + 1, slots, q, r + 1);
    }
  }

  lemma DivModUnique(n: nat, slots: nat, q: nat, r: nat)
    requires slots >= 1 && n == q * slots + r && r < slots
    ensures n / slots == q && n % slots == r
  {
    var q', r' := n / slots, n % slots;
    MultipleAtLeast(q - q', slots);
    assert (q - q') * slots == r' - r;
  }

  lemma MultipleAtLeast(d: int, slots: nat)
    ensures d >= 1 ==> d * slots >= slots
    ensures d <= -1 ==> d * slots + slots <= 0
  {
  }

  /** An epoch ends exactly before a multiple of the epoch length, as long as epochs fit u64. */
  lemma EpochEndsAtMultiple(n: nat, slots: nat)
    requires slots >= 2 && (n + 1) / slots < U64_LIMIT
    ensures HasEpochEnded(n, slots) <==> (n + 1) % slots == 0
    ensures CurrentEpoch(n, slots) == n / slots && CurrentEpoch(n + 1, slots) == (n + 1) / slots
  {
    QuotientStep(n, slots);
    if n == 0 {
      DivModUnique(0, slots, 0, 0);
    }
    SmallModulus(n / slots);
    SmallModulus((n + 1) / slots);
  }

  lemma ScaleUp(q: nat, slots: nat)
    requires slots >= 1
    ensures q <= q * slots
  {
  }

  lemma QuotientAtMost(n: nat, slots: nat)
    requires slots >= 1
    ensures n / slots <= n
  {
    ScaleUp(n / slots, slots);
    assert n == n / slots * slots + n % slots;
  }

  lemma SmallModulus(q: nat)
    requires q < U64_LIMIT
    ensures q % U64_LIMIT == q
  {
  }

  lemma SmallEpoch(n: nat, slots: nat)
    requires slots >= 1 && 1 <= n < U64_LIMIT
    ensures CurrentEpoch(n, slots) == n / slots
  {
    QuotientAtMost(n, slots);
    SmallModulus(n / slots);
  }

  /**
   * Finalising blocks 1 to `last` elects for epochs 1, 2, ... in order and once each,
   * up to the epoch of the block after `last`, exactly when an epoch has at least two
   * slots; with one slot block 1 is already in epoch 1, which is then never elected.
   */
  lemma {:induction false} ElectionsAreEveryEpochOnce(last: nat, slots: nat)
    requires slots >= 1 && (last + 1) / slots < U64_LIMIT
    ensures Elections(last, slots) == UpTo((last + 1) / slots) <==> slots >= 2
  {
    if slots >= 2 {
      ElectionsCount(last, slots);
    } else {
      OneSlotElections(last);
      assert (last + 1) / 1 == last + 1;
    }
  }

  lemma {:induction false} ElectionsCount(last: nat, slots: nat)
    requires slots >= 2 && (last + 1) / slots < U64_LIMIT
    ensures Elections(last, slots) == UpTo((last + 1) / slots)
  {
    if last == 0 {
      DivModUnique(1, slots, 0, 1);
    } else {
      QuotientStep(last, slots);
      ElectionsCount(last - 1, slots);
      EpochEndsAtMultiple(last, slots);
    }
  }

  lemma {:induction false} OneSlotElections(last: nat)
    requires last + 1 < U64_LIMIT
    ensures |Elections(last, 1)| == last
  {
    if last > 0 {
      OneSlotElections(last - 1);
      assert last / 1 == last && (last + 1) / 1 == last + 1;
      SmallModulus(last);
      SmallModulus(last + 1);
    }
  }
}
