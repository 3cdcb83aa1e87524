/** Epoch schedules: slots counted through a doubling warmup and then in epochs
    of one length, as a loop and as a closed form saturating at 64 bits. */
module Epoch {
  import opened Arithmetic

  /** After `firstSlot`, which begins `firstEpoch`, every epoch has `slots` slots. */
  datatype Schedule = Schedule(slots: nat, firstEpoch: nat, firstSlot: nat)

  const LIMIT: nat := 0xFFFF_FFFF_FFFF_FFFF

  /** Digits of `n` in base two. */
  function BitLength(n: nat): nat {
    if n == 0 then 0 else 1 + BitLength(n / 2)
  }

  function Min(a: nat, b: nat): nat { if a < b then a else b }

  /** First slot of an epoch whose predecessors all doubled, from 32 slots. */
  function WarmupSlot(epoch: nat): nat { 32 * (Pow2(epoch) - 1) }

  function WarmupEpoch(slot: nat): int { BitLength(slot + 32) - 6 }

  function FirstSlotAt(c: Schedule, epoch: nat): nat {
    if epoch <= c.firstEpoch then WarmupSlot(epoch) else c.firstSlot + (epoch - c.firstEpoch) * c.slots
  }

  /** With no slots per epoch, no epoch after the first regular one begins. */
  function EpochAt(c: Schedule, slot: nat): int {
    if slot < c.firstSlot then WarmupEpoch(slot)
    else c.firstEpoch + if c.slots > 0 then (slot - c.firstSlot) / c.slots else 0
  }

  lemma {:induction false} Pow2Monotone(a: nat, b: nat)
    requires a <= b
    ensures Pow2(a) <= Pow2(b)
    ensures a < b ==> 2 * Pow2(a) <= Pow2(b)
  {
    if a < b { Pow2Monotone(a, b - 1); }
  }

  /** The digit count says between which powers a number lies. */
  lemma {:induction false} BitLengthExact(n: nat, k: nat)
    requires k > 0
    ensures BitLength(n) == k <==> Pow2(k - 1) <= n < Pow2(k)
  {
    if n > 0 && k > 1 {
      BitLengthExact(n / 2, k - 1);
    } else if n > 1 {
      assert BitLength(n) == 2 + BitLength(n / 4) by { assert n / 2 / 2 == n / 4; }
    }
  }

  lemma Pow2Scaled(e: nat)
    ensures Pow2(e + 5) == 32 * Pow2(e)
  {
    assert Pow2(e + 5) == 2 * (2 * (2 * (2 * (2 * Pow2(e))))) by {
      assert Pow2(e + 5) == 2 * Pow2(e + 4);
      assert Pow2(e + 4) == 2 * Pow2(e + 3);
      assert Pow2(e + 3) == 2 * Pow2(e + 2);
      assert Pow2(e + 2) == 2 * Pow2(e + 1);
    }
  }

  /** The closed form names the one warmup epoch a slot lies in. */
  lemma WarmupExact(slot: nat, epoch: nat)
    ensures WarmupEpoch(slot) == epoch <==> WarmupSlot(epoch) <= slot < WarmupSlot(epoch + 1)
  {
    BitLengthExact(slot + 32, epoch + 6);
    Pow2Scaled(epoch);
    Pow2Scaled(epoch + 1);
  }

  lemma WarmupIsSome(slot: nat)
    ensures WarmupEpoch(slot) >= 0
  {
    var k := BitLength(slot + 32);
    BitLengthExact(slot + 32, k);
    Pow2Scaled(0);
    forall j: nat | j <= 5 ensures Pow2(j) <= Pow2(5) { Pow2Monotone(j, 5); }
  }

  /** The loop of the observation script: it computes the closed form. */
  method EpochOf(c: Schedule, at: nat) returns (epoch: nat)
    requires c.slots > 0
    ensures epoch == EpochAt(c, at)
  {
    if at >= c.firstSlot { return c.firstEpoch + (at - c.firstSlot) / c.slots; }
    var slot: nat, length := at, 32;
    epoch := 0;
    while slot >= length
      invariant length == 32 * Pow2(epoch)
      invariant slot + WarmupSlot(epoch) == at
    {
      slot := slot - length;
      epoch, length := epoch + 1, length * 2;
    }
    assert WarmupSlot(epoch + 1) == WarmupSlot(epoch) + length;
    WarmupExact(at, epoch);
  }

  // -------------------------------------------------------------------------
  // Epochs partition the slots.
  // -------------------------------------------------------------------------

  /** Each slot lies in exactly the epoch named for it. */
  ghost predicate Partitions(c: Schedule) {
    forall slot: nat, epoch: nat :: InEpoch(c, slot, epoch) <==> EpochAt(c, slot) == epoch
  }

  predicate InEpoch(c: Schedule, slot: nat, epoch: nat) {
    FirstSlotAt(c, epoch) <= slot < FirstSlotAt(c, epoch + 1)
  }

  /** The regular epochs begin inside the warmup epoch of that number, or right after it. */
  predicate Consistent(c: Schedule) {
    WarmupSlot(c.firstEpoch) <= c.firstSlot <= WarmupSlot(c.firstEpoch + 1)
  }

  lemma DivExact(a: nat, b: nat, q: nat)
    requires b > 0
    ensures a / b == q <==> q * b <= a < (q + 1) * b
  {
    assert a == (a / b) * b + a % b;
    assert a / b < q ==> (a / b + 1) * b <= q * b;
    assert a / b > q ==> (q + 1) * b <= (a / b) * b;
  }

  lemma WarmupMonotone(a: nat, b: nat)
    requires a <= b
    ensures WarmupSlot(a) <= WarmupSlot(b)
  {
    Pow2Monotone(a, b);
  }

  lemma RegularAfterFirst(c: Schedule, epoch: nat)
    requires epoch > c.firstEpoch
    ensures FirstSlotAt(c, epoch) >= c.firstSlot
  {
    assert (epoch - c.firstEpoch) * c.slots >= 0;
  }

  lemma WarmupSlotInItsEpoch(c: Schedule, slot: nat, epoch: nat)
    requires c.slots > 0 && Consistent(c) && slot < c.firstSlot
    ensures InEpoch(c, slot, epoch) <==> EpochAt(c, slot) == epoch
  {
    WarmupExact(slot, epoch);
    if epoch > c.firstEpoch {
      WarmupMonotone(c.firstEpoch + 1, epoch);
      RegularAfterFirst(c, epoch);
    } else if epoch == c.firstEpoch {
      assert FirstSlotAt(c, epoch + 1) == c.firstSlot + c.slots;
    } else {
      WarmupMonotone(epoch + 1, c.firstEpoch);
    }
  }

  lemma RegularSlotInItsEpoch(c: Schedule, slot: nat, epoch: nat)
    requires c.slots > 0 && Consistent(c) && slot >= c.firstSlot
    ensures InEpoch(c, slot, epoch) <==> EpochAt(c, slot) == epoch
  {
    var after := slot - c.firstSlot;
    var q := after / c.slots;
    DivExact(after, c.slots, q);
    if epoch < c.firstEpoch {
      WarmupMonotone(epoch + 1, c.firstEpoch);
    } else if epoch > c.firstEpoch {
      DivExact(after, c.slots, epoch - c.firstEpoch);
    } else {
      DivExact(after, c.slots, 0);
    }
  }

  lemma SlotInItsEpoch(c: Schedule, slot: nat, epoch: nat)
    requires c.slots > 0 && Consistent(c)
    ensures InEpoch(c, slot, epoch) <==> EpochAt(c, slot) == epoch
  {
    if slot < c.firstSlot { WarmupSlotInItsEpoch(c, slot, epoch); } else { RegularSlotInItsEpoch(c, slot, epoch); }
  }

  lemma InconsistentFails(c: Schedule)
    requires !Consistent(c) || c.slots == 0
    ensures !Partitions(c)
  {
    var e := c.firstEpoch;
    var slot := if Consistent(c) || c.firstSlot < WarmupSlot(e) then c.firstSlot else WarmupSlot(e + 1);
    WarmupMonotone(e, e + 1);
    WarmupMonotone(e + 1, e + 2);
    WarmupExact(slot, e);
    WarmupExact(slot, e + 1);
    assert FirstSlotAt(c, e + 1) == c.firstSlot + c.slots;
    assert !(InEpoch(c, slot, e) <==> EpochAt(c, slot) == e);
  }

  /** Epoch and first slot invert each other for every slot exactly when epochs
      have slots and the schedule is consistent. */
  lemma PartitionsExactly(c: Schedule)
    ensures Partitions(c) <==> c.slots > 0 && Consistent(c)
  {
    if c.slots > 0 && Consistent(c) {
      forall slot: nat, epoch: nat ensures InEpoch(c, slot, epoch) <==> EpochAt(c, slot) == epoch {
        SlotInItsEpoch(c, slot, epoch);
      }
    } else {
      InconsistentFails(c);
    }
  }

  // -------------------------------------------------------------------------
  // The test-case formulas, saturating at 64 bits.
  // -------------------------------------------------------------------------

  function ExpectedEpoch(c: Schedule, slot: nat): int {
    if slot < c.firstSlot then WarmupEpoch(slot)
    else Min(LIMIT, c.firstEpoch + if c.slots > 0 then (slot - c.firstSlot) / c.slots else 0)
  }

  function ExpectedSlot(c: Schedule, epoch: nat): nat {
    if epoch <= c.firstEpoch then Min(LIMIT, 32 * (Pow2(Min(epoch, 64)) - 1))
    else Min(LIMIT, c.firstSlot + (epoch - c.firstEpoch) * c.slots)
  }

  lemma WarmupSaturates()
    ensures WarmupSlot(64) > LIMIT
  {
    Pow2Scaled(0); Pow2Scaled(5); Pow2Scaled(10); Pow2Scaled(15); Pow2Scaled(20); Pow2Scaled(25);
    Pow2Scaled(30); Pow2Scaled(35); Pow2Scaled(40); Pow2Scaled(45); Pow2Scaled(50); Pow2Scaled(55);
    assert Pow2(60) == 0x1000_0000_0000_0000;
    assert Pow2(64) == 2 * Pow2(63) && Pow2(63) == 2 * Pow2(62) && Pow2(62) == 2 * Pow2(61) && Pow2(61) == 2 * Pow2(60);
  }

  /** The saturating formulas are the exact ones capped at the largest 64-bit
      value; the capped exponent loses nothing. */
  lemma ExpectedIsCapped(c: Schedule, slot: nat, epoch: nat)
    requires slot <= LIMIT
    ensures ExpectedEpoch(c, slot) == if EpochAt(c, slot) < LIMIT then EpochAt(c, slot) else LIMIT
    ensures ExpectedSlot(c, epoch) == Min(LIMIT, FirstSlotAt(c, epoch))
  {
    WarmupSaturates();
    if epoch > 64 { WarmupMonotone(64, epoch); }
    var w := WarmupEpoch(slot);
    WarmupIsSome(slot);
    WarmupExact(slot, w);
    if w >= 64 { WarmupMonotone(64, w); }
  }

  /** Below the cap, the saturating formulas still invert each other. */
  lemma ExpectedPartition(c: Schedule, slot: nat, epoch: nat)
    requires c.slots > 0 && Consistent(c) && slot < LIMIT && epoch < LIMIT
    ensures ExpectedEpoch(c, slot) == epoch <==> ExpectedSlot(c, epoch) <= slot < ExpectedSlot(c, epoch + 1)
  {
    ExpectedIsCapped(c, slot, epoch);
    ExpectedIsCapped(c, slot, epoch + 1);
    SlotInItsEpoch(c, slot, epoch);
  }
}
