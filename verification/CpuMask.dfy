/** 64-bit CPU masks and the bit-clearing loop over them (kernel/src/arch/x86_64.rs, kernel/src/mcore/context.rs). */
module CpuMask {
  import opened Common

  const MAX_TRACKED_CPUS: nat := 64

  predicate HasBit(mask: nat, i: nat) {
    if i == 0 then mask % 2 == 1 else HasBit(mask / 2, i - 1)
  }

  /** `a & b`. */
  function And(a: nat, b: nat): nat {
    if a == 0 || b == 0 then 0
    else 2 * And(a / 2, b / 2) + (if a % 2 == 1 && b % 2 == 1 then 1 else 0)
  }

  /** `a & !b`. */
  function AndNot(a: nat, b: nat): nat {
    if a == 0 then 0
    else 2 * AndNot(a / 2, b / 2) + (if a % 2 == 1 && b % 2 == 0 then 1 else 0)
  }

  /** `a | b`. */
  function Or(a: nat, b: nat): nat {
    if a == 0 && b == 0 then 0
    else 2 * Or(a / 2, b / 2) + (if a % 2 == 1 || b % 2 == 1 then 1 else 0)
  }

  /** `cpu_bit`. */
  function Bit(cpu: nat): (b: nat)
    ensures b > 0
  {
    if cpu == 0 then 1 else 2 * Bit(cpu - 1)
  }

  function TrailingZeros(mask: nat): nat
    requires mask > 0
  {
    if mask % 2 == 1 then 0 else 1 + TrailingZeros(mask / 2)
  }

  lemma {:induction false} ZeroBits(i: nat)
    ensures !HasBit(0, i)
  {
    if i > 0 {
      ZeroBits(i - 1);
    }
  }

  lemma HasBitNext(mask: nat, i: nat)
    ensures HasBit(mask, 0) <==> mask % 2 == 1
    ensures i > 0 ==> (HasBit(mask, i) <==> HasBit(mask / 2, i - 1))
  {
  }

  lemma AndHalf(a: nat, b: nat)
    ensures And(a, b) / 2 == And(a / 2, b / 2)
    ensures And(a, b) % 2 == 1 <==> a % 2 == 1 && b % 2 == 1
  {
  }

  lemma {:induction false} AndBits(a: nat, b: nat, i: nat)
    ensures HasBit(And(a, b), i) <==> HasBit(a, i) && HasBit(b, i)
    decreases i
  {
    hide HasBit, And;
    AndHalf(a, b);
    HasBitNext(a, i);
    HasBitNext(b, i);
    HasBitNext(And(a, b), i);
    if i > 0 {
      AndBits(a / 2, b / 2, i - 1);
    }
  }

  lemma AndNotHalf(a: nat, b: nat)
    ensures AndNot(a, b) / 2 == AndNot(a / 2, b / 2)
    ensures AndNot(a, b) % 2 == 1 <==> a % 2 == 1 && b % 2 == 0
  {
  }

  lemma {:induction false} AndNotBits(a: nat, b: nat, i: nat)
    ensures HasBit(AndNot(a, b), i) <==> HasBit(a, i) && !HasBit(b, i)
    decreases i
  {
    hide HasBit, AndNot;
    AndNotHalf(a, b);
    HasBitNext(a, i);
    HasBitNext(b, i);
    HasBitNext(AndNot(a, b), i);
    if i > 0 {
      AndNotBits(a / 2, b / 2, i - 1);
    }
  }

  lemma OrHalf(a: nat, b: nat)
    ensures Or(a, b) / 2 == Or(a / 2, b / 2)
    ensures Or(a, b) % 2 == 1 <==> a % 2 == 1 || b % 2 == 1
  {
  }

  lemma {:induction false} OrBits(a: nat, b: nat, i: nat)
    ensures HasBit(Or(a, b), i) <==> HasBit(a, i) || HasBit(b, i)
    decreases i
  {
    hide HasBit, Or;
    OrHalf(a, b);
    HasBitNext(a, i);
    HasBitNext(b, i);
    HasBitNext(Or(a, b), i);
    if i > 0 {
      OrBits(a / 2, b / 2, i - 1);
    }
  }

  lemma {:induction false} BitBits(cpu: nat, i: nat)
    ensures HasBit(Bit(cpu), i) <==> i == cpu
    decreases cpu
  {
    if cpu == 0 {
      if i > 0 {
        ZeroBits(i - 1);
      }
    } else if i > 0 {
      BitBits(cpu - 1, i - 1);
    }
  }

  lemma {:induction false} AndSmaller(a: nat, b: nat)
    ensures And(a, b) <= b
  {
    if a != 0 && b != 0 {
      AndSmaller(a / 2, b / 2);
    }
  }

  lemma {:induction false} AndSelf(a: nat)
    ensures And(a, a) == a
  {
    if a != 0 {
      AndSelf(a / 2);
    }
  }

  lemma TrailingStep(mask: nat)
    requires mask > 0
    ensures mask % 2 == 1 ==> TrailingZeros(mask) == 0
    ensures mask % 2 == 0 ==> mask / 2 > 0 && TrailingZeros(mask) == 1 + TrailingZeros(mask / 2)
    ensures (mask - 1) / 2 == if mask % 2 == 1 then mask / 2 else mask / 2 - 1
    ensures (mask - 1) % 2 == 1 <==> mask % 2 == 0
  {
  }

  /** `mask & (mask - 1)` clears the lowest bit set and no other. */
  lemma {:induction false} ClearsLowest(mask: nat, i: nat)
    requires mask > 0
    ensures HasBit(mask, i) && HasBit(mask - 1, i) <==> HasBit(mask, i) && i != TrailingZeros(mask)
    ensures i == TrailingZeros(mask) ==> HasBit(mask, i)
    decreases i
  {
    hide HasBit, TrailingZeros;
    TrailingStep(mask);
    HasBitNext(mask, i);
    HasBitNext(mask - 1, i);
    if i > 0 && mask % 2 == 0 {
      ClearsLowest(mask / 2, i - 1);
    }
  }

  lemma AndNotSelf(mask: nat)
    requires mask > 0
    ensures HasBit(mask, TrailingZeros(mask))
    ensures forall i: nat :: HasBit(And(mask, mask - 1), i) <==> HasBit(mask, i) && i != TrailingZeros(mask)
  {
    hide HasBit, And, TrailingZeros;
    ClearsLowest(mask, TrailingZeros(mask));
    forall i: nat
      ensures HasBit(And(mask, mask - 1), i) <==> HasBit(mask, i) && i != TrailingZeros(mask)
    {
      AndBits(mask, mask - 1, i);
      ClearsLowest(mask, i);
    }
  }

  lemma NoBits()
    ensures forall i: nat :: !HasBit(0, i)
  {
    forall i: nat
      ensures !HasBit(0, i)
    {
      ZeroBits(i);
    }
  }

  lemma BitStep(cpu: nat)
    ensures Bit(0) == 1 && Bit(cpu + 1) == 2 * Bit(cpu)
  {
  }

  lemma DoubleTimes(x: nat, y: nat)
    ensures (2 * x) * y == 2 * (x * y)
  {
  }

  lemma {:induction false} BitAdd(a: nat, b: nat)
    ensures Bit(a + b) == Bit(a) * Bit(b)
  {
    hide Bit;
    if a == 0 {
      BitStep(0);
    } else {
      BitAdd(a - 1, b);
      BitStep(a - 1);
      BitStep(a - 1 + b);
      DoubleTimes(Bit(a - 1), Bit(b));
    }
  }

  lemma WordBit()
    ensures Bit(MAX_TRACKED_CPUS) == U64_MAX + 1
  {
    assert Bit(8) == 256;
    BitSquare(8, 256, 16);
    BitSquare(16, 65536, 32);
    BitSquare(32, 0x1_0000_0000, 64);
  }

  lemma BitSquare(n: nat, x: nat, twice: nat)
    requires Bit(n) == x && twice == n + n
    ensures Bit(twice) == x * x
  {
    BitAdd(n, n);
  }

  lemma {:induction false} BitsBelow(mask: nat, width: nat, i: nat)
    requires mask < Bit(width) && HasBit(mask, i)
    ensures i < width
    decreases width
  {
    if width == 0 {
      ZeroBits(i);
    } else if i > 0 {
      BitsBelow(mask / 2, width - 1, i - 1);
    }
  }

  /** Only tracked CPUs are named. */
  ghost predicate Tracked(mask: nat) {
    forall i: nat :: HasBit(mask, i) ==> i < MAX_TRACKED_CPUS
  }

  /** Every 64-bit mask names tracked CPUs. */
  lemma WordTracked(mask: nat)
    requires mask <= U64_MAX
    ensures Tracked(mask)
  {
    WordBit();
    forall i: nat | HasBit(mask, i)
      ensures i < MAX_TRACKED_CPUS
    {
      BitsBelow(mask, MAX_TRACKED_CPUS, i);
    }
  }

  /** Targets whose acknowledgement is older than the epoch. */
  ghost function Lagging(targets: nat, epoch: nat, acks: seq<nat>): set<nat> {
    set c: nat | c < |acks| && HasBit(targets, c) && acks[c] < epoch
  }

  /** `targets_acknowledged`: true exactly when no target lags. */
  method TargetsAcknowledged(targets: nat, epoch: nat, acks: seq<nat>) returns (done: bool)
    requires |acks| == MAX_TRACKED_CPUS && Tracked(targets)
    ensures done <==> |Lagging(targets, epoch, acks)| == 0
  {
    var remaining := targets;
    while remaining != 0
      invariant forall i: nat :: HasBit(remaining, i) ==> HasBit(targets, i)
      invariant forall i: nat :: HasBit(targets, i) && !HasBit(remaining, i) ==> acks[i] >= epoch
    {
      var cpu := TrailingZeros(remaining);
      AndNotSelf(remaining);
      AndSmaller(remaining, remaining - 1);
      assert HasBit(targets, cpu);
      if acks[cpu] < epoch {
        assert cpu in Lagging(targets, epoch, acks);
        return false;
      }
      remaining := And(remaining, remaining - 1);
    }
    NoBits();
    assert Lagging(targets, epoch, acks) == {};
    return true;
  }
}
