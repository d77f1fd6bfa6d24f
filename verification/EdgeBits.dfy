/**
 * The direction in the top two bits of a signed 32-bit edge type: 00 outgoing, 01 incoming, 10 and 11
 * undirected. The operations are written with arithmetic; BitMasks shows that bit by bit they are the
 * masks of EdgeUtils.
 */
module EdgeBits {
  import opened Arithmetic

  const UNIT := 0x4000_0000  // 1 << 30

  type EdgeType = t: int | -2 * UNIT <= t < 2 * UNIT

  /** The top two bits. */
  function Direction(t: EdgeType): (d: nat)
    ensures d < 4
  {
    (t / UNIT) % 4
  }

  function RemoveDirection(t: EdgeType): EdgeType { t % UNIT }

  predicate IsOutgoing(t: EdgeType) { Direction(t) == 0 }

  predicate IsIncoming(t: EdgeType) { Direction(t) == 1 }

  predicate IsUndirected0(t: EdgeType) { Direction(t) == 2 }

  predicate IsDirected(t: EdgeType) { Direction(t) < 2 }

  /** The source asserts that the two bits are clear. */
  function Undirected0(t: EdgeType): EdgeType
    requires IsOutgoing(t)
  {
    t - 2 * UNIT
  }

  function Reverse(t: EdgeType): EdgeType {
    if Direction(t) % 2 == 0 then t + UNIT else t - UNIT
  }

  // ---- Two's complement, bit by bit

  /** Bit `i`, the lowest being 0. Division rounds down, so the bits of a negative number end in ones. */
  predicate Bit(t: int, i: nat)
    decreases i, t
  {
    if i == 0 then t % 2 == 1 else Bit(t / 2, i - 1)
  }

  function Pow2(n: nat): (p: int)
    ensures p > 0
  {
    if n == 0 then 1 else 2 * Pow2(n - 1)
  }

  /** Adding a multiple of 2^n leaves the bits below n alone. */
  lemma {:induction false} LowBits(t: int, k: int, n: nat, i: nat)
    requires i < n
    ensures Bit(t + k * Pow2(n), i) == Bit(t, i)
    decreases i
  {
    var h := k * Pow2(n - 1);
    assert k * Pow2(n) == 2 * h;
    if i > 0 {
      LowBits(t / 2, k, n - 1, i - 1);
    }
  }

  /** The bits from n on are those of the quotient by 2^n. */
  lemma {:induction false} HighBits(t: int, n: nat, i: nat)
    ensures Bit(t, n + i) == Bit(t / Pow2(n), i)
    decreases n
  {
    if n > 0 {
      HighBits(t / 2, n - 1, i);
      Halves(t, Pow2(n - 1));
    }
  }

  lemma Halves(t: int, p: int)
    requires p > 0
    ensures t / (2 * p) == (t / 2) / p
  {
    var q, r := (t / 2) / p, (t / 2) % p;
    assert t == (2 * p) * q + (2 * r + t % 2);
    DivModUnique(t, 2 * p, q, 2 * r + t % 2);
  }

  lemma Units()
    ensures Pow2(30) == UNIT && Pow2(32) == 4 * UNIT
  {
    assert Pow2(10) == 1024;
    assert Pow2(20) == 1024 * Pow2(10);
    assert Pow2(30) == 1024 * Pow2(20);
    assert Pow2(32) == 4 * Pow2(30);
  }

  /** Bits 30 and 31 spell the direction. */
  lemma TopBits(t: EdgeType)
    ensures Direction(t) == (if Bit(t, 30) then 1 else 0) + (if Bit(t, 31) then 2 else 0)
  {
    Units();
    HighBits(t, 30, 0);
    HighBits(t, 30, 1);
    var u := t / UNIT;
    assert Bit(u, 1) == Bit(u / 2, 0);
    assert -2 <= u < 2;
  }

  /** Changing whole units leaves the low thirty bits alone. */
  lemma LowSame(t: EdgeType, k: int, i: nat)
    requires i < 30
    ensures Bit(t + k * UNIT, i) == Bit(t, i)
  {
    Units();
    LowBits(t, k, 30, i);
  }

  /** A 32-bit integer is determined by its bits. */
  lemma {:induction false} SameBits(a: int, b: int, n: nat)
    requires -Pow2(n) <= a < Pow2(n) && -Pow2(n) <= b < Pow2(n)
    requires forall i: nat :: i <= n ==> Bit(a, i) == Bit(b, i)
    ensures a == b
    decreases n
  {
    assert Bit(a, 0) == Bit(b, 0);
    if n > 0 {
      forall i: nat | i <= n - 1 ensures Bit(a / 2, i) == Bit(b / 2, i) {
        assert Bit(a, i + 1) == Bit(b, i + 1);
      }
      SameBits(a / 2, b / 2, n - 1);
    }
  }

  /** What the source computes: tests and masks on bits 30 and 31. */
  lemma BitMasks(t: EdgeType, i: nat)
    requires i < 32
    ensures Bit(RemoveDirection(t), i) <==> Bit(t, i) && i < 30
    ensures IsOutgoing(t) ==> (Bit(Undirected0(t), i) <==> Bit(t, i) || i == 31)
    ensures Bit(Reverse(t), i) <==> (Bit(t, i) != (i == 30))
    ensures IsOutgoing(t) <==> !Bit(t, 30) && !Bit(t, 31)
    ensures IsIncoming(t) <==> Bit(t, 30) && !Bit(t, 31)
    ensures IsUndirected0(t) <==> !Bit(t, 30) && Bit(t, 31)
    ensures IsDirected(t) <==> !Bit(t, 31)
  {
    TopBits(t);
    TopBits(RemoveDirection(t));
    TopBits(Reverse(t));
    ReverseTurns(t);
    if i < 30 {
      LowSame(t, -(t / UNIT), i);
      LowSame(t, if Direction(t) % 2 == 0 then 1 else -1, i);
    }
    if IsOutgoing(t) {
      TopBits(Undirected0(t));
      if i < 30 {
        LowSame(t, -2, i);
      }
    }
  }

  // ---- What the edge ids need

  lemma ReverseTurns(t: EdgeType)
    ensures Direction(Reverse(t)) == if Direction(t) % 2 == 0 then Direction(t) + 1 else Direction(t) - 1
    ensures RemoveDirection(Reverse(t)) == RemoveDirection(t)
    ensures Reverse(Reverse(t)) == t
  {
  }

  /** Direction and base together are the type. */
  lemma TypeIs(a: EdgeType, b: EdgeType)
    ensures a == b <==> Direction(a) == Direction(b) && RemoveDirection(a) == RemoveDirection(b)
  {
  }

  lemma Bases(t: EdgeType)
    ensures var b := RemoveDirection(t);
            && Direction(b) == 0 && RemoveDirection(b) == b
            && Direction(Undirected0(b)) == 2 && RemoveDirection(Undirected0(b)) == b
  {
  }
}
