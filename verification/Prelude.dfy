/** Index arithmetic (src/prelude.rs): the masked remainder, rounding a size up to a
    power of two, and the slot of an id in a buffer of n cells. */
module Prelude {

  /** usize::MAX on a 64-bit target; also the value that means "taken" in the write head
      and "never published" in a cell. */
  const USIZE_MAX: nat := 0xFFFF_FFFF_FFFF_FFFF

  const ISIZE_MAX: nat := 0x7FFF_FFFF_FFFF_FFFF

  datatype Option<+V> = None | Some(value: V)

  function Pow2(k: nat): (p: nat)
    ensures p >= 1
  {
    if k == 0 then 1 else 2 * Pow2(k - 1)
  }

  ghost predicate IsPowerOfTwo(d: nat) {
    exists k: nat :: d == Pow2(k)
  }

  /** The bitwise conjunction of two naturals, one binary digit at a time. */
  function BitAnd(a: nat, b: nat): nat {
    if a == 0 || b == 0 then 0 else (a % 2) * (b % 2) + 2 * BitAnd(a / 2, b / 2)
  }

  function FastMod(x: nat, denominator: nat): nat
    requires denominator > 0
  {
    BitAnd(x, denominator - 1)
  }

  lemma {:induction false} ModDoubles(x: nat, m: nat)
    requires m > 0
    ensures x % (2 * m) == x % 2 + 2 * ((x / 2) % m)
  {
    var q, r := (x / 2) / m, (x / 2) % m;
    assert x / 2 == m * q + r;
    assert x == 2 * (x / 2) + x % 2;
    assert x == (2 * m) * q + (2 * r + x % 2) by {
      assert 2 * (m * q) == (2 * m) * q;
    }
    ModUnique(x, 2 * m, q, 2 * r + x % 2);
  }

  lemma ModUnique(x: nat, m: nat, q: nat, r: nat)
    requires m > 0 && x == m * q + r && r < m
    ensures x % m == r && x / m == q
  {
    var q', r' := x / m, x % m;
    assert x == m * q' + r';
    if q < q' {
      MulAtLeast(m, q + 1, q');
    }
    if q' < q {
      MulAtLeast(m, q' + 1, q);
    }
  }

  lemma MulAtLeast(m: nat, a: nat, b: nat)
    requires a <= b
    ensures m * (a - 1) + m <= m * b
  {
    var d := b - a;
    assert b == (a - 1) + 1 + d;
    assert m * ((a - 1) + 1 + d) == m * (a - 1) + m + m * d;
  }

  /** The mask computes the remainder, for every x and every power of two. */
  lemma {:induction false} FastModIsMod(x: nat, k: nat)
    ensures FastMod(x, Pow2(k)) == x % Pow2(k)
  {
    if k == 0 {
    } else {
      var m := Pow2(k - 1);
      ModDoubles(x, m);
      FastModIsMod(x / 2, k - 1);
      if x != 0 {
        assert 2 * m - 1 == 2 * (m - 1) + 1;
        assert (2 * m - 1) / 2 == m - 1 && (2 * m - 1) % 2 == 1;
      }
    }
  }

  function RoundUpFrom(p: nat, size: nat): (r: nat)
    requires p >= 1
    decreases if p < size then size - p else 0
  {
    if p >= size then p else RoundUpFrom(2 * p, size)
  }

  function MaybeNextPowerOfTwo(size: nat): nat {
    RoundUpFrom(1, size)
  }

  lemma {:induction false} RoundUpFromIsLeast(k: nat, size: nat)
    requires k == 0 || Pow2(k) < 2 * size
    ensures exists j: nat :: j >= k && RoundUpFrom(Pow2(k), size) == Pow2(j) && size <= Pow2(j)
                             && (j == k || Pow2(j) < 2 * size)
    decreases if Pow2(k) < size then size - Pow2(k) else 0
  {
    if Pow2(k) >= size {
      assert k >= k && RoundUpFrom(Pow2(k), size) == Pow2(k);
    } else {
      assert Pow2(k + 1) == 2 * Pow2(k);
      RoundUpFromIsLeast(k + 1, size);
    }
  }

  lemma {:induction false} Pow2Monotone(i: nat, j: nat)
    requires i < j
    ensures 2 * Pow2(i) <= Pow2(j)
  {
    if j == i + 1 {
    } else {
      Pow2Monotone(i, j - 1);
    }
  }

  lemma {:induction false} Pow2Is64()
    ensures Pow2(63) == ISIZE_MAX + 1 && Pow2(64) == USIZE_MAX + 1
  {
    assert Pow2(8) == 0x100;
    assert Pow2(16) == 0x1_0000;
    assert Pow2(24) == 0x100_0000;
    assert Pow2(32) == 0x1_0000_0000;
    assert Pow2(40) == 0x100_0000_0000;
    assert Pow2(48) == 0x1_0000_0000_0000;
    assert Pow2(56) == 0x100_0000_0000_0000;
    assert Pow2(60) == 0x1000_0000_0000_0000;
  }

  /** Every size the constructor accepts rounds to a power of two that holds it, is less
      than twice it, is the least such power, and does not overflow. */
  lemma {:induction false} AcceptedSizeRounds(size: nat)
    requires 2 <= size <= ISIZE_MAX
    ensures IsPowerOfTwo(MaybeNextPowerOfTwo(size))
    ensures size <= MaybeNextPowerOfTwo(size) < 2 * size
    ensures forall k: nat :: size <= Pow2(k) ==> MaybeNextPowerOfTwo(size) <= Pow2(k)
    ensures MaybeNextPowerOfTwo(size) <= ISIZE_MAX + 1
  {
    RoundUpFromIsLeast(0, size);
    var j: nat :| RoundUpFrom(Pow2(0), size) == Pow2(j) && size <= Pow2(j)
                  && (j == 0 || Pow2(j) < 2 * size);
    forall k: nat | size <= Pow2(k)
      ensures Pow2(j) <= Pow2(k)
    {
      if k < j {
        Pow2Monotone(k, j);
      } else if j < k {
        Pow2Monotone(j, k);
      }
    }
    Pow2Is64();
    assert size <= Pow2(63);
  }

  /** The slot of an id: its remainder, by repeated subtraction so that reasoning about
      it stays linear (SlotIsMod). */
  function Slot(id: nat, n: nat): (i: nat)
    requires n > 0
    ensures i < n
  {
    if id < n then id else Slot(id - n, n)
  }

  lemma {:induction false} SlotIsMod(id: nat, n: nat)
    requires n > 0
    ensures Slot(id, n) == id % n
  {
    if id < n {
      ModUnique(id, n, 0, id);
    } else {
      SlotIsMod(id - n, n);
      var q, r := (id - n) / n, (id - n) % n;
      assert id == n * (q + 1) + r;
      ModUnique(id, n, q + 1, r);
    }
  }

  /** On the buffer lengths the constructor builds, the source's index is the slot. */
  lemma FastModIsSlot(x: nat, n: nat)
    requires n > 0 && IsPowerOfTwo(n)
    ensures FastMod(x, n) == Slot(x, n)
  {
    var k: nat :| n == Pow2(k);
    FastModIsMod(x, k);
    SlotIsMod(x, n);
  }

  /** Two different ids less than n apart never share a slot. */
  lemma {:induction false} SlotsApart(a: nat, b: nat, n: nat)
    requires n > 0 && a < b < a + n
    ensures Slot(a, n) != Slot(b, n)
    decreases b
  {
    if a < n {
    } else {
      SlotsApart(a - n, b - n, n);
    }
  }

  /** Ids that share a slot are equal or at least n apart. */
  lemma SameSlotFar(a: nat, b: nat, n: nat)
    requires n > 0 && Slot(a, n) == Slot(b, n)
    ensures a == b || a + n <= b || b + n <= a
  {
    if a < b < a + n {
      SlotsApart(a, b, n);
    } else if b < a < b + n {
      SlotsApart(b, a, n);
    }
  }

  /** Any n consecutive ids reach every cell exactly once. */
  lemma {:induction false} ConsecutiveIdsCoverTheCells(base: nat, n: nat, i: nat)
    requires n > 0 && i < n
    ensures exists id: nat :: base <= id < base + n && Slot(id, n) == i
                              && forall other: nat :: base <= other < base + n && Slot(other, n) == i ==> other == id
  {
    var id := CoveringId(base, n, i);
    forall other: nat | base <= other < base + n && Slot(other, n) == i
      ensures other == id
    {
      SameSlotFar(other, id, n);
    }
  }

  lemma {:induction false} CoveringId(base: nat, n: nat, i: nat) returns (id: nat)
    requires n > 0 && i < n
    ensures base <= id < base + n && Slot(id, n) == i
  {
    if base == 0 {
      id := i;
    } else {
      id := CoveringId(base - 1, n, i);
      if id == base - 1 {
        id := id + n;
      }
    }
  }

  function WrappingAdd(x: nat, y: nat): nat {
    (x + y) % (USIZE_MAX + 1)
  }

  lemma StepMod(x: nat, m: nat)
    requires m >= 2
    ensures (x + 1) % m == (x % m + 1) % m
  {
    var q, r := x / m, x % m;
    assert x == m * q + r;
    if r + 1 < m {
      ModUnique(x + 1, m, q, r + 1);
      ModUnique(r + 1, m, 0, r + 1);
    } else {
      assert m * (q + 1) == m * q + m;
      ModUnique(x + 1, m, q + 1, 0);
      ModUnique(m, m, 1, 0);
    }
  }

  /** Adding one to an id, with wrap-around at 2^64, steps the masked index by one modulo
      the buffer length. */
  lemma WrappingStepsTheIndex(x: nat, k: nat)
    requires x <= USIZE_MAX && 1 <= k <= 63
    ensures FastMod(WrappingAdd(x, 1), Pow2(k)) == (FastMod(x, Pow2(k)) + 1) % Pow2(k)
  {
    var m, w := Pow2(k), Pow2(64 - k);
    FastModIsMod(x, k);
    FastModIsMod(WrappingAdd(x, 1), k);
    StepMod(x, m);
    Pow2Is64();
    Pow2Splits(k, 64 - k);
    if x < USIZE_MAX {
      ModUnique(x + 1, USIZE_MAX + 1, 0, x + 1);
    } else {
      ModUnique(x + 1, USIZE_MAX + 1, 1, 0);
      ModUnique(x + 1, m, w, 0);
      ModUnique(0, m, 0, 0);
    }
  }

  lemma {:induction false} Pow2Splits(i: nat, j: nat)
    ensures Pow2(i + j) == Pow2(i) * Pow2(j)
  {
    if i == 0 {
    } else {
      Pow2Splits(i - 1, j);
      assert 2 * (Pow2(i - 1) * Pow2(j)) == (2 * Pow2(i - 1)) * Pow2(j);
    }
  }
}
