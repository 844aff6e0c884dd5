// Rounding of a requested queue size to a power of two, and why masking a
// sequence number with capacity - 1 finds its slot.
module Capacity {

  const MAX_CAPACITY: nat := 0x4000_0000

  datatype Result = Ok(capacity: nat) | TooSmall | TooLarge

  function Pow2(k: nat): (p: nat)
    ensures p >= 1
  {
    if k == 0 then 1 else 2 * Pow2(k - 1)
  }

  /** Bitwise "and" of two non-negative machine integers. */
  function BitAnd(a: nat, b: nat): nat {
    if a == 0 || b == 0 then 0 else (a % 2) * (b % 2) + 2 * BitAnd(a / 2, b / 2)
  }

  /** Number of bits needed to write a, as bits.Len does. */
  function BitLength(a: nat): nat {
    if a == 0 then 0 else 1 + BitLength(a / 2)
  }

  predicate PassesPowerTest(size: int) {
    size > 0 && BitAnd(size, size - 1) == 0
  }

  ghost predicate IsPowerOfTwo(size: int) {
    exists k: nat :: size == Pow2(k)
  }

  function NormalizeCapacity(size: int): Result {
    if size <= 0 then TooSmall
    else if size > MAX_CAPACITY then TooLarge
    else if PassesPowerTest(size) then Ok(size)
    else Ok(Pow2(BitLength(size)))
  }

  function SlotIndex(capacity: nat, sequence: nat): nat
    requires capacity > 0
  {
    BitAnd(sequence, capacity - 1)
  }

  lemma DivMod(a: nat, m: nat)
    requires m > 0
    ensures a == m * (a / m) + a % m && a % m < m
  {
  }

  lemma Distribute(m: int, x: int, y: int)
    ensures m * (x + y) == m * x + m * y
  {
  }

  lemma OddMask(m: nat, q: nat)
    requires m > 0
    ensures BitAnd(q, 2 * m - 1) == q % 2 + 2 * BitAnd(q / 2, m - 1)
  {
    assert (2 * m - 1) / 2 == m - 1 && (2 * m - 1) % 2 == 1;
  }

  lemma {:induction false} MaskIsModulo(q: nat, k: nat)
    ensures SlotIndex(Pow2(k), q) == q % Pow2(k)
  {
    if k == 0 {
    } else if q == 0 {
      DivisionUnique(0, Pow2(k), 0, 0);
    } else {
      hide BitAnd;
      MaskIsModulo(q / 2, k - 1);
      var m := Pow2(k - 1);
      OddMask(m, q);
      ModuloHalves(q, m);
    }
  }

  lemma ModuloHalves(q: nat, m: nat)
    requires m > 0
    ensures q % (2 * m) == q % 2 + 2 * ((q / 2) % m)
  {
    var d, r := q / 2 / m, q / 2 % m;
    assert q == 2 * (m * d + r) + q % 2;
    assert q == (2 * m) * d + (2 * r + q % 2);
    DivisionUnique(q, 2 * m, d, 2 * r + q % 2);
  }

  lemma {:induction false} DivisionUnique(q: nat, m: nat, d: nat, r: nat)
    requires m > 0 && q == m * d + r && r < m
    ensures q % m == r && q / m == d
  {
    var e := d - q / m;
    DivMod(q, m);
    Distribute(m, q / m, e);
    MultipleIsLarge(m, e);
  }

  lemma MultipleIsLarge(m: int, e: int)
    requires m > 0
    ensures e == 0 || m * e >= m || m * e <= -m
  {
    if e >= 1 {
      assert m * e == m + m * (e - 1) && m * (e - 1) >= 0;
    } else if e <= -1 {
      assert m * e == -m - m * (-e - 1) && m * (-e - 1) >= 0;
    }
  }

  lemma {:induction false} PowerTestIsExact(size: int)
    ensures PassesPowerTest(size) <==> IsPowerOfTwo(size)
  {
    if size <= 0 {
      return;
    }
    if size == 1 {
      assert size == Pow2(0);
    } else if size % 2 == 0 {
      PowerTestIsExact(size / 2);
      EvenPowerTest(size);
      if IsPowerOfTwo(size) {
        var k: nat :| size == Pow2(k);
        assert size / 2 == Pow2(k - 1);
      }
      if IsPowerOfTwo(size / 2) {
        var k: nat :| size / 2 == Pow2(k);
        assert size == Pow2(k + 1);
      }
    } else {
      assert BitAnd(size, size - 1) == 2 * BitAnd(size / 2, (size - 1) / 2);
      assert (size - 1) / 2 == size / 2;
      AndSelf(size / 2);
      forall k: nat ensures size != Pow2(k) {
        assert k > 0 ==> Pow2(k) == 2 * Pow2(k - 1);
      }
    }
  }

  lemma EvenPowerTest(size: nat)
    requires size > 1 && size % 2 == 0
    ensures BitAnd(size, size - 1) == 2 * BitAnd(size / 2, size / 2 - 1)
  {
    assert (size - 1) / 2 == size / 2 - 1;
    assert BitAnd(size, size - 1) == (size % 2) * ((size - 1) % 2) + 2 * BitAnd(size / 2, (size - 1) / 2);
  }

  lemma AndSelf(a: nat)
    ensures BitAnd(a, a) == a
  {
  }

  lemma BitLengthBounds(a: nat)
    requires a > 0
    ensures BitLength(a) > 0 && Pow2(BitLength(a) - 1) <= a < Pow2(BitLength(a))
  {
    if a > 1 {
      BitLengthBounds(a / 2);
    }
  }

  lemma {:induction false} PowersMonotone(i: nat, j: nat)
    ensures i <= j ==> Pow2(i) <= Pow2(j)
    ensures Pow2(i) < Pow2(j) ==> i < j
    decreases i + j
  {
    if i > 0 && j > 0 {
      PowersMonotone(i - 1, j - 1);
    }
  }

  /** The capacity is the least power of two that holds the request, and exists
      exactly for requests between one and the maximum. */
  lemma NormalizedIsLeastPower(size: int)
    ensures NormalizeCapacity(size).Ok? <==> 1 <= size <= MAX_CAPACITY
    ensures NormalizeCapacity(size).Ok? ==>
              var c := NormalizeCapacity(size).capacity;
              && IsPowerOfTwo(c) && size <= c <= MAX_CAPACITY
              && forall k: nat :: Pow2(k) >= size ==> Pow2(k) >= c
  {
    if 1 <= size <= MAX_CAPACITY {
      PowerTestIsExact(size);
      BitLengthBounds(size);
      var n := BitLength(size);
      if !PassesPowerTest(size) {
        forall k: nat | Pow2(k) >= size ensures Pow2(k) >= Pow2(n) {
          assert Pow2(k) != size;
          PowersMonotone(n - 1, k);
          PowersMonotone(n, k);
        }
        MaxIsPower();
        assert MAX_CAPACITY == Pow2(30);
      }
    }
  }

  lemma MaxIsPower()
    ensures Pow2(30) == MAX_CAPACITY
  {
    assert Pow2(10) == 1024;
    assert Pow2(20) == 1024 * 1024;
    assert Pow2(30) == 1024 * 1024 * 1024;
  }

  /** Distinct sequences less than one lap apart use distinct slots, and one
      lap later the slot comes round again. */
  lemma SlotsWithinALap(capacity: nat, a: nat, b: nat)
    requires IsPowerOfTwo(capacity)
    ensures 0 <= SlotIndex(capacity, a) < capacity
    ensures a < b < a + capacity ==> SlotIndex(capacity, a) != SlotIndex(capacity, b)
    ensures b == a + capacity ==> SlotIndex(capacity, a) == SlotIndex(capacity, b)
  {
    var k: nat :| capacity == Pow2(k);
    MaskIsModulo(a, k);
    MaskIsModulo(b, k);
    ModuloWithinALap(capacity, a, b);
  }

  lemma QuotientsApart(m: nat, c: int, d: int)
    requires m > 0 && m * c < m * d
    ensures m * c + m <= m * d
  {
    Distribute(m, c, d - c);
    MultipleIsLarge(m, d - c);
  }

  lemma ModuloWithinALap(m: nat, a: nat, b: nat)
    requires m > 0
    ensures a < b < a + m ==> a % m != b % m
    ensures b == a + m ==> a % m == b % m
  {
    DivMod(a, m);
    DivMod(b, m);
    if b == a + m {
      Distribute(m, a / m, 1);
      DivisionUnique(b, m, a / m + 1, a % m);
    } else if a < b < a + m && a % m == b % m {
      QuotientsApart(m, a / m, b / m);
      assert false;
    }
  }
}
