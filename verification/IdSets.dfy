/**
 The id set as the unsigned 64-bit word that holds it. Each word operation is shown to be
 the operation on sets that the rest of the model uses.
 */
module IdSets {
  import opened Separate

  function Pow2(k: nat): (p: nat)
    ensures p > 0
  {
    if k == 0 then 1 else 2 * Pow2(k - 1)
  }

  const WIDTH: nat := 64

  ghost predicate IsWord(b: nat) {
    b < Pow2(WIDTH)
  }

  lemma {:induction false} Pow2Doubled(k: nat)
    ensures Pow2(k + k) == Pow2(k) * Pow2(k)
  {
    if k > 0 {
      Pow2Doubled(k - 1);
      assert Pow2(k + k) == 4 * Pow2(k - 1 + k - 1);
      assert (2 * Pow2(k - 1)) * (2 * Pow2(k - 1)) == 4 * (Pow2(k - 1) * Pow2(k - 1));
    }
  }

  /** The word has 64 bits. */
  lemma {:induction false} WordSize(b: nat)
    ensures IsWord(b) <==> b < 0x1_0000_0000_0000_0000
  {
    assert Pow2(4) == 16;
    Pow2Doubled(4);
    assert Pow2(8) == 0x100;
    Pow2Doubled(8);
    assert Pow2(16) == 0x1_0000;
    Pow2Doubled(16);
    assert Pow2(32) == 0x1_0000_0000;
    Pow2Doubled(32);
  }

  /** Bit `k` of `b`. */
  predicate Has(b: nat, k: nat) {
    if k == 0 then b % 2 == 1 else Has(b / 2, k - 1)
  }

  ghost function Members(b: nat): set<nat> {
    set k: nat | k < WIDTH && Has(b, k)
  }

  // ---------------------------------------------------------------- bitwise operators

  function Bit(p: bool): nat {
    if p then 1 else 0
  }

  function Or(a: nat, b: nat): nat {
    if a == 0 && b == 0 then 0 else 2 * Or(a / 2, b / 2) + Bit(a % 2 == 1 || b % 2 == 1)
  }

  function And(a: nat, b: nat): nat {
    if a == 0 && b == 0 then 0 else 2 * And(a / 2, b / 2) + Bit(a % 2 == 1 && b % 2 == 1)
  }

  function Xor(a: nat, b: nat): nat {
    if a == 0 && b == 0 then 0 else 2 * Xor(a / 2, b / 2) + Bit((a % 2 == 1) != (b % 2 == 1))
  }

  /** The complement in `n` bits. */
  function Not(n: nat, b: nat): nat
    requires b < Pow2(n)
  {
    Pow2(n) - 1 - b
  }

  /** Shifting bit by bit. */
  function ShiftUp(b: nat, n: nat): nat {
    if n == 0 then b else 2 * ShiftUp(b, n - 1)
  }

  function ShiftDown(b: nat, n: nat): nat {
    if n == 0 then b else ShiftDown(b / 2, n - 1)
  }

  // ---------------------------------------------------------------- the id set

  function Add(b: nat, id: nat): nat
    requires id < WIDTH
  {
    Or(b, Pow2(id))
  }

  function Subtract(b: nat, id: nat): nat
    requires id < WIDTH
  {
    Pow2Grows(id, WIDTH);
    And(b, Not(WIDTH, Pow2(id)))
  }

  /**
   Removes the ids from `start` up to `end`. The masks are built by shifting a signed 32-bit
   one, so the shift amounts must leave its sign bit alone.
   */
  function SubtractRange(b: nat, start: nat, end: nat): nat
    requires start < 31 && end < 31
  {
    if start > end then b
    else
      RangeMask(WIDTH, start, end);
      And(b, Not(WIDTH, RangeBits(start, end)))
  }

  /** The bits from `start` up to `end`, from two low masks. */
  function RangeBits(start: nat, end: nat): nat {
    Xor(Pow2(start) - 1, Pow2(end) - 1)
  }

  lemma {:induction false} HasRangeBits(start: nat, end: nat, k: nat)
    requires start <= end
    ensures Has(RangeBits(start, end), k) <==> start <= k < end
  {
    HasXor(Pow2(start) - 1, Pow2(end) - 1, k);
    HasMask(start, k);
    HasMask(end, k);
  }

  lemma {:induction false} AddIsUnion(b: nat, id: nat)
    requires id < WIDTH
    ensures Members(Add(b, id)) == Members(b) + {id}
  {
    forall k: nat
      ensures Has(Add(b, id), k) <==> Has(b, k) || k == id
    {
      HasOr(b, Pow2(id), k);
      HasPow2(id, k);
    }
  }

  /** Masking with a complement removes the elements of what was complemented. */
  lemma {:induction false} WithoutBits(b: nat, bits: nat)
    requires bits < Pow2(WIDTH)
    ensures Members(And(b, Not(WIDTH, bits))) == Members(b) - Members(bits)
  {
    forall k: nat | k < WIDTH
      ensures Has(And(b, Not(WIDTH, bits)), k) <==> Has(b, k) && !Has(bits, k)
    {
      HasAnd(b, Not(WIDTH, bits), k);
      HasNot(WIDTH, bits, k);
    }
  }

  lemma {:induction false} SubtractIsDifference(b: nat, id: nat)
    requires id < WIDTH
    ensures Members(Subtract(b, id)) == Members(b) - {id}
  {
    Pow2Grows(id, WIDTH);
    WithoutBits(b, Pow2(id));
    forall k: nat {
      HasPow2(id, k);
    }
  }

  lemma {:induction false} SubtractRangeIsDifference(b: nat, start: nat, end: nat)
    requires start < 31 && end < 31
    ensures Members(SubtractRange(b, start, end)) == set k | k in Members(b) && !(start <= k < end)
  {
    if start <= end {
      RangeMask(WIDTH, start, end);
      RangeRemoved(b, RangeBits(start, end), start, end);
      RangeBitsAre(start, end);
    }
  }

  lemma {:induction false} RangeRemoved(b: nat, bits: nat, start: nat, end: nat)
    requires bits < Pow2(WIDTH)
    ensures (forall k :: k in Members(bits) <==> start <= k < end && k < WIDTH) ==>
              Members(And(b, Not(WIDTH, bits))) == set k | k in Members(b) && !(start <= k < end)
  {
    WithoutBits(b, bits);
  }

  lemma {:induction false} RangeBitsAre(start: nat, end: nat)
    requires start <= end
    ensures forall k :: k in Members(RangeBits(start, end)) <==> start <= k < end && k < WIDTH
  {
    forall k: nat {
      HasRangeBits(start, end, k);
    }
  }

  /** A one-bit mask meets the word just when the id is an element. */
  lemma {:induction false} BitTest(b: nat, id: nat)
    requires id < WIDTH
    ensures And(b, Pow2(id)) != 0 <==> id in Members(b)
  {
    if id in Members(b) {
      HasAnd(b, Pow2(id), id);
      HasPow2(id, id);
      ZeroHas(id);
    } else if And(b, Pow2(id)) != 0 {
      var k := SomeBit(And(b, Pow2(id)));
      HasAnd(b, Pow2(id), k);
      HasPow2(id, k);
    }
  }

  /** The low mask of `n` bits meets the word just when it has an element below `n`. */
  lemma {:induction false} LowMaskTest(b: nat, n: nat)
    requires n <= WIDTH
    ensures And(b, Pow2(n) - 1) != 0 <==> exists k: nat :: k < n && k in Members(b)
  {
    var met := And(b, Pow2(n) - 1);
    if met != 0 {
      var k := SomeBit(met);
      HasAnd(b, Pow2(n) - 1, k);
      HasMask(n, k);
      assert k in Members(b);
    }
    if k: nat :| k < n && k in Members(b) {
      HasAnd(b, Pow2(n) - 1, k);
      HasMask(n, k);
      ZeroHas(k);
    }
  }

  /** A mask of `m` bits from `n` on. */
  function FieldMask(m: nat, n: nat): nat {
    ShiftUp(Pow2(m) - 1, n)
  }

  /** The field mask leaves the elements from `n` up to `n + m`. */
  lemma {:induction false} FieldIsRange(b: nat, m: nat, n: nat)
    ensures Members(And(b, FieldMask(m, n))) == set k | k in Members(b) && n <= k < n + m
  {
    forall k: nat
      ensures Has(And(b, FieldMask(m, n)), k) <==> Has(b, k) && n <= k < n + m
    {
      HasAnd(b, FieldMask(m, n), k);
      HasShifted(Pow2(m) - 1, n, k);
      if k >= n {
        HasMask(m, k - n);
      }
    }
  }

  /** A right shift moves the elements down, and drops those below the shift. */
  lemma {:induction false} ShiftIsMove(b: nat, n: nat)
    requires IsWord(b)
    ensures Members(ShiftDown(b, n)) == ShiftRight(Members(b), n)
  {
    forall k: nat
      ensures k in Members(ShiftDown(b, n)) <==> k in ShiftRight(Members(b), n)
    {
      HasShiftedDown(b, n, k);
      if Has(b, k + n) {
        WordEnds(WIDTH, b, k + n);
        assert k + n in Members(b);
      }
      if k in ShiftRight(Members(b), n) {
        var j :| j in Members(b) && j >= n && j - n == k;
      }
    }
  }

  /** A word is zero just when it has no element. */
  lemma {:induction false} ZeroIsEmpty(b: nat)
    requires IsWord(b)
    ensures b == 0 <==> Members(b) == {}
  {
    if b != 0 {
      var k := SomeBit(b);
      WordEnds(WIDTH, b, k);
      assert k in Members(b);
    } else {
      forall k: nat {
        ZeroHas(k);
      }
    }
  }

  /** Two words are equal just when they have the same elements. */
  lemma {:induction false} WordsAreSets(a: nat, b: nat)
    requires IsWord(a) && IsWord(b)
    ensures a == b <==> Members(a) == Members(b)
  {
    if Members(a) == Members(b) {
      forall k: nat | k < WIDTH
        ensures Has(a, k) == Has(b, k)
      {
        assert k in Members(a) <==> k in Members(b);
      }
      SameBits(WIDTH, a, b);
    }
  }

  // ---------------------------------------------------------------- bit by bit

  lemma {:induction false} HalfOf(x: nat, p: bool)
    ensures (2 * x + Bit(p)) / 2 == x && ((2 * x + Bit(p)) % 2 == 1 <==> p)
  {
  }

  lemma {:induction false} HasOr(a: nat, b: nat, k: nat)
    ensures Has(Or(a, b), k) <==> Has(a, k) || Has(b, k)
  {
    HalfOf(Or(a / 2, b / 2), a % 2 == 1 || b % 2 == 1);
    if k > 0 {
      HasOr(a / 2, b / 2, k - 1);
    }
  }

  lemma {:induction false} HasAnd(a: nat, b: nat, k: nat)
    ensures Has(And(a, b), k) <==> Has(a, k) && Has(b, k)
  {
    HalfOf(And(a / 2, b / 2), a % 2 == 1 && b % 2 == 1);
    if k > 0 {
      HasAnd(a / 2, b / 2, k - 1);
    }
  }

  lemma {:induction false} HasXor(a: nat, b: nat, k: nat)
    ensures Has(Xor(a, b), k) <==> Has(a, k) != Has(b, k)
  {
    HalfOf(Xor(a / 2, b / 2), (a % 2 == 1) != (b % 2 == 1));
    if k > 0 {
      HasXor(a / 2, b / 2, k - 1);
    }
  }

  lemma {:induction false} HasNot(n: nat, b: nat, k: nat)
    requires b < Pow2(n) && k < n
    ensures Has(Not(n, b), k) <==> !Has(b, k)
  {
    assert Not(n, b) / 2 == Not(n - 1, b / 2);
    if k > 0 {
      HasNot(n - 1, b / 2, k - 1);
    }
  }

  lemma {:induction false} HasPow2(id: nat, k: nat)
    ensures Has(Pow2(id), k) <==> k == id
  {
    if k > 0 && id > 0 {
      HasPow2(id - 1, k - 1);
    } else if k > 0 {
      ZeroHas(k - 1);
    }
  }

  lemma {:induction false} HasMask(n: nat, k: nat)
    ensures Has(Pow2(n) - 1, k) <==> k < n
  {
    if n == 0 {
      ZeroHas(k);
    } else if k > 0 {
      HasMask(n - 1, k - 1);
    }
  }

  lemma {:induction false} HasShifted(b: nat, n: nat, k: nat)
    ensures Has(ShiftUp(b, n), k) <==> k >= n && Has(b, k - n)
  {
    if n > 0 && k > 0 {
      HasShifted(b, n - 1, k - 1);
    }
  }

  lemma {:induction false} HasShiftedDown(b: nat, n: nat, k: nat)
    ensures Has(ShiftDown(b, n), k) <==> Has(b, k + n)
  {
    if n > 0 {
      HasShiftedDown(b / 2, n - 1, k);
    }
  }

  /** A word has no bits from its width on. */
  lemma {:induction false} WordEnds(n: nat, b: nat, k: nat)
    requires b < Pow2(n) && Has(b, k)
    ensures k < n
  {
    if n == 0 {
      ZeroHas(k);
    } else if k > 0 {
      WordEnds(n - 1, b / 2, k - 1);
    }
  }

  lemma {:induction false} ZeroHas(k: nat)
    ensures !Has(0, k)
  {
    if k > 0 {
      ZeroHas(k - 1);
    }
  }

  lemma {:induction false} SomeBit(b: nat) returns (k: nat)
    requires b != 0
    ensures Has(b, k)
  {
    if b % 2 == 1 {
      k := 0;
    } else {
      k := SomeBit(b / 2);
      k := k + 1;
    }
  }

  lemma {:induction false} SameBits(n: nat, a: nat, b: nat)
    requires a < Pow2(n) && b < Pow2(n)
    requires forall k: nat :: k < n ==> Has(a, k) == Has(b, k)
    ensures a == b
  {
    if n > 0 {
      assert Has(a, 0) == Has(b, 0);
      forall k: nat | k < n - 1
        ensures Has(a / 2, k) == Has(b / 2, k)
      {
        assert Has(a, k + 1) == Has(b, k + 1);
      }
      SameBits(n - 1, a / 2, b / 2);
    }
  }

  lemma {:induction false} Pow2Grows(j: nat, k: nat)
    requires j < k
    ensures Pow2(j) < Pow2(k)
  {
    if j < k - 1 {
      Pow2Grows(j, k - 1);
    }
  }

  lemma {:induction false} RangeMask(n: nat, start: nat, end: nat)
    requires start <= end < n
    ensures RangeBits(start, end) < Pow2(n)
  {
    Pow2Grows(end, n);
    if start < end {
      Pow2Grows(start, end);
    }
    XorBound(end, Pow2(start) - 1, Pow2(end) - 1);
  }

  lemma {:induction false} AndFits(n: nat, a: nat, b: nat)
    requires a < Pow2(n)
    ensures And(a, b) < Pow2(n)
  {
    if n > 0 {
      AndFits(n - 1, a / 2, b / 2);
    } else {
      AndZero(b);
    }
  }

  lemma {:induction false} AndZero(b: nat)
    ensures And(0, b) == 0
  {
    if b > 0 {
      AndZero(b / 2);
    }
  }

  lemma {:induction false} SubtractRangeFits(b: nat, start: nat, end: nat)
    requires start < 31 && end < 31 && IsWord(b)
    ensures IsWord(SubtractRange(b, start, end))
  {
    if start <= end {
      RangeMask(WIDTH, start, end);
      AndFits(WIDTH, b, Not(WIDTH, RangeBits(start, end)));
    }
  }

  lemma {:induction false} XorBound(n: nat, a: nat, b: nat)
    requires a < Pow2(n) && b < Pow2(n)
    ensures Xor(a, b) < Pow2(n)
  {
    if n > 0 {
      XorBound(n - 1, a / 2, b / 2);
    }
  }
}
