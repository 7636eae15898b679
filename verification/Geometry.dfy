/** Address arithmetic of the cache: how an address splits into a tag, a set index and an offset.

    The C++ code works on `uint64_t` with shifts and masks. Here a word is a `nat` and each bit
    operation is defined bit by bit, from the least significant bit up, so that the round trips
    below are facts about the bit operations themselves and not about division. */
module Bits {
  function ShiftRight(a: nat, k: nat): nat {
    if k == 0 then a else ShiftRight(a / 2, k - 1)
  }

  function ShiftLeft(a: nat, k: nat): nat {
    if k == 0 then a else 2 * ShiftLeft(a, k - 1)
  }

  function And(a: nat, b: nat): nat {
    if a == 0 then 0 else 2 * And(a / 2, b / 2) + (if a % 2 == 1 && b % 2 == 1 then 1 else 0)
  }

  /** a & ~b */
  function AndNot(a: nat, b: nat): nat {
    if a == 0 then 0 else 2 * AndNot(a / 2, b / 2) + (if a % 2 == 1 && b % 2 == 0 then 1 else 0)
  }

  function Or(a: nat, b: nat): nat {
    if a == 0 then b else 2 * Or(a / 2, b / 2) + (if a % 2 == 1 || b % 2 == 1 then 1 else 0)
  }

  function Xor(a: nat, b: nat): nat {
    if a == 0 then b else 2 * Xor(a / 2, b / 2) + (if a % 2 != b % 2 then 1 else 0)
  }

  /** 2^k - 1, the mask of the k low bits. */
  function LowMask(k: nat): nat {
    if k == 0 then 0 else 2 * LowMask(k - 1) + 1
  }

  lemma {:induction false} OrOfDoubles(x: nat, y: nat)
    ensures Or(2 * x, 2 * y) == 2 * Or(x, y)
  {
    assert (2 * x) / 2 == x && (2 * y) / 2 == y;
  }

  lemma {:induction false} AndStep(a: nat, m: nat)
    ensures And(a, 2 * m + 1) == 2 * And(a / 2, m) + a % 2
  {
    assert (2 * m + 1) / 2 == m;
  }

  /** The pieces above and below bit k rebuild the word. */
  lemma {:induction false} Rebuild(a: nat, k: nat)
    ensures Or(ShiftLeft(ShiftRight(a, k), k), And(a, LowMask(k))) == a
    decreases k
  {
    if k == 0 {
      OrZero(a);
      AndZero(a);
    } else {
      var low := And(a / 2, LowMask(k - 1));
      var high := ShiftLeft(ShiftRight(a / 2, k - 1), k - 1);
      Rebuild(a / 2, k - 1);
      AndStep(a, LowMask(k - 1));
      if high == 0 {
        assert Or(0, low) == low;
      } else {
        assert (2 * high) / 2 == high && (2 * low + a % 2) / 2 == low;
      }
    }
  }

  lemma {:induction false} OrZero(a: nat)
    ensures Or(a, 0) == a && Or(0, a) == a
  {
    if a > 0 { OrZero(a / 2); }
  }

  lemma {:induction false} AndZero(a: nat)
    ensures And(a, 0) == 0 && And(0, a) == 0 && AndNot(a, 0) == a
  {
    if a > 0 { AndZero(a / 2); }
  }

  lemma {:induction false} AndNotStep(a: nat, m: nat)
    ensures AndNot(a, 2 * m + 1) == 2 * AndNot(a / 2, m)
  {
    assert (2 * m + 1) / 2 == m;
  }

  /** Clearing the k low bits is shifting them out and back. */
  lemma {:induction false} ClearLow(a: nat, k: nat)
    ensures AndNot(a, LowMask(k)) == ShiftLeft(ShiftRight(a, k), k) <= a
    decreases k
  {
    if k == 0 {
      AndZero(a);
    } else {
      AndNotStep(a, LowMask(k - 1));
      ClearLow(a / 2, k - 1);
    }
  }

  lemma {:induction false} AndBound(a: nat, m: nat)
    ensures And(a, m) <= m
  {
    if a > 0 { AndBound(a / 2, m / 2); }
  }

  lemma {:induction false} ShiftRightTwice(a: nat, j: nat, k: nat)
    ensures ShiftRight(ShiftRight(a, j), k) == ShiftRight(a, j + k)
    decreases j
  {
    if j > 0 { ShiftRightTwice(a / 2, j - 1, k); }
  }

  lemma {:induction false} ShiftBackAndForth(a: nat, k: nat)
    ensures ShiftRight(ShiftLeft(a, k), k) == a
  {
    if k > 0 {
      assert (2 * ShiftLeft(a, k - 1)) / 2 == ShiftLeft(a, k - 1);
      ShiftBackAndForth(a, k - 1);
    }
  }

  lemma {:induction false} ShiftLeftTwice(a: nat, j: nat, k: nat)
    ensures ShiftLeft(ShiftLeft(a, j), k) == ShiftLeft(a, j + k)
  {
    if k > 0 { ShiftLeftTwice(a, j, k - 1); }
  }

  lemma {:induction false} OrShift(x: nat, y: nat, k: nat)
    ensures Or(ShiftLeft(x, k), ShiftLeft(y, k)) == ShiftLeft(Or(x, y), k)
  {
    if k > 0 {
      OrShift(x, y, k - 1);
      OrOfDoubles(ShiftLeft(x, k - 1), ShiftLeft(y, k - 1));
    }
  }

  /** A value that fits in the k low bits, or-ed under a shifted one, is read back on both sides. */
  lemma {:induction false} SplitAt(high: nat, low: nat, k: nat)
    requires low <= LowMask(k)
    ensures ShiftRight(Or(ShiftLeft(high, k), low), k) == high
    ensures And(Or(ShiftLeft(high, k), low), LowMask(k)) == low
    decreases k
  {
    var word := Or(ShiftLeft(high, k), low);
    if k == 0 {
      OrZero(high);
      AndZero(word);
    } else {
      var shifted := ShiftLeft(high, k - 1);
      assert (2 * shifted) / 2 == shifted && (2 * shifted) % 2 == 0;
      assert word == 2 * Or(shifted, low / 2) + low % 2;
      SplitAt(high, low / 2, k - 1);
      AndStep(word, LowMask(k - 1));
    }
  }

  // ---- in numbers -----------------------------------------------------------------------------------

  lemma Doubled(x: nat, y: nat)
    ensures x * (2 * y) == 2 * (x * y)
  {
  }

  /** The pieces above and below bit k, as quotient and remainder of 2^k. */
  lemma {:induction false} Splits(a: nat, k: nat)
    ensures a == ShiftRight(a, k) * (LowMask(k) + 1) + And(a, LowMask(k)) && And(a, LowMask(k)) <= LowMask(k)
    decreases k
  {
    AndBound(a, LowMask(k));
    if k == 0 {
      AndZero(a);
    } else {
      Splits(a / 2, k - 1);
      AndStep(a, LowMask(k - 1));
      Doubled(ShiftRight(a, k), LowMask(k - 1) + 1);
      assert LowMask(k) + 1 == 2 * (LowMask(k - 1) + 1);
    }
  }

  lemma {:induction false} QuotientIs(a: nat, q: nat, r: nat, n: nat)
    requires a == q * n + r && r < n
    ensures a / n == q && a % n == r
  {
    var p := a / n;
    assert a == p * n + a % n;
    if p < q { Products(p + 1, q, n); } else if q < p { Products(q + 1, p, n); }
  }

  lemma {:induction false} Products(p: nat, q: nat, n: nat)
    requires p <= q
    ensures p * n <= q * n && (p > 0 ==> p * n == (p - 1) * n + n)
  {
    if p < q { Products(p, q - 1, n); assert q * n == (q - 1) * n + n; }
    assert p > 0 ==> p * n == (p - 1) * n + n;
  }

  lemma {:induction false} ShiftLeftIs(x: nat, k: nat)
    ensures ShiftLeft(x, k) == x * (LowMask(k) + 1)
  {
    if k > 0 {
      ShiftLeftIs(x, k - 1);
      Doubled(x, LowMask(k - 1) + 1);
      assert LowMask(k) + 1 == 2 * (LowMask(k - 1) + 1);
    }
  }

  /** Shifting is dividing by 2^k, and masking is the remainder. */
  lemma {:induction false} BitsAreNumbers(a: nat, k: nat)
    ensures ShiftRight(a, k) == a / (LowMask(k) + 1) && And(a, LowMask(k)) == a % (LowMask(k) + 1)
    ensures AndNot(a, LowMask(k)) == a - a % (LowMask(k) + 1)
  {
    Splits(a, k);
    QuotientIs(a, ShiftRight(a, k), And(a, LowMask(k)), LowMask(k) + 1);
    ClearLow(a, k);
    ShiftLeftIs(ShiftRight(a, k), k);
  }

  lemma {:induction false} XorIsZero(a: nat, b: nat)
    ensures Xor(a, b) == 0 <==> a == b
  {
    if a > 0 { XorIsZero(a / 2, b / 2); }
  }

  /** (a ^ b) & ~mask(k) is zero exactly when a and b agree above bit k. */
  lemma {:induction false} XorAboveMask(a: nat, b: nat, k: nat)
    ensures AndNot(Xor(a, b), LowMask(k)) == 0 <==> ShiftRight(a, k) == ShiftRight(b, k)
    decreases k
  {
    if k == 0 {
      AndZero(Xor(a, b));
      XorIsZero(a, b);
    } else {
      AndNotStep(Xor(a, b), LowMask(k - 1));
      XorAboveMask(a / 2, b / 2, k - 1);
      assert Xor(a, b) / 2 == Xor(a / 2, b / 2) by {
        if a == 0 { assert Xor(0, b / 2) == b / 2; }
      }
    }
  }
}

module Geometry {
  import opened Bits

  /** Block size 2^blockBits bytes, 2^setBits sets. */
  datatype Geometry = Geometry(blockBits: nat, setBits: nat) {
    function BlockSize(): nat { LowMask(blockBits) + 1 }

    function SetCount(): nat { LowMask(setBits) + 1 }

    function Tag(address: nat): nat { ShiftRight(address, blockBits + setBits) }

    function SetOf(address: nat): (s: nat)
      ensures s < SetCount()
    {
      AndBound(ShiftRight(address, blockBits), LowMask(setBits));
      And(ShiftRight(address, blockBits), LowMask(setBits))
    }

    function Address(tag: nat, set_: nat): nat {
      Or(ShiftLeft(tag, blockBits + setBits), ShiftLeft(set_, blockBits))
    }

    /** mask_offset: the address of the first byte of the block. */
    function Block(address: nat): nat { AndNot(address, LowMask(blockBits)) }

    function Offset(address: nat): (o: nat)
      ensures o < BlockSize()
    {
      AndBound(address, LowMask(blockBits));
      And(address, LowMask(blockBits))
    }

    /** The per-line test of the processing queue: ((a ^ b) & ~(blockSize - 1)) == 0. */
    predicate SameLine(a: nat, b: nat) { AndNot(Xor(a, b), LowMask(blockBits)) == 0 }
  }

  /** The split in numbers: blocks are aligned and follow one another through the sets, and the tag counts
      the rounds. */
  lemma {:induction false} SplitInNumbers(g: Geometry, a: nat)
    ensures g.Offset(a) == a % g.BlockSize() && g.Block(a) == a - a % g.BlockSize()
    ensures g.SetOf(a) == a / g.BlockSize() % g.SetCount() && g.Tag(a) == a / g.BlockSize() / g.SetCount()
  {
    BitsAreNumbers(a, g.blockBits);
    BitsAreNumbers(ShiftRight(a, g.blockBits), g.setBits);
    ShiftRightTwice(a, g.blockBits, g.setBits);
  }

  /** A tag and a set index rebuild the block address: what moveLine2WB relies on when it names
      an evicted line by `calculate_address(line->tag, set)`. */
  lemma {:induction false} AddressOfTagAndSet(g: Geometry, a: nat)
    ensures g.Address(g.Tag(a), g.SetOf(a)) == g.Block(a)
    ensures g.Block(a) <= a
  {
    var high := ShiftRight(a, g.blockBits);
    ShiftRightTwice(a, g.blockBits, g.setBits);
    ShiftLeftTwice(g.Tag(a), g.setBits, g.blockBits);
    OrShift(ShiftLeft(g.Tag(a), g.setBits), g.SetOf(a), g.blockBits);
    Rebuild(high, g.setBits);
    ClearLow(a, g.blockBits);
  }

  /** Tag and set index survive the trip to the block address and back, so a block address may
      stand for any address of its block. */
  lemma {:induction false} BlockKeepsTagAndSet(g: Geometry, a: nat)
    ensures g.Tag(g.Block(a)) == g.Tag(a) && g.SetOf(g.Block(a)) == g.SetOf(a)
    ensures g.Block(g.Block(a)) == g.Block(a)
  {
    var b := g.Block(a);
    ClearLow(a, g.blockBits);
    ShiftBackAndForth(ShiftRight(a, g.blockBits), g.blockBits);
    assert ShiftRight(b, g.blockBits) == ShiftRight(a, g.blockBits);
    ShiftRightTwice(a, g.blockBits, g.setBits);
    ShiftRightTwice(b, g.blockBits, g.setBits);
    ClearLow(b, g.blockBits);
  }

  /** calculate_address loses nothing: the tag and the set index of the address it builds are the
      ones it was given. */
  lemma {:induction false} TagAndSetOfAddress(g: Geometry, tag: nat, s: nat)
    requires s < g.SetCount()
    ensures g.Tag(g.Address(tag, s)) == tag && g.SetOf(g.Address(tag, s)) == s
  {
    var a := g.Address(tag, s);
    var high := Or(ShiftLeft(tag, g.setBits), s);
    ShiftLeftTwice(tag, g.setBits, g.blockBits);
    OrShift(ShiftLeft(tag, g.setBits), s, g.blockBits);
    ShiftBackAndForth(high, g.blockBits);
    ShiftRightTwice(a, g.blockBits, g.setBits);
    SplitAt(tag, s, g.setBits);
  }

  /** Two addresses lie in one block exactly when tag and set index agree. */
  lemma {:induction false} SameBlock(g: Geometry, a: nat, b: nat)
    ensures g.Block(a) == g.Block(b) <==> g.Tag(a) == g.Tag(b) && g.SetOf(a) == g.SetOf(b)
  {
    AddressOfTagAndSet(g, a);
    AddressOfTagAndSet(g, b);
    BlockKeepsTagAndSet(g, a);
    BlockKeepsTagAndSet(g, b);
  }

  /** Block address and offset rebuild the address. */
  lemma {:induction false} BlockAndOffset(g: Geometry, a: nat)
    ensures Or(g.Block(a), g.Offset(a)) == a
  {
    ClearLow(a, g.blockBits);
    Rebuild(a, g.blockBits);
  }

  /** The queue's line test is equality of block addresses. */
  lemma {:induction false} SameLineIsSameBlock(g: Geometry, a: nat, b: nat)
    ensures g.SameLine(a, b) <==> g.Block(a) == g.Block(b)
  {
    XorAboveMask(a, b, g.blockBits);
    ClearLow(a, g.blockBits);
    ClearLow(b, g.blockBits);
    ShiftBackAndForth(ShiftRight(a, g.blockBits), g.blockBits);
    ShiftBackAndForth(ShiftRight(b, g.blockBits), g.blockBits);
  }
}
