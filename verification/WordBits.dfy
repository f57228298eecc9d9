/** One 64-bit word read as 64 slots, the layer under the slot bitmaps of
    src/boolean_bits.rs. A slot is named by its one-hot mask, as the source
    names it (`1u64 << bit`).

    The word operations have names here so that the lemmas about slots can
    hide their bodies: bit-blasting stays inside the small word lemmas. */
module WordBits {

  const MAX: bv64 := 0xFFFF_FFFF_FFFF_FFFF
  const TOP: bv64 := 0x8000_0000_0000_0000

  function And(a: bv64, b: bv64): bv64 { a & b }
  function Or(a: bv64, b: bv64): bv64 { a | b }
  function Xor(a: bv64, b: bv64): bv64 { a ^ b }
  function Not(a: bv64): bv64 { !a }
  function Dec(a: bv64): bv64 { a - 1 }
  function Twice(a: bv64): bv64 { a << 1 }
  predicate Lt(a: bv64, b: bv64) { a < b }

  /** `w << s` for an amount below the width: `s` single-place shifts. */
  function Shl(w: bv64, s: nat): bv64 {
    if s == 0 then w else Twice(Shl(w, s - 1))
  }

  /** The mask `1u64 << i`. */
  function One(i: nat): bv64 {
    Shl(1, i)
  }

  /** Slot `i` of the word is set: `word & (1u64 << i) != 0`. */
  predicate Bit(w: bv64, i: nat) {
    And(w, One(i)) != 0
  }

  predicate OneHot(m: bv64) {
    m != 0 && And(m, Dec(m)) == 0
  }

  // ----- words -----

  lemma DoubleOneHot(m: bv64)
    requires OneHot(m) && Twice(m) != 0
    ensures OneHot(Twice(m)) && Lt(m, Twice(m))
    ensures Dec(Twice(m)) == Or(Dec(m), m)
    ensures Twice(Not(Dec(m))) == Not(Dec(Twice(m)))
  {}

  lemma SmallerMask(m: bv64, n: bv64)
    requires OneHot(m) && OneHot(n) && Lt(m, n)
    ensures And(Dec(n), m) == m
    ensures And(m, n) == 0 && And(n, m) == 0
  {}

  lemma LargerMaskWord(m: bv64, n: bv64)
    requires m & (m - 1) == 0 && 0 < n <= m
    ensures (n - 1) & m == 0
  {}

  lemma LargerMask(m: bv64, n: bv64)
    requires OneHot(m) && OneHot(n) && (Lt(n, m) || n == m)
    ensures And(Dec(n), m) == 0
  {
    LargerMaskWord(m, n);
  }

  lemma Masked(a: bv64, m: bv64)
    requires m & (m - 1) == 0
    ensures a & m == 0 || a & m == m
  {}

  lemma AndMask(a: bv64, b: bv64, m: bv64)
    requires OneHot(m)
    ensures (And(And(a, b), m) != 0) == (And(a, m) != 0 && And(b, m) != 0)
  {
    Masked(a, m);
    Masked(b, m);
    assert (a & b) & m == (a & m) & (b & m);
  }

  lemma OrDistributes(a: bv64, b: bv64, m: bv64)
    ensures (a | b) & m == (a & m) | (b & m)
  {}

  lemma OrMask(a: bv64, b: bv64, m: bv64)
    requires OneHot(m)
    ensures (And(Or(a, b), m) != 0) == (And(a, m) != 0 || And(b, m) != 0)
  {
    Masked(a, m);
    Masked(b, m);
    OrDistributes(a, b, m);
  }

  lemma XorDistributes(a: bv64, b: bv64, m: bv64)
    ensures (a ^ b) & m == (a & m) ^ (b & m)
  {}

  lemma XorMask(a: bv64, b: bv64, m: bv64)
    requires OneHot(m)
    ensures (And(Xor(a, b), m) != 0) == ((And(a, m) != 0) != (And(b, m) != 0))
  {
    Masked(a, m);
    Masked(b, m);
    XorDistributes(a, b, m);
  }

  lemma NotMask(a: bv64, m: bv64)
    requires OneHot(m)
    ensures (And(Not(a), m) != 0) == (And(a, m) == 0)
  {
    Masked(a, m);
    assert (!a) & m == m ^ (a & m);
  }

  lemma SelfMask(m: bv64)
    ensures And(m, m) == m && And(MAX, m) == m && And(0, m) == 0
  {}

  lemma JoinMasks(w: bv64, m: bv64)
    requires And(w, Dec(m)) == 0 && And(w, m) == 0
    ensures And(w, Or(Dec(m), m)) == 0
  {}

  lemma TopWord(w: bv64)
    requires And(w, Dec(TOP)) == 0 && And(w, TOP) == 0
    ensures w == 0
  {}

  lemma XorZero(a: bv64, b: bv64)
    requires Xor(a, b) == 0
    ensures a == b
  {}

  lemma ClearLowestWord(w: bv64, m: bv64)
    requires m & (m - 1) == 0 && w & m != 0 && w & (m - 1) == 0
    ensures w & (w - 1) == w & !m
  {}

  lemma ClearLowest(w: bv64, m: bv64)
    requires OneHot(m) && And(w, m) != 0 && And(w, Dec(m)) == 0
    ensures And(w, Dec(w)) == And(w, Not(m))
  {
    ClearLowestWord(w, m);
  }

  lemma LtTransitive(a: bv64, b: bv64, c: bv64)
    requires Lt(a, b) && Lt(b, c)
    ensures Lt(a, c)
  {}

  lemma TwiceZero()
    ensures Twice(0) == 0 && Not(Dec(1)) == MAX && OneHot(1)
  {}

  function Seven(w: bv64): bv64 { w << 7 }

  function Sevens(i: nat): bv64 {
    if i == 0 then 1 else Seven(Sevens(i - 1))
  }

  lemma Twice7(w: bv64)
    ensures Twice(Twice(Twice(Twice(Twice(Twice(Twice(w))))))) == Seven(w)
  {}

  lemma Shl7(w: bv64, s: nat)
    ensures Shl(w, s + 7) == Seven(Shl(w, s))
  {
    hide Twice, Seven;
    assert Shl(w, s + 2) == Twice(Twice(Shl(w, s)));
    assert Shl(w, s + 4) == Twice(Twice(Shl(w, s + 2)));
    assert Shl(w, s + 6) == Twice(Twice(Shl(w, s + 4)));
    Twice7(Shl(w, s));
  }

  lemma NineSevens()
    ensures Sevens(9) == TOP
  {}

  lemma TopMask()
    ensures One(63) == TOP
  {
    hide Twice, Seven;
    for i: nat := 0 to 9
      invariant Shl(1, 7 * i) == Sevens(i)
    {
      Shl7(1, 7 * i);
    }
    NineSevens();
  }

  // ----- masks, by slot -----

  lemma {:induction false} OneNonzero(i: nat)
    requires i < 64
    ensures One(i) != 0
    decreases 63 - i
  {
    if i == 63 {
      TopMask();
    } else {
      hide Twice;
      OneNonzero(i + 1);
      TwiceZero();
    }
  }

  lemma {:induction false} OneIsOneHot(i: nat)
    requires i < 64
    ensures OneHot(One(i))
    ensures Shl(MAX, i) == Not(Dec(One(i)))
    ensures i > 0 ==> Lt(One(i - 1), One(i)) && Dec(One(i)) == Or(Dec(One(i - 1)), One(i - 1))
  {
    hide Twice, OneHot, Not, Dec, Or, And, Lt;
    if i > 0 {
      OneIsOneHot(i - 1);
      OneNonzero(i);
      DoubleOneHot(One(i - 1));
    } else {
      TwiceZero();
    }
  }

  lemma {:induction false} OneIncreases(i: nat, j: nat)
    requires i < j < 64
    ensures Lt(One(i), One(j))
  {
    hide *;
    OneIsOneHot(j);
    if i < j - 1 {
      OneIncreases(i, j - 1);
      LtTransitive(One(i), One(j - 1), One(j));
    }
  }

  // ----- one slot against the word operations -----

  lemma BitAnd(a: bv64, b: bv64, i: nat)
    requires i < 64
    ensures Bit(And(a, b), i) == (Bit(a, i) && Bit(b, i))
  {
    hide And, One, OneHot;
    OneIsOneHot(i);
    AndMask(a, b, One(i));
  }

  lemma BitOr(a: bv64, b: bv64, i: nat)
    requires i < 64
    ensures Bit(Or(a, b), i) == (Bit(a, i) || Bit(b, i))
  {
    hide And, Or, One, OneHot;
    OneIsOneHot(i);
    OrMask(a, b, One(i));
  }

  lemma BitXor(a: bv64, b: bv64, i: nat)
    requires i < 64
    ensures Bit(Xor(a, b), i) == (Bit(a, i) != Bit(b, i))
  {
    hide And, Xor, One, OneHot;
    OneIsOneHot(i);
    XorMask(a, b, One(i));
  }

  lemma BitNot(a: bv64, i: nat)
    requires i < 64
    ensures Bit(Not(a), i) == !Bit(a, i)
  {
    hide And, Not, One, OneHot;
    OneIsOneHot(i);
    NotMask(a, One(i));
  }

  lemma BitConstants(i: nat)
    requires i < 64
    ensures Bit(MAX, i) && !Bit(0, i)
  {
    hide And, One;
    OneNonzero(i);
    SelfMask(One(i));
  }

  lemma BitOne(j: nat, i: nat)
    requires i < 64 && j < 64
    ensures Bit(One(j), i) == (i == j)
  {
    hide And, Dec, One, OneHot, Lt;
    OneIsOneHot(i);
    OneIsOneHot(j);
    if i < j {
      OneIncreases(i, j);
      SmallerMask(One(i), One(j));
    } else if j < i {
      OneIncreases(j, i);
      SmallerMask(One(j), One(i));
    } else {
      OneNonzero(i);
      SelfMask(One(i));
    }
  }

  /** The mask `(1u64 << e) - 1` holds exactly the slots below `e`. */
  lemma BitBelow(e: nat, i: nat)
    requires e < 64 && i < 64
    ensures Bit(Dec(One(e)), i) == (i < e)
  {
    hide And, Dec, One, OneHot, Lt;
    OneIsOneHot(i);
    OneIsOneHot(e);
    OneNonzero(i);
    if i < e {
      OneIncreases(i, e);
      SmallerMask(One(i), One(e));
    } else {
      if e < i {
        OneIncreases(e, i);
      }
      LargerMask(One(i), One(e));
    }
  }

  /** The mask `u64::MAX << s` holds exactly the slots at or past `s`. */
  lemma BitFrom(s: nat, i: nat)
    requires s < 64 && i < 64
    ensures Bit(Shl(MAX, s), i) == (s <= i)
  {
    hide *;
    OneIsOneHot(s);
    BitNot(Dec(One(s)), i);
    BitBelow(s, i);
  }

  // ----- whole words -----

  ghost predicate ClearBelow(w: bv64, n: nat) {
    forall i {:trigger Bit(w, i)} :: 0 <= i < n ==> !Bit(w, i)
  }

  lemma {:induction false} LowClear(w: bv64, n: nat)
    requires n < 64 && ClearBelow(w, n)
    ensures And(w, Dec(One(n))) == 0
  {
    hide Or, Dec, One, OneHot, And;
    if n > 0 {
      LowClear(w, n - 1);
      assert !Bit(w, n - 1);
      OneIsOneHot(n);
      JoinMasks(w, One(n - 1));
    } else {
      LowClearBase(w);
    }
  }

  lemma LowClearBase(w: bv64)
    ensures And(w, Dec(One(0))) == 0
  {}

  /** A word with no slot set is zero. */
  lemma NoSlotIsZero(w: bv64)
    requires ClearBelow(w, 64)
    ensures w == 0
  {
    hide And, Dec, One;
    LowClear(w, 63);
    assert !Bit(w, 63);
    TopMask();
    TopWord(w);
  }

  ghost predicate SameSlots(a: bv64, b: bv64) {
    forall i {:trigger Bit(a, i)} {:trigger Bit(b, i)} :: 0 <= i < 64 ==> Bit(a, i) == Bit(b, i)
  }

  /** Words with the same slots are the same word. */
  lemma SameSlotsSameWord(a: bv64, b: bv64)
    requires SameSlots(a, b)
    ensures a == b
  {
    hide Bit, Xor;
    forall i | 0 <= i < 64
      ensures !Bit(Xor(a, b), i)
    {
      BitXor(a, b, i);
    }
    NoSlotIsZero(Xor(a, b));
    XorZero(a, b);
  }

  // ----- trailing zeros and dropping the lowest slot -----

  ghost predicate LowestSlot(w: bv64, t: nat) {
    t < 64 && Bit(w, t) && ClearBelow(w, t)
  }

  /** `u64::trailing_zeros` of a non-zero word. */
  method TrailingZeros(w: bv64) returns (t: nat)
    requires w != 0
    ensures LowestSlot(w, t)
  {
    hide Bit;
    t := 0;
    while t < 64 && !Bit(w, t)
      invariant t <= 64
      invariant ClearBelow(w, t)
    {
      t := t + 1;
    }
    if t == 64 {
      NoSlotIsZero(w);
      assert false;
    }
  }

  /** `held &= held - 1` drops exactly the lowest slot. */
  lemma DropLowest(w: bv64, t: nat, i: nat)
    requires LowestSlot(w, t) && i < 64
    ensures Bit(And(w, Dec(w)), i) == (Bit(w, i) && i != t)
  {
    hide And, Dec, Not, One, OneHot;
    LowClear(w, t);
    OneIsOneHot(t);
    ClearLowest(w, One(t));
    BitAnd(w, Not(One(t)), i);
    BitNot(One(t), i);
    BitOne(t, i);
  }
}
