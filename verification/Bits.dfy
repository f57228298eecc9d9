/** The slot bitmap of src/boolean_bits.rs: one bit per slot below `len`,
    packed 64 to a word, with every bit at or past `len` clear. Each method is
    proved against the set of slots the words hold. */
module Bitmaps {
  import opened WordBits

  // ----- words as a set of slots -----

  function WordCount(len: nat): nat {
    (len + 63) / 64
  }

  predicate Holds(words: seq<bv64>, s: nat) {
    s / 64 < |words| && Bit(words[s / 64], s % 64)
  }

  ghost function SlotSet(words: seq<bv64>, len: nat): set<nat> {
    set s | 0 <= s < len && Holds(words, s)
  }

  predicate IsSlot(s: int, len: nat) {
    0 <= s < len
  }

  /** Every slot below `len`. */
  function Universe(len: nat): set<nat> {
    set s {:trigger IsSlot(s, len)} | 0 <= s < len && IsSlot(s, len)
  }

  ghost predicate TailClear(words: seq<bv64>, len: nat) {
    forall s {:trigger Holds(words, s)} :: len <= s ==> !Holds(words, s)
  }

  ghost predicate WellFormed(words: seq<bv64>, len: nat) {
    |words| == WordCount(len) && TailClear(words, len)
  }

  lemma WordSlot(words: seq<bv64>, k: nat, i: nat)
    requires k < |words| && i < 64
    ensures Holds(words, 64 * k + i) == Bit(words[k], i)
  {}

  /** The derived equality of the source is equality of slot sets. */
  lemma SameSlotsSameWords(a: seq<bv64>, b: seq<bv64>, len: nat)
    requires WellFormed(a, len) && WellFormed(b, len)
    requires SlotSet(a, len) == SlotSet(b, len)
    ensures a == b
  {
    hide Bit;
    forall k | 0 <= k < |a|
      ensures a[k] == b[k]
    {
      forall i | 0 <= i < 64
        ensures Bit(a[k], i) == Bit(b[k], i)
      {
        var s := 64 * k + i;
        WordSlot(a, k, i);
        WordSlot(b, k, i);
        assert s in SlotSet(a, len) <==> s in SlotSet(b, len);
      }
      SameSlotsSameWord(a[k], b[k]);
    }
  }

  // ----- word-wise operations, slot by slot -----

  lemma AndWords(a: seq<bv64>, b: seq<bv64>, c: seq<bv64>, len: nat)
    requires |a| == |b| == |c| && forall k :: 0 <= k < |c| ==> c[k] == And(a[k], b[k])
    ensures SlotSet(c, len) == SlotSet(a, len) * SlotSet(b, len)
    ensures TailClear(a, len) ==> TailClear(c, len)
  {
    hide Bit, And;
    forall s: nat | s / 64 < |c|
      ensures Holds(c, s) == (Holds(a, s) && Holds(b, s))
    {
      BitAnd(a[s / 64], b[s / 64], s % 64);
    }
  }

  lemma OrWords(a: seq<bv64>, b: seq<bv64>, c: seq<bv64>, len: nat)
    requires |a| == |b| == |c| && forall k :: 0 <= k < |c| ==> c[k] == Or(a[k], b[k])
    ensures SlotSet(c, len) == SlotSet(a, len) + SlotSet(b, len)
    ensures TailClear(a, len) && TailClear(b, len) ==> TailClear(c, len)
  {
    hide Bit, Or;
    forall s: nat | s / 64 < |c|
      ensures Holds(c, s) == (Holds(a, s) || Holds(b, s))
    {
      BitOr(a[s / 64], b[s / 64], s % 64);
    }
  }

  lemma AndNotWords(a: seq<bv64>, b: seq<bv64>, c: seq<bv64>, len: nat)
    requires |a| == |c| && |b| <= |a|
    requires forall k :: 0 <= k < |b| ==> c[k] == And(a[k], Not(b[k]))
    requires c[|b|..] == a[|b|..]
    ensures SlotSet(c, len) == SlotSet(a, len) - SlotSet(b, len)
    ensures TailClear(a, len) ==> TailClear(c, len)
  {
    hide Bit, And, Not;
    forall s: nat | s / 64 < |c|
      ensures Holds(c, s) == (Holds(a, s) && !Holds(b, s))
    {
      var k := s / 64;
      if k < |b| {
        BitAnd(a[k], Not(b[k]), s % 64);
        BitNot(b[k], s % 64);
      } else {
        assert c[k] == c[|b|..][k - |b|] == a[|b|..][k - |b|] == a[k];
      }
    }
  }

  lemma ConstantWords(words: seq<bv64>, w: bv64, len: nat)
    requires |words| == WordCount(len) && forall k :: 0 <= k < |words| ==> words[k] == w
    ensures w == 0 ==> SlotSet(words, len) == {} && TailClear(words, len)
    ensures w == MAX ==> SlotSet(words, len) == Universe(len)
  {
    hide Bit;
    forall s: nat | s / 64 < |words|
      ensures w == 0 ==> !Holds(words, s)
      ensures w == MAX ==> Holds(words, s)
    {
      BitConstants(s % 64);
    }
  }

  lemma SetSlot(a: seq<bv64>, c: seq<bv64>, slot: nat)
    requires |a| == |c| && slot / 64 < |a|
    requires c == a[slot / 64 := Or(a[slot / 64], One(slot % 64))]
    ensures forall s: nat {:trigger Holds(c, s)} :: Holds(c, s) == (Holds(a, s) || s == slot)
  {
    hide Bit, Or, One;
    forall s: nat | s / 64 < |c|
      ensures Holds(c, s) == (Holds(a, s) || s == slot)
    {
      if s / 64 == slot / 64 {
        BitOr(a[slot / 64], One(slot % 64), s % 64);
        BitOne(slot % 64, s % 64);
      }
    }
  }

  lemma ClearSlot(a: seq<bv64>, c: seq<bv64>, slot: nat)
    requires |a| == |c| && slot / 64 < |a|
    requires c == a[slot / 64 := And(a[slot / 64], Not(One(slot % 64)))]
    ensures forall s: nat {:trigger Holds(c, s)} :: Holds(c, s) == (Holds(a, s) && s != slot)
  {
    hide Bit, And, Not, One;
    forall s: nat | s / 64 < |c|
      ensures Holds(c, s) == (Holds(a, s) && s != slot)
    {
      if s / 64 == slot / 64 {
        BitAnd(a[slot / 64], Not(One(slot % 64)), s % 64);
        BitNot(One(slot % 64), s % 64);
        BitOne(slot % 64, s % 64);
      }
    }
  }

  lemma TrimWords(a: seq<bv64>, c: seq<bv64>, len: nat)
    requires |a| == WordCount(len)
    requires c == if len % 64 == 0 then a
                  else a[|a| - 1 := And(a[|a| - 1], Dec(One(len % 64)))]
    ensures WellFormed(c, len)
    ensures SlotSet(c, len) == SlotSet(a, len)
  {
    hide Bit, And, Dec, One;
    forall s: nat | s / 64 < |c|
      ensures Holds(c, s) == (Holds(a, s) && s < len)
    {
      if len % 64 != 0 && s / 64 == |a| - 1 {
        BitAnd(a[|a| - 1], Dec(One(len % 64)), s % 64);
        BitBelow(len % 64, s % 64);
      }
    }
  }

  // ----- ascending enumeration -----

  /** The members of `slots` in `[lo, hi)`, ascending. */
  ghost function Ascending(slots: set<nat>, lo: nat, hi: nat): seq<nat> {
    if hi <= lo then []
    else Ascending(slots, lo, hi - 1) + if hi - 1 in slots then [hi - 1] else []
  }

  ghost predicate StrictlyAscending(xs: seq<nat>) {
    forall i, j :: 0 <= i < j < |xs| ==> xs[i] < xs[j]
  }

  lemma {:induction false} AscendingExact(slots: set<nat>, lo: nat, hi: nat)
    ensures StrictlyAscending(Ascending(slots, lo, hi))
    ensures forall x :: x in Ascending(slots, lo, hi) <==> x in slots && lo <= x < hi
  {
    if lo < hi {
      AscendingExact(slots, lo, hi - 1);
      var init := Ascending(slots, lo, hi - 1);
      if hi - 1 in slots {
        hide Ascending;
        AscendingStep(slots, lo, hi);
        ListsMore(init, slots, lo, hi);
      }
    }
  }

  lemma ListsMore(init: seq<nat>, slots: set<nat>, lo: nat, hi: nat)
    requires lo < hi && hi - 1 in slots && Lists(init, slots, lo, hi - 1)
    ensures Lists(init + [hi - 1], slots, lo, hi)
  {
    var xs := init + [hi - 1];
    forall i, j | 0 <= i < j < |xs| ensures xs[i] < xs[j] {
      assert xs[i] in init;
    }
    forall x ensures x in xs <==> x in slots && lo <= x < hi {
      assert x in xs <==> x in init || x == hi - 1;
    }
  }

  lemma HeadIsMember(xs: seq<nat>)
    ensures |xs| > 0 ==> xs[0] in xs
  {}

  lemma AscendingStep(slots: set<nat>, lo: nat, hi: nat)
    requires lo < hi && hi - 1 in slots
    ensures Ascending(slots, lo, hi) == Ascending(slots, lo, hi - 1) + [hi - 1]
  {}

  /** What `xs` lists: the slots in `[lo, hi)`. */
  ghost predicate Lists(xs: seq<nat>, slots: set<nat>, lo: nat, hi: nat) {
    StrictlyAscending(xs) && forall x :: x in xs <==> x in slots && lo <= x < hi
  }

  /** The largest member comes last. */
  lemma AscendingInit(slots: set<nat>, lo: nat, hi: nat, xs: seq<nat>) returns (init: seq<nat>)
    requires lo < hi && hi - 1 in slots && Lists(xs, slots, lo, hi)
    ensures xs == init + [hi - 1] && Lists(init, slots, lo, hi - 1)
  {
    var n := |xs| - 1;
    LastIsTop(slots, lo, hi, xs);
    init := xs[..n];
    assert xs == init + [hi - 1];
    forall x ensures x in init <==> x in slots && lo <= x < hi - 1 {
      if x in init {
        var i :| 0 <= i < n && init[i] == x;
        assert xs[i] in xs && xs[i] < xs[n];
      }
      if x in slots && lo <= x < hi - 1 {
        assert x in xs;
      }
    }
  }

  lemma LastIsTop(slots: set<nat>, lo: nat, hi: nat, xs: seq<nat>)
    requires lo < hi && hi - 1 in slots && Lists(xs, slots, lo, hi)
    ensures xs != [] && xs[|xs| - 1] == hi - 1
  {
    assert hi - 1 in xs;
    var p :| 0 <= p < |xs| && xs[p] == hi - 1;
    assert xs[|xs| - 1] in xs;
  }

  /** A strictly ascending list is determined by its members. */
  lemma {:induction false} AscendingUnique(slots: set<nat>, lo: nat, hi: nat, xs: seq<nat>)
    requires Lists(xs, slots, lo, hi)
    ensures xs == Ascending(slots, lo, hi)
  {
    if hi <= lo {
      HeadIsMember(xs);
    } else if hi - 1 in slots {
      hide Ascending, Lists;
      var init := AscendingInit(slots, lo, hi, xs);
      AscendingUnique(slots, lo, hi - 1, init);
      AscendingStep(slots, lo, hi);
    } else {
      AscendingUnique(slots, lo, hi - 1, xs);
    }
  }

  /** Adjacent ranges concatenate. */
  lemma {:induction false} AscendingJoin(slots: set<nat>, a: nat, b: nat, c: nat)
    requires a <= b <= c
    ensures Ascending(slots, a, b) + Ascending(slots, b, c) == Ascending(slots, a, c)
  {
    if b < c {
      AscendingJoin(slots, a, b, c - 1);
    }
  }

  lemma {:induction false} AscendingGap(slots: set<nat>, lo: nat, a: nat, b: nat)
    requires lo <= a <= b && forall s :: a <= s < b ==> s !in slots
    ensures Ascending(slots, lo, b) == Ascending(slots, lo, a)
  {
    if a < b {
      AscendingGap(slots, lo, a, b - 1);
    }
  }

  lemma {:induction false} AscendingSize(slots: set<nat>, hi: nat)
    requires forall s :: s in slots ==> s < hi
    ensures |Ascending(slots, 0, hi)| == |slots|
  {
    if hi > 0 {
      var rest := slots - {hi - 1};
      assert slots == if hi - 1 in slots then rest + {hi - 1} else rest;
      AscendingSize(rest, hi - 1);
      AscendingAgree(slots, rest, 0, hi - 1);
    }
  }

  lemma {:induction false} AscendingAgree(a: set<nat>, b: set<nat>, lo: nat, hi: nat)
    requires forall s :: lo <= s < hi ==> (s in a <==> s in b)
    ensures Ascending(a, lo, hi) == Ascending(b, lo, hi)
  {
    if lo < hi {
      AscendingAgree(a, b, lo, hi - 1);
    }
  }

  /** `u64::count_ones`, as the number of set slots below `n`. */
  function Ones(w: bv64, n: nat): nat {
    if n == 0 then 0 else Ones(w, n - 1) + if Bit(w, n - 1) then 1 else 0
  }

  lemma {:induction false} OnesCount(words: seq<bv64>, slots: set<nat>, k: nat, n: nat)
    requires k < |words| && n <= 64
    requires forall s: nat {:trigger Holds(words, s)} :: s in slots <==> Holds(words, s)
    ensures |Ascending(slots, 64 * k, 64 * k + n)| == Ones(words[k], n)
  {
    hide Bit;
    if n > 0 {
      OnesCount(words, slots, k, n - 1);
      WordSlot(words, k, n - 1);
    }
  }

  /** The word mask of `iter_range` for word `wi`. */
  function MaskFor(start: nat, end: nat, lastWord: nat, wi: nat): bv64 {
    var low := if wi == start / 64 then And(MAX, Shl(MAX, start % 64)) else MAX;
    if wi == lastWord && end % 64 != 0 then And(low, Dec(One(end % 64))) else low
  }

  lemma MaskForSlots(start: nat, end: nat, wi: nat, i: nat)
    requires start < end && start / 64 <= wi <= (end - 1) / 64 && i < 64
    ensures Bit(MaskFor(start, end, (end - 1) / 64, wi), i) <==> start <= 64 * wi + i < end
  {
    hide Bit, And, Dec, One, Shl;
    BitConstants(i);
    BitFrom(start % 64, i);
    BitAnd(MAX, Shl(MAX, start % 64), i);
    BitBelow(end % 64, i);
    BitAnd(if wi == start / 64 then And(MAX, Shl(MAX, start % 64)) else MAX, Dec(One(end % 64)), i);
  }

  /** `held` is what remains of word `wi` at or past `front`, below `end`. */
  ghost predicate Pending(words: seq<bv64>, wi: nat, held: bv64, front: nat, end: nat) {
    forall i {:trigger Bit(held, i)} :: 0 <= i < 64 ==>
      (Bit(held, i) <==> front <= 64 * wi + i < end && Holds(words, 64 * wi + i))
  }

  lemma WordPending(words: seq<bv64>, wi: nat)
    requires wi < |words|
    ensures Pending(words, wi, words[wi], 64 * wi, 64 * |words|)
  {}

  lemma MaskedPending(words: seq<bv64>, start: nat, end: nat, wi: nat)
    requires start < end <= 64 * |words| && start / 64 <= wi <= (end - 1) / 64
    ensures Pending(words, wi, And(words[wi], MaskFor(start, end, (end - 1) / 64, wi)),
                    if start < 64 * wi then 64 * wi else start, end)
  {
    hide Bit, And, MaskFor;
    var mask := MaskFor(start, end, (end - 1) / 64, wi);
    forall i | 0 <= i < 64
      ensures Bit(And(words[wi], mask), i) <==> start <= 64 * wi + i < end && Holds(words, 64 * wi + i)
    {
      BitAnd(words[wi], mask, i);
      MaskForSlots(start, end, wi, i);
      WordSlot(words, wi, i);
    }
  }

  lemma PendingStep(words: seq<bv64>, wi: nat, held: bv64, front: nat, end: nat, t: nat)
    requires Pending(words, wi, held, front, end) && LowestSlot(held, t)
    ensures front <= 64 * wi + t < end && Holds(words, 64 * wi + t)
    ensures forall s {:trigger Holds(words, s)} :: front <= s < 64 * wi + t && 64 * wi <= s ==> !Holds(words, s)
    ensures Pending(words, wi, And(held, Dec(held)), 64 * wi + t + 1, end)
  {
    hide Bit, And, Dec;
    forall s | front <= s < 64 * wi + t && 64 * wi <= s
      ensures !Holds(words, s)
    {
      assert !Bit(held, s - 64 * wi);
    }
    forall i | 0 <= i < 64
      ensures Bit(And(held, Dec(held)), i) <==> 64 * wi + t < 64 * wi + i < end && Holds(words, 64 * wi + i)
    {
      DropLowest(held, t, i);
    }
  }

  /** Yielding the lowest held slot extends the enumeration by that slot. */
  lemma Yield(words: seq<bv64>, len: nat, lo: nat, wi: nat, held: bv64, front: nat, end: nat, t: nat)
    requires WellFormed(words, len) && Pending(words, wi, held, front, end) && LowestSlot(held, t)
    requires lo <= front && 64 * wi <= front
    ensures t < 64 && front <= 64 * wi + t < end
    ensures Pending(words, wi, And(held, Dec(held)), 64 * wi + t + 1, end)
    ensures Ascending(SlotSet(words, len), lo, 64 * wi + t + 1)
         == Ascending(SlotSet(words, len), lo, front) + [64 * wi + t]
  {
    hide Bit, And, Dec, Pending;
    PendingStep(words, wi, held, front, end, t);
    var slots, slot := SlotSet(words, len), 64 * wi + t;
    assert slot in slots;
    assert forall s :: front <= s < slot ==> s !in slots;
    AscendingGap(slots, lo, front, slot);
  }

  lemma NothingHeld(words: seq<bv64>, wi: nat, front: nat, end: nat, s: nat)
    requires Pending(words, wi, 0, front, end) && 64 * wi <= s < 64 * wi + 64 && front <= s < end
    ensures !Holds(words, s)
  {
    hide Bit, Holds;
    var i := s - 64 * wi;
    BitConstants(i);
    assert s == 64 * wi + i;
  }

  /** A word with nothing held has nothing left to yield. */
  lemma Exhausted(words: seq<bv64>, len: nat, lo: nat, wi: nat, front: nat, end: nat, next: nat)
    requires WellFormed(words, len) && Pending(words, wi, 0, front, end)
    requires lo <= front <= next <= end && 64 * wi <= front && next <= 64 * wi + 64
    ensures Ascending(SlotSet(words, len), lo, next) == Ascending(SlotSet(words, len), lo, front)
  {
    hide Bit, Holds, Pending;
    forall s | front <= s < next ensures s !in SlotSet(words, len) {
      NothingHeld(words, wi, front, end, s);
    }
    AscendingGap(SlotSet(words, len), lo, front, next);
  }

  /** Nothing is listed at or past the length. */
  lemma PastLength(words: seq<bv64>, len: nat)
    requires WellFormed(words, len)
    ensures Ascending(SlotSet(words, len), 0, 64 * |words|) == Ascending(SlotSet(words, len), 0, len)
    ensures Ascending(SlotSet(words, len), 0, 0) == []
  {
    hide Bit, Holds;
    AscendingGap(SlotSet(words, len), 0, len, 64 * |words|);
  }

  // ----- the bitmap -----

  class Bits {
    const words: array<bv64>
    const len: nat

    ghost predicate Valid()
      reads words
    {
      WellFormed(words[..], len)
    }

    /** The slots the bitmap holds. */
    ghost function Slots(): set<nat>
      reads words
    {
      SlotSet(words[..], len)
    }

    constructor Empty(n: nat)
      ensures Valid() && fresh(words) && len == n
      ensures Slots() == {}
    {
      len := n;
      words := new bv64[WordCount(n)](_ => 0);
      new;
      ConstantWords(words[..], 0, len);
    }

    constructor Full(n: nat)
      ensures Valid() && fresh(words) && len == n
      ensures Slots() == Universe(n)
    {
      len := n;
      words := new bv64[WordCount(n)](_ => MAX);
      new;
      ConstantWords(words[..], MAX, len);
      Trim();
    }

    /** The derived `clone`. */
    constructor Clone(other: Bits)
      requires other.Valid()
      ensures Valid() && fresh(words) && len == other.len
      ensures words[..] == other.words[..]
    {
      len := other.len;
      words := new bv64[other.words.Length](i requires 0 <= i < other.words.Length reads other.words => other.words[i]);
      new;
      assert words[..] == other.words[..];
    }

    method Trim()
      requires words.Length == WordCount(len)
      modifies words
      ensures Valid()
      ensures Slots() == old(Slots())
    {
      hide Bit, And, Dec, One;
      ghost var before := words[..];
      var used := len % 64;
      if used != 0 {
        if words.Length > 0 {
          var last := words.Length - 1;
          words[last] := And(words[last], Dec(One(used)));
        }
      }
      TrimWords(before, words[..], len);
    }

    predicate Test(slot: nat)
      requires Valid()
      reads words
      ensures Test(slot) <==> slot in Slots()
    {
      hide Bit, And, One;
      slot < len && Bit(words[slot / 64], slot % 64)
    }

    method Set(slot: nat)
      requires Valid() && slot < len
      modifies words
      ensures Valid()
      ensures Slots() == old(Slots()) + {slot}
    {
      hide Bit, Or, One;
      ghost var before := words[..];
      words[slot / 64] := Or(words[slot / 64], One(slot % 64));
      SetSlot(before, words[..], slot);
    }

    method Clear(slot: nat)
      requires Valid() && slot < len
      modifies words
      ensures Valid()
      ensures Slots() == old(Slots()) - {slot}
    {
      hide Bit, And, Not, One;
      ghost var before := words[..];
      words[slot / 64] := And(words[slot / 64], Not(One(slot % 64)));
      ClearSlot(before, words[..], slot);
    }

    method AndWith(other: Bits)
      requires Valid() && other.Valid() && len == other.len && words != other.words
      modifies words
      ensures Valid()
      ensures Slots() == old(Slots()) * other.Slots()
    {
      hide Bit, And;
      ghost var before := words[..];
      for k := 0 to words.Length
        invariant forall j :: 0 <= j < k ==> words[j] == And(before[j], other.words[j])
        invariant words[k..] == before[k..]
      {
        words[k] := And(words[k], other.words[k]);
      }
      AndWords(before, other.words[..], words[..], len);
    }

    method OrWith(other: Bits)
      requires Valid() && other.Valid() && len == other.len && words != other.words
      modifies words
      ensures Valid()
      ensures Slots() == old(Slots()) + other.Slots()
    {
      hide Bit, Or;
      ghost var before := words[..];
      for k := 0 to words.Length
        invariant forall j :: 0 <= j < k ==> words[j] == Or(before[j], other.words[j])
        invariant words[k..] == before[k..]
      {
        words[k] := Or(words[k], other.words[k]);
      }
      OrWords(before, other.words[..], words[..], len);
    }

    method AndNot(other: Bits)
      requires Valid() && other.Valid() && len == other.len && words != other.words
      modifies words
      ensures Valid()
      ensures Slots() == old(Slots()) - other.Slots()
    {
      hide Bit, And, Not;
      ghost var before := words[..];
      for k := 0 to words.Length
        invariant forall j :: 0 <= j < k ==> words[j] == And(before[j], Not(other.words[j]))
        invariant words[k..] == before[k..]
      {
        words[k] := And(words[k], Not(other.words[k]));
      }
      AndNotWords(before, other.words[..], words[..], len);
    }

    method ClearAll()
      requires Valid()
      modifies words
      ensures Valid()
      ensures Slots() == {}
    {
      for k := 0 to words.Length
        invariant forall j :: 0 <= j < k ==> words[j] == 0
      {
        words[k] := 0;
      }
      ConstantWords(words[..], 0, len);
    }

    // ----- derived constructors -----

    constructor Prefix(n: nat, rows: nat)
      ensures Valid() && fresh(words) && len == n
      ensures Slots() == set s | s in Universe(n) && s < rows
    {
      len := n;
      words := new bv64[WordCount(n)](_ => MAX);
      new;
      ConstantWords(words[..], MAX, len);
      Trim();
      var from := if rows < n then rows else n;
      for slot := from to n
        invariant Valid()
        invariant Slots() == set s | s in Universe(n) && (s < from || slot <= s)
      {
        Clear(slot);
      }
    }

    method SetRange(from: nat, to_: nat)
      requires Valid() && from <= to_ <= len
      modifies words
      ensures Valid() && Slots() == old(Slots()) + Between(len, from, to_)
    {
      for slot := from to to_
        invariant Valid() && Slots() == old(Slots()) + Between(len, from, slot)
      {
        Set(slot);
      }
    }

    /** The slots inside some `(base, rows)` range, within `n`; the source
        saturates `base + rows` at the word size, which no slot reaches. */
    constructor Ranges(n: nat, ranges: seq<(nat, nat)>)
      ensures Valid() && fresh(words) && len == n
      ensures Slots() == InRanges(n, ranges)
    {
      len := n;
      words := new bv64[WordCount(n)](_ => 0);
      new;
      ConstantWords(words[..], 0, len);
      for r := 0 to |ranges|
        invariant Valid()
        invariant Slots() == InRanges(n, ranges[..r])
      {
        var (base, rows) := ranges[r];
        var from, to_ := if base < n then base else n, if base + rows < n then base + rows else n;
        SetRange(from, to_);
        RangeStep(n, ranges, r, from, to_);
      }
      assert ranges[..|ranges|] == ranges;
    }

    constructor FromBools(allow: seq<bool>)
      ensures Valid() && fresh(words) && len == |allow|
      ensures Slots() == set s | s in Universe(|allow|) && allow[s]
    {
      len := |allow|;
      words := new bv64[WordCount(|allow|)](_ => 0);
      new;
      ConstantWords(words[..], 0, len);
      for slot := 0 to |allow|
        invariant Valid()
        invariant Slots() == set s | s in Universe(|allow|) && s < slot && allow[s]
      {
        if allow[slot] {
          Set(slot);
        }
      }
    }

    /** From tombstone words, which may be shorter or longer than the bitmap. */
    constructor Live(deleted: seq<bv64>, n: nat)
      ensures Valid() && fresh(words) && len == n
      ensures Slots() == Universe(n) - SlotSet(deleted, n)
    {
      hide Bit, And, Not;
      len := n;
      words := new bv64[WordCount(n)](_ => MAX);
      new;
      ConstantWords(words[..], MAX, len);
      Trim();
      ghost var before := words[..];
      var zip := if |deleted| < words.Length then |deleted| else words.Length;
      for k := 0 to zip
        invariant forall j :: 0 <= j < k ==> words[j] == And(before[j], Not(deleted[j]))
        invariant words[k..] == before[k..]
      {
        words[k] := And(words[k], Not(deleted[k]));
      }
      AndNotWords(before, deleted[..zip], words[..], len);
      assert SlotSet(deleted[..zip], n) == SlotSet(deleted, n);
    }

    // ----- reading -----

    /** One word's slots: take the lowest bit, drop it, until none is held. */
    method WordSlots(wi: nat) returns (out: seq<nat>)
      requires Valid() && wi < words.Length
      ensures out == Ascending(Slots(), 64 * wi, 64 * wi + 64)
    {
      hide Bit, Holds, SlotSet, And, Dec, Pending, LowestSlot, TailClear;
      ghost var ws, all := words[..], Slots();
      ghost var lo, limit, front := 64 * wi, 64 * words.Length, 64 * wi;
      var held := words[wi];
      WordPending(ws, wi);
      out := [];
      while held != 0
        invariant lo <= front <= lo + 64
        invariant Pending(ws, wi, held, front, limit)
        invariant out == Ascending(all, lo, front)
        decreases lo + 64 - front
      {
        var bit := TrailingZeros(held);
        Yield(ws, len, lo, wi, held, front, limit, bit);
        held := And(held, Dec(held));
        out := out + [64 * wi + bit];
        front := 64 * wi + bit + 1;
      }
      Exhausted(ws, len, lo, wi, front, limit, lo + 64);
    }

    /** The set slots, ascending. */
    method Iter() returns (out: seq<nat>)
      requires Valid()
      ensures out == Ascending(Slots(), 0, len)
    {
      hide Bit, Holds, SlotSet, TailClear, Ascending;
      ghost var all := Slots();
      PastLength(words[..], len);
      out := [];
      for wi := 0 to words.Length
        invariant out == Ascending(all, 0, 64 * wi)
      {
        var word := WordSlots(wi);
        AscendingJoin(all, 0, 64 * wi, 64 * wi + 64);
        out := out + word;
      }
    }

    /** The set slots in `[start, end)`, ascending; `next` repeated until it
        answers none. */
    method IterRange(from: nat, to_: nat) returns (out: seq<nat>)
      requires Valid()
      ensures out == Ascending(Slots(), from, if to_ < len then to_ else len)
    {
      hide Bit, Holds, SlotSet, And, Dec, MaskFor, Pending, LowestSlot, TailClear;
      ghost var ws, all := words[..], Slots();
      var end := if to_ < len then to_ else len;
      var start := if from < end then from else end;
      var lastWord := (if end == 0 then 0 else end - 1) / 64;
      var wi := start / 64;
      var held: bv64 := 0;
      if start < end {
        held := And(words[wi], MaskFor(start, end, lastWord, wi));
        MaskedPending(ws, start, end, wi);
      }
      ghost var front := start;
      out := [];
      while held != 0 || wi < lastWord
        invariant start == end ==> held == 0 && lastWord <= wi && front == start
        invariant start < end ==> start / 64 <= wi <= lastWord
        invariant start < end ==> 64 * wi <= front <= 64 * wi + 64 && start <= front <= end
        invariant start < end ==> Pending(ws, wi, held, front, end)
        invariant out == Ascending(all, start, front)
        decreases lastWord - wi, 64 * wi + 64 - front
      {
        if held != 0 {
          var bit := TrailingZeros(held);
          Yield(ws, len, start, wi, held, front, end, bit);
          held := And(held, Dec(held));
          out := out + [64 * wi + bit];
          front := 64 * wi + bit + 1;
        } else {
          Exhausted(ws, len, start, wi, front, end, 64 * wi + 64);
          wi := wi + 1;
          assert start < 64 * wi < end;
          held := And(words[wi], MaskFor(start, end, lastWord, wi));
          MaskedPending(ws, start, end, wi);
          front := 64 * wi;
        }
      }
      if start < end {
        Exhausted(ws, len, start, wi, front, end, end);
      }
    }

    /** The number of set slots. */
    method Count() returns (total: nat)
      requires Valid()
      ensures total == |Slots()|
    {
      hide Bit, Ones;
      total := 0;
      for wi := 0 to words.Length
        invariant total == |Ascending(Slots(), 0, 64 * wi)|
      {
        total := total + Ones(words[wi], 64);
        OnesCount(words[..], Slots(), wi, 64);
        AscendingJoin(Slots(), 0, 64 * wi, 64 * wi + 64);
      }
      AscendingSize(Slots(), 64 * words.Length);
    }

    /** The per-slot admission list; the inverse of `FromBools`. */
    method ToBools() returns (allow: seq<bool>)
      requires Valid()
      ensures |allow| == len
      ensures forall s :: 0 <= s < len ==> allow[s] == (s in Slots())
    {
      allow := seq(len, s requires 0 <= s < len && Valid() reads words => Test(s));
    }
  }

  /** A list survives the way through a bitmap and back. */
  method BoolsThereAndBack(allow: seq<bool>) returns (again: seq<bool>)
    ensures again == allow
  {
    var bits := new Bits.FromBools(allow);
    again := bits.ToBools();
  }

  /** A bitmap survives the way through a list and back, word for word. */
  method BitsThereAndBack(bits: Bits) returns (again: Bits)
    requires bits.Valid()
    ensures fresh(again) && again.len == bits.len && again.words[..] == bits.words[..]
  {
    var allow := bits.ToBools();
    again := new Bits.FromBools(allow);
    SameSlotsSameWords(again.words[..], bits.words[..], bits.len);
  }

  ghost function Between(n: nat, from: nat, to_: nat): set<nat> {
    set s | s in Universe(n) && from <= s < to_
  }

  ghost function InRanges(n: nat, ranges: seq<(nat, nat)>): set<nat> {
    set s | s in Universe(n) && InSomeRange(ranges, s)
  }

  lemma RangeStep(n: nat, ranges: seq<(nat, nat)>, r: nat, from: nat, to_: nat)
    requires r < |ranges|
    requires from == if ranges[r].0 < n then ranges[r].0 else n
    requires to_ == if ranges[r].0 + ranges[r].1 < n then ranges[r].0 + ranges[r].1 else n
    ensures InRanges(n, ranges[..r + 1]) == InRanges(n, ranges[..r]) + Between(n, from, to_)
  {}

  predicate InSomeRange(ranges: seq<(nat, nat)>, s: nat) {
    exists r :: 0 <= r < |ranges| && ranges[r].0 <= s < ranges[r].0 + ranges[r].1
  }
}
