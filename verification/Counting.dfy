/** `Bits::at_least` of src/boolean_bits.rs: the slots that at least `minimum`
    of the sets hold, by the OR and AND shortcuts or by bit-sliced counters,
    one plane per binary digit of the count. */
module Counting {
  import opened WordBits
  import opened Bitmaps
  import opened Numbers

  /** How many of the sets hold the slot. */
  function Holding(sets: seq<set<nat>>, s: nat): nat {
    if sets == [] then 0
    else Holding(sets[..|sets| - 1], s) + if s in sets[|sets| - 1] then 1 else 0
  }

  lemma {:induction false} HoldingBounds(sets: seq<set<nat>>, s: nat)
    ensures Holding(sets, s) <= |sets|
    ensures Holding(sets, s) >= 1 <==> exists k :: 0 <= k < |sets| && s in sets[k]
    ensures Holding(sets, s) == |sets| <==> forall k :: 0 <= k < |sets| ==> s in sets[k]
  {
    if sets != [] {
      var init, last := sets[..|sets| - 1], sets[|sets| - 1];
      HoldingBounds(init, s);
      assert forall k :: 0 <= k < |init| ==> init[k] == sets[k];
      if s in last {
        assert s in sets[|sets| - 1];
      }
    }
  }

  // ----- binary digits -----

  /** `usize::BITS - n.leading_zeros()`. */
  function BitLength(n: nat): nat {
    if n == 0 then 0 else 1 + BitLength(n / 2)
  }

  lemma {:induction false} BitLengthCovers(n: nat)
    ensures n < Pow2(BitLength(n))
  {
    if n > 0 {
      BitLengthCovers(n / 2);
    }
  }

  function Digit(w: bv64, i: nat): nat {
    if Bit(w, i) then 1 else 0
  }

  /** The count that one column of planes, lowest digit first, encodes at slot `i`. */
  function ColumnValue(col: seq<bv64>, i: nat): nat {
    if col == [] then 0 else Digit(col[0], i) + 2 * ColumnValue(col[1..], i)
  }

  /** The ripple of one word's carry through a column of planes. */
  function RippleAdd(col: seq<bv64>, carry: bv64): (r: seq<bv64>)
    ensures |r| == |col|
  {
    if col == [] then [] else [Xor(col[0], carry)] + RippleAdd(col[1..], And(carry, col[0]))
  }

  function CarryOut(col: seq<bv64>, carry: bv64): bv64 {
    if col == [] then carry else CarryOut(col[1..], And(carry, col[0]))
  }

  lemma {:induction false} RippleAddValue(col: seq<bv64>, carry: bv64, i: nat)
    requires i < 64
    ensures ColumnValue(RippleAdd(col, carry), i) + Pow2(|col|) * Digit(CarryOut(col, carry), i)
         == ColumnValue(col, i) + Digit(carry, i)
  {
    hide Bit, Xor, And;
    if col != [] {
      RippleAddValue(col[1..], And(carry, col[0]), i);
      BitXor(col[0], carry, i);
      BitAnd(carry, col[0], i);
      var r := RippleAdd(col, carry);
      assert r[1..] == RippleAdd(col[1..], And(carry, col[0]));
    }
  }

  /** No carry is lost while the count fits the planes. */
  lemma RippleAddCounts(col: seq<bv64>, carry: bv64, i: nat)
    requires i < 64 && ColumnValue(col, i) + Digit(carry, i) < Pow2(|col|)
    ensures ColumnValue(RippleAdd(col, carry), i) == ColumnValue(col, i) + Digit(carry, i)
  {
    RippleAddValue(col, carry, i);
    assert Digit(CarryOut(col, carry), i) == 0;
  }

  lemma {:induction false} ColumnSnoc(col: seq<bv64>, w: bv64, i: nat)
    ensures ColumnValue(col + [w], i) == ColumnValue(col, i) + Pow2(|col|) * Digit(w, i)
  {
    hide Bit;
    if col == [] {
      assert [w][1..] == [];
      assert Pow2(0) == 1;
    } else {
      ColumnSnoc(col[1..], w, i);
      assert (col + [w])[1..] == col[1..] + [w];
    }
  }

  lemma {:induction false} ColumnZero(col: seq<bv64>, i: nat)
    requires i < 64 && forall p :: 0 <= p < |col| ==> col[p] == 0
    ensures ColumnValue(col, i) == 0
  {
    if col != [] {
      ColumnZero(col[1..], i);
      BitConstants(i);
    }
  }

  lemma {:induction false} RippleTail(col: seq<bv64>, carry: bv64)
    requires col != []
    ensures RippleAdd(col, carry)[0] == Xor(col[0], carry)
    ensures RippleAdd(col, carry)[1..] == RippleAdd(col[1..], And(carry, col[0]))
  {}

  // ----- the counter planes -----

  ghost function Column(counter: array2<bv64>, wi: nat): (col: seq<bv64>)
    requires wi < counter.Length1
    reads counter
    ensures |col| == counter.Length0
  {
    seq(counter.Length0, p requires 0 <= p < counter.Length0 reads counter => counter[p, wi])
  }

  /** One word of one set rippled into the planes. */
  method RippleWord(counter: array2<bv64>, wi: nat, word: bv64)
    requires wi < counter.Length1
    modifies counter
    ensures Column(counter, wi) == RippleAdd(old(Column(counter, wi)), word)
    ensures forall v :: 0 <= v < counter.Length1 && v != wi ==> Column(counter, v) == old(Column(counter, v))
  {
    hide Xor, And;
    ghost var before := Column(counter, wi);
    ghost var goal := RippleAdd(before, word);
    var carry := word;
    for p := 0 to counter.Length0
      invariant forall q :: 0 <= q < p ==> counter[q, wi] == goal[q]
      invariant forall q :: p <= q < counter.Length0 ==> counter[q, wi] == before[q]
      invariant goal[p..] == RippleAdd(before[p..], carry)
      invariant forall q, v :: 0 <= q < counter.Length0 && 0 <= v < counter.Length1 && v != wi
                  ==> counter[q, v] == old(counter[q, v])
    {
      var sum := Xor(counter[p, wi], carry);
      RippleTail(before[p..], carry);
      assert goal[p] == goal[p..][0] == sum;
      assert goal[p..][1..] == goal[p + 1..] && before[p..][1..] == before[p + 1..];
      carry := And(carry, counter[p, wi]);
      counter[p, wi] := sum;
    }
  }

  // ----- sets of bitmaps -----

  ghost predicate AllValid(sets: seq<Bits>, len: nat)
    reads set b | b in sets :: b.words
  {
    forall b {:trigger b in sets} :: b in sets ==> b.Valid() && b.len == len
  }

  ghost function Views(sets: seq<Bits>): (views: seq<set<nat>>)
    reads set b | b in sets :: b.words
    ensures |views| == |sets|
    ensures forall k :: 0 <= k < |sets| ==> views[k] == sets[k].Slots()
  {
    seq(|sets|, k requires 0 <= k < |sets| reads set b | b in sets :: b.words => sets[k].Slots())
  }

  /** The planes hold, at every slot of word `wi`, the count over `sets`. */
  ghost predicate Counts(col: seq<bv64>, sets: seq<set<nat>>, wi: nat) {
    forall i {:trigger ColumnValue(col, i)} :: 0 <= i < 64 ==> ColumnValue(col, i) == Holding(sets, 64 * wi + i)
  }

  lemma CountsStep(col: seq<bv64>, sets: seq<set<nat>>, words: seq<bv64>, len: nat, wi: nat)
    requires sets != [] && wi < |words| && WellFormed(words, len)
    requires sets[|sets| - 1] == SlotSet(words, len) && |sets| < Pow2(|col|)
    requires Counts(col, sets[..|sets| - 1], wi)
    ensures Counts(RippleAdd(col, words[wi]), sets, wi)
  {
    hide Bit, RippleAdd, ColumnValue;
    forall i | 0 <= i < 64
      ensures ColumnValue(RippleAdd(col, words[wi]), i) == Holding(sets, 64 * wi + i)
    {
      WordSlot(words, wi, i);
      HoldingBounds(sets[..|sets| - 1], 64 * wi + i);
      assert ColumnValue(col, i) == Holding(sets[..|sets| - 1], 64 * wi + i);
      RippleAddCounts(col, words[wi], i);
    }
  }

  /** One whole set added into the planes. */
  method AddSet(counter: array2<bv64>, set_: Bits, ghost earlier: seq<set<nat>>)
    requires set_.Valid() && counter.Length1 == WordCount(set_.len)
    requires |earlier| + 1 < Pow2(counter.Length0)
    requires forall wi :: 0 <= wi < counter.Length1 ==> Counts(Column(counter, wi), earlier, wi)
    modifies counter
    ensures forall wi :: 0 <= wi < counter.Length1 ==> Counts(Column(counter, wi), earlier + [set_.Slots()], wi)
  {
    hide Counts, RippleAdd;
    ghost var sets := earlier + [set_.Slots()];
    assert sets[..|sets| - 1] == earlier;
    for wi := 0 to counter.Length1
      invariant forall v :: 0 <= v < wi ==> Counts(Column(counter, v), sets, v)
      invariant forall v :: wi <= v < counter.Length1 ==> Counts(Column(counter, v), earlier, v)
    {
      CountsStep(Column(counter, wi), sets, set_.words[..], set_.len, wi);
      RippleWord(counter, wi, set_.words[wi]);
    }
  }

  /** The admitted slots of one word of planes. */
  method AdmitWord(counter: array2<bv64>, wi: nat, minimum: nat) returns (admitted: bv64)
    requires wi < counter.Length1
    ensures forall i {:trigger Bit(admitted, i)} :: 0 <= i < 64 ==>
              (Bit(admitted, i) <==> ColumnValue(Column(counter, wi), i) >= minimum)
  {
    hide Bit, Or, One;
    admitted := 0;
    ghost var col := Column(counter, wi);
    forall i | 0 <= i < 64
      ensures !Bit(admitted, i)
    {
      BitConstants(i);
    }
    for bit := 0 to 64
      invariant forall i {:trigger Bit(admitted, i)} :: 0 <= i < 64 ==>
                  (Bit(admitted, i) <==> i < bit && ColumnValue(col, i) >= minimum)
    {
      var count := 0;
      for p := 0 to counter.Length0
        invariant count == ColumnValue(col[..p], bit)
      {
        ColumnSnoc(col[..p], col[p], bit);
        assert col[..p + 1] == col[..p] + [col[p]];
        if Bit(counter[p, wi], bit) {
          count := count + Pow2(p);
        }
      }
      assert col[..counter.Length0] == col;
      if count >= minimum {
        var next := Or(admitted, One(bit));
        forall i | 0 <= i < 64
          ensures Bit(next, i) <==> Bit(admitted, i) || i == bit
        {
          BitOr(admitted, One(bit), i);
          BitOne(bit, i);
        }
        admitted := next;
      }
    }
  }

  ghost function AtLeastSlots(sets: seq<set<nat>>, minimum: nat, len: nat): set<nat> {
    set s | s in Universe(len) && Holding(sets, s) >= minimum
  }

  lemma AdmittedSlots(words: seq<bv64>, sets: seq<set<nat>>, minimum: nat, len: nat)
    requires |words| == WordCount(len)
    requires forall s: nat {:trigger Holds(words, s)} :: s / 64 < |words| ==> (Holds(words, s) <==> Holding(sets, s) >= minimum)
    ensures SlotSet(words, len) == AtLeastSlots(sets, minimum, len)
  {}

  /** The planes after every set: one column per word, counting every slot. */
  method CountSets(sets: seq<Bits>, len: nat) returns (counter: array2<bv64>)
    requires AllValid(sets, len)
    ensures fresh(counter) && counter.Length1 == WordCount(len)
    ensures forall wi :: 0 <= wi < counter.Length1 ==> Counts(Column(counter, wi), Views(sets), wi)
  {
    hide Bit, Counts, ColumnValue;
    var planes := BitLength(|sets|);
    BitLengthCovers(|sets|);
    counter := new bv64[planes, WordCount(len)]((_, _) => 0);
    ghost var views := Views(sets);
    forall wi | 0 <= wi < counter.Length1
      ensures Counts(Column(counter, wi), [], wi)
    {
      CountsStart(Column(counter, wi), wi);
    }
    for j := 0 to |sets|
      invariant Views(sets) == views && AllValid(sets, len)
      invariant forall wi :: 0 <= wi < counter.Length1 ==> Counts(Column(counter, wi), views[..j], wi)
    {
      assert sets[j] in sets;
      AddSet(counter, sets[j], views[..j]);
      assert views[..j + 1] == views[..j] + [sets[j].Slots()];
    }
    assert views[..|sets|] == views;
  }

  /** The general count of `at_least`. */
  method CountAtLeast(sets: seq<Bits>, minimum: nat, len: nat) returns (out: Bits)
    requires AllValid(sets, len)
    ensures fresh(out) && fresh(out.words) && out.Valid() && out.len == len
    ensures out.Slots() == AtLeastSlots(Views(sets), minimum, len)
  {
    hide Bit, Counts, ColumnValue;
    ghost var views := Views(sets);
    var counter := CountSets(sets, len);
    out := new Bits.Empty(len);
    for wi := 0 to counter.Length1
      invariant forall v :: 0 <= v < counter.Length1 ==> Counts(Column(counter, v), views, v)
      invariant forall s: nat {:trigger Holds(out.words[..], s)} :: s / 64 < wi ==>
                  (Holds(out.words[..], s) <==> Holding(views, s) >= minimum)
    {
      var admitted := AdmitWord(counter, wi, minimum);
      ghost var before := out.words[..];
      out.words[wi] := admitted;
      AdmitStep(before, out.words[..], Column(counter, wi), views, minimum, wi);
    }
    AdmittedSlots(out.words[..], views, minimum, len);
    out.Trim();
  }

  lemma CountsStart(col: seq<bv64>, wi: nat)
    requires forall p :: 0 <= p < |col| ==> col[p] == 0
    ensures Counts(col, [], wi)
  {
    forall i | 0 <= i < 64
      ensures ColumnValue(col, i) == 0
    {
      ColumnZero(col, i);
    }
  }

  lemma AdmitStep(before: seq<bv64>, after: seq<bv64>, col: seq<bv64>, sets: seq<set<nat>>, minimum: nat, wi: nat)
    requires |before| == |after| && wi < |before| && after == before[wi := after[wi]]
    requires Counts(col, sets, wi)
    requires forall i {:trigger Bit(after[wi], i)} :: 0 <= i < 64 ==> (Bit(after[wi], i) <==> ColumnValue(col, i) >= minimum)
    requires forall s: nat {:trigger Holds(before, s)} :: s / 64 < wi ==> (Holds(before, s) <==> Holding(sets, s) >= minimum)
    ensures forall s: nat {:trigger Holds(after, s)} :: s / 64 < wi + 1 ==> (Holds(after, s) <==> Holding(sets, s) >= minimum)
  {
    hide Bit, ColumnValue;
    forall s: nat | s / 64 < wi + 1
      ensures Holds(after, s) <==> Holding(sets, s) >= minimum
    {
      if s / 64 == wi {
        assert s == 64 * wi + s % 64;
        assert Bit(after[wi], s % 64) <==> ColumnValue(col, s % 64) >= minimum;
      } else {
        assert Holds(before, s) == Holds(after, s);
      }
    }
  }

  /** The slots where at least `minimum` of `sets` hold the bit. */
  method AtLeast(sets: seq<Bits>, minimum: nat, len: nat) returns (out: Bits)
    requires AllValid(sets, len)
    ensures fresh(out) && fresh(out.words) && out.Valid() && out.len == len
    ensures out.Slots() == AtLeastSlots(Views(sets), minimum, len)
  {
    ghost var views := Views(sets);
    forall s
      ensures minimum > |sets| ==> Holding(views, s) < minimum
    {
      HoldingBounds(views, s);
    }
    if minimum == 0 {
      out := new Bits.Full(len);
    } else if minimum > |sets| {
      out := new Bits.Empty(len);
    } else if minimum == 1 {
      out := UnionOf(sets, len);
    } else if minimum == |sets| {
      out := IntersectionOf(sets, len);
    } else {
      out := CountAtLeast(sets, minimum, len);
    }
  }

  /** The OR shortcut. */
  method UnionOf(sets: seq<Bits>, len: nat) returns (out: Bits)
    requires AllValid(sets, len)
    ensures fresh(out) && fresh(out.words) && out.Valid() && out.len == len
    ensures out.Slots() == AtLeastSlots(Views(sets), 1, len)
  {
    out := new Bits.Empty(len);
    ghost var views := Views(sets);
    for j := 0 to |sets|
      invariant out.Valid() && AllValid(sets, len) && Views(sets) == views
      invariant out.Slots() == AtLeastSlots(views[..j], 1, len)
    {
      assert sets[j] in sets;
      out.OrWith(sets[j]);
      assert views[..j + 1][..j] == views[..j];
    }
    assert views[..|sets|] == views;
  }

  /** The AND shortcut. */
  method IntersectionOf(sets: seq<Bits>, len: nat) returns (out: Bits)
    requires AllValid(sets, len)
    ensures fresh(out) && fresh(out.words) && out.Valid() && out.len == len
    ensures out.Slots() == AtLeastSlots(Views(sets), |sets|, len)
  {
    out := new Bits.Full(len);
    ghost var views := Views(sets);
    for j := 0 to |sets|
      invariant out.Valid() && AllValid(sets, len) && Views(sets) == views
      invariant out.Slots() == AtLeastSlots(views[..j], j, len)
    {
      assert sets[j] in sets;
      out.AndWith(sets[j]);
      assert views[..j + 1][..j] == views[..j];
      forall s
        ensures Holding(views[..j], s) <= j
      {
        HoldingBounds(views[..j], s);
      }
    }
    assert views[..|sets|] == views;
  }
}
