/** Facet counting of examples/facet_walk_probe.rs: the union of the terms'
    postings as a bitmap, then one value lookup per matched document. */
module Facets {
  import opened Options
  import opened Numbers
  import opened Bitmaps
  import opened BooleanWalk

  /** The documents of `docs` that carry value `v`; `None` stands for no value. */
  ghost function WithValue(docs: set<nat>, ord: nat -> Option<nat>, v: Option<nat>): set<nat> {
    set d | d in docs && ord(d) == v
  }

  function Bump(ord: nat -> Option<nat>, v: Option<nat>, d: nat): nat {
    if ord(d) == v then 1 else 0
  }

  lemma WithValueMore(docs: set<nat>, ord: nat -> Option<nat>, v: Option<nat>, d: nat)
    requires d !in docs
    ensures |WithValue(docs + {d}, ord, v)| == |WithValue(docs, ord, v)| + Bump(ord, v, d)
  {
    var held := WithValue(docs, ord, v);
    assert WithValue(docs + {d}, ord, v) == if ord(d) == v then held + {d} else held;
  }

  lemma {:induction false} SumBump(counts: seq<nat>, i: nat)
    requires i < |counts|
    ensures Sum(counts[i := counts[i] + 1]) == Sum(counts) + 1
  {
    var n := |counts| - 1;
    var bumped := counts[i := counts[i] + 1];
    if i < n {
      SumBump(counts[..n], i);
      assert bumped[..n] == counts[..n][i := counts[i] + 1];
    } else {
      assert bumped[..n] == counts[..n];
    }
  }

  lemma {:induction false} SumZeros(counts: seq<nat>)
    requires forall i :: 0 <= i < |counts| ==> counts[i] == 0
    ensures Sum(counts) == 0
  {
    if counts != [] {
      SumZeros(counts[..|counts| - 1]);
    }
  }

  /** The documents of a list. */
  ghost function Docs(list: seq<nat>): set<nat> {
    set d | d in list
  }

  /** Every count is the number of documents with that value, and counts plus
      valueless documents make up all of them. */
  ghost predicate Tallied(counts: seq<nat>, docs: set<nat>, ord: nat -> Option<nat>) {
    && (forall v: nat :: v < |counts| ==> counts[v] == |WithValue(docs, ord, Some(v))|)
    && Sum(counts) + |WithValue(docs, ord, None)| == |docs|
  }

  lemma TallyNone(docs: set<nat>, ord: nat -> Option<nat>, counts: seq<nat>)
    requires docs == {} && forall i :: 0 <= i < |counts| ==> counts[i] == 0
    ensures Tallied(counts, docs, ord)
  {
    SumZeros(counts);
    assert WithValue(docs, ord, None) == {};
    forall v: nat | v < |counts| ensures WithValue(docs, ord, Some(v)) == {} {}
  }

  lemma TallyMore(counts: seq<nat>, docs: set<nat>, ord: nat -> Option<nat>, d: nat)
    requires Tallied(counts, docs, ord) && d !in docs && (ord(d).Some? ==> ord(d).value < |counts|)
    ensures Tallied(Tally(counts, ord(d)), docs + {d}, ord)
  {
    hide Sum, WithValue, Tally;
    forall v: nat | v < |counts| ensures Tally(counts, ord(d))[v] == |WithValue(docs + {d}, ord, Some(v))| {
      WithValueMore(docs, ord, Some(v), d);
      TallyAt(counts, ord, d, v);
    }
    WithValueMore(docs, ord, None, d);
    TallySum(counts, ord, d);
    assert |docs + {d}| == |docs| + 1;
  }

  function Tally(counts: seq<nat>, ord: Option<nat>): (r: seq<nat>)
    requires ord.Some? ==> ord.value < |counts|
    ensures |r| == |counts|
  {
    if ord.Some? then counts[ord.value := counts[ord.value] + 1] else counts
  }

  lemma TallyAt(counts: seq<nat>, ord: nat -> Option<nat>, d: nat, v: nat)
    requires v < |counts| && (ord(d).Some? ==> ord(d).value < |counts|)
    ensures Tally(counts, ord(d))[v] == counts[v] + Bump(ord, Some(v), d)
  {}

  lemma TallySum(counts: seq<nat>, ord: nat -> Option<nat>, d: nat)
    requires ord(d).Some? ==> ord(d).value < |counts|
    ensures Sum(Tally(counts, ord(d))) + Bump(ord, None, d) == Sum(counts) + 1
  {
    hide Sum;
    if ord(d).Some? {
      SumBump(counts, ord(d).value);
    }
  }

  /** The counting loop: each matched document once, however many terms hit it. */
  method CountValues(bits: Bits, ord: nat -> Option<nat>, values: nat) returns (counts: array<nat>, matched: nat)
    requires bits.Valid()
    requires forall d :: d in bits.Slots() && ord(d).Some? ==> ord(d).value < values
    ensures fresh(counts) && counts.Length == values
    ensures matched == |bits.Slots()| && Tallied(counts[..], bits.Slots(), ord)
  {
    hide Tallied, Docs;
    counts := new nat[values](_ => 0);
    matched := 0;
    var list := bits.Iter();
    ghost var slots := bits.Slots();
    ListIsSlots(slots, bits.len, list) by { SlotsBelow(bits); }
    TallyNone(Docs(list[..0]), ord, counts[..]);
    for i := 0 to |list|
      invariant matched == i && Tallied(counts[..], Docs(list[..i]), ord)
    {
      var doc := list[i];
      TallyMore(counts[..], Docs(list[..i]), ord, doc);
      DocsStep(list, i);
      ghost var before := counts[..];
      if ord(doc).Some? {
        counts[ord(doc).value] := counts[ord(doc).value] + 1;
      }
      assert counts[..] == Tally(before, ord(doc));
      matched := matched + 1;
    }
    assert list[..|list|] == list;
  }

  lemma SlotsBelow(bits: Bits)
    requires bits.Valid()
    ensures forall s :: s in bits.Slots() ==> s < bits.len
  {}

  lemma ListIsSlots(slots: set<nat>, len: nat, list: seq<nat>)
    requires list == Ascending(slots, 0, len) && forall s :: s in slots ==> s < len
    ensures Docs(list) == slots && |list| == |slots| && Docs(list[..0]) == {}
    ensures forall i :: 0 <= i < |list| ==> list[i] in slots && list[i] !in Docs(list[..i])
  {
    AscendingExact(slots, 0, len);
    AscendingSize(slots, len);
    forall i | 0 <= i < |list| ensures list[i] in slots && list[i] !in Docs(list[..i]) {
      assert list[i] in list;
    }
  }

  lemma DocsStep(list: seq<nat>, i: nat)
    requires i < |list|
    ensures Docs(list[..i + 1]) == Docs(list[..i]) + {list[i]}
  {}

  /** The whole probe: union walk, then count. */
  method FacetWalk(n: nat, postings: seq<seq<nat>>, ord: nat -> Option<nat>, values: nat)
    returns (counts: array<nat>, matched: nat)
    requires forall d: nat :: d < n && ord(d).Some? ==> ord(d).value < values
    ensures fresh(counts) && counts.Length == values && matched == |Members(n, postings, None, _ => None)|
    ensures Tallied(counts[..], Members(n, postings, None, _ => None), ord)
  {
    hide Tallied;
    var bits := LexicalBits(n, postings);
    SlotsBelow(bits);
    counts, matched := CountValues(bits, ord, values);
  }
}
