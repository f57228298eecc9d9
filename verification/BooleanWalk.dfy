/** The offline Boolean evaluation of examples/boolean_walk.rs. */
module BooleanWalk {
  // The lexical bitmap, the filter bitmap resolved over the lexical members or over
  // every row, the group AND, the member list, the score accumulator and the heap
  // pass. Nothing it returns depends on how the filter was scanned.

  import opened Options
  import opened Bitmaps
  import opened Ranking
  import opened HeapTopK

  predicate InPostings(postings: seq<seq<nat>>, s: nat) {
    exists t :: 0 <= t < |postings| && s in postings[t]
  }

  predicate PassesBound(column: nat -> Option<int>, bound: int, s: nat) {
    column(s).Some? && column(s).value >= bound
  }

  /** The rows that match the terms and, when a bound is given, the filter. */
  ghost function Members(n: nat, postings: seq<seq<nat>>, bound: Option<int>, column: nat -> Option<int>): set<nat> {
    set s | s in Universe(n) && InPostings(postings, s) && (bound.Some? ==> PassesBound(column, bound.value, s))
  }

  /** Every posting of every term. */
  method LexicalBits(n: nat, postings: seq<seq<nat>>) returns (bits: Bits)
    ensures fresh(bits) && fresh(bits.words) && bits.Valid() && bits.len == n
    ensures bits.Slots() == Members(n, postings, None, _ => None)
  {
    bits := new Bits.Empty(n);
    for t := 0 to |postings|
      invariant bits.Valid()
      invariant bits.Slots() == set s | s in Universe(n) && InPostings(postings[..t], s)
    {
      for d := 0 to |postings[t]|
        invariant bits.Valid()
        invariant bits.Slots() == set s | s in Universe(n) && (InPostings(postings[..t], s) || s in postings[t][..d])
      {
        var doc := postings[t][d];
        if doc < n {
          assert IsSlot(doc, n);
          bits.Set(doc);
        }
        assert postings[t][..d + 1] == postings[t][..d] + [doc];
      }
      assert postings[t][..|postings[t]|] == postings[t];
      NextPosting(postings, t);
    }
    assert postings[..|postings|] == postings;
  }

  lemma NextPosting(postings: seq<seq<nat>>, t: nat)
    requires t < |postings|
    ensures forall s :: InPostings(postings[..t + 1], s) <==> InPostings(postings[..t], s) || s in postings[t]
  {}

  /** The filter over the lexical sibling's members only. */
  method FilterDomain(n: nat, lexical: Bits, column: nat -> Option<int>, bound: int) returns (bits: Bits)
    requires lexical.Valid() && lexical.len == n
    ensures fresh(bits) && fresh(bits.words) && bits.Valid() && bits.len == n
    ensures bits.Slots() == set s | s in lexical.Slots() && PassesBound(column, bound, s)
  {
    var walk := lexical.Iter();
    ghost var slots := lexical.Slots();
    AscendingExact(slots, 0, n);
    bits := new Bits.Empty(n);
    for k := 0 to |walk|
      invariant bits.Valid()
      invariant bits.Slots() == set s | s in walk[..k] && PassesBound(column, bound, s)
    {
      assert walk[k] in walk;
      if PassesBound(column, bound, walk[k]) {
        bits.Set(walk[k]);
      }
      assert walk[..k + 1] == walk[..k] + [walk[k]];
    }
    assert walk[..|walk|] == walk;
  }

  /** The filter over every row. */
  method FilterFull(n: nat, column: nat -> Option<int>, bound: int) returns (bits: Bits)
    ensures fresh(bits) && fresh(bits.words) && bits.Valid() && bits.len == n
    ensures bits.Slots() == set s | s in Universe(n) && PassesBound(column, bound, s)
  {
    bits := new Bits.Empty(n);
    for doc := 0 to n
      invariant bits.Valid()
      invariant bits.Slots() == set s | s in Universe(n) && s < doc && PassesBound(column, bound, s)
    {
      assert IsSlot(doc, n);
      if PassesBound(column, bound, doc) {
        bits.Set(doc);
      }
    }
  }

  /** The group: MUST lexical, MUST filter. The scan mode does not show. */
  method GroupBits(n: nat, postings: seq<seq<nat>>, bound: Option<int>, column: nat -> Option<int>, filterDomain: bool)
    returns (lexical: Bits, members: Bits)
    ensures fresh(lexical) && fresh(lexical.words) && fresh(members) && fresh(members.words)
    ensures lexical.Valid() && lexical.len == n && members.Valid() && members.len == n
    ensures lexical.Slots() == Members(n, postings, None, column)
    ensures members.Slots() == Members(n, postings, bound, column)
  {
    lexical := LexicalBits(n, postings);
    members := new Bits.Clone(lexical);
    if bound.Some? {
      var filter;
      if filterDomain {
        filter := FilterDomain(n, lexical, column, bound.value);
      } else {
        filter := FilterFull(n, column, bound.value);
      }
      members.AndWith(filter);
    }
  }

  // ----- scoring and ranking -----

  /** A member's score: the scorer's answer, or zero when it has none. */
  function ScoreOf(score: nat -> Option<int>, s: nat): int {
    if score(s).Some? then score(s).value else 0
  }

  /** The members, ascending, each with its score. */
  ghost function Entries(score: nat -> Option<int>, slots: seq<nat>): (hits: seq<Hit>)
    ensures |hits| == |slots| && forall i :: 0 <= i < |slots| ==> hits[i] == Hit(ScoreOf(score, slots[i]), slots[i])
  {
    seq(|slots|, i requires 0 <= i < |slots| => Hit(ScoreOf(score, slots[i]), slots[i]))
  }

  /** The candidates: the members the lexical leaf holds. */
  method Candidates(lexical: Bits, memberSlots: seq<nat>) returns (candidates: seq<nat>)
    requires lexical.Valid() && forall i :: 0 <= i < |memberSlots| ==> memberSlots[i] in lexical.Slots()
    ensures candidates == memberSlots
  {
    candidates := [];
    for i := 0 to |memberSlots|
      invariant candidates == memberSlots[..i]
    {
      if lexical.Test(memberSlots[i]) {
        candidates := candidates + [memberSlots[i]];
      }
    }
  }

  /** The whole-shard accumulator: each candidate's score once. */
  method Accumulate(n: nat, candidates: seq<nat>, score: nat -> Option<int>) returns (acc: array<int>, scored: Bits)
    requires forall i :: 0 <= i < |candidates| ==> candidates[i] < n
    requires StrictlyAscending(candidates)
    ensures fresh(acc) && acc.Length == n && fresh(scored) && fresh(scored.words) && scored.Valid() && scored.len == n
    ensures forall i :: 0 <= i < |candidates| ==>
              (if candidates[i] in scored.Slots() then acc[candidates[i]] else 0) == ScoreOf(score, candidates[i])
  {
    acc := new int[n](_ => 0);
    scored := new Bits.Empty(n);
    for i := 0 to |candidates|
      invariant scored.Valid()
      invariant scored.Slots() == set s | s in candidates[..i] && score(s).Some?
      invariant forall s :: 0 <= s < n ==> acc[s] == if s in scored.Slots() then ScoreOf(score, s) else 0
    {
      assert candidates[i] !in candidates[..i];
      var slot := candidates[i];
      match score(slot)
      case Some(value) =>
        acc[slot] := acc[slot] + value;
        scored.Set(slot);
      case None =>
      assert candidates[..i + 1] == candidates[..i] + [slot];
    }
    assert candidates[..|candidates|] == candidates;
  }

  /** The heap pass over the members. */
  method RankMembers(memberSlots: seq<nat>, acc: array<int>, scored: Bits, score: nat -> Option<int>, depth: nat)
    returns (ranked: seq<Hit>)
    requires scored.Valid() && forall i :: 0 <= i < |memberSlots| ==> memberSlots[i] < acc.Length
    requires forall i :: 0 <= i < |memberSlots| ==>
               (if memberSlots[i] in scored.Slots() then acc[memberSlots[i]] else 0) == ScoreOf(score, memberSlots[i])
    ensures ranked == TopK(Entries(score, memberSlots), depth)
  {
    hide TopK, WellFormed, SlotSet;
    var top := new TopSlots(depth);
    ghost var entries := Entries(score, memberSlots);
    for i := 0 to |memberSlots|
      invariant top.Valid() && top.depth == depth && top.offered == entries[..i]
    {
      var slot := memberSlots[i];
      var _, _ := top.Offer(Hit(if scored.Test(slot) then acc[slot] else 0, slot));
      assert entries[..i + 1] == entries[..i] + [entries[i]];
    }
    assert entries[..|entries|] == entries;
    ranked := top.IntoSorted();
  }

  /** The member list and the candidates. */
  method Materialize(n: nat, postings: seq<seq<nat>>, bound: Option<int>, column: nat -> Option<int>, filterDomain: bool)
    returns (memberSlots: seq<nat>, candidates: seq<nat>)
    ensures memberSlots == Ascending(Members(n, postings, bound, column), 0, n)
    ensures candidates == memberSlots
  {
    hide WellFormed, SlotSet;
    var lexical, members := GroupBits(n, postings, bound, column, filterDomain);
    memberSlots := members.Iter();
    AscendingExact(members.Slots(), 0, n);
    assert forall i :: 0 <= i < |memberSlots| ==> memberSlots[i] in memberSlots;
    candidates := Candidates(lexical, memberSlots);
  }

  /** One round. Members, candidates and ranking are the same for both scan
      modes: `filterDomain` appears in no promise. */
  method Round(n: nat, postings: seq<seq<nat>>, bound: Option<int>, column: nat -> Option<int>, filterDomain: bool,
               score: nat -> Option<int>, depth: nat)
    returns (memberSlots: seq<nat>, candidates: seq<nat>, ranked: seq<Hit>)
    ensures memberSlots == Ascending(Members(n, postings, bound, column), 0, n)
    ensures candidates == memberSlots
    ensures ranked == TopK(Entries(score, memberSlots), depth)
  {
    hide TopK, WellFormed, SlotSet;
    memberSlots, candidates := Materialize(n, postings, bound, column, filterDomain);
    AscendingExact(Members(n, postings, bound, column), 0, n);
    assert forall i :: 0 <= i < |memberSlots| ==> memberSlots[i] in memberSlots;
    var acc, scored := Accumulate(n, candidates, score);
    ranked := RankMembers(memberSlots, acc, scored, score, depth);
  }
}
