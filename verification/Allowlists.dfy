/** The slot allowlist of a filter (src/node.rs, `fill_allowlist` and
    `fill_allowlist_domain`): the predicate read on every row outside the pruned
    segments, or only on the rows of a domain bitmap. */
module Allowlists {
  import opened Bitmaps
  import opened Numbers

  /** Pruned `(base, rows)` ranges in catalog order. */
  ghost predicate Ordered(ranges: seq<(nat, nat)>) {
    forall i, j :: 0 <= i < j < |ranges| ==> ranges[i].0 + ranges[i].1 <= ranges[j].0
  }

  /** Every row the segment summaries rule out fails the predicate. */
  ghost predicate PruneSound(ranges: seq<(nat, nat)>, passes: nat -> bool) {
    forall s {:trigger passes(s)} :: InSomeRange(ranges, s) ==> !passes(s)
  }

  /** The first row of the gap before range `r`. */
  function GapStart(ranges: seq<(nat, nat)>, r: nat, n: nat): nat
    requires r <= |ranges|
  {
    if r == 0 then 0 else Min(ranges[r - 1].0 + ranges[r - 1].1, n)
  }

  /** The row after that gap; the last gap runs to `n`. */
  function GapEnd(ranges: seq<(nat, nat)>, r: nat, n: nat): nat
    requires r <= |ranges|
  {
    if r == |ranges| then n else Min(ranges[r].0, n)
  }

  lemma Gaps(ranges: seq<(nat, nat)>, r: nat, n: nat)
    requires Ordered(ranges) && r <= |ranges|
    ensures GapStart(ranges, r, n) <= GapEnd(ranges, r, n) <= n
    ensures forall s: nat :: GapStart(ranges, r, n) <= s < GapEnd(ranges, r, n) ==> !InSomeRange(ranges, s)
    ensures r < |ranges| ==> forall s: nat :: GapEnd(ranges, r, n) <= s < GapStart(ranges, r + 1, n) ==> InSomeRange(ranges, s)
  {}

  /** The list decides the rows below `upto` and leaves the rest false. */
  ghost predicate Filled(allow: seq<bool>, ranges: seq<(nat, nat)>, passes: nat -> bool, domain: set<nat>, upto: nat) {
    forall s {:trigger allow[s]} :: 0 <= s < |allow| ==>
      (allow[s] <==> s < upto && s in domain && !InSomeRange(ranges, s) && passes(s))
  }

  /** `fill_allowlist`; under sound pruning the list is the predicate. */
  method FillAllowlist(n: nat, ranges: seq<(nat, nat)>, passes: nat -> bool) returns (allow: seq<bool>)
    requires Ordered(ranges)
    ensures |allow| == n && Filled(allow, ranges, passes, Universe(n), n)
    ensures PruneSound(ranges, passes) ==> forall s :: 0 <= s < n ==> (allow[s] <==> passes(s))
  {
    allow := seq(n, _ => false);
    for r := 0 to |ranges| + 1
      invariant |allow| == n
      invariant Filled(allow, ranges, passes, Universe(n), if r <= |ranges| then GapStart(ranges, r, n) else n)
    {
      Gaps(ranges, r, n);
      var slot := GapStart(ranges, r, n);
      for s := slot to GapEnd(ranges, r, n)
        invariant |allow| == n && Filled(allow, ranges, passes, Universe(n), s)
      {
        assert IsSlot(s, n);
        allow := allow[s := passes(s)];
      }
    }
    forall s | 0 <= s < n ensures s in Universe(n) { assert IsSlot(s, n); }
  }

  /** The predicate read on the walked rows. */
  method AdmitWalk(before: seq<bool>, walk: seq<nat>, passes: nat -> bool) returns (allow: seq<bool>)
    requires forall k :: 0 <= k < |walk| ==> walk[k] < |before|
    ensures |allow| == |before|
    ensures forall s {:trigger allow[s]} :: 0 <= s < |allow| ==> (allow[s] <==> before[s] || (s in walk && passes(s)))
  {
    allow := before;
    for k := 0 to |walk|
      invariant |allow| == |before|
      invariant forall s {:trigger allow[s]} :: 0 <= s < |allow| ==> (allow[s] <==> before[s] || (s in walk[..k] && passes(s)))
    {
      if passes(walk[k]) {
        allow := allow[walk[k] := true];
      }
    }
    assert walk[..|walk|] == walk;
  }

  lemma GapFilled(before: seq<bool>, allow: seq<bool>, ranges: seq<(nat, nat)>, r: nat, n: nat,
                  passes: nat -> bool, domain: set<nat>, walk: seq<nat>)
    requires Ordered(ranges) && r <= |ranges| && |before| == |allow| == n
    requires Filled(before, ranges, passes, domain, GapStart(ranges, r, n))
    requires walk == Ascending(domain, GapStart(ranges, r, n), GapEnd(ranges, r, n))
    requires forall s {:trigger allow[s]} :: 0 <= s < n ==> (allow[s] <==> before[s] || (s in walk && passes(s)))
    ensures Filled(allow, ranges, passes, domain, if r < |ranges| then GapStart(ranges, r + 1, n) else n)
  {
    Gaps(ranges, r, n);
    AscendingExact(domain, GapStart(ranges, r, n), GapEnd(ranges, r, n));
  }

  /** `fill_allowlist_domain`: the same list restricted to the domain, reading
      the predicate on the domain's rows only. */
  method FillAllowlistDomain(n: nat, ranges: seq<(nat, nat)>, domain: Bits, passes: nat -> bool) returns (allow: seq<bool>)
    requires Ordered(ranges) && domain.Valid() && domain.len == n
    ensures |allow| == n && Filled(allow, ranges, passes, domain.Slots(), n)
    ensures PruneSound(ranges, passes) ==> forall s :: 0 <= s < n ==> (allow[s] <==> passes(s) && s in domain.Slots())
  {
    hide SlotSet, WellFormed;
    ghost var slots := domain.Slots();
    allow := seq(n, _ => false);
    for r := 0 to |ranges| + 1
      invariant |allow| == n
      invariant Filled(allow, ranges, passes, slots, if r <= |ranges| then GapStart(ranges, r, n) else n)
    {
      Gaps(ranges, r, n);
      var slot, end := GapStart(ranges, r, n), GapEnd(ranges, r, n);
      var walk := domain.IterRange(slot, end);
      AscendingExact(slots, slot, end);
      assert forall k :: 0 <= k < |walk| ==> walk[k] in walk;
      ghost var before := allow;
      allow := AdmitWalk(allow, walk, passes);
      GapFilled(before, allow, ranges, r, n, passes, slots, walk);
    }
  }
}
