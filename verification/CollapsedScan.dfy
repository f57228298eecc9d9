/** The collapse-by-parent scan of src/chunked.rs. */
module CollapsedScan {
  // Every row belongs to a parent document; the scan returns the best `k` parents,
  // each by its best row. It keeps one row per parent, drops parents below the
  // k-th best, and rescans a chunk until the kernel has returned all of it.

  import opened Options
  import opened Ranking
  import opened ChunkScan
  import opened BatchScan

  // ----- parents and their leaders -----

  function ParentOf(parents: seq<nat>, h: Hit): nat {
    if h.id < |parents| then parents[h.id] else 0
  }

  /** No row of the same parent ranks ahead of `x`. */
  ghost predicate Leads(parents: seq<nat>, s: seq<Hit>, x: Hit) {
    x in s && forall y :: y in s && ParentOf(parents, y) == ParentOf(parents, x) ==> !Before(y, x)
  }

  ghost function LeadersIn(parents: seq<nat>, part: seq<Hit>, s: seq<Hit>): seq<Hit> {
    if part == [] then []
    else
      var x := part[|part| - 1];
      LeadersIn(parents, part[..|part| - 1], s) + if Leads(parents, s, x) then [x] else []
  }

  /** The best row of every parent. */
  ghost function Leaders(parents: seq<nat>, s: seq<Hit>): seq<Hit> {
    LeadersIn(parents, s, s)
  }

  lemma {:induction false} LeadersInBag(parents: seq<nat>, part: seq<Hit>, s: seq<Hit>, h: Hit)
    ensures multiset(LeadersIn(parents, part, s))[h] == if Leads(parents, s, h) then multiset(part)[h] else 0
  {
    hide Leads;
    if part != [] {
      var init, x := part[..|part| - 1], part[|part| - 1];
      LeadersInBag(parents, init, s, h);
      assert multiset(part) == multiset(init) + multiset{x} by { assert part == init + [x]; }
      var kept := if Leads(parents, s, x) then [x] else [];
      assert multiset(LeadersIn(parents, part, s)) == multiset(LeadersIn(parents, init, s)) + multiset(kept);
    }
  }

  lemma LeaderMember(parents: seq<nat>, s: seq<Hit>, h: Hit)
    ensures h in Leaders(parents, s) <==> Leads(parents, s, h)
    ensures multiset(Leaders(parents, s))[h] == if Leads(parents, s, h) then multiset(s)[h] else 0
  {
    hide LeadersIn;
    LeadersInBag(parents, s, s, h);
    assert h in Leaders(parents, s) <==> h in multiset(Leaders(parents, s));
  }

  lemma LeadersBag(parents: seq<nat>, s: seq<Hit>)
    ensures multiset(Leaders(parents, s)) <= multiset(s)
  {
    hide Leaders;
    forall h: Hit ensures multiset(Leaders(parents, s))[h] <= multiset(s)[h] {
      LeaderMember(parents, s, h);
    }
  }

  lemma Twice(s: seq<Hit>, i: nat, j: nat)
    requires i < j < |s| && s[i] == s[j]
    ensures multiset(s)[s[i]] >= 2
  {
    var x := s[i];
    assert s == s[..j] + [x] + s[j + 1..];
    assert x in s[..j];
    assert multiset(s)[x] == multiset(s[..j])[x] + 1 + multiset(s[j + 1..])[x];
  }

  lemma PartDistinct(part: seq<Hit>, s: seq<Hit>)
    requires Distinct(s) && multiset(part) <= multiset(s)
    ensures Distinct(part)
  {
    forall i, j | 0 <= i < j < |part| ensures part[i] != part[j] {
      DistinctBag(s, part[i]);
      if part[i] == part[j] {
        Twice(part, i, j);
      }
    }
  }

  /** Every row has its parent's leader at or ahead of it. */
  lemma {:induction false} HasLeader(parents: seq<nat>, s: seq<Hit>, x: Hit) returns (y: Hit)
    requires x in s
    ensures Leads(parents, s, y) && ParentOf(parents, y) == ParentOf(parents, x) && !Before(x, y)
  {
    y := x;
    for i := 0 to |s|
      invariant y in s && ParentOf(parents, y) == ParentOf(parents, x) && !Before(x, y)
      invariant forall j :: 0 <= j < i && ParentOf(parents, s[j]) == ParentOf(parents, x) ==> !Before(s[j], y)
    {
      if ParentOf(parents, s[i]) == ParentOf(parents, x) && Before(s[i], y) {
        y := s[i];
      }
    }
  }

  /** A parent has one leader. */
  lemma OneLeader(parents: seq<nat>, s: seq<Hit>, x: Hit, y: Hit)
    requires Leads(parents, s, x) && Leads(parents, s, y) && ParentOf(parents, x) == ParentOf(parents, y)
    ensures x == y
  {}

  // ----- k-th bests and floors -----

  lemma KthOfBag(a: seq<Hit>, b: seq<Hit>, k: nat)
    requires multiset(a) == multiset(b) && 0 < k <= |a|
    ensures |a| == |b| && Kth(a, k) == Kth(b, k)
  {
    SameSize(a, b);
    SortOfBag(a, b);
  }

  /** The k-th best meets a floor exactly when `k` rows do. */
  lemma KthMeets(s: seq<Hit>, k: nat, f: int)
    requires 0 < k <= |s|
    ensures Kth(s, k) >= f <==> |AtOrAbove(s, Some(f))| >= k
    ensures |AtOrAbove(s, Some(f))| >= k ==> Kth(AtOrAbove(s, Some(f)), k) == Kth(s, k)
  {
    hide Sort, AtOrAbove, Under;
    FloorSplits(s, Some(f));
    var kept, rest := AtOrAbove(s, Some(f)), Under(s, Some(f));
    var head, tail := Sort(kept), Sort(rest);
    forall h | h in head ensures h in kept { assert h in multiset(head); }
    forall h | h in tail ensures h in rest { assert h in multiset(tail); }
    PrefixOfSort(head, rest, s);
    if |kept| >= k {
      assert head[k - 1] in head;
    } else {
      assert Sort(s)[k - 1] == tail[k - 1 - |head|] && tail[k - 1 - |head|] in tail;
    }
  }

  /** More rows never take a parent below a floor it meets. */
  lemma LeadersGrow(parents: seq<nat>, s: seq<Hit>, t: seq<Hit>, floor: Option<int>)
    requires Distinct(t) && multiset(s) <= multiset(t)
    ensures |AtOrAbove(Leaders(parents, s), floor)| <= |AtOrAbove(Leaders(parents, t), floor)|
  {
    hide AtOrAbove, Leaders, ParentOf;
    var few, many := AtOrAbove(Leaders(parents, s), floor), AtOrAbove(Leaders(parents, t), floor);
    assert Distinct(few) by {
      LeadersBag(parents, s);
      FloorSplits(Leaders(parents, s), floor);
      PartDistinct(few, t);
    }
    var w := Images(parents, s, t, floor);
    forall i, j | 0 <= i < j < |w| ensures w[i] != w[j] { OtherParent(parents, s, floor, few, i, j); }
    DistinctPartOf(w, many);
    BagSize(w, many);
  }

  /** The leaders that the larger list has for the smaller one's parents. */
  lemma Images(parents: seq<nat>, s: seq<Hit>, t: seq<Hit>, floor: Option<int>) returns (w: seq<Hit>)
    requires multiset(s) <= multiset(t)
    ensures var few, many := AtOrAbove(Leaders(parents, s), floor), AtOrAbove(Leaders(parents, t), floor);
            |w| == |few| && forall j :: 0 <= j < |w| ==> w[j] in many && ParentOf(parents, w[j]) == ParentOf(parents, few[j])
  {
    hide AtOrAbove, Leaders, ParentOf;
    var few, many := AtOrAbove(Leaders(parents, s), floor), AtOrAbove(Leaders(parents, t), floor);
    w := [];
    for i := 0 to |few|
      invariant |w| == i
      invariant forall j :: 0 <= j < i ==> w[j] in many && ParentOf(parents, w[j]) == ParentOf(parents, few[j])
    {
      var y := Promoted(parents, s, t, floor, few[i]);
      w := w + [y];
    }
  }

  lemma DistinctPartOf(w: seq<Hit>, many: seq<Hit>)
    requires Distinct(w) && forall j :: 0 <= j < |w| ==> w[j] in many
    ensures multiset(w) <= multiset(many)
  {
    forall h: Hit ensures multiset(w)[h] <= multiset(many)[h] {
      DistinctBag(w, h);
      assert h in multiset(w) ==> h in w && h in multiset(many);
    }
  }

  lemma Promoted(parents: seq<nat>, s: seq<Hit>, t: seq<Hit>, floor: Option<int>, x: Hit) returns (y: Hit)
    requires multiset(s) <= multiset(t) && x in AtOrAbove(Leaders(parents, s), floor)
    ensures y in AtOrAbove(Leaders(parents, t), floor) && ParentOf(parents, y) == ParentOf(parents, x)
  {
    hide AtOrAbove, Leaders;
    AtOrAboveMember(Leaders(parents, s), floor, x);
    LeaderMember(parents, s, x);
    assert x in multiset(s) && x in t;
    y := HasLeader(parents, t, x);
    LeaderMember(parents, t, y);
    AtOrAboveMember(Leaders(parents, t), floor, y);
  }

  lemma OtherParent(parents: seq<nat>, s: seq<Hit>, floor: Option<int>, few: seq<Hit>, i: nat, j: nat)
    requires few == AtOrAbove(Leaders(parents, s), floor) && Distinct(few) && i < j < |few|
    ensures ParentOf(parents, few[i]) != ParentOf(parents, few[j])
  {
    hide AtOrAbove, Leaders, Leads;
    AtOrAboveMember(Leaders(parents, s), floor, few[i]);
    AtOrAboveMember(Leaders(parents, s), floor, few[j]);
    LeaderMember(parents, s, few[i]);
    LeaderMember(parents, s, few[j]);
    if ParentOf(parents, few[i]) == ParentOf(parents, few[j]) {
      OneLeader(parents, s, few[i], few[j]);
    }
  }

  /** The floor a scan has from the parents it has seen. */
  ghost function ParentFloor(parents: seq<nat>, seen: seq<Hit>, k: nat): Option<int> {
    var best := Leaders(parents, seen);
    if 0 < k <= |best| then Some(Kth(best, k)) else None
  }

  /** The k-th best parent of some rows is a lower bound on the k-th best parent
      of any rows that include them. */
  lemma ParentFloorSound(parents: seq<nat>, s: seq<Hit>, t: seq<Hit>, k: nat)
    requires Distinct(t) && multiset(s) <= multiset(t) && ParentFloor(parents, s, k).Some?
    ensures |AtOrAbove(Leaders(parents, t), ParentFloor(parents, s, k))| >= k
    ensures ParentFloor(parents, t, k).Some? && ParentFloor(parents, t, k).value >= ParentFloor(parents, s, k).value
  {
    hide AtOrAbove, Leaders, Kth;
    var f := ParentFloor(parents, s, k).value;
    LeadersGrow(parents, s, t, Some(f));
    KthMeets(Leaders(parents, s), k, f);
    FloorSplits(Leaders(parents, t), Some(f));
    BagSize(AtOrAbove(Leaders(parents, t), Some(f)), Leaders(parents, t));
    KthMeets(Leaders(parents, t), k, f);
  }

  /** The parent floor is never above the floor of the plain scan, and equal to it
      exactly when `k` parents have a row there. */
  lemma ParentFloorBelow(parents: seq<nat>, s: seq<Hit>, k: nat)
    requires ParentFloor(parents, s, k).Some?
    ensures k <= |s| && ParentFloor(parents, s, k).value <= Kth(s, k)
    ensures ParentFloor(parents, s, k).value >= Kth(s, k) <==> |AtOrAbove(Leaders(parents, s), Some(Kth(s, k)))| >= k
  {
    hide AtOrAbove, Leaders, Kth;
    LeadersBag(parents, s);
    BagSize(Leaders(parents, s), s);
    KthGrows(Leaders(parents, s), s, k);
    KthMeets(Leaders(parents, s), k, Kth(s, k));
  }

  lemma ThreeLeaders(parents: seq<nat>, x: Hit, y: Hit, z: Hit)
    requires ParentOf(parents, x) == ParentOf(parents, y) != ParentOf(parents, z) && Before(x, y)
    ensures Leaders(parents, [x, y, z]) == [x, z]
  {
    hide ParentOf;
    var s := [x, y, z];
    assert Leads(parents, s, x) && !Leads(parents, s, y) && Leads(parents, s, z);
    hide Leads;
    assert s[..2] == [x, y] && [x, y][..1] == [x] && [x][..0] == [];
    assert LeadersIn(parents, [x], s) == LeadersIn(parents, [], s) + [x];
    assert LeadersIn(parents, [x, y], s) == LeadersIn(parents, [x], s);
  }

  lemma KthOfSorted(s: seq<Hit>, k: nat)
    requires Sorted(s) && 0 < k <= |s|
    ensures Kth(s, k) == s[k - 1].score
  {
    hide Sort;
    SortedUnique(Sort(s), s);
  }

  /** Two rows of one parent ahead of the next parent: the plain scan's floor is
      the second row, the parent floor the third. */
  lemma ParentFloorLower(parents: seq<nat>, x: Hit, y: Hit, z: Hit)
    requires ParentOf(parents, x) == ParentOf(parents, y) != ParentOf(parents, z) && x.score > y.score > z.score
    ensures ParentFloor(parents, [x, y, z], 2) == Some(z.score) && Kth([x, y, z], 2) == y.score
  {
    hide Kth, Leaders;
    ThreeLeaders(parents, x, y, z);
    KthOfSorted([x, z], 2);
    KthOfSorted([x, y, z], 2);
  }

  // ----- one chunk -----

  /** The kernel called with a growing cut until it comes back short: every row of
      the chunk at or above the floor. */
  method Escalate(chunk: seq<Hit>, span: nat, floor: Option<int>, k: nat) returns (hits: seq<Hit>)
    requires k > 0 && |chunk| <= span
    ensures multiset(hits) == multiset(AtOrAbove(chunk, floor))
  {
    hide AtOrAbove;
    ghost var all := AtOrAbove(chunk, floor);
    FloorSplits(chunk, floor);
    BagSize(all, chunk);
    var cut := k;
    while true
      invariant cut > 0
      decreases span - cut
    {
      var take := if cut < span then cut else span;
      hits := Kernel(chunk, floor, Some(take));
      TopKSize(all, take);
      if |hits| < take || cut >= span {
        TopKAll(all, take);
        return;
      }
      cut := 2 * cut;
    }
  }

  lemma TopKAll(s: seq<Hit>, k: nat)
    requires |s| <= k
    ensures multiset(TopK(s, k)) == multiset(s)
  {
    hide Sort;
    assert Sort(s)[..|s|] == Sort(s);
  }

  /** The map holds the leader of every parent of `s`. */
  ghost predicate Holds(parents: seq<nat>, best: map<nat, Hit>, s: seq<Hit>) {
    && (forall x :: x in s ==> ParentOf(parents, x) in best && !Before(x, best[ParentOf(parents, x)]))
    && (forall p :: p in best ==> best[p] in s && ParentOf(parents, best[p]) == p)
  }

  /** `entry(parent).or_insert(hit)`, replaced by a hit that ranks ahead. */
  method KeepBest(parents: seq<nat>, before: map<nat, Hit>, hits: seq<Hit>, ghost held: seq<Hit>)
    returns (best: map<nat, Hit>)
    requires Holds(parents, before, held)
    ensures Holds(parents, best, held + hits)
  {
    hide ParentOf;
    best := before;
    assert held + hits[..0] == held;
    for i := 0 to |hits|
      invariant Holds(parents, best, held + hits[..i])
    {
      var hit := hits[i];
      var p := ParentOf(parents, hit);
      assert held + hits[..i + 1] == held + hits[..i] + [hit];
      KeepOne(parents, best, held + hits[..i], hit);
      best := best[p := if p in best && !Before(hit, best[p]) then best[p] else hit];
    }
    assert hits[..|hits|] == hits;
  }

  lemma KeepOne(parents: seq<nat>, best: map<nat, Hit>, s: seq<Hit>, x: Hit)
    requires Holds(parents, best, s)
    ensures var p := ParentOf(parents, x);
            Holds(parents, best[p := if p in best && !Before(x, best[p]) then best[p] else x], s + [x])
  {
    hide ParentOf;
  }

  /** The values of a map that holds leaders are the leaders. */
  method Values(parents: seq<nat>, best: map<nat, Hit>, ghost s: seq<Hit>) returns (values: seq<Hit>)
    requires Holds(parents, best, s) && Distinct(s)
    ensures multiset(values) == multiset(Leaders(parents, s))
  {
    hide ParentOf, Leaders;
    values := [];
    var keys := best.Keys;
    while keys != {}
      invariant keys <= best.Keys && Distinct(values)
      invariant forall x :: x in values <==> exists p :: p in best && p !in keys && best[p] == x
      decreases |keys|
    {
      var p :| p in keys;
      assert best[p] !in values;
      keys := keys - {p};
      values := values + [best[p]];
    }
    assert forall x :: x in values <==> exists p :: p in best && best[p] == x;
    ValuesLead(parents, best, s, values);
  }

  lemma ValuesLead(parents: seq<nat>, best: map<nat, Hit>, s: seq<Hit>, values: seq<Hit>)
    requires Holds(parents, best, s) && Distinct(s) && Distinct(values)
    requires forall x :: x in values <==> exists p :: p in best && best[p] == x
    ensures multiset(values) == multiset(Leaders(parents, s))
  {
    hide ParentOf, Leaders;
    forall h: Hit ensures multiset(values)[h] == multiset(Leaders(parents, s))[h] {
      LeaderMember(parents, s, h);
      DistinctBag(values, h);
      DistinctBag(s, h);
      MapLeads(parents, best, s, h);
      assert h in values <==> h in multiset(values);
      assert h in s <==> h in multiset(s);
    }
  }

  lemma MapLeads(parents: seq<nat>, best: map<nat, Hit>, s: seq<Hit>, h: Hit)
    requires Holds(parents, best, s)
    ensures Leads(parents, s, h) <==> exists p :: p in best && best[p] == h
  {
    hide ParentOf;
    if Leads(parents, s, h) {
      var b := best[ParentOf(parents, h)];
      assert b in s && !Before(b, h) && !Before(h, b);
      assert b == h;
    }
  }

  lemma LeadsSame(parents: seq<nat>, seen: seq<Hit>, more: seq<Hit>, cut: Option<int>, t: seq<Hit>, h: Hit)
    requires forall x :: x in t <==> Passes(x, cut) && (Leads(parents, seen, x) || x in more)
    ensures Leads(parents, t, h) <==> Leads(parents, seen + more, h) && Passes(h, cut)
  {
    hide ParentOf;
    if Leads(parents, t, h) {
      var z := HasLeader(parents, seen + more, h);
      assert Passes(z, cut);
      assert Leads(parents, t, z);
      OneLeader(parents, t, h, z);
    }
  }

  /** What the map keeps of the rows seen: the leaders at or above the floor. */
  ghost function Kept(parents: seq<nat>, seen: seq<Hit>, cut: Option<int>): seq<Hit> {
    AtOrAbove(Leaders(parents, seen), cut)
  }

  lemma KeptMember(parents: seq<nat>, seen: seq<Hit>, cut: Option<int>, h: Hit)
    ensures h in Kept(parents, seen, cut) <==> Leads(parents, seen, h) && Passes(h, cut)
    ensures multiset(Kept(parents, seen, cut))[h] ==
            if Leads(parents, seen, h) && Passes(h, cut) then multiset(seen)[h] else 0
  {
    hide AtOrAbove, Leaders, Leads, Passes;
    AtOrAboveMember(Leaders(parents, seen), cut, h);
    AtOrAboveBag(Leaders(parents, seen), cut, h);
    LeaderMember(parents, seen, h);
  }

  /** Rows that were dropped, as followers or below the floor, do not matter to the
      leaders at or above the floor. */
  lemma CollapseStep(parents: seq<nat>, seen: seq<Hit>, more: seq<Hit>, cut: Option<int>, hits: seq<Hit>)
    requires Distinct(seen + more) && multiset(hits) == multiset(AtOrAbove(more, cut))
    ensures Distinct(Kept(parents, seen, cut) + hits)
    ensures multiset(Leaders(parents, Kept(parents, seen, cut) + hits)) == multiset(Kept(parents, seen + more, cut))
  {
    hide Leaders, Leads, Kept, AtOrAbove, Passes;
    var held := Kept(parents, seen, cut);
    var t, all := held + hits, seen + more;
    forall h: Hit
      ensures h in t <==> Passes(h, cut) && (Leads(parents, seen, h) || h in more)
      ensures multiset(t)[h] <= multiset(all)[h]
    {
      KeptMember(parents, seen, cut, h);
      AtOrAboveBag(more, cut, h);
      assert h in hits <==> h in multiset(hits);
      assert h in more <==> h in multiset(more);
    }
    PartDistinct(t, all);
    forall h: Hit ensures multiset(Leaders(parents, t))[h] == multiset(Kept(parents, all, cut))[h] {
      LeadsSame(parents, seen, more, cut, t, h);
      LeaderMember(parents, t, h);
      KeptMember(parents, all, cut, h);
      DistinctBag(t, h);
      DistinctBag(all, h);
      assert multiset(t)[h] <= multiset(all)[h];
      assert h in t <==> h in multiset(t);
      assert Leads(parents, t, h) ==> h in t by { LeadsIn(parents, t, h); }
    }
  }

  lemma LeadsIn(parents: seq<nat>, s: seq<Hit>, h: Hit)
    ensures Leads(parents, s, h) ==> h in s
  {}

  lemma TwoFloors(chunk: seq<Hit>, external: Option<int>, cut: Option<int>)
    ensures multiset(AtOrAbove(chunk, Higher(external, cut))) == multiset(AtOrAbove(AtOrAbove(chunk, external), cut))
  {
    hide AtOrAbove;
    forall h: Hit
      ensures multiset(AtOrAbove(chunk, Higher(external, cut)))[h] == multiset(AtOrAbove(AtOrAbove(chunk, external), cut))[h]
    {
      AtOrAboveBag(chunk, Higher(external, cut), h);
      AtOrAboveBag(chunk, external, h);
      AtOrAboveBag(AtOrAbove(chunk, external), cut, h);
    }
  }

  /** The map after some rows, and the floor their parents and the outside give. */
  ghost predicate Collapsing(parents: seq<nat>, seen: seq<Hit>, external: Option<int>, k: nat, best: map<nat, Hit>, floor: Option<int>) {
    && Holds(parents, best, Kept(parents, seen, ParentFloor(parents, seen, k)))
    && floor == Higher(external, ParentFloor(parents, seen, k))
  }

  function Retain(best: map<nat, Hit>, kth: int): map<nat, Hit> {
    map p | p in best && best[p].score >= kth :: best[p]
  }

  lemma RetainHolds(parents: seq<nat>, best: map<nat, Hit>, s: seq<Hit>, kth: int, kept: seq<Hit>)
    requires Holds(parents, best, s)
    requires forall h :: h in kept <==> Leads(parents, s, h) && h.score >= kth
    ensures Holds(parents, Retain(best, kth), kept)
  {
    hide ParentOf;
    forall x | x in kept ensures ParentOf(parents, x) in Retain(best, kth) && best[ParentOf(parents, x)] == x {
      MapLeads(parents, best, s, x);
    }
    forall p | p in Retain(best, kth) ensures best[p] in kept {
      MapLeads(parents, best, s, best[p]);
    }
  }

  lemma HoldsLeaders(parents: seq<nat>, best: map<nat, Hit>, s: seq<Hit>, kept: seq<Hit>)
    requires Holds(parents, best, s)
    requires forall h :: h in kept <==> Leads(parents, s, h)
    ensures Holds(parents, best, kept)
  {
    hide ParentOf;
    forall p | p in best ensures best[p] in kept {
      MapLeads(parents, best, s, best[p]);
    }
  }

  /** The floor after a chunk, from the values the map holds. */
  lemma NextFloor(parents: seq<nat>, seen: seq<Hit>, all: seq<Hit>, k: nat, values: seq<Hit>)
    requires k > 0 && Distinct(all) && multiset(seen) <= multiset(all)
    requires multiset(values) == multiset(Kept(parents, all, ParentFloor(parents, seen, k)))
    ensures |values| >= k <==> ParentFloor(parents, all, k).Some?
    ensures |values| >= k ==> ParentFloor(parents, all, k) == Some(Kth(values, k))
    ensures ParentFloor(parents, seen, k).Some? ==>
              ParentFloor(parents, all, k).Some? && ParentFloor(parents, all, k).value >= ParentFloor(parents, seen, k).value
    ensures |values| < k ==> ParentFloor(parents, seen, k).None?
  {
    hide AtOrAbove, Leaders, Kth;
    var cut, best := ParentFloor(parents, seen, k), Leaders(parents, all);
    SameSize(values, Kept(parents, all, cut));
    if cut.Some? {
      ParentFloorSound(parents, seen, all, k);
      KthMeets(best, k, cut.value);
    } else {
      NoFloor(best);
    }
    if |values| >= k {
      KthOfBag(values, Kept(parents, all, cut), k);
    }
  }

  /** One chunk: the map and the floor move on as if every row so far had been
      looked at again. */
  method CollapseChunk(parents: seq<nat>, before: map<nat, Hit>, floor: Option<int>, chunk: seq<Hit>, span: nat, k: nat,
                       ghost seen: seq<Hit>, ghost external: Option<int>)
    returns (best: map<nat, Hit>, floor': Option<int>, kth: Option<int>)
    requires k > 0 && |chunk| <= span && Distinct(seen + AtOrAbove(chunk, external))
    requires Collapsing(parents, seen, external, k, before, floor)
    ensures var all := seen + AtOrAbove(chunk, external);
            Collapsing(parents, all, external, k, best, floor') && kth == ParentFloor(parents, all, k)
  {
    hide AtOrAbove, Leaders, Kth, Leads, Holds, ParentFloor, Kept;
    ghost var more, cut := AtOrAbove(chunk, external), ParentFloor(parents, seen, k);
    ghost var all := seen + more;
    var hits := Escalate(chunk, span, floor, k);
    TwoFloors(chunk, external, cut);
    CollapseStep(parents, seen, more, cut, hits);
    ghost var t := Kept(parents, seen, cut) + hits;
    best := KeepBest(parents, before, hits, Kept(parents, seen, cut));
    var values := Values(parents, best, t);
    NextFloor(parents, seen, all, k, values);
    forall h: Hit ensures Leads(parents, t, h) <==> Leads(parents, all, h) && Passes(h, cut) {
      SameLeaders(parents, t, all, cut, h);
    }
    floor', kth := floor, None;
    if |values| >= k {
      kth := Some(KthScore(values, k));
      floor' := Higher(floor, kth);
      forall h: Hit ensures h in Kept(parents, all, kth) <==> Leads(parents, t, h) && h.score >= kth.value {
        KeptMember(parents, all, kth, h);
      }
      RetainHolds(parents, best, t, kth.value, Kept(parents, all, kth));
      best := Retain(best, kth.value);
    } else {
      forall h: Hit ensures h in Kept(parents, all, None) <==> Leads(parents, t, h) {
        KeptMember(parents, all, None, h);
      }
      HoldsLeaders(parents, best, t, Kept(parents, all, None));
    }
  }

  function KthScore(values: seq<Hit>, k: nat): (r: int)
    requires 0 < k <= |values|
    ensures r == Kth(values, k)
  {
    Sort(values)[k - 1].score
  }

  lemma SameLeaders(parents: seq<nat>, t: seq<Hit>, all: seq<Hit>, cut: Option<int>, h: Hit)
    requires multiset(Leaders(parents, t)) == multiset(Kept(parents, all, cut))
    ensures Leads(parents, t, h) <==> Leads(parents, all, h) && Passes(h, cut)
  {
    hide Leaders, Leads, Kept, Passes;
    LeaderMember(parents, t, h);
    KeptMember(parents, all, cut, h);
    assert h in Leaders(parents, t) <==> h in multiset(Leaders(parents, t));
    assert h in Kept(parents, all, cut) <==> h in multiset(Kept(parents, all, cut));
  }

  // ----- the scan -----

  /** The highest external floor polled up to chunk `c`. */
  ghost function Running(floors: nat -> Option<int>, c: nat): Option<int> {
    if c == 0 then floors(0) else Higher(Running(floors, c - 1), floors(c))
  }

  ghost function RunningFloors(floors: nat -> Option<int>): nat -> Option<int> {
    (c: nat) => Running(floors, c)
  }

  /** The k-th best parent after each chunk with a row to scan, once there are
      `k` parents. */
  ghost function PublishedParents(parents: seq<nat>, chunks: seq<seq<Hit>>, floors: nat -> Option<int>, k: nat, c: nat): seq<int>
    requires c <= |chunks|
  {
    if c == 0 then []
    else
      var floor := ParentFloor(parents, Survivors(chunks, floors, c), k);
      PublishedParents(parents, chunks, floors, k, c - 1)
      + if floor.Some? && chunks[c - 1] != [] then [floor.value] else []
  }

  /** Row `i` is slot `i`. */
  ghost predicate Slots(rows: seq<Hit>) {
    forall i :: 0 <= i < |rows| ==> rows[i].id == i
  }

  lemma {:induction false} AllowedBag(rows: seq<Hit>, allow: Option<seq<bool>>, hi: nat)
    requires hi <= |rows| && Covers(allow, |rows|)
    ensures multiset(Allowed(rows, allow, 0, hi)) <= multiset(rows[..hi])
  {
    if hi > 0 {
      AllowedBag(rows, allow, hi - 1);
      assert rows[..hi] == rows[..hi - 1] + [rows[hi - 1]];
      AppendBag(Allowed(rows, allow, 0, hi - 1), rows[..hi - 1], rows[hi - 1]);
    }
  }

  lemma AppendBag(a: seq<Hit>, b: seq<Hit>, x: Hit)
    requires multiset(a) <= multiset(b)
    ensures multiset(a + []) <= multiset(b + [x]) && multiset(a + [x]) <= multiset(b + [x])
  {
    assert a + [] == a;
    assert multiset(a + [x]) == multiset(a) + multiset{x} && multiset(b + [x]) == multiset(b) + multiset{x};
  }

  lemma SurvivorsDistinct(rows: seq<Hit>, allow: Option<seq<bool>>, size: nat, floors: nat -> Option<int>, c: nat)
    requires Slots(rows) && size > 0 && Covers(allow, |rows|) && c <= |ChunkedRows(rows, allow, size)|
    ensures Distinct(Survivors(ChunkedRows(rows, allow, size), floors, c))
  {
    hide ChunkedRows, Survivors, Allowed, Flatten;
    var chunks := ChunkedRows(rows, allow, size);
    SurvivorBag(chunks, floors, c);
    ChunksCover(rows, allow, size, c);
    var hi := if c == 0 then 0 else Cuts(0, |rows|, size)[c - 1].hi;
    AllowedBag(rows, allow, hi);
    TakeBag(rows, hi);
    PartDistinct(Survivors(chunks, floors, c), rows);
  }

  lemma PollFloor(prior: Option<int>, polled: Option<int>, cut: Option<int>)
    ensures Higher(Higher(prior, cut), polled) == Higher(Higher(prior, polled), cut)
  {}

  /** The best `k` of the leaders need only those at or above the floor. */
  lemma FinalBest(parents: seq<nat>, seen: seq<Hit>, k: nat)
    requires k > 0
    ensures TopK(Kept(parents, seen, ParentFloor(parents, seen, k)), k) == TopK(Leaders(parents, seen), k)
  {
    hide TopK, AtOrAbove, Leaders, Kth;
    var best, cut := Leaders(parents, seen), ParentFloor(parents, seen, k);
    if cut.None? {
      NoFloor(best);
    } else {
      KthMeets(best, k, cut.value);
      FloorSplits(best, cut);
      FloorPrefix(best, cut, k);
      TopKSize(best, k);
      TopKSize(AtOrAbove(best, cut), k);
    }
  }

  /** The state before chunk `c`. */
  ghost predicate Scanning(parents: seq<nat>, chunks: seq<seq<Hit>>, floors: nat -> Option<int>, k: nat, c: nat,
                           best: map<nat, Hit>, floor: Option<int>, published: seq<int>) {
    && c <= |chunks|
    && Collapsing(parents, Survivors(chunks, RunningFloors(floors), c), if c == 0 then None else Running(floors, c - 1), k,
                  best, floor)
    && published == PublishedParents(parents, chunks, RunningFloors(floors), k, c)
  }

  /** A polled external floor. */
  lemma Polled(parents: seq<nat>, chunks: seq<seq<Hit>>, floors: nat -> Option<int>, k: nat, c: nat,
               best: map<nat, Hit>, floor: Option<int>, published: seq<int>)
    requires Scanning(parents, chunks, floors, k, c, best, floor, published)
    ensures Collapsing(parents, Survivors(chunks, RunningFloors(floors), c), Running(floors, c), k, best,
                       Higher(floor, floors(c)))
  {
    hide Survivors, ParentFloor, Holds, Kept, PublishedParents;
    var cut := ParentFloor(parents, Survivors(chunks, RunningFloors(floors), c), k);
    PollFloor(if c == 0 then None else Running(floors, c - 1), floors(c), cut);
  }

  lemma ChunkedAt(rows: seq<Hit>, allow: Option<seq<bool>>, size: nat, c: nat)
    requires size > 0 && Covers(allow, |rows|) && c < |Cuts(0, |rows|, size)|
    ensures var cut := Cuts(0, |rows|, size)[c];
            && cut.lo < cut.hi <= |rows|
            && ChunkedRows(rows, allow, size)[c] == Allowed(rows, allow, cut.lo, cut.hi)
            && |Allowed(rows, allow, cut.lo, cut.hi)| <= cut.hi - cut.lo
            && (AnyAllowed(allow, cut.lo, cut.hi) <==> Allowed(rows, allow, cut.lo, cut.hi) != [])
  {
    hide Cuts, Allowed, AnyAllowed;
    CutsAt(0, |rows|, size, c);
    var cut := Cuts(0, |rows|, size)[c];
    AllowedSize(rows, allow, cut.lo, cut.hi);
    SkipIsEmpty(rows, allow, cut.lo, cut.hi);
  }

  lemma {:induction false} AllowedSize(rows: seq<Hit>, allow: Option<seq<bool>>, lo: nat, hi: nat)
    requires lo <= hi <= |rows| && Covers(allow, |rows|)
    ensures |Allowed(rows, allow, lo, hi)| <= hi - lo
    decreases hi
  {
    if lo < hi {
      AllowedSize(rows, allow, lo, hi - 1);
    }
  }

  lemma ScanOn(parents: seq<nat>, chunks: seq<seq<Hit>>, floors: nat -> Option<int>, k: nat, c: nat)
    requires c < |chunks|
    ensures var run := RunningFloors(floors);
            && Survivors(chunks, run, c + 1) == Survivors(chunks, run, c) + AtOrAbove(chunks[c], Running(floors, c))
            && (chunks[c] == [] ==> Survivors(chunks, run, c + 1) == Survivors(chunks, run, c))
            && PublishedParents(parents, chunks, run, k, c + 1) ==
               PublishedParents(parents, chunks, run, k, c)
               + var floor := ParentFloor(parents, Survivors(chunks, run, c + 1), k);
                 if floor.Some? && chunks[c] != [] then [floor.value] else []
  {
    hide ParentFloor;
  }

  /** One turn of the scan. */
  method ScanOne(rows: seq<Hit>, k: nat, size: nat, parents: seq<nat>, floors: nat -> Option<int>, allow: Option<seq<bool>>,
                 c: nat, start: nat, end: nat, before: map<nat, Hit>, floor: Option<int>, published: seq<int>)
    returns (best: map<nat, Hit>, floor': Option<int>, published': seq<int>)
    requires k > 0 && size > 0 && Slots(rows) && Covers(allow, |rows|)
    requires c < |Cuts(0, |rows|, size)| && Cuts(0, |rows|, size)[c] == Range(start, end)
    requires Scanning(parents, ChunkedRows(rows, allow, size), floors, k, c, before, floor, published)
    ensures Scanning(parents, ChunkedRows(rows, allow, size), floors, k, c + 1, best, floor', published')
  {
    hide ChunkedRows, Cuts, Allowed, AnyAllowed, Survivors, AtOrAbove, Collapsing, ParentFloor, PublishedParents, Running;
    ghost var chunks := ChunkedRows(rows, allow, size);
    ChunkedAt(rows, allow, size, c);
    Polled(parents, chunks, floors, k, c, before, floor, published);
    ScanOn(parents, chunks, floors, k, c);
    best, floor', published' := before, Higher(floor, floors(c)), published;
    if AnyAllowed(allow, start, end) {
      SurvivorsDistinct(rows, allow, size, RunningFloors(floors), c + 1);
      var kth;
      best, floor', kth := CollapseChunk(parents, best, floor', Allowed(rows, allow, start, end), end - start, k,
                                         Survivors(chunks, RunningFloors(floors), c), Running(floors, c));
      if kth.Some? {
        published' := published' + [kth.value];
      }
    }
  }

  lemma ScanStart(parents: seq<nat>, chunks: seq<seq<Hit>>, floors: nat -> Option<int>, k: nat)
    ensures Scanning(parents, chunks, floors, k, 0, map[], None, [])
  {
    assert Leaders(parents, []) == [];
  }

  /** `chunked_topk_collapsed`: refused exactly when the parents or the allowlist
      do not cover the slots. Otherwise the answer is the best `k` leaders of the
      rows that met the highest floor polled so far, and after every chunk the
      k-th best parent is published. */
  method Collapsed(rows: seq<Hit>, k: nat, chunkBlocks: nat, parents: seq<nat>, floors: nat -> Option<int>,
                   allow: Option<seq<bool>>)
    returns (out: Result<Track>)
    requires Slots(rows)
    ensures out.Refused? <==> |parents| != |rows| || !Covers(allow, |rows|)
    ensures out.Ok? ==>
              var chunks := ChunkedRows(rows, allow, ChunkSize(chunkBlocks));
              && out.value.hits == TopK(Leaders(parents, Survivors(chunks, RunningFloors(floors), |chunks|)), k)
              && out.value.published == PublishedParents(parents, chunks, RunningFloors(floors), k, |chunks|)
  {
    var size := ChunkSize(chunkBlocks);
    hide ChunkSize, ChunkedRows, Survivors, Leaders, TopK, Scanning, PublishedParents, RunningFloors;
    if |parents| != |rows| || !Covers(allow, |rows|) {
      return Refused;
    }
    ghost var chunks, cuts := ChunkedRows(rows, allow, size), Cuts(0, |rows|, size);
    NoCuts(|rows|, size);
    hide Cuts;
    if rows == [] || k == 0 {
      NothingCollapsed(parents, chunks, RunningFloors(floors), k, |chunks|);
      return Ok(Track([], []));
    }
    var best, floor, published := map[], None, [];
    ScanStart(parents, chunks, floors, k);
    var c, start := 0, 0;
    assert cuts[0..] == cuts;
    while start < |rows|
      invariant start <= |rows| && c <= |cuts| && cuts[c..] == Cuts(start, |rows|, size)
      invariant Scanning(parents, chunks, floors, k, c, best, floor, published)
      decreases |rows| - start
    {
      var end := Next(start, |rows|, size);
      NextCut(start, |rows|, size, cuts, c);
      best, floor, published := ScanOne(rows, k, size, parents, floors, allow, c, start, end, best, floor, published);
      c, start := c + 1, end;
    }
    SurvivorsDistinct(rows, allow, size, RunningFloors(floors), |chunks|);
    var hits := Finish(parents, best, floor, published, k, chunks, floors);
    out := Ok(Track(hits, published));
  }

  /** The map's values in rank order, cut to `k`. */
  method Finish(parents: seq<nat>, best: map<nat, Hit>, floor: Option<int>, published: seq<int>, k: nat,
                ghost chunks: seq<seq<Hit>>, ghost floors: nat -> Option<int>)
    returns (hits: seq<Hit>)
    requires k > 0 && Scanning(parents, chunks, floors, k, |chunks|, best, floor, published)
    requires Distinct(Survivors(chunks, RunningFloors(floors), |chunks|))
    ensures hits == TopK(Leaders(parents, Survivors(chunks, RunningFloors(floors), |chunks|)), k)
    ensures published == PublishedParents(parents, chunks, RunningFloors(floors), k, |chunks|)
  {
    hide Survivors, Leaders, TopK, PublishedParents, RunningFloors, Kept, ParentFloor, Holds;
    ghost var seen := Survivors(chunks, RunningFloors(floors), |chunks|);
    ghost var kept := Kept(parents, seen, ParentFloor(parents, seen, k));
    KeptBag(parents, seen, ParentFloor(parents, seen, k));
    PartDistinct(kept, seen);
    var values := Values(parents, best, kept);
    KeptLeads(parents, seen, ParentFloor(parents, seen, k));
    hits := TopK(values, k);
    TopKOfBag(values, kept, k);
    FinalBest(parents, seen, k);
  }

  lemma KeptBag(parents: seq<nat>, seen: seq<Hit>, cut: Option<int>)
    ensures multiset(Kept(parents, seen, cut)) <= multiset(seen)
  {
    hide Kept, Leads, Passes;
    forall h: Hit ensures multiset(Kept(parents, seen, cut))[h] <= multiset(seen)[h] {
      KeptMember(parents, seen, cut, h);
    }
  }

  /** Leaders lead among themselves. */
  lemma KeptLeads(parents: seq<nat>, seen: seq<Hit>, cut: Option<int>)
    ensures multiset(Leaders(parents, Kept(parents, seen, cut))) == multiset(Kept(parents, seen, cut))
  {
    hide Kept, Leaders, ParentOf;
    var kept := Kept(parents, seen, cut);
    forall h: Hit ensures multiset(Leaders(parents, kept))[h] == multiset(kept)[h] {
      LeaderMember(parents, kept, h);
      if h in kept {
        forall y | y in kept && ParentOf(parents, y) == ParentOf(parents, h) ensures !Before(y, h) {
          KeptMember(parents, seen, cut, h);
          KeptMember(parents, seen, cut, y);
        }
      }
      assert h in kept <==> h in multiset(kept);
    }
  }

  lemma {:induction false} NothingCollapsed(parents: seq<nat>, chunks: seq<seq<Hit>>, floors: nat -> Option<int>, k: nat, c: nat)
    requires c <= |chunks| && (c == 0 || k == 0)
    ensures TopK(Leaders(parents, Survivors(chunks, floors, c)), k) == []
    ensures PublishedParents(parents, chunks, floors, k, c) == []
  {
    hide Leaders, Kth, Survivors;
    if c > 0 {
      NothingCollapsed(parents, chunks, floors, k, c - 1);
    }
    TopKSize(Leaders(parents, Survivors(chunks, floors, c)), k);
    NoSurvivors(parents, chunks, floors);
  }

  lemma NoSurvivors(parents: seq<nat>, chunks: seq<seq<Hit>>, floors: nat -> Option<int>)
    ensures Leaders(parents, Survivors(chunks, floors, 0)) == []
  {}

  // ----- what the scan returns -----

  /** The answer names every parent at most once, each by its best row. */
  lemma AnswerParents(parents: seq<nat>, seen: seq<Hit>, k: nat, i: nat, j: nat)
    requires Distinct(seen) && i < j < |TopK(Leaders(parents, seen), k)|
    ensures var top := TopK(Leaders(parents, seen), k);
            ParentOf(parents, top[i]) != ParentOf(parents, top[j]) && Leads(parents, seen, top[i]) && Leads(parents, seen, top[j])
  {
    hide TopK, Leaders, ParentOf, Leads;
    var top := TopK(Leaders(parents, seen), k);
    TopKSize(Leaders(parents, seen), k);
    LeadersBag(parents, seen);
    PartDistinct(top, seen);
    BagMember(top, Leaders(parents, seen), top[i]);
    BagMember(top, Leaders(parents, seen), top[j]);
    LeaderMember(parents, seen, top[i]);
    LeaderMember(parents, seen, top[j]);
    if ParentOf(parents, top[i]) == ParentOf(parents, top[j]) {
      OneLeader(parents, seen, top[i], top[j]);
    }
  }

  lemma BagMember(a: seq<Hit>, b: seq<Hit>, x: Hit)
    requires multiset(a) <= multiset(b) && x in a
    ensures x in b
  {
    assert x in multiset(a) && x in multiset(b);
  }

  /** What the best `k` leave behind does not rank ahead of them. */
  lemma TopKAhead(rows: seq<Hit>, k: nat, x: Hit, y: Hit)
    requires x in TopK(rows, k) && y in rows && y !in TopK(rows, k)
    ensures !Before(y, x)
  {
    hide Sort;
    var r := Sort(rows);
    assert y in multiset(r);
    var j :| 0 <= j < |r| && r[j] == y;
    var i :| 0 <= i < |TopK(rows, k)| && TopK(rows, k)[i] == x;
    forall m | 0 <= m < |TopK(rows, k)| ensures r[m] in TopK(rows, k) { assert r[m] == TopK(rows, k)[m]; }
  }

  /** The rows of a list outside another. */
  ghost function Outside(s: seq<Hit>, w: seq<Hit>): seq<Hit> {
    if s == [] then []
    else Outside(s[..|s| - 1], w) + if s[|s| - 1] in w then [] else [s[|s| - 1]]
  }

  lemma {:induction false} OutsideBag(s: seq<Hit>, w: seq<Hit>, h: Hit)
    ensures multiset(Outside(s, w))[h] == if h in w then 0 else multiset(s)[h]
  {
    if s != [] {
      var init, x := s[..|s| - 1], s[|s| - 1];
      OutsideBag(init, w, h);
      assert multiset(s) == multiset(init) + multiset{x} by { assert s == init + [x]; }
      var kept := if x in w then [] else [x];
      assert multiset(Outside(s, w)) == multiset(Outside(init, w)) + multiset(kept);
    }
  }

  /** Every parent of the full answer has its best row at or above the floor of
      that row's chunk. */
  ghost predicate WinnersMeetFloors(parents: seq<nat>, chunks: seq<seq<Hit>>, floors: nat -> Option<int>, k: nat) {
    forall c, x :: 0 <= c < |chunks| && x in chunks[c] && x in TopK(Leaders(parents, Flatten(chunks)), k) ==> Passes(x, floors(c))
  }

  lemma WinnersNecessary(parents: seq<nat>, chunks: seq<seq<Hit>>, floors: nat -> Option<int>, k: nat)
    requires Distinct(Flatten(chunks))
    requires TopK(Leaders(parents, Survivors(chunks, floors, |chunks|)), k) == TopK(Leaders(parents, Flatten(chunks)), k)
    ensures WinnersMeetFloors(parents, chunks, floors, k)
  {
    hide TopK, Leaders, Passes, Survivors, Flatten, Distinct;
    var kept := Survivors(chunks, floors, |chunks|);
    var top := TopK(Leaders(parents, kept), k);
    TopKSize(Leaders(parents, kept), k);
    LeadersBag(parents, kept);
    forall c, x | 0 <= c < |chunks| && x in chunks[c] && x in top ensures Passes(x, floors(c)) {
      BagMember(top, kept, x);
      SurvivorMember(chunks, floors, |chunks|, x);
      var d :| 0 <= d < |chunks| && x in chunks[d] && Passes(x, floors(d));
      if c < d {
        DistinctHome(chunks, c, d, x);
      } else if d < c {
        DistinctHome(chunks, d, c, x);
      }
    }
  }

  /** Where every winner survives, it still leads, and what else leads among the
      survivors is no better than a parent that did not win. */
  lemma SurvivingWinners(parents: seq<nat>, part: seq<Hit>, rows: seq<Hit>, k: nat)
    requires Distinct(rows) && multiset(part) <= multiset(rows)
    requires forall x :: x in TopK(Leaders(parents, rows), k) ==> x in part
    ensures TopK(Leaders(parents, part), k) == TopK(Leaders(parents, rows), k)
  {
    hide TopK, Leaders, ParentOf, Outside;
    var all, mine := Leaders(parents, rows), Leaders(parents, part);
    var top := TopK(all, k);
    TopKSize(all, k);
    LeadersBag(parents, rows);
    PartDistinct(top, rows);
    PartDistinct(part, rows);
    forall x | x in top ensures Leads(parents, rows, x) && Leads(parents, part, x) {
      WinnerLeads(parents, part, rows, top, x);
    }
    var rest := Outside(mine, top);
    forall h: Hit ensures multiset(top)[h] + multiset(rest)[h] == multiset(mine)[h] {
      OutsideBag(mine, top, h);
      LeaderMember(parents, part, h);
      DistinctBag(top, h);
      DistinctBag(part, h);
      assert h in top <==> h in multiset(top);
      assert h in part <==> h in multiset(part);
    }
    forall z | z in rest ensures |top| == k && forall x :: x in top ==> !Before(z, x) {
      assert z in multiset(rest);
      OutsideBag(mine, top, z);
      Loser(parents, part, rows, k, z);
    }
    if rest != [] {
      assert rest[0] in rest;
    }
    TopKPrefix(top, rest, mine, k);
  }

  /** A leader among the survivors that is not a winner has its parent's best row
      outside the winners too. */
  lemma Loser(parents: seq<nat>, part: seq<Hit>, rows: seq<Hit>, k: nat, z: Hit)
    requires multiset(part) <= multiset(rows)
    requires z in Leaders(parents, part) && z !in TopK(Leaders(parents, rows), k)
    requires forall x :: x in TopK(Leaders(parents, rows), k) ==> Leads(parents, part, x)
    ensures |TopK(Leaders(parents, rows), k)| == k
    ensures forall x :: x in TopK(Leaders(parents, rows), k) ==> !Before(z, x)
  {
    hide TopK, Leaders, ParentOf;
    var all := Leaders(parents, rows);
    var top := TopK(all, k);
    LeaderMember(parents, part, z);
    BagMember(part, rows, z);
    var y := HasLeader(parents, rows, z);
    LeaderMember(parents, rows, y);
    if y in top {
      OneLeader(parents, part, y, z);
    }
    TopKSize(all, k);
    if |top| < k {
      TopKWhole(all, k, y);
    }
    forall x | x in top ensures !Before(z, x) {
      TopKAhead(all, k, x, y);
    }
  }

  lemma WinnerLeads(parents: seq<nat>, part: seq<Hit>, rows: seq<Hit>, top: seq<Hit>, x: Hit)
    requires multiset(part) <= multiset(rows) && multiset(top) <= multiset(Leaders(parents, rows)) && x in top && x in part
    ensures Leads(parents, rows, x) && Leads(parents, part, x)
  {
    hide Leaders, ParentOf;
    BagMember(top, Leaders(parents, rows), x);
    LeaderMember(parents, rows, x);
    forall y | y in part ensures y in rows { BagMember(part, rows, y); }
  }

  lemma TopKWhole(rows: seq<Hit>, k: nat, y: Hit)
    requires |TopK(rows, k)| < k && y in rows
    ensures y in TopK(rows, k)
  {
    hide Sort;
    assert y in multiset(Sort(rows));
  }

  /** With external floors the scan returns the shard's own best parents exactly
      when the best row of each meets the floor of its chunk. */
  lemma CollapsedExact(parents: seq<nat>, chunks: seq<seq<Hit>>, floors: nat -> Option<int>, k: nat)
    requires Distinct(Flatten(chunks))
    ensures TopK(Leaders(parents, Survivors(chunks, floors, |chunks|)), k) == TopK(Leaders(parents, Flatten(chunks)), k) <==>
            WinnersMeetFloors(parents, chunks, floors, k)
  {
    hide TopK, Leaders, Passes, Survivors, Flatten, Distinct;
    var rows, kept := Flatten(chunks), Survivors(chunks, floors, |chunks|);
    if TopK(Leaders(parents, kept), k) == TopK(Leaders(parents, rows), k) {
      WinnersNecessary(parents, chunks, floors, k);
    }
    if WinnersMeetFloors(parents, chunks, floors, k) {
      SurvivorBag(chunks, floors, |chunks|);
      assert chunks[..|chunks|] == chunks;
      TopKSize(Leaders(parents, rows), k);
      LeadersBag(parents, rows);
      forall x | x in TopK(Leaders(parents, rows), k) ensures x in kept {
        BagMember(TopK(Leaders(parents, rows), k), rows, x);
        FlattenMember(chunks, x);
        SurvivorMember(chunks, floors, |chunks|, x);
      }
      SurvivingWinners(parents, kept, rows, k);
    }
  }
}
