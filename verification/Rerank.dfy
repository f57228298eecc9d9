/** Candidate depth and exact rerank (examples/exact_rerank_scale.rs): how deep
    into a native ranking the exact neighbours lie, and what reranking a prefix
    of it by exact score returns. */
module Rerank {
  import opened Ranking

  /** The native ranking lists every row once. */
  ghost predicate Permutation(native: seq<nat>, n: nat) {
    && |native| == n
    && (forall r :: 0 <= r < n ==> native[r] < n)
    && (forall q, r :: 0 <= q < r < n ==> native[q] != native[r])
    && (forall id :: 0 <= id < n ==> id in native)
  }

  // ----- ranks -----

  /** The rank inversion of `analyze_query`: one-based rank by id. */
  method RankById(native: seq<nat>, n: nat) returns (rankById: array<nat>)
    requires Permutation(native, n)
    ensures fresh(rankById) && rankById.Length == n
    ensures forall r :: 0 <= r < n ==> rankById[native[r]] == r + 1
  {
    rankById := new nat[n](_ => 0);
    for r := 0 to n
      invariant forall q :: 0 <= q < r ==> rankById[native[q]] == q + 1
    {
      rankById[native[r]] := r + 1;
    }
  }

  function InsertNat(x: nat, s: seq<nat>): seq<nat> {
    if s == [] || x <= s[0] then [x] + s else [s[0]] + InsertNat(x, s[1..])
  }

  /** `sort_unstable` on ranks. */
  function SortNat(s: seq<nat>): (r: seq<nat>)
    ensures |r| == |s|
  {
    if s == [] then []
    else
      InsertNatCount(s[|s| - 1], SortNat(s[..|s| - 1]), 0);
      InsertNat(s[|s| - 1], SortNat(s[..|s| - 1]))
  }

  ghost predicate Ascending(s: seq<nat>) {
    forall i, j :: 0 <= i < j < |s| ==> s[i] <= s[j]
  }

  /** How many entries are at most `d`. */
  function CountUpTo(s: seq<nat>, d: nat): nat {
    if s == [] then 0 else CountUpTo(s[..|s| - 1], d) + if s[|s| - 1] <= d then 1 else 0
  }

  lemma {:induction false} InsertNatCount(x: nat, s: seq<nat>, d: nat)
    ensures CountUpTo(InsertNat(x, s), d) == CountUpTo(s, d) + if x <= d then 1 else 0
    ensures |InsertNat(x, s)| == |s| + 1
  {
    if s == [] || x <= s[0] {
      CountCons(x, s, d);
    } else {
      InsertNatCount(x, s[1..], d);
      CountCons(s[0], s[1..], d);
      CountCons(s[0], InsertNat(x, s[1..]), d);
      assert s == [s[0]] + s[1..];
    }
  }

  lemma {:induction false} CountCons(x: nat, s: seq<nat>, d: nat)
    ensures CountUpTo([x] + s, d) == CountUpTo(s, d) + if x <= d then 1 else 0
  {
    var all := [x] + s;
    if s == [] {
      assert all[..0] == [];
    } else {
      CountCons(x, s[..|s| - 1], d);
      assert all[..|all| - 1] == [x] + s[..|s| - 1];
    }
  }

  lemma {:induction false} InsertNatAscending(x: nat, s: seq<nat>)
    requires Ascending(s)
    ensures Ascending(InsertNat(x, s))
    ensures forall y :: y in InsertNat(x, s) <==> y == x || y in s
  {
    if !(s == [] || x <= s[0]) {
      InsertNatAscending(x, s[1..]);
      var rest := InsertNat(x, s[1..]);
      forall j | 0 <= j < |rest| ensures s[0] <= rest[j] { assert rest[j] in rest; }
    }
  }

  lemma {:induction false} SortNatFacts(s: seq<nat>, d: nat)
    ensures |SortNat(s)| == |s| && Ascending(SortNat(s)) && CountUpTo(SortNat(s), d) == CountUpTo(s, d)
  {
    if s != [] {
      var init := SortNat(s[..|s| - 1]);
      SortNatFacts(s[..|s| - 1], d);
      InsertNatCount(s[|s| - 1], init, d);
      InsertNatAscending(s[|s| - 1], init);
    }
  }

  /** In an ascending list, the entries at most `d` are a prefix. */
  lemma {:induction false} CountIsPrefix(s: seq<nat>, d: nat, i: nat)
    requires Ascending(s) && i < |s|
    ensures s[i] <= d <==> i < CountUpTo(s, d)
    ensures CountUpTo(s, d) <= |s|
  {
    var init := s[..|s| - 1];
    if i < |s| - 1 {
      CountIsPrefix(init, d, i);
      if s[|s| - 1] <= d {
        CountIsPrefix(init, d, |init| - 1);
        assert init[|init| - 1] <= s[|s| - 1];
      }
    } else if init != [] {
      CountIsPrefix(init, d, |init| - 1);
      assert init[|init| - 1] <= s[i];
    }
  }

  // ----- the depth a recall target needs -----

  function Ceil(x: real): int {
    -((-x).Floor)
  }

  /** The number of neighbours a recall target asks for, clamped to `1..=len`. */
  function Needed(len: nat, target: real): (needed: nat)
    requires len > 0
    ensures 1 <= needed <= len
    ensures target == 1.0 ==> needed == len
    ensures 0.0 <= target <= 1.0 ==> needed as real >= len as real * target
  {
    var c := Ceil(len as real * target);
    if c < 1 then 1 else if c > len then len else c
  }

  function RankNeeded(sortedRanks: seq<nat>, target: real): nat
    requires sortedRanks != []
  {
    sortedRanks[Needed(|sortedRanks|, target) - 1]
  }

  /** How many of the exact neighbours the first `d` native rows contain. */
  ghost function HitsWithin(native: seq<nat>, exact: seq<nat>, d: nat): nat {
    if exact == [] then 0
    else HitsWithin(native, exact[..|exact| - 1], d) + if exact[|exact| - 1] in native[..if d < |native| then d else |native|] then 1 else 0
  }

  ghost function RankOf(native: seq<nat>, id: nat): nat
    requires id in native
  {
    var r :| 0 <= r < |native| && native[r] == id;
    r + 1
  }

  ghost function Ranks(native: seq<nat>, ids: seq<nat>): (ranks: seq<nat>)
    requires forall i :: 0 <= i < |ids| ==> ids[i] in native
    ensures |ranks| == |ids| && forall i :: 0 <= i < |ids| ==> ranks[i] == RankOf(native, ids[i])
  {
    seq(|ids|, i requires 0 <= i < |ids| => RankOf(native, ids[i]))
  }

  lemma {:induction false} HitsAreRanks(native: seq<nat>, n: nat, exact: seq<nat>, d: nat)
    requires Permutation(native, n) && forall i :: 0 <= i < |exact| ==> exact[i] in native
    ensures HitsWithin(native, exact, d) == CountUpTo(Ranks(native, exact), d)
  {
    if exact != [] {
      var init, last := exact[..|exact| - 1], exact[|exact| - 1];
      HitsAreRanks(native, n, init, d);
      assert Ranks(native, exact)[..|init|] == Ranks(native, init);
      var r := RankOf(native, last) - 1;
      var prefix := native[..if d < n then d else n];
      assert native[r] == last && (r < d ==> prefix[r] == last);
      if last in prefix {
        var q :| 0 <= q < |prefix| && prefix[q] == last;
        assert native[q] == last;
      }
    }
  }

  /** The depth `rank_needed` answers is the least prefix of the native ranking
      holding the neighbours the target asks for. */
  lemma DepthIsLeast(native: seq<nat>, n: nat, exact: seq<nat>, target: real, d: nat)
    requires Permutation(native, n) && exact != [] && forall i :: 0 <= i < |exact| ==> exact[i] in native
    ensures HitsWithin(native, exact, d) >= Needed(|exact|, target)
       <==> d >= RankNeeded(SortNat(Ranks(native, exact)), target)
  {
    var ranks := Ranks(native, exact);
    HitsAreRanks(native, n, exact, d);
    SortNatFacts(ranks, d);
    CountIsPrefix(SortNat(ranks), d, Needed(|exact|, target) - 1);
  }

  /** The native ranks of the exact neighbours, read off the inversion. */
  method RelevantRanks(native: seq<nat>, n: nat, exact: seq<nat>) returns (ranks: seq<nat>)
    requires Permutation(native, n) && forall i :: 0 <= i < |exact| ==> exact[i] in native
    ensures ranks == Ranks(native, exact)
  {
    var rankById := RankById(native, n);
    ranks := [];
    for i := 0 to |exact|
      invariant |ranks| == i && forall j :: 0 <= j < i ==> ranks[j] == RankOf(native, exact[j])
    {
      assert exact[i] == native[RankOf(native, exact[i]) - 1];
      ranks := ranks + [rankById[exact[i]]];
    }
  }

  /** The measurement: the depth is a threshold for the hits the target asks for. */
  method MeasureDepth(native: seq<nat>, n: nat, exact: seq<nat>, target: real) returns (depth: nat)
    requires Permutation(native, n) && exact != [] && forall i :: 0 <= i < |exact| ==> exact[i] in native
    ensures forall d: nat :: d >= depth <==> HitsWithin(native, exact, d) >= Needed(|exact|, target)
  {
    hide RankNeeded, Needed;
    var ranks := RelevantRanks(native, n, exact);
    depth := RankNeeded(SortNat(ranks), target);
    forall d: nat ensures d >= depth <==> HitsWithin(native, exact, d) >= Needed(|exact|, target) {
      DepthIsLeast(native, n, exact, target, d);
    }
  }

  // ----- exact rerank of a prefix -----

  /** `score_slots`: each candidate with its exact score. */
  function Scored(score: nat -> int, ids: seq<nat>): (hits: seq<Hit>)
    ensures |hits| == |ids| && forall i :: 0 <= i < |ids| ==> hits[i] == Hit(score(ids[i]), ids[i])
  {
    seq(|ids|, i requires 0 <= i < |ids| => Hit(score(ids[i]), ids[i]))
  }

  function Ids(hits: seq<Hit>): (ids: seq<nat>)
    ensures |ids| == |hits| && forall i :: 0 <= i < |hits| ==> ids[i] == hits[i].id
  {
    seq(|hits|, i requires 0 <= i < |hits| => hits[i].id)
  }

  /** `exact_rerank_ids`: the candidates by exact score, best `k` ids. */
  function ExactRerank(score: nat -> int, candidates: seq<nat>, k: nat): seq<nat> {
    Ids(TopK(Scored(score, candidates), k))
  }

  function Slots(n: nat): (ids: seq<nat>)
    ensures |ids| == n && forall i :: 0 <= i < n ==> ids[i] == i
  {
    seq(n, i requires 0 <= i < n => i)
  }

  ghost predicate DistinctIds(ids: seq<nat>) {
    forall i, j :: 0 <= i < j < |ids| ==> ids[i] != ids[j]
  }

  lemma ScoredMember(score: nat -> int, ids: seq<nat>, h: Hit)
    ensures h in Scored(score, ids) <==> h.id in ids && h.score == score(h.id)
  {}

  lemma ScoredDistinct(score: nat -> int, ids: seq<nat>)
    requires DistinctIds(ids)
    ensures Distinct(Scored(score, ids))
  {}

  /** Distinct candidates score as a part of any rows that contain them. */
  lemma ScoredPart(score: nat -> int, part: seq<nat>, rows: seq<nat>)
    requires DistinctIds(part) && forall i :: 0 <= i < |part| ==> part[i] in rows
    ensures multiset(Scored(score, part)) <= multiset(Scored(score, rows))
  {
    hide Scored;
    var a, b := Scored(score, part), Scored(score, rows);
    forall h | h in a ensures h in b {
      ScoredMember(score, part, h);
      ScoredMember(score, rows, h);
    }
    ScoredDistinct(score, part);
    DistinctPart(a, b, a);
  }

  lemma {:induction false} AllHits(native: seq<nat>, exact: seq<nat>, d: nat)
    requires d <= |native|
    ensures HitsWithin(native, exact, d) <= |exact|
    ensures HitsWithin(native, exact, d) == |exact| <==> forall i :: 0 <= i < |exact| ==> exact[i] in native[..d]
  {
    if exact != [] {
      AllHits(native, exact[..|exact| - 1], d);
    }
  }

  /** The global exact top `k`, as ids. */
  function GlobalExact(score: nat -> int, n: nat, k: nat): seq<nat> {
    ExactRerank(score, Slots(n), k)
  }

  /** A rerank answers only candidates. */
  lemma RerankMembers(score: nat -> int, candidates: seq<nat>, k: nat)
    ensures |ExactRerank(score, candidates, k)| == if |candidates| < k then |candidates| else k
    ensures forall i :: 0 <= i < |ExactRerank(score, candidates, k)| ==> ExactRerank(score, candidates, k)[i] in candidates
  {
    hide TopK;
    var rows := Scored(score, candidates);
    var best := TopK(rows, k);
    TopKSize(rows, k);
    forall i | 0 <= i < |best| ensures best[i].id in candidates {
      assert best[i] in multiset(best) && best[i] in multiset(rows);
      ScoredMember(score, candidates, best[i]);
    }
  }

  /** Candidates that include every global winner rerank to the global answer. */
  lemma WinnersSuffice(score: nat -> int, part: seq<nat>, rows: seq<nat>, k: nat)
    requires DistinctIds(part) && DistinctIds(rows) && forall i :: 0 <= i < |part| ==> part[i] in rows
    requires forall i :: 0 <= i < |ExactRerank(score, rows, k)| ==> ExactRerank(score, rows, k)[i] in part
    ensures ExactRerank(score, part, k) == ExactRerank(score, rows, k)
  {
    hide TopK, Scored;
    var p, r := Scored(score, part), Scored(score, rows);
    var best := TopK(r, k);
    TopKSize(r, k);
    ScoredPart(score, part, rows);
    forall h | h in best ensures h in p {
      var i :| 0 <= i < |best| && best[i] == h;
      assert ExactRerank(score, rows, k)[i] == h.id;
      assert h in multiset(best) && h in multiset(r);
      ScoredMember(score, rows, h);
      ScoredMember(score, part, h);
    }
    ScoredDistinct(score, rows);
    DistinctPart(best, p, r);
    TopKOfPart(p, r, k);
  }

  /** Reranking a prefix gives the global answer exactly when it holds every
      global winner. */
  lemma RerankNeedsWinners(native: seq<nat>, n: nat, score: nat -> int, k: nat, d: nat)
    requires Permutation(native, n) && d <= n
    ensures ExactRerank(score, native[..d], k) == GlobalExact(score, n, k)
       <==> forall i :: 0 <= i < |GlobalExact(score, n, k)| ==> GlobalExact(score, n, k)[i] in native[..d]
  {
    hide ExactRerank;
    var prefix := native[..d];
    RerankMembers(score, prefix, k);
    if forall i :: 0 <= i < |GlobalExact(score, n, k)| ==> GlobalExact(score, n, k)[i] in prefix {
      forall i | 0 <= i < |prefix| ensures prefix[i] in Slots(n) { assert Slots(n)[prefix[i]] == prefix[i]; }
      var global := GlobalExact(score, n, k);
      forall i | 0 <= i < |ExactRerank(score, Slots(n), k)| ensures ExactRerank(score, Slots(n), k)[i] in prefix {
        assert global[i] in prefix;
      }
      WinnersSuffice(score, prefix, Slots(n), k);
    }
  }

  /** At full recall the measured depth is exactly where the rerank becomes
      global: at that depth and beyond it reproduces the exact top `k` in order,
      and every shorter prefix misses a member. */
  lemma FullRecallDepth(native: seq<nat>, n: nat, score: nat -> int, k: nat, d: nat)
    requires Permutation(native, n) && 0 < k <= n && d <= n
    ensures |GlobalExact(score, n, k)| == k && forall i :: 0 <= i < k ==> GlobalExact(score, n, k)[i] in native
    ensures ExactRerank(score, native[..d], k) == GlobalExact(score, n, k)
       <==> d >= RankNeeded(SortNat(Ranks(native, GlobalExact(score, n, k))), 1.0)
  {
    hide ExactRerank;
    var exact := GlobalExact(score, n, k);
    RerankMembers(score, Slots(n), k);
    RerankNeedsWinners(native, n, score, k, d);
    AllHits(native, exact, d);
    DepthIsLeast(native, n, exact, 1.0, d);
  }
}
