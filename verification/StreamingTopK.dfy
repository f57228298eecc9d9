/** The pruned streaming top-k loops of examples/fp32_recall.rs (push, evict the
    minimum, raise the floor) and examples/tei_rerank.rs (blocked heaps). */
module StreamingTopK {
  // Ties at the k-th score may keep either row, so what is promised is the bag of
  // kept scores: at every threshold, as many rows as the best `k` could have.

  import opened Options
  import opened Numbers
  import opened Ranking
  import opened ChunkScan

  /** `kept` is a best-`k` choice: no dropped row beats a kept one. */
  ghost predicate KeepsBest(rows: seq<Hit>, kept: seq<Hit>, k: nat) {
    && |kept| == Min(k, |rows|)
    && multiset(kept) <= multiset(rows)
    && forall d, x :: d in multiset(rows) - multiset(kept) && x in kept ==> d.score <= x.score
  }

  /** At every threshold the kept rows are as many as they could be; the kept
      scores are therefore the best `k` scores. */
  lemma KeptScores(rows: seq<Hit>, kept: seq<Hit>, k: nat, threshold: int)
    requires KeepsBest(rows, kept, k)
    ensures |AtOrAbove(kept, Some(threshold))| == Min(k, |AtOrAbove(rows, Some(threshold))|)
  {
    hide AtOrAbove;
    var t := Some(threshold);
    var high, all := AtOrAbove(kept, t), AtOrAbove(rows, t);
    FloorSplits(kept, t);
    FloorSplits(rows, t);
    forall h: Hit ensures multiset(high)[h] <= multiset(all)[h] {
      AtOrAboveBag(kept, t, h);
      AtOrAboveBag(rows, t, h);
    }
    BagSize(high, all);
    BagSize(high, kept) by { assert multiset(high) <= multiset(kept); }
    if |high| < |all| {
      var d := Extra(high, all);
      AtOrAboveBag(kept, t, d);
      AtOrAboveBag(rows, t, d);
      assert d in all by { assert d in multiset(all); }
      assert d in multiset(rows) - multiset(kept);
      forall h: Hit ensures multiset(high)[h] == multiset(kept)[h] {
        AtOrAboveBag(kept, t, h);
        assert h in multiset(kept) ==> h in kept && h.score >= d.score >= threshold;
      }
      BagSize(kept, high);
      if |kept| == |rows| {
        FullPart(kept, rows);
      }
    }
  }

  /** A smaller bag misses something. */
  lemma Extra(a: seq<Hit>, b: seq<Hit>) returns (d: Hit)
    requires |a| < |b|
    ensures multiset(a)[d] < multiset(b)[d]
  {
    if forall h: Hit :: multiset(b)[h] <= multiset(a)[h] {
      BagSize(b, a);
    }
    d :| multiset(a)[d] < multiset(b)[d];
  }

  lemma FullPart(a: seq<Hit>, b: seq<Hit>)
    requires multiset(a) <= multiset(b) && |a| == |b|
    ensures multiset(a) == multiset(b)
  {
    var rest := multiset(b) - multiset(a);
    assert multiset(b) == multiset(a) + rest;
    assert |multiset(a)| == |a| && |multiset(b)| == |b|;
    assert |rest| == 0;
  }

  /** What a part leaves of a bag, as a sequence. */
  lemma {:induction false} Remainder(rows: seq<Hit>, part: seq<Hit>) returns (rest: seq<Hit>)
    requires multiset(part) <= multiset(rows)
    ensures multiset(part) + multiset(rest) == multiset(rows)
  {
    if part == [] {
      return rows;
    }
    var init, x := part[..|part| - 1], part[|part| - 1];
    assert part == init + [x];
    assert multiset(part) == multiset(init) + multiset{x};
    var more := Remainder(rows, init);
    assert multiset(part)[x] == multiset(init)[x] + 1 && multiset(part)[x] <= multiset(rows)[x];
    assert multiset(rows)[x] == (multiset(init) + multiset(more))[x];
    assert x in multiset(more);
    var i :| 0 <= i < |more| && more[i] == x;
    rest := more[..i] + more[i + 1..];
    assert more == more[..i] + [x] + more[i + 1..];
  }

  /** Where no two rows tie, the kept rows are the canonical top-k. */
  lemma UntiedIsTopK(rows: seq<Hit>, hits: seq<Hit>, k: nat)
    requires KeepsBest(rows, hits, k) && Sorted(hits)
    requires forall i, j :: 0 <= i < j < |rows| ==> rows[i].score != rows[j].score
    ensures hits == TopK(rows, k)
  {
    hide Sort, Sorted, TopK;
    var rest := Remainder(rows, hits);
    forall x, y | x in hits && y in rest ensures !Before(y, x) {
      Untied(rows, hits, rest, x, y);
      assert y in multiset(rest);
      assert y in multiset(rows) - multiset(hits);
    }
    PrefixOfSort(hits, rest, rows);
    if |hits| < k {
      ShortTopK(rows, k, |hits|);
    }
  }

  lemma Untied(rows: seq<Hit>, a: seq<Hit>, b: seq<Hit>, x: Hit, y: Hit)
    requires forall i, j :: 0 <= i < j < |rows| ==> rows[i].score != rows[j].score
    requires multiset(a) + multiset(b) == multiset(rows) && x in a && y in b
    ensures x.score != y.score
  {
    DistinctBag(rows, x);
    assert x in multiset(a) && y in multiset(b);
    assert x != y;
    assert x in multiset(rows) && y in multiset(rows);
    assert x in rows && y in rows;
  }

  lemma ShortTopK(rows: seq<Hit>, k: nat, n: nat)
    requires |rows| <= n <= k
    ensures TopK(rows, k) == TopK(rows, n)
  {}

  /** A row no better than any kept row of a full choice may be dropped. */
  lemma DropRow(rows: seq<Hit>, kept: seq<Hit>, k: nat, x: Hit)
    requires KeepsBest(rows, kept, k) && |kept| == k && forall y :: y in kept ==> x.score <= y.score
    ensures KeepsBest(rows + [x], kept, k)
  {}

  /** A row joins a choice with room. */
  lemma AddRow(rows: seq<Hit>, kept: seq<Hit>, k: nat, x: Hit)
    requires KeepsBest(rows, kept, k) && |kept| < k
    ensures KeepsBest(rows + [x], kept + [x], k)
  {
    FullPart(kept, rows);
    assert multiset(rows + [x]) == multiset(kept + [x]);
  }

  /** A row replaces a weakest kept row it beats. */
  lemma SwapRow(rows: seq<Hit>, kept: seq<Hit>, k: nat, x: Hit, w: Hit, kept': seq<Hit>)
    requires KeepsBest(rows, kept, k) && |kept| == k && w in kept && forall y :: y in kept ==> w.score <= y.score
    requires w.score <= x.score && multiset(kept') == multiset(kept) - multiset{w} + multiset{x}
    ensures KeepsBest(rows + [x], kept', k)
  {
    assert multiset(rows + [x]) == multiset(rows) + multiset{x};
    assert w in multiset(kept);
    assert |multiset(kept')| == |kept'| && |multiset(kept)| == |kept|;
    forall d, y | d in multiset(rows + [x]) - multiset(kept') && y in kept' ensures d.score <= y.score {
      assert d in multiset(rows) - multiset(kept) || d == w;
      assert y in multiset(kept') && (y == x || y in multiset(kept));
    }
  }

  // ----- push, evict the minimum, raise the floor -----

  /** A probe's floor: minus infinity until the first eviction. */
  datatype Floor = NegInf | At(score: int) | PosInf {
    predicate Rejects(score: int) {
      this.PosInf? || (this.At? && score <= this.score)
    }
  }

  /** The floor never rejects a row the kept rows would want. */
  ghost predicate FloorOk(top: seq<Hit>, floor: Floor, k: nat) {
    || floor.NegInf?
    || (|top| == k && match floor
                      case PosInf => top == []
                      case At(score) => forall y :: y in top ==> score <= y.score)
  }

  method MinIndex(top: seq<Hit>) returns (mi: nat)
    requires top != []
    ensures mi < |top| && forall y :: y in top ==> top[mi].score <= y.score
  {
    mi := 0;
    for i := 1 to |top|
      invariant mi < |top| && forall j :: 0 <= j < i ==> top[mi].score <= top[j].score
    {
      if top[i].score < top[mi].score {
        mi := i;
      }
    }
  }

  /** `Vec::swap_remove`. */
  function SwapRemove(s: seq<Hit>, i: nat): seq<Hit>
    requires i < |s|
  {
    var last := |s| - 1;
    if i == last then s[..last] else s[..last][i := s[last]]
  }

  lemma SwapRemoveBag(s: seq<Hit>, i: nat)
    requires i < |s|
    ensures multiset(SwapRemove(s, i)) == multiset(s) - multiset{s[i]}
    ensures |SwapRemove(s, i)| == |s| - 1
  {
    var last := |s| - 1;
    assert s == s[..last] + [s[last]];
    assert s[i] in multiset(s);
    if i != last {
      var init := s[..last];
      assert init[i] in multiset(init);
      assert multiset(init[i := s[last]]) == multiset(init) - multiset{init[i]} + multiset{s[last]};
    }
  }

  /** The floor after an eviction: the minimum, folded from plus infinity. */
  method RaisedFloor(top: seq<Hit>) returns (floor: Floor)
    ensures !floor.NegInf? && FloorOk(top, floor, |top|)
  {
    floor := PosInf;
    for i := 0 to |top|
      invariant !floor.NegInf? && (floor.PosInf? ==> i == 0)
      invariant floor.At? ==> forall j :: 0 <= j < i ==> floor.score <= top[j].score
    {
      if floor.PosInf? || top[i].score < floor.score {
        floor := At(top[i].score);
      }
    }
  }

  /** Pushing `x` and evicting a minimum of the `k + 1` rows. */
  method PushEvict(top: seq<Hit>, k: nat, x: Hit, ghost rows: seq<Hit>) returns (next: seq<Hit>)
    requires KeepsBest(rows, top, k) && |top| == k
    ensures KeepsBest(rows + [x], next, k) && |next| == k
  {
    hide KeepsBest, SwapRemove;
    var pushed := top + [x];
    var mi := MinIndex(pushed);
    next := SwapRemove(pushed, mi);
    SwapRemoveBag(pushed, mi);
    Evicted(rows, top, k, x, mi, next);
  }

  lemma Evicted(rows: seq<Hit>, top: seq<Hit>, k: nat, x: Hit, mi: nat, next: seq<Hit>)
    requires KeepsBest(rows, top, k) && |top| == k && mi <= k
    requires forall y :: y in top + [x] ==> (top + [x])[mi].score <= y.score
    requires multiset(next) == multiset(top + [x]) - multiset{(top + [x])[mi]}
    ensures KeepsBest(rows + [x], next, k)
  {
    hide KeepsBest;
    var w := (top + [x])[mi];
    forall y | y in top ensures w.score <= y.score { assert y in top + [x]; }
    assert x in top + [x];
    if mi == k {
      assert multiset(next) == multiset(top);
      DropRow(rows, top, k, x);
      SameBag(rows + [x], top, next, k);
    } else {
      EvictedBag(top, x, w, next) by { assert w == top[mi]; }
      SwapRow(rows, top, k, x, w, next);
    }
  }

  lemma EvictedBag(top: seq<Hit>, x: Hit, w: Hit, next: seq<Hit>)
    requires w in top && multiset(next) == multiset(top + [x]) - multiset{w}
    ensures multiset(next) == multiset(top) - multiset{w} + multiset{x}
  {}

  /** One row against one probe. */
  method PushRow(top: seq<Hit>, floor: Floor, k: nat, x: Hit, ghost rows: seq<Hit>) returns (top': seq<Hit>, floor': Floor)
    requires KeepsBest(rows, top, k) && FloorOk(top, floor, k)
    ensures KeepsBest(rows + [x], top', k) && FloorOk(top', floor', k)
    ensures floor.Rejects(x.score) ==> top' == top && floor' == floor
  {
    hide KeepsBest;
    KeptSize(rows, top, k);
    if floor.Rejects(x.score) {
      DropRow(rows, top, k, x);
      return top, floor;
    }
    if |top| + 1 > k {
      top' := PushEvict(top, k, x, rows);
      floor' := RaisedFloor(top');
    } else {
      AddRow(rows, top, k, x);
      top', floor' := top + [x], floor;
    }
  }

  lemma KeptSize(rows: seq<Hit>, kept: seq<Hit>, k: nat)
    requires KeepsBest(rows, kept, k)
    ensures |kept| <= k
  {}

  lemma SameBag(rows: seq<Hit>, a: seq<Hit>, b: seq<Hit>, k: nat)
    requires KeepsBest(rows, a, k) && multiset(a) == multiset(b)
    ensures KeepsBest(rows, b, k)
  {}

  /** The rows of one probe or query: `score` of every file row, ids in file order. */
  ghost function RowsOf(score: nat -> int, n: nat): (rows: seq<Hit>)
    ensures |rows| == n && forall i :: 0 <= i < n ==> rows[i] == Hit(score(i), i)
  {
    seq(n, i requires 0 <= i < n => Hit(score(i), i))
  }

  lemma RowsStep(score: nat -> int, n: nat)
    ensures RowsOf(score, n + 1) == RowsOf(score, n) + [Hit(score(n), n)]
  {}

  /** `fp32_topk` for one probe over `n` records. */
  method Fp32TopK(score: nat -> int, n: nat, k: nat) returns (hits: seq<Hit>)
    ensures Sorted(hits) && KeepsBest(RowsOf(score, n), hits, k)
  {
    hide KeepsBest, FloorOk, Sorted;
    var top: seq<Hit>, floor := [], NegInf;
    assert KeepsBest(RowsOf(score, 0), [], k) && FloorOk(top, floor, k) by { StartEmpty(score, k); }
    for idx := 0 to n
      invariant KeepsBest(RowsOf(score, idx), top, k) && FloorOk(top, floor, k)
    {
      RowsStep(score, idx);
      top, floor := PushRow(top, floor, k, Hit(score(idx), idx), RowsOf(score, idx));
    }
    hits := Sort(top);
    SameBag(RowsOf(score, n), top, hits, k);
  }

  lemma StartEmpty(score: nat -> int, k: nat)
    ensures KeepsBest(RowsOf(score, 0), [], k) && FloorOk([], NegInf, k)
  {}

  // ----- blocked scan, one heap per query -----

  /** The heap root: the weakest score, the lowest id among ties. */
  function Root(heap: seq<Hit>): (r: nat)
    requires heap != []
    ensures r < |heap|
    ensures forall j :: 0 <= j < |heap| ==>
              heap[r].score < heap[j].score || (heap[r].score == heap[j].score && heap[r].id <= heap[j].id)
  {
    var last := |heap| - 1;
    if last == 0 then 0
    else
      var r := Root(heap[..last]);
      assert heap[..last][r] == heap[r];
      if heap[last].score < heap[r].score || (heap[last].score == heap[r].score && heap[last].id < heap[r].id) then last else r
  }

  /** One row against one heap of at most `k > 0`. */
  function Offer(heap: seq<Hit>, k: nat, x: Hit): seq<Hit> {
    if |heap| < k then heap + [x]
    else if heap == [] || x.score <= heap[Root(heap)].score then heap
    else SwapRemove(heap, Root(heap)) + [x]
  }

  /** The rows offered in turn. */
  function Fold(rows: seq<Hit>, k: nat): seq<Hit> {
    if rows == [] then [] else Offer(Fold(rows[..|rows| - 1], k), k, rows[|rows| - 1])
  }

  lemma OfferKeeps(rows: seq<Hit>, heap: seq<Hit>, k: nat, x: Hit)
    requires k > 0 && KeepsBest(rows, heap, k)
    ensures KeepsBest(rows + [x], Offer(heap, k, x), k)
  {
    hide KeepsBest, SwapRemove;
    KeptSize(rows, heap, k);
    if |heap| < k {
      AddRow(rows, heap, k, x);
    } else if x.score > heap[Root(heap)].score {
      SwapRemoveBag(heap, Root(heap));
      SwapRow(rows, heap, k, x, heap[Root(heap)], Offer(heap, k, x));
    } else {
      DropRow(rows, heap, k, x);
    }
  }

  lemma NoneKept(k: nat)
    ensures KeepsBest([], [], k)
  {}

  /** What a heap ends with is a best-`k` choice of the rows it was offered. */
  lemma {:induction false} FoldKeeps(rows: seq<Hit>, k: nat)
    requires k > 0
    ensures KeepsBest(rows, Fold(rows, k), k)
  {
    hide KeepsBest, Offer;
    if rows == [] {
      NoneKept(k);
    } else {
      var init := rows[..|rows| - 1];
      FoldKeeps(init, k);
      OfferKeeps(init, Fold(init, k), k, rows[|rows| - 1]);
      assert init + [rows[|rows| - 1]] == rows;
    }
  }

  /** Every score is known from the query and the row. */
  type Scores = (nat, nat) -> int

  ghost function QueryRows(score: Scores, q: nat, n: nat): seq<Hit> {
    RowsOf((row: nat) => score(q, row), n)
  }

  /** A query's heap after `n` rows. */
  ghost function Pool(score: Scores, q: nat, n: nat, k: nat): seq<Hit> {
    Fold(QueryRows(score, q, n), k)
  }

  lemma PoolStep(score: Scores, q: nat, n: nat, k: nat)
    ensures Pool(score, q, n + 1, k) == Offer(Pool(score, q, n, k), k, Hit(score(q, n), n))
  {
    hide Offer;
    var rows, next := QueryRows(score, q, n), QueryRows(score, q, n + 1);
    assert next[..n] == rows && next[n] == Hit(score(q, n), n);
  }

  /** The heaps `[lo, hi)` have seen `after` rows, the others `before`. */
  ghost predicate Pooled(score: Scores, k: nat, heaps: seq<seq<Hit>>, lo: nat, hi: nat, before: nat, after: nat) {
    forall q :: 0 <= q < |heaps| ==> heaps[q] == Pool(score, q, if lo <= q < hi then after else before, k)
  }

  /** One thread's queries against a block of rows. */
  method ScanSlice(score: Scores, k: nat, base: nat, rows: nat, heaps: seq<seq<Hit>>, lo: nat, hi: nat)
    returns (next: seq<seq<Hit>>)
    requires lo <= hi <= |heaps| && Pooled(score, k, heaps, 0, lo, base, base + rows)
    ensures |next| == |heaps| && Pooled(score, k, next, 0, hi, base, base + rows)
  {
    hide Pool, Offer;
    next := heaps;
    for row := 0 to rows
      invariant |next| == |heaps|
      invariant forall q :: 0 <= q < |heaps| ==>
                  next[q] == Pool(score, q, if q < lo then base + rows else if q < hi then base + row else base, k)
    {
      var gid := base + row;
      for q := lo to hi
        invariant |next| == |heaps|
        invariant forall p :: 0 <= p < |heaps| ==>
                    next[p] == Pool(score, p, if p < lo then base + rows else if p < q then gid + 1
                                              else if p < hi then gid else base, k)
      {
        PoolStep(score, q, gid, k);
        next := next[q := Offer(next[q], k, Hit(score(q, gid), gid))];
      }
    }
  }

  /** One block of rows, the queries split over threads. */
  method ScanBlock(score: Scores, k: nat, base: nat, rows: nat, heaps: seq<seq<Hit>>, perThread: nat)
    returns (next: seq<seq<Hit>>)
    requires perThread > 0 && Pooled(score, k, heaps, 0, 0, base, base)
    ensures |next| == |heaps| && Pooled(score, k, next, 0, 0, base + rows, base + rows)
  {
    hide Pool;
    next := heaps;
    var lo := 0;
    while lo < |heaps|
      invariant lo <= |heaps| == |next| && Pooled(score, k, next, 0, lo, base, base + rows)
      decreases |heaps| - lo
    {
      var hi := if |heaps| - lo < perThread then |heaps| else lo + perThread;
      next := ScanSlice(score, k, base, rows, next, lo, hi);
      lo := hi;
    }
  }

  function DivCeil(a: nat, b: nat): (r: nat)
    requires b > 0
    ensures r > 0 <==> a > 0
  {
    if a % b == 0 then a / b else a / b + 1
  }

  /** `exact_pools`: however the rows are blocked and the queries are split over
      threads, every query ends with the heap of its own rows in file order,
      sorted. It panics exactly when there is a row and no query or no room. */
  method ExactPools(score: Scores, n: nat, queries: nat, k: nat, blockRows: nat, threads: nat)
    returns (pools: Result<seq<seq<Hit>>>)
    requires blockRows > 0 && threads > 0
    ensures pools.Refused? <==> n > 0 && (queries == 0 || k == 0)
    ensures pools.Ok? ==> |pools.value| == queries
    ensures pools.Ok? ==> forall q :: 0 <= q < queries ==> pools.value[q] == Sort(Pool(score, q, n, k))
    ensures pools.Ok? && k > 0 ==>
              forall q :: 0 <= q < queries ==> Sorted(pools.value[q]) && KeepsBest(QueryRows(score, q, n), pools.value[q], k)
  {
    hide KeepsBest, Sorted, Pool, Sort, DivCeil, QueryRows;
    if n > 0 && (queries == 0 || k == 0) {
      return Refused;
    }
    var heaps: seq<seq<Hit>> := seq(queries, _ => []);
    forall q | 0 <= q < queries ensures Pool(score, q, 0, k) == [] { NoPool(score, q, k); }
    var perThread := DivCeil(queries, threads);
    var base := 0;
    while base < n
      invariant base <= n && |heaps| == queries && Pooled(score, k, heaps, 0, 0, base, base)
      decreases n - base
    {
      var rows := if n - base < blockRows then n - base else blockRows;
      heaps := ScanBlock(score, k, base, rows, heaps, perThread);
      base := base + rows;
    }
    var sorted := [];
    for q := 0 to queries
      invariant |sorted| == q
      invariant forall p :: 0 <= p < q ==> sorted[p] == Sort(Pool(score, p, n, k))
    {
      sorted := sorted + [Sort(heaps[q])];
    }
    if k > 0 {
      forall q | 0 <= q < queries ensures Sorted(sorted[q]) && KeepsBest(QueryRows(score, q, n), sorted[q], k) {
        PoolKeeps(score, q, n, k);
      }
    }
    pools := Ok(sorted);
  }

  lemma NoPool(score: Scores, q: nat, k: nat)
    ensures Pool(score, q, 0, k) == []
  {}

  lemma PoolKeeps(score: Scores, q: nat, n: nat, k: nat)
    requires k > 0
    ensures Sorted(Sort(Pool(score, q, n, k))) && KeepsBest(QueryRows(score, q, n), Sort(Pool(score, q, n, k)), k)
  {
    hide KeepsBest, Sorted, Sort, Fold;
    FoldKeeps(QueryRows(score, q, n), k);
    SameBag(QueryRows(score, q, n), Pool(score, q, n, k), Sort(Pool(score, q, n, k)), k);
  }
}
