/** The bounded heap that keeps the best `depth` of a stream (`TopSlots` of
    src/node.rs, `top_k` of examples/exact_rerank_scale.rs, the heap pass of
    examples/boolean_walk.rs). The binary heap is the bag of its entries with
    the worst one on top. */
module HeapTopK {
  import opened Options
  import opened Ranking

  /** What one offer does to the kept entries, over their sorted list. */
  lemma {:induction false} KeepCases(best: seq<Hit>, x: Hit, k: nat)
    requires Sorted(best) && |best| <= k
    ensures |best| < k ==> multiset(Keep(best, x, k)) == multiset(best) + multiset{x}
    ensures |best| == k && k > 0 && Before(x, best[k - 1]) ==>
              multiset(Keep(best, x, k)) == multiset(best) - multiset{best[k - 1]} + multiset{x}
    ensures |best| == k && (k == 0 || !Before(x, best[k - 1])) ==> Keep(best, x, k) == best
  {
    InsertBag(x, best);
    if |best| == k && k > 0 {
      if Before(x, best[k - 1]) {
        InsertLast(best, x);
        var r := Insert(x, best);
        assert r == r[..k] + [r[k]];
        assert multiset(r) == multiset(r[..k]) + multiset{best[k - 1]};
        assert best[k - 1] in multiset(best);
        assert multiset(r[..k]) == multiset(best) + multiset{x} - multiset{best[k - 1]};
      } else {
        InsertAtEnd(best, x);
      }
    }
  }

  lemma {:induction false} InsertLast(best: seq<Hit>, x: Hit)
    requires Sorted(best) && best != [] && Before(x, best[|best| - 1])
    ensures |Insert(x, best)| == |best| + 1 && Insert(x, best)[|best|] == best[|best| - 1]
  {
    if !Before(x, best[0]) {
      InsertLast(best[1..], x);
    }
  }

  lemma {:induction false} InsertAtEnd(best: seq<Hit>, x: Hit)
    requires Sorted(best) && (best == [] || !Before(x, best[|best| - 1]))
    ensures Insert(x, best) == best + [x]
  {
    if best != [] {
      assert |best| > 1 ==> !Before(best[|best| - 1], best[0]);
      InsertAtEnd(best[1..], x);
    }
  }

  /** `peek`: the worst entry, the last of the sorted list. */
  method Peek(heap: multiset<Hit>, ghost best: seq<Hit>) returns (worst: Hit)
    requires heap == multiset(best) && Sorted(best) && best != []
    ensures worst == best[|best| - 1]
  {
    ghost var last := best[|best| - 1];
    assert last in heap;
    forall h | h in heap ensures !Before(last, h) {
      var i :| 0 <= i < |best| && best[i] == h;
    }
    worst :| worst in heap && forall h :: h in heap ==> !Before(worst, h);
    ghost var i :| 0 <= i < |best| && best[i] == worst;
    assert !Before(worst, last) && (i < |best| - 1 ==> !Before(last, best[i]));
  }

  /** The best `depth` of the entries offered so far. */
  class TopSlots {
    const depth: nat
    var heap: multiset<Hit>
    ghost var offered: seq<Hit>

    ghost predicate Valid()
      reads this
    {
      heap == multiset(TopK(offered, depth))
    }

    constructor (depth: nat)
      ensures Valid() && this.depth == depth && offered == []
    {
      this.depth := depth;
      heap := multiset{};
      offered := [];
    }

    /** Keeps the entry if it is among the best. */
    method Admit(entry: Hit)
      requires Valid()
      modifies this
      ensures Valid() && offered == old(offered) + [entry]
    {
      hide TopK, Keep, Before, Sorted;
      ghost var best := TopK(offered, depth);
      TopKSize(offered, depth);
      TopKStep(offered, entry, depth);
      KeepCases(best, entry, depth);
      if |heap| < depth {
        heap := heap + multiset{entry};
      } else if heap != multiset{} {
        var worst := Peek(heap, best);
        if Before(entry, worst) {
          heap := heap - multiset{worst} + multiset{entry};
        }
      }
      offered := offered + [entry];
    }

    /** Offers one entry; once the heap is full the answer is the k-th best
        score, or no bound at depth zero. */
    method Offer(entry: Hit) returns (full: bool, cutoff: Option<int>)
      requires Valid()
      modifies this
      ensures Valid() && offered == old(offered) + [entry]
      ensures full <==> |offered| >= depth
      ensures full && depth > 0 ==> |TopK(offered, depth)| == depth && cutoff == Some(TopK(offered, depth)[depth - 1].score)
      ensures !full || depth == 0 ==> cutoff == None
    {
      hide TopK, Before, Sorted;
      Admit(entry);
      TopKSize(offered, depth);
      full, cutoff := |heap| == depth, None;
      if full && heap != multiset{} {
        var worst := Peek(heap, TopK(offered, depth));
        cutoff := Some(worst.score);
      }
    }

    /** The kept entries, collected in heap order and sorted. */
    method IntoSorted() returns (ranked: seq<Hit>)
      requires Valid()
      ensures ranked == TopK(offered, depth)
    {
      var rest := heap;
      var list: seq<Hit> := [];
      while rest != multiset{}
        invariant rest + multiset(list) == heap
        decreases |rest|
      {
        var h :| h in rest;
        list := list + [h];
        rest := rest - multiset{h};
      }
      TopKSize(offered, depth);
      SortedUnique(Sort(list), TopK(offered, depth));
      ranked := Sort(list);
    }
  }

  /** The whole pass: whatever the input order, the first entries of the full sort.
      A heap without room panics on the first entry. */
  method HeapTopK(scored: seq<Hit>, k: nat) returns (ranked: Result<seq<Hit>>)
    ensures ranked.Refused? <==> k == 0 && scored != []
    ensures ranked.Ok? ==> ranked.value == TopK(scored, k)
  {
    hide TopK;
    if k == 0 && scored != [] {
      return Refused;
    }
    var top := new TopSlots(k);
    for i := 0 to |scored|
      invariant top.Valid() && top.depth == k && top.offered == scored[..i]
    {
      var _, _ := top.Offer(scored[i]);
      assert scored[..i + 1] == scored[..i] + [scored[i]];
    }
    assert scored[..|scored|] == scored;
    var sorted := top.IntoSorted();
    ranked := Ok(sorted);
  }
}
