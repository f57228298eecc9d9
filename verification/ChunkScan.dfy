/** One query's chunked scan (src/chunked.rs): each chunk is searched above a
    floor and its hits are merged into the running best. */
module ChunkScan {
  import opened Options
  import opened Ranking

  // ----- floors -----

  predicate Passes(h: Hit, floor: Option<int>) {
    floor.None? || h.score >= floor.value
  }

  /** The rows scoring at least the floor, in order; no floor keeps every row. */
  function AtOrAbove(s: seq<Hit>, floor: Option<int>): seq<Hit> {
    if s == [] then []
    else AtOrAbove(s[..|s| - 1], floor) + if Passes(s[|s| - 1], floor) then [s[|s| - 1]] else []
  }

  function Higher(a: Option<int>, b: Option<int>): Option<int> {
    if a.None? then b else if b.None? || a.value >= b.value then a else b
  }

  lemma {:induction false} AtOrAboveBag(s: seq<Hit>, floor: Option<int>, h: Hit)
    ensures multiset(AtOrAbove(s, floor))[h] == if Passes(h, floor) then multiset(s)[h] else 0
  {
    if s != [] {
      var init, x := s[..|s| - 1], s[|s| - 1];
      AtOrAboveBag(init, floor, h);
      assert multiset(s) == multiset(init) + multiset{x} by { assert s == init + [x]; }
      var kept := if Passes(x, floor) then [x] else [];
      assert multiset(AtOrAbove(s, floor)) == multiset(AtOrAbove(init, floor)) + multiset(kept);
    }
  }

  lemma AtOrAboveMember(s: seq<Hit>, floor: Option<int>, h: Hit)
    ensures h in AtOrAbove(s, floor) <==> h in s && Passes(h, floor)
  {}

  lemma {:induction false} AtOrAboveJoin(a: seq<Hit>, b: seq<Hit>, floor: Option<int>)
    ensures AtOrAbove(a + b, floor) == AtOrAbove(a, floor) + AtOrAbove(b, floor)
  {
    if b == [] {
      assert a + b == a;
    } else {
      AtOrAboveJoin(a, b[..|b| - 1], floor);
      assert (a + b)[..|a + b| - 1] == a + b[..|b| - 1];
    }
  }

  // ----- sorted prefixes -----

  /** A sorted list with nothing outside it ranking ahead is a prefix of the sort. */
  lemma PrefixOfSort(head: seq<Hit>, rest: seq<Hit>, rows: seq<Hit>)
    requires Sorted(head) && multiset(head) + multiset(rest) == multiset(rows)
    requires forall x, y :: x in head && y in rest ==> !Before(y, x)
    ensures Sort(rows) == head + Sort(rest)
    ensures TopK(rows, |head|) == head
  {
    hide Sort;
    var tail := Sort(rest);
    forall y | y in tail ensures y in rest { assert y in multiset(tail); }
    SortedUnique(Sort(rows), head + tail);
  }

  /** The rows under the floor. */
  ghost function Under(s: seq<Hit>, floor: Option<int>): seq<Hit> {
    if s == [] then []
    else Under(s[..|s| - 1], floor) + if Passes(s[|s| - 1], floor) then [] else [s[|s| - 1]]
  }

  lemma {:induction false} UnderBag(s: seq<Hit>, floor: Option<int>, h: Hit)
    ensures multiset(Under(s, floor))[h] == if Passes(h, floor) then 0 else multiset(s)[h]
  {
    if s != [] {
      var init, x := s[..|s| - 1], s[|s| - 1];
      UnderBag(init, floor, h);
      assert multiset(s) == multiset(init) + multiset{x} by { assert s == init + [x]; }
      var kept := if Passes(x, floor) then [] else [x];
      assert multiset(Under(s, floor)) == multiset(Under(init, floor)) + multiset(kept);
    }
  }

  lemma FloorSplits(s: seq<Hit>, floor: Option<int>)
    ensures multiset(AtOrAbove(s, floor)) + multiset(Under(s, floor)) == multiset(s)
    ensures forall h :: h in AtOrAbove(s, floor) ==> Passes(h, floor)
    ensures forall h :: h in Under(s, floor) ==> !Passes(h, floor)
  {
    hide AtOrAbove, Under, Passes;
    forall h: Hit
      ensures multiset(AtOrAbove(s, floor))[h] + multiset(Under(s, floor))[h] == multiset(s)[h]
      ensures h in AtOrAbove(s, floor) ==> Passes(h, floor)
      ensures h in Under(s, floor) ==> !Passes(h, floor)
    {
      AtOrAboveBag(s, floor, h);
      UnderBag(s, floor, h);
      assert h in AtOrAbove(s, floor) ==> h in multiset(AtOrAbove(s, floor));
      assert h in Under(s, floor) ==> h in multiset(Under(s, floor));
    }
  }

  /** Scores at or above a floor sort ahead of those below. */
  lemma FloorPrefix(s: seq<Hit>, floor: Option<int>, k: nat)
    ensures TopK(AtOrAbove(s, floor), k) <= TopK(s, k)
    ensures forall h :: h in TopK(AtOrAbove(s, floor), k) ==> Passes(h, floor)
  {
    hide Sort, AtOrAbove, Under;
    FloorSplits(s, floor);
    var sorted := Sort(AtOrAbove(s, floor));
    forall h | h in sorted ensures h in AtOrAbove(s, floor) { assert h in multiset(sorted); }
    PrefixOfSort(sorted, Under(s, floor), s);
  }

  // ----- one chunk -----

  /** The best `k` after one chunk searched above the external floor. */
  function ChunkStep(heap: seq<Hit>, chunk: seq<Hit>, external: Option<int>, k: nat): seq<Hit> {
    TopK(heap + AtOrAbove(chunk, external), k)
  }

  /** The local k-th best is a safe floor: raising the floor to it changes nothing. */
  lemma LocalFloorIsFree(heap: seq<Hit>, chunk: seq<Hit>, external: Option<int>, k: nat)
    requires k > 0 && |heap| == k && Sorted(heap)
    ensures TopK(heap + AtOrAbove(chunk, Higher(external, Some(heap[k - 1].score))), k) == ChunkStep(heap, chunk, external, k)
  {
    hide Sort, AtOrAbove;
    var floor := Higher(external, Some(heap[k - 1].score));
    var rows, part := heap + AtOrAbove(chunk, external), heap + AtOrAbove(chunk, floor);
    TopKAboveFloor(rows, k, heap, heap[k - 1].score);
    TopKSize(rows, k);
    forall h: Hit
      ensures multiset(part)[h] <= multiset(rows)[h]
      ensures multiset(TopK(rows, k))[h] <= multiset(part)[h]
    {
      AtOrAboveBag(chunk, external, h);
      AtOrAboveBag(chunk, floor, h);
      if h in multiset(TopK(rows, k)) {
        assert h in TopK(rows, k);
      }
    }
    TopKOfPart(part, rows, k);
  }

  /** What one query keeps of a shared kernel call (lower floor `shared`, larger
      `cut`) is, up to `cut`, what its own call above its own floor finds. */
  lemma SharedCall(chunk: seq<Hit>, floor: Option<int>, shared: Option<int>, cut: nat)
    requires Higher(floor, shared) == floor
    ensures TopK(AtOrAbove(TopK(AtOrAbove(chunk, shared), cut), floor), cut) == TopK(AtOrAbove(chunk, floor), cut)
  {
    hide Sort, AtOrAbove, TopK;
    var x := AtOrAbove(chunk, shared);
    var p, y := TopK(x, cut), AtOrAbove(x, floor);
    var kept, own := AtOrAbove(p, floor), AtOrAbove(chunk, floor);
    forall h: Hit ensures multiset(y)[h] == multiset(own)[h] {
      AtOrAboveBag(chunk, shared, h);
      AtOrAboveBag(chunk, floor, h);
      AtOrAboveBag(x, floor, h);
    }
    TopKOfBag(y, own, cut);
    TopKSize(x, cut);
    forall h: Hit ensures multiset(kept)[h] <= multiset(own)[h] {
      AtOrAboveBag(x, floor, h);
      AtOrAboveBag(p, floor, h);
    }
    FloorPrefix(x, floor, cut);
    PrefixBag(TopK(y, cut), p);
    forall h: Hit ensures multiset(TopK(y, cut))[h] <= multiset(kept)[h] {
      AtOrAboveBag(p, floor, h);
      assert h in multiset(TopK(y, cut)) ==> h in TopK(y, cut);
    }
    TopKOfPart(kept, own, cut);
  }

  lemma TopKOfBag(a: seq<Hit>, b: seq<Hit>, k: nat)
    requires multiset(a) == multiset(b)
    ensures TopK(a, k) == TopK(b, k)
  {
    SortOfBag(a, b);
  }

  /** Riding a shared kernel call gives exactly the solo result. */
  lemma BatchIsSolo(heap: seq<Hit>, chunk: seq<Hit>, floor: Option<int>, shared: Option<int>, cut: nat, k: nat)
    requires k <= cut && Higher(floor, shared) == floor
    ensures TopK(heap + AtOrAbove(TopK(AtOrAbove(chunk, shared), cut), floor), k)
         == TopK(heap + AtOrAbove(chunk, floor), k)
  {
    hide *;
    SharedCall(chunk, floor, shared, cut);
    TopKJoinRight(heap, AtOrAbove(TopK(AtOrAbove(chunk, shared), cut), floor), cut, k);
    TopKJoinRight(heap, AtOrAbove(chunk, floor), cut, k);
  }

  lemma PrefixBag(a: seq<Hit>, b: seq<Hit>)
    requires a <= b
    ensures multiset(a) <= multiset(b)
  {
    assert b == a + b[|a|..];
  }

  lemma TakeBag(s: seq<Hit>, n: nat)
    requires n <= |s|
    ensures multiset(s[..n]) <= multiset(s)
  {
    assert s == s[..n] + s[n..];
  }

  // ----- tie-complete prefixes -----

  function TieFrom(r: seq<Hit>, i: nat, boundary: int): (e: nat)
    requires i <= |r|
    ensures i <= e <= |r|
    ensures forall j :: i <= j < e ==> r[j].score == boundary
    ensures e < |r| ==> r[e].score != boundary
    decreases |r| - i
  {
    if i < |r| && r[i].score == boundary then TieFrom(r, i + 1, boundary) else i
  }

  /** The best `k` and every further row tied with the k-th. */
  function TieTop(s: seq<Hit>, k: nat): seq<Hit>
    requires k > 0
  {
    var r := Sort(s);
    if |r| < k then r else r[..TieFrom(r, k, r[k - 1].score)]
  }

  /** Past the k-th entry a tie-complete list holds only ties. */
  ghost predicate TieClosed(heap: seq<Hit>, k: nat)
    requires k > 0
  {
    forall j :: k <= j < |heap| ==> heap[j].score == heap[k - 1].score
  }

  lemma TieTopPrefix(head: seq<Hit>, rest: seq<Hit>, rows: seq<Hit>, k: nat)
    requires k > 0 && Sorted(head) && multiset(head) + multiset(rest) == multiset(rows)
    requires forall x, y :: x in head && y in rest ==> !Before(y, x)
    requires |head| < k ==> rest == []
    requires |head| >= k ==> TieClosed(head, k) && forall y :: y in rest ==> y.score < head[k - 1].score
    ensures TieTop(rows, k) == head
  {
    hide Sort;
    PrefixOfSort(head, rest, rows);
    var tail := Sort(rest);
    var r := Sort(rows);
    assert r == head + tail;
    if |head| >= k {
      if |tail| > 0 {
        assert tail[0] in multiset(tail) && tail[0] in rest;
      }
      assert r[k - 1] == head[k - 1];
      assert TieFrom(r, k, r[k - 1].score) == |head|;
    }
  }

  lemma TopKPrefix(head: seq<Hit>, rest: seq<Hit>, rows: seq<Hit>, k: nat)
    requires Sorted(head) && multiset(head) + multiset(rest) == multiset(rows)
    requires forall x, y :: x in head && y in rest ==> !Before(y, x)
    requires |head| == k || (|head| < k && rest == [])
    ensures TopK(rows, k) == head
  {
    hide Sort;
    PrefixOfSort(head, rest, rows);
    if rest == [] {
      assert Sort(rest) == [];
      assert head + [] == head;
    }
  }

  // ----- merging one chunk -----

  /** Two-cursor state: `merged` holds the best `i` of the heap and `j` of the chunk. */
  ghost predicate Merging(heap: seq<Hit>, chunk: seq<Hit>, i: nat, j: nat, merged: seq<Hit>) {
    && i <= |heap| && j <= |chunk| && |merged| == i + j
    && Sorted(merged)
    && multiset(merged) == multiset(heap[..i]) + multiset(chunk[..j])
    && (forall x, y :: x in merged && y in heap[i..] ==> !Before(y, x))
    && (forall x, y :: x in merged && y in chunk[j..] ==> !Before(y, x))
  }

  /** The front of one list goes next when the other's front is not ahead. */
  lemma TakeFront(a: seq<Hit>, b: seq<Hit>, i: nat, j: nat, merged: seq<Hit>)
    requires Sorted(a) && Sorted(b) && Merging(a, b, i, j, merged)
    requires i < |a| && (j < |b| ==> !Before(b[j], a[i]))
    ensures Merging(a, b, i + 1, j, merged + [a[i]])
  {
    var x := a[i];
    assert a[..i + 1] == a[..i] + [x] && a[i..] == [x] + a[i + 1..];
    forall y | y in a[i + 1..] ensures !Before(y, x) {}
    forall y | y in b[j..] ensures !Before(y, x) {
      assert !Before(b[j], x);
    }
    forall m | 0 <= m < |merged| ensures !Before(x, merged[m]) { assert merged[m] in merged; }
  }

  lemma MergingSwaps(a: seq<Hit>, b: seq<Hit>, i: nat, j: nat, merged: seq<Hit>)
    requires Merging(a, b, i, j, merged)
    ensures Merging(b, a, j, i, merged)
  {}

  lemma MergeStep(heap: seq<Hit>, chunk: seq<Hit>, i: nat, j: nat, merged: seq<Hit>, takeHeap: bool)
    requires Sorted(heap) && Sorted(chunk) && Merging(heap, chunk, i, j, merged)
    requires takeHeap ==> i < |heap| && (j < |chunk| ==> !Before(chunk[j], heap[i]))
    requires !takeHeap ==> j < |chunk| && (i < |heap| ==> !Before(heap[i], chunk[j]))
    ensures takeHeap ==> Merging(heap, chunk, i + 1, j, merged + [heap[i]])
    ensures !takeHeap ==> Merging(heap, chunk, i, j + 1, merged + [chunk[j]])
  {
    hide Merging, Sorted, Before;
    if takeHeap {
      TakeFront(heap, chunk, i, j, merged);
    } else {
      MergingSwaps(heap, chunk, i, j, merged);
      TakeFront(chunk, heap, j, i, merged);
      MergingSwaps(chunk, heap, j + 1, i, merged + [chunk[j]]);
    }
  }

  method MergePrefix(heap: seq<Hit>, chunk: seq<Hit>, k: nat) returns (i: nat, j: nat, merged: seq<Hit>)
    requires Sorted(heap) && Sorted(chunk)
    ensures Merging(heap, chunk, i, j, merged)
    ensures |merged| == k || (|merged| < k && i == |heap| && j == |chunk|)
  {
    hide Merging;
    i, j, merged := 0, 0, [];
    assert Merging(heap, chunk, 0, 0, []) by { MergeStart(heap, chunk); }
    while |merged| < k && (i < |heap| || j < |chunk|)
      invariant i <= |heap| && j <= |chunk| && |merged| <= k
      invariant Merging(heap, chunk, i, j, merged)
      decreases |heap| + |chunk| - i - j
    {
      var takeHeap := if i < |heap| && j < |chunk| then Before(heap[i], chunk[j]) else i < |heap|;
      MergeStep(heap, chunk, i, j, merged, takeHeap);
      if takeHeap {
        merged := merged + [heap[i]];
        i := i + 1;
      } else {
        merged := merged + [chunk[j]];
        j := j + 1;
      }
    }
  }

  lemma MergeStart(heap: seq<Hit>, chunk: seq<Hit>)
    ensures Merging(heap, chunk, 0, 0, [])
  {}

  /** What the cursors have not taken. */
  ghost function Rest(heap: seq<Hit>, chunk: seq<Hit>, i: nat, j: nat): seq<Hit>
    requires i <= |heap| && j <= |chunk|
  {
    heap[i..] + chunk[j..]
  }

  lemma MergedBag(heap: seq<Hit>, hits: seq<Hit>, chunk: seq<Hit>, i: nat, j: nat, merged: seq<Hit>)
    requires Merging(heap, chunk, i, j, merged) && multiset(chunk) == multiset(hits)
    ensures multiset(merged) + multiset(Rest(heap, chunk, i, j)) == multiset(heap + hits)
    ensures forall x, y :: x in merged && y in Rest(heap, chunk, i, j) ==> !Before(y, x)
  {
    assert heap == heap[..i] + heap[i..] && chunk == chunk[..j] + chunk[j..];
    assert multiset(heap) == multiset(heap[..i]) + multiset(heap[i..]);
    assert multiset(chunk) == multiset(chunk[..j]) + multiset(chunk[j..]);
  }

  /** The boundary tie group past the first `k` merged entries. */
  method TieTail(heap: seq<Hit>, chunk: seq<Hit>, i: nat, j: nat, boundary: int) returns (i': nat, j': nat, tail: seq<Hit>)
    requires i <= |heap| && j <= |chunk|
    ensures i' == TieFrom(heap, i, boundary) && j' == TieFrom(chunk, j, boundary)
    ensures tail == heap[i..i'] + chunk[j..j']
  {
    i', j', tail := i, j, [];
    while i' < |heap| && heap[i'].score == boundary
      invariant i <= i' <= |heap| && tail == heap[i..i'] && TieFrom(heap, i, boundary) == TieFrom(heap, i', boundary)
    {
      tail := tail + [heap[i']];
      i' := i' + 1;
    }
    while j' < |chunk| && chunk[j'].score == boundary
      invariant j <= j' <= |chunk| && tail == heap[i..i'] + chunk[j..j']
      invariant TieFrom(chunk, j, boundary) == TieFrom(chunk, j', boundary)
    {
      tail := tail + [chunk[j']];
      j' := j' + 1;
    }
  }

  /** Past the tie group every entry of a sorted list scores below the boundary. */
  lemma PastTies(list: seq<Hit>, i: nat, boundary: int)
    requires Sorted(list) && i <= |list| && forall y :: y in list[i..] ==> y.score <= boundary
    ensures forall y :: y in list[TieFrom(list, i, boundary)..] ==> y.score < boundary
  {}

  /** Taking the ties off the front of both lists splits what remains. */
  lemma TieSplit(heap: seq<Hit>, chunk: seq<Hit>, i: nat, j: nat, i': nat, j': nat, tail: seq<Hit>)
    requires i <= i' <= |heap| && j <= j' <= |chunk| && tail == heap[i..i'] + chunk[j..j']
    ensures multiset(Rest(heap, chunk, i, j)) == multiset(tail) + multiset(Rest(heap, chunk, i', j'))
    ensures forall y :: y in Rest(heap, chunk, i, j) <==> y in tail || y in Rest(heap, chunk, i', j')
  {
    assert heap[i..] == heap[i..i'] + heap[i'..] && chunk[j..] == chunk[j..j'] + chunk[j'..];
  }

  lemma TieScores(heap: seq<Hit>, chunk: seq<Hit>, i: nat, j: nat, i': nat, j': nat, tail: seq<Hit>, boundary: int)
    requires Sorted(heap) && Sorted(chunk) && i <= |heap| && j <= |chunk|
    requires forall y :: y in Rest(heap, chunk, i, j) ==> y.score <= boundary
    requires i' == TieFrom(heap, i, boundary) && j' == TieFrom(chunk, j, boundary)
    requires tail == heap[i..i'] + chunk[j..j']
    ensures forall y :: y in tail ==> y.score == boundary
    ensures forall y :: y in Rest(heap, chunk, i', j') ==> y.score < boundary
  {
    forall y | y in heap[i..] ensures y.score <= boundary { assert y in Rest(heap, chunk, i, j); }
    forall y | y in chunk[j..] ensures y.score <= boundary { assert y in Rest(heap, chunk, i, j); }
    PastTies(heap, i, boundary);
    PastTies(chunk, j, boundary);
  }

  lemma NotAhead(y: Hit, x: Hit)
    ensures !Before(y, x) ==> y.score <= x.score
  {}

  lemma TiesMerged(heap: seq<Hit>, hits: seq<Hit>, chunk: seq<Hit>, i: nat, j: nat, merged: seq<Hit>,
                   i': nat, j': nat, tail: seq<Hit>, k: nat)
    requires k > 0 && Sorted(heap) && Sorted(chunk) && multiset(chunk) == multiset(hits)
    requires Merging(heap, chunk, i, j, merged) && |merged| == k
    requires i' == TieFrom(heap, i, merged[k - 1].score) && j' == TieFrom(chunk, j, merged[k - 1].score)
    requires tail == heap[i..i'] + chunk[j..j']
    ensures merged + Sort(tail) == TieTop(heap + hits, k)
  {
    hide *;
    MergedBag(heap, hits, chunk, i, j, merged);
    MergingBounds(heap, chunk, i, j, merged);
    var boundary := merged[k - 1].score;
    var rest := Rest(heap, chunk, i, j);
    forall y | y in rest ensures y.score <= boundary { NotAhead(y, merged[k - 1]); }
    TieScores(heap, chunk, i, j, i', j', tail, boundary);
    TieSplit(heap, chunk, i, j, i', j', tail);
    var sorted := Sort(tail);
    forall y | y in sorted ensures y in tail { assert y in multiset(sorted); }
    TieHead(merged, sorted, Rest(heap, chunk, i', j'), heap + hits, k);
  }

  lemma TieHead(merged: seq<Hit>, sorted: seq<Hit>, rest: seq<Hit>, rows: seq<Hit>, k: nat)
    requires k > 0 && |merged| == k && Sorted(merged) && Sorted(sorted)
    requires multiset(merged) + multiset(sorted) + multiset(rest) == multiset(rows)
    requires forall y :: y in sorted ==> y.score == merged[k - 1].score
    requires forall y :: y in rest ==> y.score < merged[k - 1].score
    requires forall x, y :: x in merged && (y in sorted || y in rest) ==> !Before(y, x)
    ensures merged + sorted == TieTop(rows, k)
  {
    hide Sort, TieTop;
    var head := merged + sorted;
    forall i, j | 0 <= i < j < |head| ensures !Before(head[j], head[i]) {
      assert i < k ==> head[i] == merged[i] && merged[i] in merged;
      assert j >= k ==> head[j] == sorted[j - k] && sorted[j - k] in sorted;
    }
    forall x, y | x in head && y in rest ensures !Before(y, x) {}
    TieTopPrefix(head, rest, rows, k);
  }

  /** `merge_chunk_hits`: one chunk's hits merged into the running best. */
  method MergeChunkHits(heap: seq<Hit>, hits: seq<Hit>, k: nat, keepTies: bool) returns (merged: seq<Hit>)
    requires k > 0 && Sorted(heap) && (if keepTies then TieClosed(heap, k) else |heap| <= k)
    ensures !keepTies ==> merged == TopK(heap + hits, k)
    ensures keepTies ==> merged == TieTop(heap + hits, k)
  {
    hide Sort, TopK, TieTop, Merging;
    var chunk := Sort(hits);
    if hits == [] || (|heap| >= k && (if keepTies then chunk[0].score < heap[k - 1].score
                                      else |heap| == k && !Before(chunk[0], heap[k - 1]))) {
      HeapStands(heap, hits, chunk, k, keepTies);
      return heap;
    }
    var i, j;
    i, j, merged := MergePrefix(heap, chunk, k);
    MergingBounds(heap, chunk, i, j, merged);
    MergedBag(heap, hits, chunk, i, j, merged);
    if !keepTies {
      TopKPrefix(merged, Rest(heap, chunk, i, j), heap + hits, k);
    } else if |merged| < k {
      TieTopPrefix(merged, Rest(heap, chunk, i, j), heap + hits, k);
    } else {
      var i', j', tail := TieTail(heap, chunk, i, j, merged[k - 1].score);
      TiesMerged(heap, hits, chunk, i, j, merged, i', j', tail, k);
      merged := merged + Sort(tail);
    }
  }

  lemma MergingBounds(heap: seq<Hit>, chunk: seq<Hit>, i: nat, j: nat, merged: seq<Hit>)
    requires Merging(heap, chunk, i, j, merged)
    ensures i <= |heap| && j <= |chunk| && Sorted(merged) && |merged| == i + j
  {}

  /** A chunk with nothing to displace leaves the running best alone. */
  lemma HeapStands(heap: seq<Hit>, hits: seq<Hit>, chunk: seq<Hit>, k: nat, keepTies: bool)
    requires k > 0 && Sorted(heap) && Sorted(chunk) && multiset(chunk) == multiset(hits) && |chunk| == |hits|
    requires if keepTies then TieClosed(heap, k) else |heap| <= k
    requires hits == [] || (|heap| >= k && (if keepTies then chunk[0].score < heap[k - 1].score
                                            else |heap| == k && !Before(chunk[0], heap[k - 1])))
    ensures !keepTies ==> heap == TopK(heap + hits, k)
    ensures keepTies ==> heap == TieTop(heap + hits, k)
  {
    hide Sort, TopK, TieTop;
    forall y | y in hits
      ensures keepTies ==> y.score < heap[k - 1].score
      ensures !keepTies ==> !Before(y, heap[k - 1])
    {
      assert y in multiset(chunk);
      var q :| 0 <= q < |chunk| && chunk[q] == y;
      assert q > 0 ==> !Before(chunk[q], chunk[0]);
    }
    forall x, y | x in heap && y in hits ensures !Before(y, x) {
      var p :| 0 <= p < |heap| && heap[p] == x;
      assert p < k - 1 ==> !Before(heap[k - 1], heap[p]);
    }
    if keepTies {
      TieTopPrefix(heap, hits, heap + hits, k);
    } else {
      TopKPrefix(heap, hits, heap + hits, k);
    }
  }

  // ----- the best of a list, with and without its boundary ties -----

  /** The best `k`, with every row tied with the k-th where ties are kept. */
  function Best(s: seq<Hit>, k: nat, keepTies: bool): seq<Hit> {
    if k == 0 then [] else if keepTies then TieTop(s, k) else TopK(s, k)
  }

  /** The k-th best score. */
  ghost function Kth(s: seq<Hit>, k: nat): int
    requires 0 < k <= |s|
  {
    Sort(s)[k - 1].score
  }

  lemma {:induction false} TieFromJoin(head: seq<Hit>, tail: seq<Hit>, i: nat, boundary: int)
    requires i <= |head| && forall y :: y in tail ==> y.score != boundary
    ensures TieFrom(head + tail, i, boundary) == TieFrom(head, i, boundary)
    decreases |head| - i
  {
    var all := head + tail;
    if i < |head| {
      assert all[i] == head[i];
      if head[i].score == boundary {
        TieFromJoin(head, tail, i + 1, boundary);
      }
    } else if tail != [] {
      assert all[i] == tail[0];
    }
  }

  /** Rows under a floor that `k` rows meet do not matter. */
  lemma TieTopAbove(s: seq<Hit>, k: nat, f: int)
    requires 0 < k <= |AtOrAbove(s, Some(f))|
    ensures TieTop(AtOrAbove(s, Some(f)), k) == TieTop(s, k)
  {
    hide Sort, AtOrAbove, Under, TieFrom;
    FloorSplits(s, Some(f));
    var kept, rest := AtOrAbove(s, Some(f)), Under(s, Some(f));
    var head, tail := Sort(kept), Sort(rest);
    forall h | h in head ensures h in kept { assert h in multiset(head); }
    forall h | h in tail ensures h in rest { assert h in multiset(tail); }
    PrefixOfSort(head, rest, s);
    assert head[k - 1] in head;
    TieFromJoin(head, tail, k, head[k - 1].score);
  }

  lemma SameSize(a: seq<Hit>, b: seq<Hit>)
    requires multiset(a) == multiset(b)
    ensures |a| == |b|
  {
    assert |a| == |multiset(a)| && |b| == |multiset(b)|;
  }

  lemma TieTopOfBag(a: seq<Hit>, b: seq<Hit>, k: nat)
    requires k > 0 && multiset(a) == multiset(b)
    ensures TieTop(a, k) == TieTop(b, k)
  {
    SortOfBag(a, b);
  }

  /** Where a sorted list leaves the boundary ties, scores fall below them. */
  lemma TieEnd(r: seq<Hit>, k: nat)
    requires Sorted(r) && 0 < k <= |r|
    ensures var e := TieFrom(r, k, r[k - 1].score);
            && (forall i :: 0 <= i < e ==> r[i].score >= r[k - 1].score)
            && (forall i :: e <= i < |r| ==> r[i].score < r[k - 1].score)
  {
    var e := TieFrom(r, k, r[k - 1].score);
    forall i | 0 <= i < e ensures r[i].score >= r[k - 1].score {
      assert i < k - 1 ==> !Before(r[k - 1], r[i]);
    }
    forall i | e <= i < |r| ensures r[i].score < r[k - 1].score {
      assert !Before(r[e], r[k - 1]) && (i > e ==> !Before(r[i], r[e]));
    }
  }

  /** The tie-complete best are the rows at or above the k-th best score. */
  lemma TieTopShape(s: seq<Hit>, k: nat)
    requires k > 0
    ensures var top := TieTop(s, k); Sorted(top) && TieClosed(top, k) && (|s| < k ==> |top| == |s|)
    ensures |s| >= k ==> |TieTop(s, k)| >= k && TieTop(s, k)[k - 1].score == Kth(s, k)
    ensures |s| >= k ==> multiset(TieTop(s, k)) == multiset(AtOrAbove(s, Some(Kth(s, k))))
    ensures |s| < k ==> multiset(TieTop(s, k)) == multiset(s)
  {
    hide Sort, AtOrAbove, Before;
    if |s| >= k {
      var r := Sort(s);
      TieEnd(r, k);
      var e := TieFrom(r, k, r[k - 1].score);
      hide TieFrom;
      AboveBag(s, r, e, r[k - 1].score);
    }
  }

  /** A list split where its scores fall below `b`. */
  lemma AboveBag(s: seq<Hit>, r: seq<Hit>, e: nat, b: int)
    requires multiset(r) == multiset(s) && e <= |r|
    requires forall i :: 0 <= i < e ==> r[i].score >= b
    requires forall i :: e <= i < |r| ==> r[i].score < b
    ensures multiset(r[..e]) == multiset(AtOrAbove(s, Some(b)))
  {
    hide AtOrAbove;
    var head, tail := r[..e], r[e..];
    assert r == head + tail;
    forall h: Hit ensures multiset(head)[h] == multiset(AtOrAbove(s, Some(b)))[h] {
      AtOrAboveBag(s, Some(b), h);
      assert h in multiset(head) ==> h in head;
      assert h in multiset(tail) ==> h in tail;
    }
  }

  lemma TopKKth(s: seq<Hit>, k: nat)
    requires 0 < k <= |s|
    ensures |TopK(s, k)| == k && TopK(s, k)[k - 1].score == Kth(s, k)
  {
    hide Sort;
  }

  /** A running best is sorted, and full exactly when `k` rows were seen. */
  lemma BestShape(s: seq<Hit>, k: nat, keepTies: bool)
    requires k > 0
    ensures var best := Best(s, k, keepTies);
            && Sorted(best) && (if keepTies then TieClosed(best, k) else |best| <= k)
            && (|best| >= k <==> |s| >= k)
            && (|s| >= k ==> best[k - 1].score == Kth(s, k))
  {
    hide TopK, TieTop, Kth, TieClosed;
    if keepTies {
      TieTopShape(s, k);
    } else {
      TopKSize(s, k);
      if |s| >= k {
        TopKKth(s, k);
      }
    }
  }

  // ----- one chunk of one query -----

  /** The floor of one chunk: the external one and, once the heap is full, its k-th best. */
  function ScanFloor(hits: seq<Hit>, external: Option<int>, k: nat): Option<int> {
    if k > 0 && |hits| >= k then Higher(external, Some(hits[k - 1].score)) else external
  }

  /** The kernel: the best rows at or above a floor, up to a cut. */
  function Kernel(chunk: seq<Hit>, floor: Option<int>, cut: Option<nat>): seq<Hit> {
    if cut.None? then Sort(AtOrAbove(chunk, floor)) else TopK(AtOrAbove(chunk, floor), cut.value)
  }

  lemma ScanStep(seen: seq<Hit>, hits: seq<Hit>, chunk: seq<Hit>, external: Option<int>, k: nat)
    requires k > 0 && hits == TopK(seen, k)
    ensures TopK(hits + AtOrAbove(chunk, ScanFloor(hits, external, k)), k) == TopK(seen + AtOrAbove(chunk, external), k)
  {
    hide Sort, AtOrAbove, TopK, Higher;
    TopKSize(seen, k);
    if |hits| >= k {
      LocalFloorIsFree(hits, chunk, external, k);
    }
    TopKJoin(seen, AtOrAbove(chunk, external), k, k);
  }

  /** The same with ties kept: the local floor takes no tie away. */
  lemma ScanStepTies(seen: seq<Hit>, hits: seq<Hit>, chunk: seq<Hit>, external: Option<int>, k: nat)
    requires k > 0 && hits == TieTop(seen, k)
    ensures TieTop(hits + AtOrAbove(chunk, ScanFloor(hits, external, k)), k) == TieTop(seen + AtOrAbove(chunk, external), k)
  {
    hide Sort, AtOrAbove, TieTop, Kth;
    TieTopShape(seen, k);
    var rows := seen + AtOrAbove(chunk, external);
    var part := hits + AtOrAbove(chunk, ScanFloor(hits, external, k));
    if |seen| < k {
      TieTopOfBag(part, rows, k);
    } else {
      var b := Kth(seen, k);
      var kept := AtOrAbove(rows, Some(b));
      forall h: Hit ensures multiset(part)[h] == multiset(kept)[h] {
        AtOrAboveBag(seen, Some(b), h);
        AtOrAboveBag(rows, Some(b), h);
        AtOrAboveBag(chunk, external, h);
        AtOrAboveBag(chunk, Higher(external, Some(b)), h);
      }
      assert multiset(part) == multiset(kept);
      SameSize(part, kept);
      TieTopAbove(rows, k, b);
      TieTopOfBag(part, kept, k);
    }
  }

  /** An uncut kernel call returns every row a higher floor would. */
  lemma UncutCall(chunk: seq<Hit>, floor: Option<int>, shared: Option<int>)
    requires Higher(floor, shared) == floor
    ensures multiset(AtOrAbove(Kernel(chunk, shared, None), floor)) == multiset(AtOrAbove(chunk, floor))
  {
    hide Sort, AtOrAbove;
    var found := Kernel(chunk, shared, None);
    forall h: Hit ensures multiset(AtOrAbove(found, floor))[h] == multiset(AtOrAbove(chunk, floor))[h] {
      AtOrAboveBag(found, floor, h);
      AtOrAboveBag(chunk, floor, h);
      AtOrAboveBag(chunk, shared, h);
    }
  }

  /** One query's part of a kernel call that others share, at a floor no higher
      than its own and a cut no smaller than it needs: its running best after the
      chunk is what it would be alone and with no floor of its own. */
  lemma QueryStep(seen: seq<Hit>, hits: seq<Hit>, chunk: seq<Hit>, external: Option<int>, shared: Option<int>, cut: Option<nat>,
                  k: nat, keepTies: bool)
    requires k > 0 && hits == Best(seen, k, keepTies)
    requires Higher(ScanFloor(hits, external, k), shared) == ScanFloor(hits, external, k)
    requires cut.Some? ==> !keepTies && k <= cut.value
    ensures Best(hits + AtOrAbove(Kernel(chunk, shared, cut), ScanFloor(hits, external, k)), k, keepTies)
         == Best(seen + AtOrAbove(chunk, external), k, keepTies)
  {
    hide Sort, AtOrAbove, TopK, TieTop, Higher, ScanFloor;
    var floor := ScanFloor(hits, external, k);
    if cut.Some? {
      BatchIsSolo(hits, chunk, floor, shared, cut.value, k);
    } else {
      hide Kernel;
      UncutCall(chunk, floor, shared);
      var found, own := AtOrAbove(Kernel(chunk, shared, None), floor), AtOrAbove(chunk, floor);
      assert multiset(hits + found) == multiset(hits + own);
      TopKOfBag(hits + found, hits + own, k);
      TieTopOfBag(hits + found, hits + own, k);
    }
    if keepTies {
      ScanStepTies(seen, hits, chunk, external, k);
    } else {
      ScanStep(seen, hits, chunk, external, k);
    }
  }

  // ----- the rows a scan keeps, and the floors it publishes -----

  function Flatten(lists: seq<seq<Hit>>): seq<Hit> {
    if lists == [] then [] else Flatten(lists[..|lists| - 1]) + lists[|lists| - 1]
  }

  lemma {:induction false} FlattenCons(head: seq<Hit>, tail: seq<seq<Hit>>)
    ensures Flatten([head] + tail) == head + Flatten(tail)
  {
    var all := [head] + tail;
    if tail == [] {
      assert all[..0] == [];
    } else {
      FlattenCons(head, tail[..|tail| - 1]);
      assert all[..|all| - 1] == [head] + tail[..|tail| - 1];
    }
  }

  /** The rows of the first `c` chunks that met the external floor polled for
      their chunk. */
  ghost function Survivors(chunks: seq<seq<Hit>>, floors: nat -> Option<int>, c: nat): seq<Hit>
    requires c <= |chunks|
  {
    if c == 0 then []
    else Survivors(chunks, floors, c - 1) + AtOrAbove(chunks[c - 1], floors(c - 1))
  }

  /** The floors published over the first `c` chunks: the k-th best after each
      chunk that had a row to scan, once `k` rows were kept. */
  ghost function Published(chunks: seq<seq<Hit>>, floors: nat -> Option<int>, k: nat, c: nat): seq<int>
    requires c <= |chunks|
  {
    if c == 0 then []
    else
      var kept := Survivors(chunks, floors, c);
      Published(chunks, floors, k, c - 1) + if 0 < k <= |kept| && chunks[c - 1] != [] then [Kth(kept, k)] else []
  }

  lemma KthGrows(s: seq<Hit>, t: seq<Hit>, k: nat)
    requires 0 < k <= |s| && k <= |t| && multiset(s) <= multiset(t)
    ensures Kth(s, k) <= Kth(t, k)
  {
    hide TopK, Kth;
    TopKSize(s, k);
    TopKKth(s, k);
    TopKKth(t, k);
    var w, top := TopK(s, k), TopK(t, k);
    forall i | 0 <= i < |w| ensures w[i].score >= Kth(s, k) {
      assert i < k - 1 ==> !Before(w[k - 1], w[i]);
    }
    TopKAboveFloor(t, k, w, Kth(s, k));
    assert top[k - 1] in top;
  }

  lemma SurvivorsGrow(chunks: seq<seq<Hit>>, floors: nat -> Option<int>, c: nat)
    requires 0 < c <= |chunks|
    ensures var before, now := Survivors(chunks, floors, c - 1), Survivors(chunks, floors, c);
            |before| <= |now| && multiset(before) <= multiset(now)
  {}

  /** No published floor is above the k-th best so far. */
  lemma {:induction false} PublishedBound(chunks: seq<seq<Hit>>, floors: nat -> Option<int>, k: nat, c: nat, f: int)
    requires c <= |chunks| && f in Published(chunks, floors, k, c)
    ensures 0 < k <= |Survivors(chunks, floors, c)| && f <= Kth(Survivors(chunks, floors, c), k)
  {
    hide Kth, Survivors;
    SurvivorsGrow(chunks, floors, c);
    if f in Published(chunks, floors, k, c - 1) {
      PublishedBound(chunks, floors, k, c - 1, f);
      KthGrows(Survivors(chunks, floors, c - 1), Survivors(chunks, floors, c), k);
    }
  }

  /** Published floors never fall. */
  lemma {:induction false} PublishedRises(chunks: seq<seq<Hit>>, floors: nat -> Option<int>, k: nat, c: nat, i: nat, j: nat)
    requires c <= |chunks| && i <= j < |Published(chunks, floors, k, c)|
    ensures Published(chunks, floors, k, c)[i] <= Published(chunks, floors, k, c)[j]
  {
    hide Kth, Survivors;
    var p := Published(chunks, floors, k, c - 1);
    if j < |p| {
      PublishedRises(chunks, floors, k, c - 1, i, j);
    } else {
      var q := Published(chunks, floors, k, c);
      PublishedBound(chunks, floors, k, c, q[i]);
    }
  }

  // ----- what the scan returns -----

  lemma {:induction false} SurvivorBag(chunks: seq<seq<Hit>>, floors: nat -> Option<int>, c: nat)
    requires c <= |chunks|
    ensures multiset(Survivors(chunks, floors, c)) <= multiset(Flatten(chunks[..c]))
    ensures (forall d :: 0 <= d < c ==> floors(d).None?) ==> Survivors(chunks, floors, c) == Flatten(chunks[..c])
  {
    hide AtOrAbove;
    if c > 0 {
      SurvivorBag(chunks, floors, c - 1);
      FloorSplits(chunks[c - 1], floors(c - 1));
      NoFloor(chunks[c - 1]);
      assert chunks[..c][..c - 1] == chunks[..c - 1];
    }
  }

  lemma {:induction false} NoFloor(s: seq<Hit>)
    ensures AtOrAbove(s, None) == s
  {
    if s != [] {
      NoFloor(s[..|s| - 1]);
    }
  }

  /** A row survives where it meets the floor polled for a chunk that has it. */
  lemma {:induction false} SurvivorMember(chunks: seq<seq<Hit>>, floors: nat -> Option<int>, c: nat, x: Hit)
    requires c <= |chunks|
    ensures x in Survivors(chunks, floors, c) <==> exists d :: 0 <= d < c && x in chunks[d] && Passes(x, floors(d))
  {
    hide AtOrAbove, Passes;
    if c > 0 {
      SurvivorMember(chunks, floors, c - 1, x);
      AtOrAboveMember(chunks[c - 1], floors(c - 1), x);
    }
  }

  lemma {:induction false} FlattenMember(lists: seq<seq<Hit>>, x: Hit)
    ensures x in Flatten(lists) <==> exists d :: 0 <= d < |lists| && x in lists[d]
  {
    if lists != [] {
      FlattenMember(lists[..|lists| - 1], x);
    }
  }

  /** Distinct rows split into lists put each row in one list. */
  lemma {:induction false} DistinctHome(lists: seq<seq<Hit>>, c: nat, d: nat, x: Hit)
    requires Distinct(Flatten(lists)) && c < d < |lists| && x in lists[c]
    ensures x !in lists[d]
  {
    var init, last := lists[..|lists| - 1], lists[|lists| - 1];
    var all := Flatten(lists);
    assert all == Flatten(init) + last;
    if d < |lists| - 1 {
      assert forall i :: 0 <= i < |Flatten(init)| ==> all[i] == Flatten(init)[i];
      DistinctHome(init, c, d, x);
    } else {
      FlattenMember(init, x);
      assert x in init[c];
      var i :| 0 <= i < |Flatten(init)| && Flatten(init)[i] == x;
      forall j | 0 <= j < |last| ensures last[j] != x { assert all[i] == x && all[|Flatten(init)| + j] == last[j]; }
    }
  }

  /** Every row of the shard's own best meets the floor polled for its chunk. */
  ghost predicate BestMeetFloors(chunks: seq<seq<Hit>>, floors: nat -> Option<int>, k: nat, keepTies: bool) {
    forall c, x :: 0 <= c < |chunks| && x in chunks[c] && x in Best(Flatten(chunks), k, keepTies) ==> Passes(x, floors(c))
  }

  lemma BestBag(s: seq<Hit>, k: nat, keepTies: bool)
    ensures multiset(Best(s, k, keepTies)) <= multiset(s)
  {
    hide TopK, TieTop, AtOrAbove, Kth;
    if k > 0 && keepTies {
      TieTopShape(s, k);
      if |s| >= k {
        FloorSplits(s, Some(Kth(s, k)));
      }
    } else {
      TopKSize(s, k);
    }
  }

  /** Dropping rows outside the best leaves the best. */
  lemma BestOfPart(part: seq<Hit>, rows: seq<Hit>, k: nat, keepTies: bool)
    requires multiset(part) <= multiset(rows) && multiset(Best(rows, k, keepTies)) <= multiset(part)
    ensures Best(part, k, keepTies) == Best(rows, k, keepTies)
  {
    hide TopK, TieTop, AtOrAbove, Kth;
    if k > 0 && !keepTies {
      TopKOfPart(part, rows, k);
    } else if k > 0 {
      TieTopShape(rows, k);
      if |rows| < k {
        TieTopOfBag(part, rows, k);
      } else {
        TiesOfPart(part, rows, k, Kth(rows, k));
      }
    }
  }

  lemma TiesOfPart(part: seq<Hit>, rows: seq<Hit>, k: nat, b: int)
    requires k > 0 && multiset(part) <= multiset(rows) && multiset(AtOrAbove(rows, Some(b))) <= multiset(part)
    requires |AtOrAbove(rows, Some(b))| >= k
    ensures TieTop(part, k) == TieTop(rows, k)
  {
    hide TieTop, AtOrAbove;
    var mine, all := AtOrAbove(part, Some(b)), AtOrAbove(rows, Some(b));
    forall h: Hit ensures multiset(mine)[h] == multiset(all)[h] {
      AtOrAboveBag(part, Some(b), h);
      AtOrAboveBag(rows, Some(b), h);
      assert multiset(all)[h] <= multiset(part)[h] <= multiset(rows)[h];
    }
    assert multiset(mine) == multiset(all);
    SameSize(mine, all);
    TieTopAbove(part, k, b);
    TieTopAbove(rows, k, b);
    TieTopOfBag(mine, all, k);
  }

  lemma FlooredScanNecessary(chunks: seq<seq<Hit>>, floors: nat -> Option<int>, k: nat, keepTies: bool)
    requires Distinct(Flatten(chunks))
    requires Best(Survivors(chunks, floors, |chunks|), k, keepTies) == Best(Flatten(chunks), k, keepTies)
    ensures BestMeetFloors(chunks, floors, k, keepTies)
  {
    hide Best, Passes, Survivors, Flatten, Distinct;
    var kept := Survivors(chunks, floors, |chunks|);
    BestBag(kept, k, keepTies);
    forall c, x | 0 <= c < |chunks| && x in chunks[c] && x in Best(Flatten(chunks), k, keepTies) ensures Passes(x, floors(c)) {
      assert x in multiset(Best(kept, k, keepTies)) && x in multiset(kept);
      SurvivorMember(chunks, floors, |chunks|, x);
      var d :| 0 <= d < |chunks| && x in chunks[d] && Passes(x, floors(d));
      if c < d {
        DistinctHome(chunks, c, d, x);
      } else if d < c {
        DistinctHome(chunks, d, c, x);
      }
    }
  }

  lemma FlooredScanSufficient(chunks: seq<seq<Hit>>, floors: nat -> Option<int>, k: nat, keepTies: bool)
    requires Distinct(Flatten(chunks)) && BestMeetFloors(chunks, floors, k, keepTies)
    ensures Best(Survivors(chunks, floors, |chunks|), k, keepTies) == Best(Flatten(chunks), k, keepTies)
  {
    hide Best, Passes, Survivors, Flatten, Distinct;
    var rows := Flatten(chunks);
    var kept, best := Survivors(chunks, floors, |chunks|), Best(rows, k, keepTies);
    SurvivorBag(chunks, floors, |chunks|);
    assert chunks[..|chunks|] == chunks;
    BestBag(rows, k, keepTies);
    forall x | x in best ensures x in kept {
      assert x in multiset(best) && x in multiset(rows);
      FlattenMember(chunks, x);
      SurvivorMember(chunks, floors, |chunks|, x);
    }
    DistinctPart(best, kept, rows);
    BestOfPart(kept, rows, k, keepTies);
  }

  /** With external floors the scan returns the shard's own best exactly when each
      of those rows meets the floor polled for its chunk. */
  lemma FlooredScanExact(chunks: seq<seq<Hit>>, floors: nat -> Option<int>, k: nat, keepTies: bool)
    requires Distinct(Flatten(chunks))
    ensures Best(Survivors(chunks, floors, |chunks|), k, keepTies) == Best(Flatten(chunks), k, keepTies) <==>
            BestMeetFloors(chunks, floors, k, keepTies)
  {
    hide *;
    if Best(Survivors(chunks, floors, |chunks|), k, keepTies) == Best(Flatten(chunks), k, keepTies) {
      FlooredScanNecessary(chunks, floors, k, keepTies);
    }
    if BestMeetFloors(chunks, floors, k, keepTies) {
      FlooredScanSufficient(chunks, floors, k, keepTies);
    }
  }

  /** A floor above the shard's only row empties its answer. */
  lemma OverhighFloor(best: Hit, floor: int)
    requires best.score < floor
    ensures TopK(Survivors([[best]], _ => Some(floor), 1), 1) == []
    ensures TopK(Flatten([[best]]), 1) == [best]
  {
    assert Survivors([[best]], _ => Some(floor), 0) == [];
    assert AtOrAbove([best], Some(floor)) == AtOrAbove([best][..0], Some(floor)) + [];
    assert Flatten([[best]]) == Flatten([[best]][..0]) + [best];
    assert Flatten([[best]][..0]) == [];
    TopKPrefix([best], [], [best], 1);
  }
}
