/** The product-wide ranking: score descending, then id ascending. Every
    ranking in the sources sorts by it and keeps a prefix, so everything here
    is about `TopK`, the first `k` entries of the full sort. Scores are
    integers; only their order matters. */
module Ranking {

  datatype Hit = Hit(score: int, id: nat)

  /** `a` ranks strictly ahead of `b`. */
  predicate Before(a: Hit, b: Hit) {
    a.score > b.score || (a.score == b.score && a.id < b.id)
  }

  ghost predicate Sorted(s: seq<Hit>) {
    forall i, j :: 0 <= i < j < |s| ==> !Before(s[j], s[i])
  }

  function Insert(x: Hit, s: seq<Hit>): seq<Hit> {
    if s == [] || Before(x, s[0]) then [x] + s else [s[0]] + Insert(x, s[1..])
  }

  lemma {:induction false} InsertBag(x: Hit, s: seq<Hit>)
    ensures multiset(Insert(x, s)) == multiset(s) + multiset{x}
    ensures |Insert(x, s)| == |s| + 1
    ensures forall h :: h in Insert(x, s) <==> h == x || h in s
  {
    if !(s == [] || Before(x, s[0])) {
      InsertBag(x, s[1..]);
      assert s == [s[0]] + s[1..];
    }
  }

  lemma {:induction false} InsertSorted(x: Hit, s: seq<Hit>)
    requires Sorted(s)
    ensures Sorted(Insert(x, s))
  {
    if !(s == [] || Before(x, s[0])) {
      InsertSorted(x, s[1..]);
      InsertBag(x, s[1..]);
      var rest := Insert(x, s[1..]);
      forall j | 0 <= j < |rest| ensures !Before(rest[j], s[0]) { assert rest[j] in rest; }
    }
  }

  /** The full sort. */
  function Sort(s: seq<Hit>): (r: seq<Hit>)
    ensures multiset(r) == multiset(s) && |r| == |s|
    ensures Sorted(r)
  {
    if s == [] then []
    else
      assert s == s[..|s| - 1] + [s[|s| - 1]];
      var init := Sort(s[..|s| - 1]);
      InsertBag(s[|s| - 1], init);
      InsertSorted(s[|s| - 1], init);
      Insert(s[|s| - 1], init)
  }

  function Take<T>(s: seq<T>, k: nat): seq<T> {
    if |s| <= k then s else s[..k]
  }

  /** The best `k`, best first. */
  function TopK(s: seq<Hit>, k: nat): seq<Hit> {
    Take(Sort(s), k)
  }

  // ----- the sort is determined by the bag -----

  /** Fewer entries than `p` rank ahead of an entry that sits at `p`. */
  lemma AheadBound(s: seq<Hit>, p: nat, w: seq<Hit>, x: Hit)
    requires p <= |s| && multiset(w) <= multiset(s)
    requires forall j :: p <= j < |s| ==> !Before(s[j], x)
    requires forall i :: 0 <= i < |w| ==> Before(w[i], x)
    ensures |w| <= p
  {
    assert s == s[..p] + s[p..];
    forall h | h in multiset(w)
      ensures multiset(w)[h] <= multiset(s[..p])[h]
    {
      assert h in w;
      assert h !in s[p..];
      assert multiset(s)[h] == multiset(s[..p])[h] + multiset(s[p..])[h];
    }
    assert multiset(w) <= multiset(s[..p]);
    BagSize(w, s[..p]);
  }

  lemma BagSize(a: seq<Hit>, b: seq<Hit>)
    requires multiset(a) <= multiset(b)
    ensures |a| <= |b|
  {
    assert multiset(b) == multiset(a) + (multiset(b) - multiset(a));
    assert |multiset(a)| == |a| && |multiset(b)| == |b|;
  }

  lemma BagCancel(p: seq<Hit>, a: seq<Hit>, b: seq<Hit>)
    requires multiset(p + a) <= multiset(p + b)
    ensures multiset(a) <= multiset(b)
  {
    forall h ensures multiset(a)[h] <= multiset(b)[h] {
      assert multiset(p + a)[h] == multiset(p)[h] + multiset(a)[h];
      assert multiset(p + b)[h] == multiset(p)[h] + multiset(b)[h];
    }
  }

  /** Written over sorted lists: `t` is a prefix of `sr`, and `t <= sk <= sr` as
      bags; then `t` is a prefix of `sk`. */
  lemma {:induction false} PrefixSurvives(sr: seq<Hit>, sk: seq<Hit>, t: seq<Hit>, i: nat)
    requires Sorted(sr) && Sorted(sk) && multiset(sk) <= multiset(sr)
    requires t <= sr && multiset(t) <= multiset(sk) && i <= |t| <= |sk|
    ensures sk[..i] == t[..i]
  {
    if i > 0 {
      PrefixSurvives(sr, sk, t, i - 1);
      NextSurvives(sr, sk, t, i - 1);
      assert sk[..i] == sk[..i - 1] + [sk[i - 1]] && t[..i] == t[..i - 1] + [t[i - 1]];
    }
  }

  lemma NextSurvives(sr: seq<Hit>, sk: seq<Hit>, t: seq<Hit>, i: nat)
    requires Sorted(sr) && Sorted(sk) && multiset(sk) <= multiset(sr)
    requires t <= sr && multiset(t) <= multiset(sk) && i < |t| <= |sk|
    requires sk[..i] == t[..i]
    ensures sk[i] == t[i]
  {
    var p := t[..i];
    assert sk == p + sk[i..] && sr == p + sr[i..] && t == p + t[i..];
    BagCancel(p, sk[i..], sr[i..]);
    BagCancel(p, t[i..], sk[i..]);
    var x, y := t[i], sk[i];
    assert t[i..][0] == x && x in multiset(t[i..]) && x in multiset(sk[i..]);
    assert sk[i..][0] == y && y in multiset(sk[i..]) && y in multiset(sr[i..]);
    var q :| 0 <= q < |sk[i..]| && sk[i..][q] == x;
    assert sk[i + q] == x && !Before(x, y);
    var r :| 0 <= r < |sr[i..]| && sr[i..][r] == y;
    assert sr[i + r] == y && !Before(y, x);
  }

  lemma SortedUnique(a: seq<Hit>, b: seq<Hit>)
    requires Sorted(a) && Sorted(b) && multiset(a) == multiset(b)
    ensures a == b
  {
    BagSize(a, b);
    BagSize(b, a);
    PrefixSurvives(a, b, a, |a|);
    assert b[..|a|] == b && a[..|a|] == a;
  }

  lemma SortOfBag(a: seq<Hit>, b: seq<Hit>)
    requires multiset(a) == multiset(b)
    ensures Sort(a) == Sort(b)
  {
    SortedUnique(Sort(a), Sort(b));
  }

  // ----- what a prefix depends on -----

  /** Any part of the rows that still holds the best `k` has the same best `k`. */
  lemma TopKOfPart(part: seq<Hit>, rows: seq<Hit>, k: nat)
    requires multiset(part) <= multiset(rows) && multiset(TopK(rows, k)) <= multiset(part)
    ensures TopK(part, k) == TopK(rows, k)
  {
    hide Sort, Insert;
    var sr, sk, t := Sort(rows), Sort(part), TopK(rows, k);
    BagSize(part, rows);
    BagSize(t, sk);
    PrefixSurvives(sr, sk, t, |t|);
    assert t[..|t|] == t;
  }

  /** An entry sits no lower in a sorted part than in the sorted whole. */
  lemma RankInPart(sr: seq<Hit>, sk: seq<Hit>, p: nat, q: nat, x: Hit)
    requires Sorted(sr) && Sorted(sk) && multiset(sk) <= multiset(sr)
    requires p < |sr| && sr[p] == x && q < |sk| && sk[q] == x && x !in sk[..q]
    ensures q <= p
  {
    var w := sk[..q];
    assert multiset(w) <= multiset(sr) by {
      assert sk == w + sk[q..];
      assert multiset(sk) == multiset(w) + multiset(sk[q..]);
    }
    forall i | 0 <= i < |w| ensures Before(w[i], x) {
      assert w[i] in w;
      assert !Before(sk[q], sk[i]);
    }
    forall j | p <= j < |sr| ensures !Before(sr[j], x) {}
    AheadBound(sr, p, w, x);
  }

  /** A row among the best `k` of all rows is among the best `k` of any part that has it. */
  lemma TopKInPart(part: seq<Hit>, rows: seq<Hit>, k: nat, x: Hit)
    requires multiset(part) <= multiset(rows) && x in part && x in TopK(rows, k)
    ensures x in TopK(part, k)
  {
    hide Sort, Sorted;
    var sr, sk := Sort(rows), Sort(part);
    var p :| 0 <= p < |TopK(rows, k)| && TopK(rows, k)[p] == x;
    assert x in multiset(part) && x in multiset(sk);
    var q := FirstIndex(sk, x);
    RankInPart(sr, sk, p, q, x);
    assert TopK(part, k)[q] == x;
  }

  function FirstIndex(s: seq<Hit>, x: Hit): (q: nat)
    requires x in s
    ensures q < |s| && s[q] == x && x !in s[..q]
  {
    if s[0] == x then 0 else 1 + FirstIndex(s[1..], x)
  }

  /** Where `k` rows score at least `floor`, the best `k` all do. */
  lemma TopKAboveFloor(rows: seq<Hit>, k: nat, w: seq<Hit>, floor: int)
    requires multiset(w) <= multiset(rows) && |w| >= k
    requires forall i :: 0 <= i < |w| ==> w[i].score >= floor
    ensures forall x :: x in TopK(rows, k) ==> x.score >= floor
  {
    hide Sort, Insert;
    forall x | x in TopK(rows, k)
      ensures x.score >= floor
    {
      var sr := Sort(rows);
      var p :| 0 <= p < |TopK(rows, k)| && TopK(rows, k)[p] == x;
      if x.score < floor {
        forall j | p <= j < |sr| ensures !Before(sr[j], x) { assert sr[p] == x; }
        AheadBound(sr, p, w, x);
      }
    }
  }

  // ----- streaming -----

  /** Keeping the best `k` row by row. */
  function Keep(best: seq<Hit>, x: Hit, k: nat): seq<Hit> {
    Take(Insert(x, best), k)
  }

  lemma {:induction false} TakeInsert(x: Hit, s: seq<Hit>, k: nat)
    ensures Take(Insert(x, s), k) == Take(Insert(x, Take(s, k)), k)
  {
    if |s| <= k {
    } else if k == 0 {
    } else if Before(x, s[0]) {
      assert Take(Insert(x, s), k) == ([x] + s)[..k];
    } else {
      TakeInsert(x, s[1..], k - 1);
      assert Take(s, k)[1..] == Take(s[1..], k - 1);
      var a, b := Insert(x, s[1..]), Insert(x, Take(s[1..], k - 1));
      assert Take([s[0]] + a, k) == [s[0]] + Take(a, k - 1);
      assert Take([s[0]] + b, k) == [s[0]] + Take(b, k - 1);
    }
  }

  /** One more row: only the kept rows and the new one matter. */
  lemma TopKStep(rows: seq<Hit>, x: Hit, k: nat)
    ensures TopK(rows + [x], k) == Keep(TopK(rows, k), x, k)
  {
    assert (rows + [x])[..|rows|] == rows;
    TakeInsert(x, Sort(rows), k);
  }

  lemma TopKAgain(a: seq<Hit>, cut: nat, k: nat)
    requires k <= cut
    ensures TopK(TopK(a, cut), k) == TopK(a, k)
  {
    SortedUnique(Sort(TopK(a, cut)), TopK(a, cut));
  }

  /** A side may be cut to its own best before joining. */
  lemma {:induction false} TopKJoin(a: seq<Hit>, b: seq<Hit>, cut: nat, k: nat)
    requires k <= cut
    ensures TopK(TopK(a, cut) + b, k) == TopK(a + b, k)
  {
    hide TopK, Keep;
    if b == [] {
      assert a + b == a && TopK(a, cut) + b == TopK(a, cut);
      TopKAgain(a, cut, k);
    } else {
      var init, last := b[..|b| - 1], b[|b| - 1];
      TopKJoin(a, init, cut, k);
      assert a + b == (a + init) + [last];
      assert TopK(a, cut) + b == (TopK(a, cut) + init) + [last];
      TopKStep(a + init, last, k);
      TopKStep(TopK(a, cut) + init, last, k);
    }
  }

  lemma TopKJoinRight(a: seq<Hit>, b: seq<Hit>, cut: nat, k: nat)
    requires k <= cut
    ensures TopK(a + TopK(b, cut), k) == TopK(a + b, k)
  {
    TopKJoin(b, a, cut, k);
    SortOfBag(a + TopK(b, cut), TopK(b, cut) + a);
    SortOfBag(a + b, b + a);
  }

  lemma TopKSize(rows: seq<Hit>, k: nat)
    ensures |TopK(rows, k)| == if |rows| < k then |rows| else k
    ensures multiset(TopK(rows, k)) <= multiset(rows)
    ensures Sorted(TopK(rows, k))
  {
    var sr := Sort(rows);
    if k < |sr| {
      assert sr == sr[..k] + sr[k..];
      assert multiset(sr) == multiset(sr[..k]) + multiset(sr[k..]);
    }
  }

  // ----- distinct rows -----

  ghost predicate Distinct(rows: seq<Hit>) {
    forall i, j :: 0 <= i < j < |rows| ==> rows[i] != rows[j]
  }

  lemma DistinctBag(rows: seq<Hit>, h: Hit)
    requires Distinct(rows)
    ensures multiset(rows)[h] <= 1
  {
    if h in rows {
      var i :| 0 <= i < |rows| && rows[i] == h;
      assert rows == rows[..i] + [h] + rows[i + 1..];
      assert h !in rows[..i] && h !in rows[i + 1..];
    }
  }

  /** Among distinct rows, bag inclusion is membership. */
  lemma DistinctPart(part: seq<Hit>, rows: seq<Hit>, whole: seq<Hit>)
    requires Distinct(whole) && multiset(part) <= multiset(whole)
    requires forall x :: x in part ==> x in rows
    ensures multiset(part) <= multiset(rows)
  {
    forall h ensures multiset(part)[h] <= multiset(rows)[h] {
      DistinctBag(whole, h);
      assert h in multiset(part) ==> h in part && h in multiset(rows);
    }
  }
}
