/** The partition and reconstruction checks of examples/reshard_verify.rs. */
module Reshard {
  // Reconstruction compares the parent's top `k` with the children's top `k`
  // mapped back through `parent_ids`, both sorted by raw score bits. An index
  // ranks by `total_cmp` (totalOrder, section 5.10 of IEEE 754-2019); the check
  // sorts by the 32-bit pattern as an unsigned integer. A hit's score is the
  // integer whose order is `total_cmp`.

  import opened Options
  import opened Numbers
  import opened Ranking
  import opened ChunkScan

  const SIGN: int := 0x8000_0000

  /** The integer whose order is `total_cmp`, from the float's pattern. */
  function TotalKey(bits: nat): int {
    if bits < SIGN then bits else SIGN - bits - 1
  }

  /** `to_bits`, from the key. */
  function BitsOf(key: int): int {
    if key >= 0 then key else SIGN - key - 1
  }

  /** Patterns and keys determine each other. */
  lemma KeyRoundTrip(bits: nat, key: int)
    ensures bits < 2 * SIGN ==> -SIGN <= TotalKey(bits) < SIGN && BitsOf(TotalKey(bits)) == bits
    ensures -SIGN <= key < SIGN ==> 0 <= BitsOf(key) < 2 * SIGN && TotalKey(BitsOf(key)) == key
  {}

  /** A hit as the check compares it. */
  function BitHit(h: Hit): Hit {
    Hit(BitsOf(h.score), h.id)
  }

  ghost predicate Floats(hits: seq<Hit>) {
    forall i :: 0 <= i < |hits| ==> -SIGN <= hits[i].score < SIGN
  }

  /** Bit order agrees with score order at or above zero and reverses below it. */
  lemma BitOrder(a: Hit, b: Hit)
    requires a.score < SIGN && b.score < SIGN && Before(a, b)
    ensures Before(BitHit(b), BitHit(a)) <==> b.score < 0 && a.score != b.score
  {}

  // ----- mapped lists -----

  function MapHits(f: Hit -> Hit, s: seq<Hit>): (r: seq<Hit>)
    ensures |r| == |s| && forall i :: 0 <= i < |s| ==> r[i] == f(s[i])
  {
    seq(|s|, i requires 0 <= i < |s| => f(s[i]))
  }

  function Drop(s: seq<Hit>, q: nat): (r: seq<Hit>)
    requires q < |s|
    ensures |r| == |s| - 1
  {
    s[..q] + s[q + 1..]
  }

  lemma Without(s: seq<Hit>, q: nat)
    requires q < |s|
    ensures multiset(s) == multiset(Drop(s, q)) + multiset{s[q]}
  {
    assert s == s[..q] + [s[q]] + s[q + 1..];
  }

  lemma MapWithout(f: Hit -> Hit, s: seq<Hit>, q: nat)
    requires q < |s|
    ensures multiset(MapHits(f, s)) == multiset(MapHits(f, Drop(s, q))) + multiset{f(s[q])}
  {
    Without(MapHits(f, s), q);
    assert Drop(MapHits(f, s), q) == MapHits(f, Drop(s, q));
  }

  lemma {:induction false} MapBag(f: Hit -> Hit, a: seq<Hit>, b: seq<Hit>)
    requires multiset(a) == multiset(b)
    ensures multiset(MapHits(f, a)) == multiset(MapHits(f, b))
    decreases |a|
  {
    hide MapHits, Drop;
    if a == [] {
      BagSize(b, a);
    } else {
      assert a[0] in multiset(a) && a[0] in multiset(b);
      var q := FirstIndex(b, a[0]);
      Without(a, 0);
      Without(b, q);
      MapWithout(f, a, 0);
      MapWithout(f, b, q);
      BagMinus(Drop(a, 0), Drop(b, q), a[0]);
      MapBag(f, Drop(a, 0), Drop(b, q));
    }
  }

  lemma BagMinus(a: seq<Hit>, b: seq<Hit>, x: Hit)
    requires multiset(a) + multiset{x} == multiset(b) + multiset{x}
    ensures multiset(a) == multiset(b)
  {
    forall h ensures multiset(a)[h] == multiset(b)[h] {
      assert (multiset(a) + multiset{x})[h] == (multiset(b) + multiset{x})[h];
    }
  }

  lemma MapJoin(f: Hit -> Hit, a: seq<Hit>, b: seq<Hit>)
    ensures MapHits(f, a + b) == MapHits(f, a) + MapHits(f, b)
  {}

  // ----- one index -----

  /** A child's rows by local slot. */
  function Local(rows: seq<Hit>): (r: seq<Hit>)
    ensures |r| == |rows| && forall i :: 0 <= i < |rows| ==> r[i] == Hit(rows[i].score, i)
  {
    seq(|rows|, i requires 0 <= i < |rows| => Hit(rows[i].score, i))
  }

  function MapBack(rows: seq<Hit>): Hit -> Hit {
    (h: Hit) => if h.id < |rows| then Hit(h.score, rows[h.id].id) else h
  }

  /** The split keeps id order: `parent_ids` ascends. */
  ghost predicate KeepsOrder(rows: seq<Hit>) {
    forall i, j :: 0 <= i < j < |rows| ==> rows[i].id < rows[j].id
  }

  lemma MapBackSorted(rows: seq<Hit>, s: seq<Hit>)
    requires KeepsOrder(rows) && Sorted(s) && forall i :: 0 <= i < |s| ==> s[i].id < |rows|
    ensures Sorted(MapHits(MapBack(rows), s))
  {
    var m := MapHits(MapBack(rows), s);
    forall i, j | 0 <= i < j < |m| ensures !Before(m[j], m[i]) {
      assert !Before(s[j], s[i]);
      assert m[i] == Hit(s[i].score, rows[s[i].id].id) && m[j] == Hit(s[j].score, rows[s[j].id].id);
    }
  }

  /** Searching local slots and mapping back is searching the parent ids. */
  lemma LocalSearch(rows: seq<Hit>, k: nat)
    requires KeepsOrder(rows)
    ensures MapHits(MapBack(rows), TopK(Local(rows), k)) == TopK(rows, k)
  {
    hide Sort, Sorted, KeepsOrder;
    var f, s := MapBack(rows), Sort(Local(rows));
    MapBag(f, s, Local(rows));
    assert MapHits(f, Local(rows)) == rows;
    forall i | 0 <= i < |s| ensures s[i].id < |rows| { assert s[i] in multiset(s) && s[i] in multiset(Local(rows)); }
    MapBackSorted(rows, s);
    SortedUnique(MapHits(f, s), Sort(rows));
  }

  /** `topk` of one index: the best `k` local slots, mapped to ids, in bit order. */
  function IndexTopK(rows: seq<Hit>, k: nat): seq<Hit> {
    Sort(MapHits(BitHit, MapHits(MapBack(rows), TopK(Local(rows), k))))
  }

  lemma IndexIsTopK(rows: seq<Hit>, k: nat)
    requires KeepsOrder(rows)
    ensures IndexTopK(rows, k) == Sort(MapHits(BitHit, TopK(rows, k)))
  {
    hide Sort, TopK;
    LocalSearch(rows, k);
  }

  lemma OrderIsDistinct(rows: seq<Hit>)
    requires KeepsOrder(rows)
    ensures Distinct(rows)
  {}

  // ----- the merge -----

  /** The children's pairs joined. */
  function ChildTops(children: seq<seq<Hit>>, k: nat): seq<Hit> {
    if children == [] then []
    else ChildTops(children[..|children| - 1], k) + IndexTopK(children[|children| - 1], k)
  }

  /** The pairs sorted by bits and cut to the parent's length. */
  function Merged(children: seq<seq<Hit>>, k: nat, cut: nat): seq<Hit> {
    Take(Sort(ChildTops(children, k)), cut)
  }

  /** The same rows in score order. */
  ghost function BestRows(children: seq<seq<Hit>>, k: nat): seq<Hit> {
    if children == [] then []
    else BestRows(children[..|children| - 1], k) + TopK(children[|children| - 1], k)
  }

  lemma {:induction false} TopsAreBest(children: seq<seq<Hit>>, k: nat)
    requires forall c :: 0 <= c < |children| ==> KeepsOrder(children[c])
    ensures multiset(ChildTops(children, k)) == multiset(MapHits(BitHit, BestRows(children, k)))
  {
    hide TopK, MapHits, KeepsOrder, IndexTopK;
    if children == [] {
      MapNone(BitHit);
    } else {
      var init, last := children[..|children| - 1], children[|children| - 1];
      TopsAreBest(init, k);
      IndexIsTopK(last, k);
      MapJoin(BitHit, BestRows(init, k), TopK(last, k));
    }
  }

  lemma MapNone(f: Hit -> Hit)
    ensures MapHits(f, []) == []
  {}

  lemma {:induction false} BestBag(children: seq<seq<Hit>>, k: nat)
    ensures multiset(BestRows(children, k)) <= multiset(Flatten(children))
  {
    hide TopK;
    if children != [] {
      BestBag(children[..|children| - 1], k);
      TopKSize(children[|children| - 1], k);
    }
  }

  lemma {:induction false} BestMember(children: seq<seq<Hit>>, k: nat, c: nat, x: Hit)
    requires c < |children| && x in TopK(children[c], k)
    ensures x in BestRows(children, k)
  {
    hide TopK;
    if c < |children| - 1 {
      BestMember(children[..|children| - 1], k, c, x);
    }
  }

  lemma {:induction false} ChildBag(children: seq<seq<Hit>>, c: nat)
    requires c < |children|
    ensures multiset(children[c]) <= multiset(Flatten(children))
  {
    if c < |children| - 1 {
      ChildBag(children[..|children| - 1], c);
    }
  }

  /** Every row of the parent's top `k` is in some child's top `k`. */
  lemma WinnersReachChildren(children: seq<seq<Hit>>, parent: seq<Hit>, k: nat)
    requires Distinct(parent) && multiset(Flatten(children)) == multiset(parent)
    ensures multiset(TopK(parent, k)) <= multiset(BestRows(children, k)) <= multiset(parent)
  {
    hide TopK, Distinct, BestRows;
    BestBag(children, k);
    TopKSize(parent, k);
    forall x | x in TopK(parent, k) ensures x in BestRows(children, k) {
      assert x in multiset(TopK(parent, k)) && x in multiset(parent) && x in multiset(Flatten(children));
      FlattenMember(children, x);
      var c :| 0 <= c < |children| && x in children[c];
      ChildBag(children, c);
      TopKInPart(children[c], parent, k, x);
      BestMember(children, k, c, x);
    }
    DistinctPart(TopK(parent, k), BestRows(children, k), parent);
  }

  /** No leftover row of the children has a negative score, unless it ties with
      the whole parent answer. */
  ghost predicate NoNegativeLeftover(best: seq<Hit>, union: seq<Hit>) {
    forall u :: u in union && u !in best ==> u.score >= 0 || forall e :: e in best ==> e.score == u.score
  }

  /** The rows of `union` outside `best`. */
  ghost function Leftover(union: seq<Hit>, best: seq<Hit>): seq<Hit> {
    if union == [] then []
    else Leftover(union[..|union| - 1], best) + if union[|union| - 1] in best then [] else [union[|union| - 1]]
  }

  lemma {:induction false} LeftoverCount(union: seq<Hit>, best: seq<Hit>, h: Hit)
    ensures multiset(Leftover(union, best))[h] == if h in best then 0 else multiset(union)[h]
  {
    if union != [] {
      var init, x := union[..|union| - 1], union[|union| - 1];
      LeftoverCount(init, best, h);
      assert multiset(union) == multiset(init) + multiset{x} by { assert union == init + [x]; }
      var kept := if x in best then [] else [x];
      assert multiset(Leftover(union, best)) == multiset(Leftover(init, best)) + multiset(kept);
    }
  }

  lemma LeftoverBag(union: seq<Hit>, best: seq<Hit>, rows: seq<Hit>)
    requires Distinct(rows) && multiset(best) <= multiset(union) <= multiset(rows)
    ensures multiset(best) + multiset(Leftover(union, best)) == multiset(union)
    ensures forall u :: u in Leftover(union, best) <==> u in union && u !in best
  {
    forall h: Hit
      ensures multiset(best)[h] + multiset(Leftover(union, best))[h] == multiset(union)[h]
      ensures h in Leftover(union, best) <==> h in union && h !in best
    {
      LeftoverCount(union, best, h);
      DistinctBag(rows, h);
      assert h in best <==> h in multiset(best);
      assert h in union <==> h in multiset(union);
      assert h in Leftover(union, best) <==> h in multiset(Leftover(union, best));
    }
  }

  /** The check's question over the parent's best and the children's rows: the
      first `|best|` of the union in bit order are the best in bit order. */
  ghost predicate Reconstructs(best: seq<Hit>, union: seq<Hit>) {
    Take(Sort(MapHits(BitHit, union)), |best|) == Sort(MapHits(BitHit, best))
  }

  /** No leftover row precedes a best row in bit order. */
  ghost predicate BitsFollow(best: seq<Hit>, left: seq<Hit>) {
    forall e, u :: e in best && u in left ==> !Before(BitHit(u), BitHit(e))
  }

  lemma MapMember(s: seq<Hit>, h: Hit)
    requires Floats(s) && -SIGN <= h.score < SIGN
    ensures h in s <==> BitHit(h) in MapHits(BitHit, s)
  {}

  lemma FollowsReconstructs(best: seq<Hit>, left: seq<Hit>, union: seq<Hit>)
    requires multiset(best) + multiset(left) == multiset(union) && BitsFollow(best, left)
    ensures Reconstructs(best, union)
  {
    hide Sort, Before;
    var be, le := MapHits(BitHit, best), MapHits(BitHit, left);
    MapBag(BitHit, best + left, union);
    MapJoin(BitHit, best, left);
    var head := Sort(be);
    forall x, y | x in head && y in le ensures !Before(y, x) {
      assert x in multiset(head) && x in be;
      var i :| 0 <= i < |be| && be[i] == x;
      var j :| 0 <= j < |le| && le[j] == y;
      assert best[i] in best && left[j] in left;
    }
    PrefixOfSort(head, le, MapHits(BitHit, union));
  }

  lemma ReconstructsFollows(best: seq<Hit>, left: seq<Hit>, union: seq<Hit>)
    requires Floats(union) && multiset(best) + multiset(left) == multiset(union)
    requires forall u :: u in left ==> u !in best
    requires Reconstructs(best, union)
    ensures BitsFollow(best, left)
  {
    hide Sort;
    var su, sb := Sort(MapHits(BitHit, union)), Sort(MapHits(BitHit, best));
    forall e, u | e in best && u in left ensures !Before(BitHit(u), BitHit(e)) {
      InUnion(best, left, union, e);
      InUnion(best, left, union, u);
      forall i | 0 <= i < |best| ensures best[i] in union { InUnion(best, left, union, best[i]); }
      FloatsPart(best, union);
      MapMember(best, e);
      MapMember(best, u);
      MapMember(union, u);
      assert BitHit(e) in multiset(sb) && BitHit(e) in sb;
      var i :| 0 <= i < |sb| && sb[i] == BitHit(e);
      assert BitHit(u) in multiset(su) && BitHit(u) in su;
      var j :| 0 <= j < |su| && su[j] == BitHit(u);
      assert su[i] == sb[i];
      assert BitHit(u) !in multiset(sb) && BitHit(u) !in sb;
      assert forall m :: 0 <= m < |sb| ==> sb[m] == su[m] && sb[m] in sb;
    }
  }

  lemma InUnion(best: seq<Hit>, left: seq<Hit>, union: seq<Hit>, h: Hit)
    requires multiset(best) + multiset(left) == multiset(union) && (h in best || h in left)
    ensures h in union
  {
    assert h in multiset(best) + multiset(left);
  }

  lemma FloatsPart(part: seq<Hit>, rows: seq<Hit>)
    requires Floats(rows) && forall i :: 0 <= i < |part| ==> part[i] in rows
    ensures Floats(part)
  {}

  // ----- when the check is right -----

  /** A row outside the top `k` ranks behind every row inside it. */
  lemma TopKPrecedes(rows: seq<Hit>, k: nat, x: Hit, y: Hit)
    requires x in TopK(rows, k) && y in rows && y !in TopK(rows, k)
    ensures Before(x, y)
  {
    hide Sort;
    var sr := Sort(rows);
    var p :| 0 <= p < |TopK(rows, k)| && TopK(rows, k)[p] == x;
    assert y in multiset(sr) && y in sr;
    var q :| 0 <= q < |sr| && sr[q] == y;
    assert forall m :: 0 <= m < |TopK(rows, k)| ==> TopK(rows, k)[m] == sr[m] && TopK(rows, k)[m] in TopK(rows, k);
    assert sr[p] == x && !Before(sr[q], sr[p]);
  }

  lemma FollowIsNonNegative(best: seq<Hit>, left: seq<Hit>, union: seq<Hit>)
    requires forall u :: u in left <==> u in union && u !in best
    requires forall e, u :: e in best && u in left ==> Before(e, u) && e.score < SIGN && u.score < SIGN
    ensures BitsFollow(best, left) <==> NoNegativeLeftover(best, union)
  {}

  /** Over distinct float rows: the question the check asks has the answer it
      should exactly when no leftover row is negative. */
  lemma ReconstructsExact(parent: seq<Hit>, k: nat, union: seq<Hit>)
    requires Distinct(parent) && Floats(parent)
    requires multiset(TopK(parent, k)) <= multiset(union) <= multiset(parent)
    ensures Reconstructs(TopK(parent, k), union) <==> NoNegativeLeftover(TopK(parent, k), union)
  {
    hide TopK, Distinct, Before, Leftover, Reconstructs, BitsFollow, NoNegativeLeftover;
    var best := TopK(parent, k);
    var left := Leftover(union, best);
    LeftoverBag(union, best, parent);
    forall i | 0 <= i < |union| ensures union[i] in parent {
      assert union[i] in multiset(union) && union[i] in multiset(parent);
    }
    FloatsPart(union, parent);
    forall e, u | e in best && u in left ensures Before(e, u) && e.score < SIGN && u.score < SIGN {
      assert e in multiset(best) && e in multiset(union) && e in union;
      TopKPrecedes(parent, k, e, u);
    }
    FollowIsNonNegative(best, left, union);
    if BitsFollow(best, left) {
      FollowsReconstructs(best, left, union);
    }
    if Reconstructs(best, union) {
      ReconstructsFollows(best, left, union);
    }
  }

  /** The check accepts a correct split exactly when no row the children return
      beyond the parent's answer has a negative score (or ties with all of it). */
  lemma ReconstructionExact(children: seq<seq<Hit>>, parent: seq<Hit>, k: nat)
    requires KeepsOrder(parent) && forall c :: 0 <= c < |children| ==> KeepsOrder(children[c])
    requires Floats(parent) && multiset(Flatten(children)) == multiset(parent)
    ensures Merged(children, k, |IndexTopK(parent, k)|) == IndexTopK(parent, k)
       <==> NoNegativeLeftover(TopK(parent, k), BestRows(children, k))
  {
    hide TopK, Distinct, NoNegativeLeftover, BestRows, Floats, Flatten, Take, KeepsOrder, IndexTopK, ChildTops;
    var union := BestRows(children, k);
    OrderIsDistinct(parent);
    IndexIsTopK(parent, k);
    WinnersReachChildren(children, parent, k);
    ReconstructsExact(parent, k, union);
    TopsAreBest(children, k);
    SortOfBag(ChildTops(children, k), MapHits(BitHit, union));
  }

  /** Non-negative scores: the check is exact for every split. */
  lemma NonNegativeReconstructs(children: seq<seq<Hit>>, parent: seq<Hit>, k: nat)
    requires KeepsOrder(parent) && forall c :: 0 <= c < |children| ==> KeepsOrder(children[c])
    requires multiset(Flatten(children)) == multiset(parent)
    requires forall i :: 0 <= i < |parent| ==> 0 <= parent[i].score < SIGN
    ensures Merged(children, k, |IndexTopK(parent, k)|) == IndexTopK(parent, k)
  {
    hide Sort, TopK, Distinct, KeepsOrder, IndexTopK;
    OrderIsDistinct(parent);
    WinnersReachChildren(children, parent, k);
    var union := BestRows(children, k);
    forall u | u in union ensures u.score >= 0 {
      assert u in multiset(union) && u in multiset(parent);
    }
    ReconstructionExact(children, parent, k);
  }

  lemma OneRowTop(x: Hit)
    ensures TopK([x], 1) == [x]
  {}

  lemma PairFlatten(a: Hit, b: Hit)
    ensures Flatten([[a], [b]]) == [a, b]
  {
    FlattenCons([b], []);
    FlattenCons([a], [[b]]);
    assert [[b]] == [[b]] + [] && [[a], [b]] == [[a]] + [[b]];
  }

  lemma PairBest(a: Hit, b: Hit)
    ensures BestRows([[a], [b]], 1) == [a, b]
  {
    OneRowTop(a);
    OneRowTop(b);
    assert [[a], [b]][..1] == [[a]] && [[a]][..0] == [];
    assert BestRows([[a]], 1) == BestRows([[a]][..0], 1) + [a];
  }

  /** A negative row in another child makes the check reject a correct split. */
  lemma {:induction false} NegativeScoreRejected(a: Hit, b: Hit)
    requires -SIGN <= b.score < 0 <= a.score < SIGN && a.id < b.id
    ensures Merged([[a], [b]], 1, |IndexTopK([a, b], 1)|) != IndexTopK([a, b], 1)
  {
    hide TopK, Flatten, IndexTopK, Merged, BestRows;
    var parent, children := [a, b], [[a], [b]];
    PairFlatten(a, b);
    PairBest(a, b);
    TopKPrefix([a], [b], parent, 1);
    ReconstructionExact(children, parent, 1);
    assert b in parent && a in [a] && b !in [a];
  }

  // ----- the bucket ranges -----

  const HASH_BITS := 64
  const CHECK_BITS := 6

  /** A right shift. */
  function Shr(h: nat, k: nat): nat {
    if k == 0 then h else Shr(h / 2, k - 1)
  }

  /** The top `bits` bits of a 64-bit hash. */
  function BucketOf(hash: nat, bits: nat): nat
    requires bits <= HASH_BITS
  {
    Shr(hash, HASH_BITS - bits)
  }

  lemma {:induction false} ShrTwice(h: nat, j: nat, k: nat)
    ensures Shr(Shr(h, j), k) == Shr(h, j + k)
    decreases j
  {
    if j > 0 {
      ShrTwice(h / 2, j - 1, k);
    }
  }

  lemma {:induction false} MulOrder(a: nat, b: nat, d: nat)
    ensures a < b ==> a * d + d <= b * d
  {
    if a < b {
      MulOrder(a, b - 1, d);
      assert b * d == (b - 1) * d + d;
    }
  }

  lemma QuotientIs(n: nat, d: nat, p: nat)
    requires d > 0 && p * d <= n < p * d + d
    ensures n / d == p
  {
    var q := n / d;
    assert n == q * d + n % d;
    MulOrder(q, p, d);
    MulOrder(p, q, d);
  }

  lemma HalfQuotient(h: nat, d: nat)
    requires d > 0
    ensures h / (2 * d) == h / 2 / d
  {
    var p := h / 2 / d;
    var r := h / 2 % d;
    assert h / 2 == p * d + r;
    assert p * (2 * d) == 2 * (p * d);
    QuotientIs(h, 2 * d, p);
  }

  lemma {:induction false} ShrDivides(h: nat, k: nat)
    ensures Pow2(k) > 0 && h / Pow2(k) == Shr(h, k)
  {
    if k > 0 {
      ShrDivides(h / 2, k - 1);
      HalfQuotient(h, Pow2(k - 1));
    }
  }

  /** Buckets of a finer count nest in those of a coarser one, so whole bucket
      ranges route as the coarser count does. */
  lemma BucketsNest(hash: nat, coarse: nat, fine: nat)
    requires coarse <= fine <= HASH_BITS
    ensures Pow2(fine - coarse) > 0
    ensures BucketOf(hash, fine) / Pow2(fine - coarse) == BucketOf(hash, coarse)
  {
    ShrDivides(BucketOf(hash, fine), fine - coarse);
    ShrTwice(hash, HASH_BITS - fine, fine - coarse);
  }

  /** The check's buckets per child: a power of two, or none above 64 children. */
  lemma {:induction false} PerChild(bits: nat)
    ensures Pow2(bits) > 0
    ensures bits <= CHECK_BITS ==>
              Pow2(CHECK_BITS) / Pow2(bits) == Pow2(CHECK_BITS - bits) && Pow2(CHECK_BITS - bits) > 0
    ensures bits > CHECK_BITS ==> Pow2(CHECK_BITS) / Pow2(bits) == 0
  {
    ShrDivides(Pow2(CHECK_BITS), bits);
    if bits <= CHECK_BITS {
      ShrPow(CHECK_BITS, bits);
      ShrDivides(0, CHECK_BITS - bits);
    } else {
      PowAscends(CHECK_BITS, bits);
    }
  }

  lemma {:induction false} PowAscends(m: nat, n: nat)
    requires m < n
    ensures 0 < Pow2(m) < Pow2(n)
  {
    ShrDivides(0, m);
    if m + 1 < n {
      PowAscends(m, n - 1);
    }
  }

  lemma {:induction false} ShrPow(n: nat, k: nat)
    requires k <= n
    ensures Shr(Pow2(n), k) == Pow2(n - k)
  {
    if k > 0 {
      assert Pow2(n) / 2 == Pow2(n - 1);
      ShrPow(n - 1, k - 1);
    }
  }

  /** Whether every id sits in the child its top `bits` bits name. */
  ghost predicate Routed(children: seq<seq<nat>>, hash: nat -> nat, bits: nat)
    requires bits <= HASH_BITS
  {
    forall i, j :: 0 <= i < |children| && 0 <= j < |children[i]| ==> BucketOf(hash(children[i][j]), bits) == i
  }

  /** The partition check over `2^bits` children, with its own 64 buckets. Above
      64 children it divides by zero as soon as there is an id; otherwise it
      passes exactly when every id is routed, whatever bucket count the split
      used. */
  method PartitionCheck(children: seq<seq<nat>>, hash: nat -> nat, bits: nat) returns (r: Result<bool>)
    requires bits <= HASH_BITS && |children| == Pow2(bits)
    ensures r.Refused? <==> bits > CHECK_BITS && exists i :: 0 <= i < |children| && children[i] != []
    ensures r.Ok? ==> (r.value <==> Routed(children, hash, bits))
  {
    PerChild(bits);
    var perChild := Pow2(CHECK_BITS) / |children|;
    for i := 0 to |children|
      invariant forall c, j :: 0 <= c < i && 0 <= j < |children[c]| ==> BucketOf(hash(children[c][j]), bits) == c
      invariant bits > CHECK_BITS ==> forall c :: 0 <= c < i ==> children[c] == []
    {
      for j := 0 to |children[i]|
        invariant forall d :: 0 <= d < j ==> BucketOf(hash(children[i][d]), bits) == i
        invariant bits > CHECK_BITS ==> j == 0
      {
        hide BucketOf, Pow2;
        if perChild == 0 {
          return Refused;
        }
        BucketsNest(hash(children[i][j]), bits, CHECK_BITS);
        if BucketOf(hash(children[i][j]), CHECK_BITS) / perChild != i {
          return Ok(false);
        }
      }
    }
    r := Ok(true);
  }

  /** A passed check means no two children share an id. */
  lemma ChildrenDisjoint(children: seq<seq<nat>>, hash: nat -> nat, bits: nat, a: nat, b: nat, id: nat)
    requires bits <= HASH_BITS && a < |children| && b < |children| && id in children[a] && id in children[b]
    requires Routed(children, hash, bits)
    ensures a == b
  {
    hide BucketOf;
    var x :| 0 <= x < |children[a]| && children[a][x] == id;
    var y :| 0 <= y < |children[b]| && children[b][y] == id;
  }
}
