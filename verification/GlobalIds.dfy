/** The file-row to global-id mapping of examples/tei_rerank.rs: shards hold
    contiguous file ranges, and a global id is the shard times a stride plus
    the row within the shard. */
module GlobalIds {
  import opened Numbers

  const SLOT_STRIDE: nat := 25_000_000

  /** `starts[i]` is the number of rows before shard `i`. */
  ghost predicate AreStarts(starts: seq<nat>, counts: seq<nat>) {
    |starts| == |counts| && forall i :: 0 <= i < |counts| ==> starts[i] == Sum(counts[..i])
  }

  method ShardStarts(counts: seq<nat>) returns (starts: seq<nat>)
    ensures AreStarts(starts, counts)
  {
    starts := seq(|counts|, _ => 0);
    var i := 1;
    while i < |counts|
      invariant 1 <= i && |starts| == |counts|
      invariant forall j :: 0 <= j < i && j < |counts| ==> starts[j] == Sum(counts[..j])
    {
      assert counts[..i][..i - 1] == counts[..i - 1];
      starts := starts[i := starts[i - 1] + counts[i - 1]];
      i := i + 1;
    }
  }

  lemma StartStep(counts: seq<nat>, i: nat)
    requires i < |counts|
    ensures Sum(counts[..i + 1]) == Sum(counts[..i]) + counts[i]
  {
    assert counts[..i + 1][..i] == counts[..i];
  }

  lemma {:induction false} StartsAscend(counts: seq<nat>, i: nat, j: nat)
    requires i < j <= |counts|
    ensures Sum(counts[..i]) + counts[i] <= Sum(counts[..j])
    decreases j
  {
    hide Sum;
    StartStep(counts, j - 1);
    if i < j - 1 {
      StartsAscend(counts, i, j - 1);
    }
  }

  /** What a binary search of a sorted sequence may answer: any index of an equal
      element, or else the insertion point. */
  datatype Found = At(index: nat) | InsertAt(index: nat)

  ghost predicate MayFind(starts: seq<nat>, x: nat, found: Found) {
    match found
    case At(i) => i < |starts| && starts[i] == x
    case InsertAt(i) =>
      i <= |starts| && (forall j :: 0 <= j < i ==> starts[j] < x) && (forall j :: i <= j < |starts| ==> x < starts[j])
  }

  function ShardOf(found: Found): int {
    match found
    case At(i) => i
    case InsertAt(i) => i - 1
  }

  function FileToGid(starts: seq<nat>, x: nat, found: Found): int
    requires 0 <= ShardOf(found) < |starts|
  {
    ShardOf(found) * SLOT_STRIDE + (x - starts[ShardOf(found)])
  }

  function GidToShard(gid: nat): nat {
    gid / SLOT_STRIDE
  }

  /** Shard `shard` holds file row `x`. */
  ghost predicate Owns(starts: seq<nat>, counts: seq<nat>, x: nat, shard: int) {
    && 0 <= shard < |starts| && |starts| == |counts|
    && starts[shard] <= x < starts[shard] + counts[shard]
  }

  /** No empty shard comes before a non-empty one. */
  predicate NoGap(counts: seq<nat>) {
    forall i, j :: 0 <= i < j < |counts| && counts[j] > 0 ==> counts[i] > 0
  }

  lemma OwnerIsUnique(starts: seq<nat>, counts: seq<nat>, x: nat, a: int, b: int)
    requires AreStarts(starts, counts) && Owns(starts, counts, x, a) && Owns(starts, counts, x, b)
    ensures a == b
  {
    if a < b {
      StartsAscend(counts, a, b);
    } else if b < a {
      StartsAscend(counts, b, a);
    }
  }

  lemma {:induction false} SomeOwner(starts: seq<nat>, counts: seq<nat>, x: nat, n: nat) returns (shard: nat)
    requires AreStarts(starts, counts) && n <= |counts| && x < Sum(counts[..n])
    ensures Owns(starts, counts, x, shard)
  {
    hide Sum;
    StartStep(counts, n - 1) by { assert n > 0 by { EmptySum(counts); } }
    if x >= Sum(counts[..n - 1]) {
      return n - 1;
    }
    shard := SomeOwner(starts, counts, x, n - 1);
  }

  lemma EmptySum(counts: seq<nat>)
    ensures Sum(counts[..0]) == 0
  {}

  /** With no gap, every answer the search may give is the owner. */
  lemma SearchFindsOwner(starts: seq<nat>, counts: seq<nat>, x: nat, found: Found)
    requires AreStarts(starts, counts) && NoGap(counts) && x < Sum(counts) && MayFind(starts, x, found)
    ensures Owns(starts, counts, x, ShardOf(found))
  {
    hide Sum;
    assert counts[..|counts|] == counts;
    var owner := SomeOwner(starts, counts, x, |counts|);
    assert counts[owner] > 0;
    match found
    case At(i) => {
      if i < owner {
        StartsAscend(counts, i, owner);
      } else if owner < i {
        StartsAscend(counts, owner, i);
      }
    }
    case InsertAt(i) => {
      if owner + 1 < i {
        StartsAscend(counts, owner, i - 1);
      }
    }
  }

  /** The search always names the owning shard, whatever equal element it picks,
      if and only if no empty shard comes before a non-empty one. */
  lemma SearchExact(starts: seq<nat>, counts: seq<nat>)
    requires AreStarts(starts, counts)
    ensures (forall x: nat, found :: x < Sum(counts) && MayFind(starts, x, found) ==> Owns(starts, counts, x, ShardOf(found)))
            <==> NoGap(counts)
  {
    hide Sum;
    if NoGap(counts) {
      forall x: nat, found | x < Sum(counts) && MayFind(starts, x, found) ensures Owns(starts, counts, x, ShardOf(found)) {
        SearchFindsOwner(starts, counts, x, found);
      }
    } else {
      var i, j :| 0 <= i < j < |counts| && counts[j] > 0 && counts[i] == 0;
      StartsAscend(counts, i, j);
      StartsAscend(counts, j, |counts|);
      assert counts[..|counts|] == counts;
      assert MayFind(starts, starts[i], At(i)) && !Owns(starts, counts, starts[i], ShardOf(At(i)));
    }
  }

  /** The ids of a shard lie in its own stride exactly when its count fits. */
  lemma StrideExact(shard: nat, local: nat)
    ensures GidToShard(shard * SLOT_STRIDE + local) == shard <==> local < SLOT_STRIDE
  {}

  /** Every row's shard is recovered from its id if and only if no shard holds
      more rows than the stride. */
  lemma ShardRecovered(starts: seq<nat>, counts: seq<nat>)
    requires AreStarts(starts, counts) && NoGap(counts)
    ensures (forall x: nat, found :: x < Sum(counts) && MayFind(starts, x, found) ==>
               Owns(starts, counts, x, ShardOf(found)) && GidToShard(FileToGid(starts, x, found)) == ShardOf(found))
            <==> forall i :: 0 <= i < |counts| ==> counts[i] <= SLOT_STRIDE
  {
    hide Sum, GidToShard;
    if forall i :: 0 <= i < |counts| ==> counts[i] <= SLOT_STRIDE {
      forall x: nat, found | x < Sum(counts) && MayFind(starts, x, found)
        ensures Owns(starts, counts, x, ShardOf(found)) && GidToShard(FileToGid(starts, x, found)) == ShardOf(found)
      {
        SearchFindsOwner(starts, counts, x, found);
        StrideExact(ShardOf(found), x - starts[ShardOf(found)]);
      }
    } else {
      var i :| 0 <= i < |counts| && counts[i] > SLOT_STRIDE;
      var x := starts[i] + SLOT_STRIDE;
      StartsAscend(counts, i, |counts|);
      assert counts[..|counts|] == counts;
      var found := Search(starts, counts, x);
      SearchFindsOwner(starts, counts, x, found);
      OwnerIsUnique(starts, counts, x, ShardOf(found), i);
      StrideExact(i, SLOT_STRIDE);
    }
  }

  /** Some answer always exists. */
  lemma Search(starts: seq<nat>, counts: seq<nat>, x: nat) returns (found: Found)
    requires AreStarts(starts, counts)
    ensures MayFind(starts, x, found)
  {
    if i :| 0 <= i < |starts| && starts[i] == x {
      return At(i);
    }
    var i := 0;
    while i < |starts| && starts[i] < x
      invariant i <= |starts| && forall j :: 0 <= j < i ==> starts[j] < x
    {
      i := i + 1;
    }
    forall j | i <= j < |starts| ensures x < starts[j] {
      if i < j {
        StartsAscend(counts, i, j);
      }
    }
    found := InsertAt(i);
  }

  /** With counts from 1 to the stride before the last shard in use, ids are a
      strictly increasing image of the file rows ... */
  lemma GidsAscend(starts: seq<nat>, counts: seq<nat>, x: nat, fx: Found, y: nat, fy: Found)
    requires AreStarts(starts, counts) && NoGap(counts) && forall i :: 0 <= i < |counts| ==> counts[i] <= SLOT_STRIDE
    requires x < y < Sum(counts) && MayFind(starts, x, fx) && MayFind(starts, y, fy)
    ensures 0 <= ShardOf(fx) < |starts| && 0 <= ShardOf(fy) < |starts|
    ensures FileToGid(starts, x, fx) < FileToGid(starts, y, fy)
  {
    hide Sum;
    SearchFindsOwner(starts, counts, x, fx);
    SearchFindsOwner(starts, counts, y, fy);
    var a, b := ShardOf(fx), ShardOf(fy);
    if a < b {
      StrideGap(a, b);
    } else if b < a {
      StartsAscend(counts, b, a);
    }
  }

  lemma StrideGap(a: nat, b: nat)
    requires a < b
    ensures a * SLOT_STRIDE + SLOT_STRIDE <= b * SLOT_STRIDE
  {}

  /** ... and reach every occupied (shard, local) id. */
  lemma GidsOnto(starts: seq<nat>, counts: seq<nat>, shard: nat, local: nat, found: Found)
    requires AreStarts(starts, counts) && NoGap(counts) && shard < |counts| && local < counts[shard]
    requires MayFind(starts, starts[shard] + local, found)
    ensures 0 <= ShardOf(found) < |starts|
    ensures FileToGid(starts, starts[shard] + local, found) == shard * SLOT_STRIDE + local
  {
    hide Sum;
    StartsAscend(counts, shard, |counts|);
    assert counts[..|counts|] == counts;
    SearchFindsOwner(starts, counts, starts[shard] + local, found);
    OwnerIsUnique(starts, counts, starts[shard] + local, ShardOf(found), shard);
  }
}
