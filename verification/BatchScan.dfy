/** The batched chunked scan of src/chunked.rs. */
module BatchScan {
  // Several queries share one pass over a shard: each chunk is one kernel call per
  // allowlist, at the lowest floor of its queries. The theorem is that sharing
  // leaves no trace in any query's answer or published floors.

  import opened Options
  import opened Ranking
  import opened ChunkScan

  // ----- chunks of a shard -----

  const BLOCK_VECTORS: nat := 32

  /** `chunk_blocks.max(1) * BLOCK_VECTORS`. */
  function ChunkSize(chunkBlocks: nat): (size: nat)
    ensures size > 0
  {
    (if chunkBlocks < 1 then 1 else chunkBlocks) * BLOCK_VECTORS
  }

  datatype Range = Range(lo: nat, hi: nat)

  function Next(lo: nat, n: nat, size: nat): nat {
    if lo + size < n then lo + size else n
  }

  /** The slots from `lo` on in runs of `size`, the last one short. */
  function Cuts(lo: nat, n: nat, size: nat): seq<Range>
    requires size > 0
    decreases n - lo
  {
    if lo >= n then [] else [Range(lo, Next(lo, n, size))] + Cuts(Next(lo, n, size), n, size)
  }

  lemma {:induction false} CutsAt(lo: nat, n: nat, size: nat, c: nat)
    requires size > 0 && c < |Cuts(lo, n, size)|
    ensures var cuts := Cuts(lo, n, size);
            && lo <= cuts[c].lo < cuts[c].hi <= n && cuts[c].lo == (if c == 0 then lo else cuts[c - 1].hi)
            && (c == |cuts| - 1 ==> cuts[c].hi == n)
    decreases n - lo
  {
    if c > 0 {
      CutsAt(Next(lo, n, size), n, size, c - 1);
    } else if |Cuts(lo, n, size)| == 1 {
      assert Cuts(Next(lo, n, size), n, size) == [];
    }
  }

  /** An allowlist that covers the rows, or none. */
  predicate Covers(allow: Option<seq<bool>>, n: nat) {
    allow.Some? ==> |allow.value| == n
  }

  /** The allowed rows of slots `[lo, hi)`, in order. */
  function Allowed(rows: seq<Hit>, allow: Option<seq<bool>>, lo: nat, hi: nat): seq<Hit>
    requires hi <= |rows| && Covers(allow, |rows|)
    decreases hi
  {
    if lo >= hi then []
    else Allowed(rows, allow, lo, hi - 1) + if allow.None? || allow.value[hi - 1] then [rows[hi - 1]] else []
  }

  lemma {:induction false} AllowedJoin(rows: seq<Hit>, allow: Option<seq<bool>>, lo: nat, mid: nat, hi: nat)
    requires lo <= mid <= hi <= |rows| && Covers(allow, |rows|)
    ensures Allowed(rows, allow, lo, hi) == Allowed(rows, allow, lo, mid) + Allowed(rows, allow, mid, hi)
    decreases hi
  {
    if mid < hi {
      AllowedJoin(rows, allow, lo, mid, hi - 1);
    }
  }

  /** Without an allowlist every row is allowed. */
  lemma {:induction false} AllAllowed(rows: seq<Hit>, hi: nat)
    requires hi <= |rows|
    ensures Allowed(rows, None, 0, hi) == rows[..hi]
  {
    if hi > 0 {
      AllAllowed(rows, hi - 1);
    }
  }

  predicate AnyAllowed(allow: Option<seq<bool>>, lo: nat, hi: nat)
    requires allow.Some? ==> hi <= |allow.value|
  {
    allow.None? || exists i :: lo <= i < hi && allow.value[i]
  }

  /** A chunk is skipped exactly when it has no allowed row. */
  lemma {:induction false} SkipIsEmpty(rows: seq<Hit>, allow: Option<seq<bool>>, lo: nat, hi: nat)
    requires lo <= hi <= |rows| && Covers(allow, |rows|)
    ensures lo < hi ==> (AnyAllowed(allow, lo, hi) <==> Allowed(rows, allow, lo, hi) != [])
    decreases hi
  {
    if lo < hi {
      SkipIsEmpty(rows, allow, lo, hi - 1);
      assert lo == hi - 1 ==> Allowed(rows, allow, lo, hi - 1) == [];
    }
  }

  /** The allowed rows of every chunk. */
  function ChunkedRows(rows: seq<Hit>, allow: Option<seq<bool>>, size: nat): (r: seq<seq<Hit>>)
    requires size > 0 && Covers(allow, |rows|)
    ensures |r| == |Cuts(0, |rows|, size)|
  {
    var cuts := Cuts(0, |rows|, size);
    seq(|cuts|, c requires 0 <= c < |cuts| => CutsAt(0, |rows|, size, c); Allowed(rows, allow, cuts[c].lo, cuts[c].hi))
  }

  /** The chunks hold the allowed rows, each once and in order. */
  lemma {:induction false} ChunksCover(rows: seq<Hit>, allow: Option<seq<bool>>, size: nat, c: nat)
    requires size > 0 && Covers(allow, |rows|) && c <= |ChunkedRows(rows, allow, size)|
    ensures var chunks := ChunkedRows(rows, allow, size);
            var cuts := Cuts(0, |rows|, size);
            var hi := if c == 0 then 0 else cuts[c - 1].hi;
            && hi <= |rows| && Flatten(chunks[..c]) == Allowed(rows, allow, 0, hi)
            && (c == |chunks| ==> hi == |rows|)
  {
    hide Allowed, Cuts;
    var chunks, cuts := ChunkedRows(rows, allow, size), Cuts(0, |rows|, size);
    NoRows(rows, allow, size);
    if c > 0 {
      ChunksCover(rows, allow, size, c - 1);
      CutsAt(0, |rows|, size, c - 1);
      AllowedJoin(rows, allow, 0, cuts[c - 1].lo, cuts[c - 1].hi);
      assert chunks[..c][..c - 1] == chunks[..c - 1];
    }
  }

  lemma NoRows(rows: seq<Hit>, allow: Option<seq<bool>>, size: nat)
    requires size > 0 && Covers(allow, |rows|)
    ensures Allowed(rows, allow, 0, 0) == [] && (Cuts(0, |rows|, size) == [] <==> rows == [])
  {}

  // ----- queries and groups -----

  /** A query's result count, whether it keeps ties, and which allowlist it
      holds. Allowlists are told apart by identity, here their position. */
  datatype Query = Query(k: nat, keepTies: bool, allow: Option<nat>)

  ghost predicate Ascending(s: seq<nat>) {
    forall i, j :: 0 <= i < j < |s| ==> s[i] < s[j]
  }

  /** The group is all of the first `n` queries that hold `key`, in order. */
  ghost predicate GroupOf(queries: seq<Query>, key: Option<nat>, group: seq<nat>, n: nat)
    requires n <= |queries|
  {
    && group != [] && Ascending(group)
    && forall q: nat :: q in group <==> q < n && queries[q].allow == key
  }

  /** One group per allowlist, in the order the allowlists first occur. */
  ghost predicate Grouped(queries: seq<Query>, keys: seq<Option<nat>>, groups: seq<seq<nat>>, n: nat)
    requires n <= |queries|
  {
    && |keys| == |groups|
    && (forall g :: 0 <= g < |groups| ==> GroupOf(queries, keys[g], groups[g], n))
    && (forall g, h :: 0 <= g < h < |groups| ==> keys[g] != keys[h] && groups[g][0] < groups[h][0])
    && (forall q :: 0 <= q < n ==> queries[q].allow in keys)
  }

  lemma GroupGrows(queries: seq<Query>, key: Option<nat>, group: seq<nat>, n: nat)
    requires n < |queries| && GroupOf(queries, key, group, n)
    ensures queries[n].allow == key ==> GroupOf(queries, key, group + [n], n + 1) && (group + [n])[0] == group[0]
    ensures queries[n].allow != key ==> GroupOf(queries, key, group, n + 1)
  {
    forall i | 0 <= i < |group| ensures group[i] < n { assert group[i] in group; }
  }

  lemma JoinGroup(queries: seq<Query>, keys: seq<Option<nat>>, groups: seq<seq<nat>>, n: nat, g: nat)
    requires n < |queries| && Grouped(queries, keys, groups, n) && g < |groups| && keys[g] == queries[n].allow
    ensures Grouped(queries, keys, groups[g := groups[g] + [n]], n + 1)
  {
    var groups' := groups[g := groups[g] + [n]];
    forall h | 0 <= h < |groups'| ensures GroupOf(queries, keys[h], groups'[h], n + 1) && groups'[h][0] == groups[h][0] {
      GroupGrows(queries, keys[h], groups[h], n);
      assert h != g ==> keys[h] != keys[g];
    }
    hide GroupOf;
  }

  lemma NewGroup(queries: seq<Query>, keys: seq<Option<nat>>, groups: seq<seq<nat>>, n: nat)
    requires n < |queries| && Grouped(queries, keys, groups, n) && queries[n].allow !in keys
    ensures Grouped(queries, keys + [queries[n].allow], groups + [[n]], n + 1)
  {
    var key := queries[n].allow;
    var keys', groups' := keys + [key], groups + [[n]];
    forall h | 0 <= h < |groups'| ensures GroupOf(queries, keys'[h], groups'[h], n + 1) && groups'[h][0] <= n {
      if h < |groups| {
        GroupGrows(queries, keys[h], groups[h], n);
        assert groups[h][0] in groups[h];
      } else {
        assert forall q: nat :: q < n ==> queries[q].allow != key;
      }
    }
    forall g | 0 <= g < |groups| ensures groups[g][0] < n { assert groups[g][0] in groups[g]; }
    hide GroupOf;
  }

  /** `group_by_allow`. */
  method GroupByAllow(queries: seq<Query>) returns (groups: seq<seq<nat>>, keys: seq<Option<nat>>)
    ensures Grouped(queries, keys, groups, |queries|)
  {
    hide Grouped;
    groups, keys := [], [];
    assert Grouped(queries, keys, groups, 0) by { NoGroups(queries); }
    for n := 0 to |queries|
      invariant Grouped(queries, keys, groups, n)
    {
      var key := queries[n].allow;
      assert |keys| == |groups| by { SameCount(queries, keys, groups, n); }
      var g := 0;
      while g < |keys| && keys[g] != key
        invariant g <= |keys| && key !in keys[..g]
      {
        g := g + 1;
      }
      if g < |keys| {
        JoinGroup(queries, keys, groups, n, g);
        groups := groups[g := groups[g] + [n]];
      } else {
        assert keys[..|keys|] == keys;
        NewGroup(queries, keys, groups, n);
        keys, groups := keys + [key], groups + [[n]];
      }
    }
  }

  lemma NoGroups(queries: seq<Query>)
    ensures Grouped(queries, [], [], 0)
  {}

  lemma SameCount(queries: seq<Query>, keys: seq<Option<nat>>, groups: seq<seq<nat>>, n: nat)
    requires n <= |queries| && Grouped(queries, keys, groups, n)
    ensures |keys| == |groups|
  {}

  // ----- the batch -----

  /** `rows[q]` is the shard scored for query `q`. */
  datatype Batch = Batch(n: nat, queries: seq<Query>, rows: seq<seq<Hit>>, lists: seq<seq<bool>>) {
    predicate Valid() {
      && |rows| == |queries|
      && forall q :: 0 <= q < |queries| ==>
           |rows[q]| == n && (queries[q].allow.Some? ==> queries[q].allow.value < |lists|)
    }

    function Allow(q: nat): Option<seq<bool>>
      requires Valid() && q < |queries|
    {
      if queries[q].allow.None? then None else Some(lists[queries[q].allow.value])
    }

    /** Every allowlist in use covers every slot. */
    predicate Covered()
      requires Valid()
    {
      forall q :: 0 <= q < |queries| ==> queries[q].allow.Some? ==> |lists[queries[q].allow.value]| == n
    }

    predicate Ready(q: nat) {
      Valid() && q < |queries| && Covers(Allow(q), n) && |rows[q]| == n
    }
  }

  /** External floors, polled for every query and chunk. */
  type Floors = (nat, nat) -> Option<int>

  ghost function FloorsOf(floors: Floors, q: nat): nat -> Option<int> {
    (c: nat) => floors(q, c)
  }

  /** One query's running best and the floors it has published. */
  datatype Track = Track(hits: seq<Hit>, published: seq<int>)

  /** A query's state after `c` chunks, from its own rows and floors alone. */
  ghost function Alone(b: Batch, floors: Floors, size: nat, q: nat, c: nat): Track
    requires size > 0 && b.Ready(q) && c <= |Cuts(0, b.n, size)|
  {
    var chunks := ChunkedRows(b.rows[q], b.Allow(q), size);
    Track(Best(Survivors(chunks, FloorsOf(floors, q), c), b.queries[q].k, b.queries[q].keepTies),
          Published(chunks, FloorsOf(floors, q), b.queries[q].k, c))
  }

  /** The rows a query has kept after `c` chunks. */
  ghost function Seen(b: Batch, floors: Floors, size: nat, q: nat, c: nat): seq<Hit>
    requires size > 0 && b.Ready(q) && c <= |Cuts(0, b.n, size)|
  {
    Survivors(ChunkedRows(b.rows[q], b.Allow(q), size), FloorsOf(floors, q), c)
  }

  /** A query's allowed rows of chunk `c`. */
  ghost function ChunkOf(b: Batch, size: nat, q: nat, c: nat): seq<Hit>
    requires size > 0 && b.Ready(q) && c < |Cuts(0, b.n, size)|
  {
    ChunkedRows(b.rows[q], b.Allow(q), size)[c]
  }

  lemma AloneStep(b: Batch, floors: Floors, size: nat, q: nat, c: nat)
    requires size > 0 && b.Ready(q) && c < |Cuts(0, b.n, size)|
    ensures var k, kept := b.queries[q].k, Seen(b, floors, size, q, c) + AtOrAbove(ChunkOf(b, size, q, c), floors(q, c));
            Alone(b, floors, size, q, c + 1) ==
            Track(Best(kept, k, b.queries[q].keepTies),
                  Alone(b, floors, size, q, c).published
                  + if 0 < k <= |kept| && ChunkOf(b, size, q, c) != [] then [Kth(kept, k)] else [])
    ensures Alone(b, floors, size, q, c).hits == Best(Seen(b, floors, size, q, c), b.queries[q].k, b.queries[q].keepTies)
  {
    hide AtOrAbove, Best, Kth, ChunkedRows;
  }

  lemma SkipStep(b: Batch, floors: Floors, size: nat, q: nat, c: nat)
    requires size > 0 && b.Ready(q) && c < |Cuts(0, b.n, size)| && ChunkOf(b, size, q, c) == []
    ensures Alone(b, floors, size, q, c + 1) == Alone(b, floors, size, q, c)
  {
    hide Best, Kth, Alone, Seen, ChunkOf;
    AloneStep(b, floors, size, q, c);
    assert AtOrAbove([], floors(q, c)) == [];
    assert Seen(b, floors, size, q, c) + [] == Seen(b, floors, size, q, c);
  }

  /** No floor is below an absent one. */
  function Lower(x: Option<int>, y: Option<int>): Option<int> {
    if x.None? || y.None? then None else if x.value <= y.value then x else y
  }

  /** The floor and the cut of a group's kernel call serve all of its queries. */
  ghost predicate Serves(q: Query, hits: seq<Hit>, external: Option<int>, shared: Option<int>, cut: Option<nat>) {
    && Higher(ScanFloor(hits, external, q.k), shared) == ScanFloor(hits, external, q.k)
    && (cut.Some? ==> !q.keepTies && q.k <= cut.value)
  }

  method GroupCall(b: Batch, tracks: seq<Track>, group: seq<nat>, floors: Floors, c: nat)
    returns (shared: Option<int>, cut: Option<nat>)
    requires group != [] && |tracks| == |b.queries| && forall i :: 0 <= i < |group| ==> group[i] < |b.queries|
    ensures forall i :: 0 <= i < |group| ==>
              Serves(b.queries[group[i]], tracks[group[i]].hits, floors(group[i], c), shared, cut)
  {
    hide ScanFloor;
    shared := ScanFloor(tracks[group[0]].hits, floors(group[0], c), b.queries[group[0]].k);
    var most, anyTies := 0, false;
    for i := 0 to |group|
      invariant forall j :: 0 <= j < i ==>
                  var q := group[j];
                  && Higher(ScanFloor(tracks[q].hits, floors(q, c), b.queries[q].k), shared)
                     == ScanFloor(tracks[q].hits, floors(q, c), b.queries[q].k)
                  && b.queries[q].k <= most && (b.queries[q].keepTies ==> anyTies)
    {
      var q := group[i];
      shared := Lower(shared, ScanFloor(tracks[q].hits, floors(q, c), b.queries[q].k));
      most := if b.queries[q].k > most then b.queries[q].k else most;
      anyTies := anyTies || b.queries[q].keepTies;
    }
    cut := if anyTies then None else Some(most);
  }

  /** One query's share of a kernel call: filtered to its own floor, merged, and
      its k-th best published. */
  method TakeShare(q: Query, track: Track, chunk: seq<Hit>, external: Option<int>, shared: Option<int>, cut: Option<nat>,
                   ghost seen: seq<Hit>)
    returns (next: Track)
    requires track.hits == Best(seen, q.k, q.keepTies) && Serves(q, track.hits, external, shared, cut)
    ensures var kept := seen + AtOrAbove(chunk, external);
            && next.hits == Best(kept, q.k, q.keepTies)
            && next.published == track.published + if 0 < q.k <= |kept| then [Kth(kept, q.k)] else []
  {
    hide TopK, TieTop, AtOrAbove, Kernel, ScanFloor, Kth, TieClosed, Higher, Sorted;
    if q.k == 0 {
      return track;
    }
    ghost var kept := seen + AtOrAbove(chunk, external);
    BestShape(seen, q.k, q.keepTies);
    BestShape(kept, q.k, q.keepTies);
    QueryStep(seen, track.hits, chunk, external, shared, cut, q.k, q.keepTies);
    var found := AtOrAbove(Kernel(chunk, shared, cut), ScanFloor(track.hits, external, q.k));
    var hits := MergeChunkHits(track.hits, found, q.k, q.keepTies);
    var full := |hits| >= q.k;
    next := Track(hits, track.published + if full then [hits[q.k - 1].score] else []);
  }

  lemma AllReady(b: Batch, q: nat)
    requires b.Valid() && b.Covered() && q < |b.queries|
    ensures b.Ready(q)
  {}

  /** Every query is where it would be alone: after chunk `c` where its allowlist
      is one of `done`, before it elsewhere. */
  ghost predicate InStep(b: Batch, floors: Floors, size: nat, c: nat, tracks: seq<Track>, done: seq<Option<nat>>)
    requires size > 0
  {
    && |tracks| == |b.queries| && c < |Cuts(0, b.n, size)|
    && forall q :: 0 <= q < |b.queries| ==>
         b.Ready(q) && tracks[q] == Alone(b, floors, size, q, if b.queries[q].allow in done then c + 1 else c)
  }

  lemma ChunkIs(b: Batch, size: nat, q: nat, c: nat)
    requires size > 0 && b.Ready(q) && c < |Cuts(0, b.n, size)|
    ensures var cut := Cuts(0, b.n, size)[c];
            cut.lo < cut.hi <= b.n && ChunkOf(b, size, q, c) == Allowed(b.rows[q], b.Allow(q), cut.lo, cut.hi)
  {
    hide Cuts, Allowed;
    CutsAt(0, b.n, size, c);
  }

  /** The members of a group that were served, and the rest. */
  ghost predicate Serving(b: Batch, floors: Floors, size: nat, c: nat, before: seq<Track>, tracks: seq<Track>, served: seq<nat>)
    requires size > 0
  {
    && |before| == |tracks| == |b.queries| && c < |Cuts(0, b.n, size)|
    && forall q :: 0 <= q < |b.queries| ==>
         b.Ready(q) && tracks[q] == if q in served then Alone(b, floors, size, q, c + 1) else before[q]
  }

  lemma ServeOne(b: Batch, floors: Floors, size: nat, c: nat, before: seq<Track>, tracks: seq<Track>, served: seq<nat>,
                 q: nat, next: Track)
    requires size > 0 && Serving(b, floors, size, c, before, tracks, served) && q < |b.queries|
    requires next == Alone(b, floors, size, q, c + 1)
    ensures Serving(b, floors, size, c, before, tracks[q := next], served + [q])
  {
    hide Alone, Cuts;
  }

  /** One kernel call: a chunk for the queries of one allowlist. */
  method ScanGroup(b: Batch, tracks: seq<Track>, group: seq<nat>, floors: Floors, size: nat, c: nat, start: nat, end: nat,
                   ghost key: Option<nat>, ghost done: seq<Option<nat>>)
    returns (after: seq<Track>)
    requires size > 0 && b.Valid() && b.Covered() && InStep(b, floors, size, c, tracks, done)
    requires Cuts(0, b.n, size)[c] == Range(start, end)
    requires GroupOf(b.queries, key, group, |b.queries|) && key !in done
    ensures InStep(b, floors, size, c, after, done + [key])
  {
    hide Alone, Cuts, Allowed, AnyAllowed, Best, Kth, AtOrAbove, Seen, ChunkOf;
    forall i | 0 <= i < |group|
      ensures group[i] < |b.queries| && b.Ready(group[i]) && b.Allow(group[i]) == b.Allow(group[0])
      ensures tracks[group[i]] == Alone(b, floors, size, group[i], c)
    {
      assert group[i] in group && group[0] in group;
    }
    var allow := b.Allow(group[0]);
    ChunkIs(b, size, group[0], c);
    if !AnyAllowed(allow, start, end) {
      forall i | 0 <= i < |group| ensures Alone(b, floors, size, group[i], c + 1) == tracks[group[i]] {
        ChunkIs(b, size, group[i], c);
        SkipIsEmpty(b.rows[group[i]], allow, start, end);
        SkipStep(b, floors, size, group[i], c);
      }
      GroupDone(b, floors, size, c, tracks, tracks, group, key, done);
      return tracks;
    }
    var shared, cut := GroupCall(b, tracks, group, floors, c);
    after := tracks;
    for i := 0 to |group|
      invariant Serving(b, floors, size, c, tracks, after, group[..i])
    {
      var q := group[i];
      assert q !in group[..i];
      ChunkIs(b, size, q, c);
      SkipIsEmpty(b.rows[q], allow, start, end);
      AloneStep(b, floors, size, q, c);
      var next := TakeShare(b.queries[q], after[q], Allowed(b.rows[q], allow, start, end), floors(q, c), shared, cut,
                            Seen(b, floors, size, q, c));
      ServeOne(b, floors, size, c, tracks, after, group[..i], q, next);
      after := after[q := next];
      assert group[..i + 1] == group[..i] + [q];
    }
    assert group[..|group|] == group;
    GroupDone(b, floors, size, c, tracks, after, group, key, done);
  }

  lemma GroupDone(b: Batch, floors: Floors, size: nat, c: nat, tracks: seq<Track>, after: seq<Track>, group: seq<nat>,
                  key: Option<nat>, done: seq<Option<nat>>)
    requires size > 0 && InStep(b, floors, size, c, tracks, done) && |after| == |tracks|
    requires GroupOf(b.queries, key, group, |b.queries|) && key !in done
    requires forall q :: 0 <= q < |b.queries| ==>
               after[q] == if q in group then Alone(b, floors, size, q, c + 1) else tracks[q]
    ensures InStep(b, floors, size, c, after, done + [key])
  {
    hide Alone, Cuts;
  }

  /** One chunk, for every group in turn. */
  method ScanChunk(b: Batch, before: seq<Track>, groups: seq<seq<nat>>, floors: Floors, size: nat, c: nat, start: nat, end: nat,
                   ghost keys: seq<Option<nat>>)
    returns (tracks: seq<Track>)
    requires size > 0 && b.Valid() && b.Covered() && Grouped(b.queries, keys, groups, |b.queries|)
    requires c < |Cuts(0, b.n, size)| && Cuts(0, b.n, size)[c] == Range(start, end) && |before| == |b.queries|
    requires forall q :: 0 <= q < |b.queries| ==> b.Ready(q) && before[q] == Alone(b, floors, size, q, c)
    ensures |tracks| == |b.queries|
    ensures forall q :: 0 <= q < |b.queries| ==> tracks[q] == Alone(b, floors, size, q, c + 1)
  {
    hide Alone, Cuts, GroupOf;
    tracks := before;
    for g := 0 to |groups|
      invariant InStep(b, floors, size, c, tracks, keys[..g])
    {
      assert GroupOf(b.queries, keys[g], groups[g], |b.queries|) && keys[g] !in keys[..g];
      tracks := ScanGroup(b, tracks, groups[g], floors, size, c, start, end, keys[g], keys[..g]);
      assert keys[..g] + [keys[g]] == keys[..g + 1];
    }
    assert keys[..|groups|] == keys;
  }

  /** `chunked_topk_batch`: refused exactly when there is something to scan and an
      allowlist does not cover it. Otherwise each query has the hits and the
      published floors of its own scan alone. */
  method BatchTopK(b: Batch, chunkBlocks: nat, floors: Floors) returns (out: Result<seq<Track>>)
    requires b.Valid()
    ensures out.Refused? <==> b.n > 0 && (exists q :: 0 <= q < |b.queries| && b.queries[q].k > 0) && !b.Covered()
    ensures out.Ok? ==> |out.value| == |b.queries|
    ensures out.Ok? && b.Covered() ==>
              var size := ChunkSize(chunkBlocks);
              forall q :: 0 <= q < |b.queries| ==>
                b.Ready(q) && out.value[q] == Alone(b, floors, size, q, |Cuts(0, b.n, size)|)
    ensures out.Ok? && !b.Covered() ==> forall q :: 0 <= q < |b.queries| ==> out.value[q] == Track([], [])
  {
    var size := ChunkSize(chunkBlocks);
    hide ChunkSize, Alone, Cuts, Grouped;
    var tracks := seq(|b.queries|, _ => Track([], []));
    if b.n == 0 || forall q :: 0 <= q < |b.queries| ==> b.queries[q].k == 0 {
      if b.Covered() {
        NothingToScan(b, floors, size);
      }
      return Ok(tracks);
    }
    if !b.Covered() {
      return Refused;
    }
    forall q | 0 <= q < |b.queries| ensures b.Ready(q) && Alone(b, floors, size, q, 0) == Track([], []) {
      AllReady(b, q);
      AloneStart(b, floors, size, q);
    }
    var groups, keys := GroupByAllow(b.queries);
    ghost var cuts := Cuts(0, b.n, size);
    var c, start := 0, 0;
    assert cuts[0..] == cuts;
    while start < b.n
      invariant start <= b.n && c <= |cuts| && cuts[c..] == Cuts(start, b.n, size)
      invariant |tracks| == |b.queries|
      invariant forall q :: 0 <= q < |b.queries| ==> tracks[q] == Alone(b, floors, size, q, c)
      decreases b.n - start
    {
      var end := Next(start, b.n, size);
      NextCut(start, b.n, size, cuts, c);
      tracks := ScanChunk(b, tracks, groups, floors, size, c, start, end, keys);
      c, start := c + 1, end;
    }
    NoCuts(b.n, size);
    out := Ok(tracks);
  }

  lemma AloneStart(b: Batch, floors: Floors, size: nat, q: nat)
    requires size > 0 && b.Ready(q)
    ensures Alone(b, floors, size, q, 0) == Track([], [])
  {
    hide ChunkedRows;
    var k := b.queries[q].k;
    TopKSize([], k);
    if k > 0 {
      TieTopShape([], k);
    }
  }

  lemma {:induction false} NoHits(b: Batch, floors: Floors, size: nat, q: nat, c: nat)
    requires size > 0 && b.Ready(q) && c <= |Cuts(0, b.n, size)| && b.queries[q].k == 0
    ensures Alone(b, floors, size, q, c) == Track([], [])
  {
    hide Kth, AtOrAbove, Cuts, Survivors, ChunkedRows;
    if c > 0 {
      NoHits(b, floors, size, q, c - 1);
    }
  }

  lemma NothingToScan(b: Batch, floors: Floors, size: nat)
    requires size > 0 && b.Valid() && b.Covered()
    requires b.n == 0 || forall q :: 0 <= q < |b.queries| ==> b.queries[q].k == 0
    ensures forall q :: 0 <= q < |b.queries| ==>
              b.Ready(q) && Alone(b, floors, size, q, |Cuts(0, b.n, size)|) == Track([], [])
  {
    hide Alone;
    forall q | 0 <= q < |b.queries|
      ensures b.Ready(q) && Alone(b, floors, size, q, |Cuts(0, b.n, size)|) == Track([], [])
    {
      AllReady(b, q);
      if b.n == 0 {
        AloneStart(b, floors, size, q);
      } else {
        NoHits(b, floors, size, q, |Cuts(0, b.n, size)|);
      }
    }
  }

  lemma NextCut(start: nat, n: nat, size: nat, cuts: seq<Range>, c: nat)
    requires size > 0 && start < n && c <= |cuts| && cuts[c..] == Cuts(start, n, size)
    ensures c < |cuts| && cuts[c] == Range(start, Next(start, n, size)) && start < Next(start, n, size) <= n
    ensures cuts[c + 1..] == Cuts(Next(start, n, size), n, size)
  {
    assert cuts[c..][1..] == cuts[c + 1..];
  }

  lemma NoCuts(n: nat, size: nat)
    requires size > 0
    ensures Cuts(n, n, size) == []
  {}

  /** `chunked_topk`: a batch of one. */
  method ChunkedTopK(rows: seq<Hit>, k: nat, keepTies: bool, allow: Option<seq<bool>>, chunkBlocks: nat,
                     floors: nat -> Option<int>)
    returns (out: Result<Track>)
    ensures out.Refused? <==> rows != [] && k > 0 && !Covers(allow, |rows|)
    ensures out.Ok? && Covers(allow, |rows|) ==>
              var chunks := ChunkedRows(rows, allow, ChunkSize(chunkBlocks));
              && out.value.hits == Best(Survivors(chunks, floors, |chunks|), k, keepTies)
              && out.value.published == Published(chunks, floors, k, |chunks|)
  {
    hide ChunkedRows, Cuts, Best, ChunkSize;
    var query := Query(k, keepTies, if allow.None? then None else Some(0));
    var b := Batch(|rows|, [query], [rows], if allow.None? then [] else [allow.value]);
    var tracks := BatchTopK(b, chunkBlocks, (q: nat, c: nat) => floors(c));
    assert b.queries[0] == query;
    if tracks.Refused? {
      return Refused;
    }
    out := Ok(tracks.value[0]);
    if Covers(allow, |rows|) {
      assert b.Ready(0) && b.Allow(0) == allow;
      ghost var chunks := ChunkedRows(rows, allow, ChunkSize(chunkBlocks));
      SameFloors(chunks, FloorsOf((q: nat, c: nat) => floors(c), 0), floors, k, |chunks|);
    }
  }

  lemma {:induction false} SameFloors(chunks: seq<seq<Hit>>, f: nat -> Option<int>, g: nat -> Option<int>, k: nat, c: nat)
    requires c <= |chunks| && forall d: nat :: f(d) == g(d)
    ensures Survivors(chunks, f, c) == Survivors(chunks, g, c) && Published(chunks, f, k, c) == Published(chunks, g, k, c)
  {
    hide Kth, AtOrAbove;
    if c > 0 {
      SameFloors(chunks, f, g, k, c - 1);
    }
  }

  /** Without external floors, chunks, batch-mates and local floors are all
      invisible: a query's answer is the best of its allowed rows. */
  lemma ChunkingIsLossless(rows: seq<Hit>, allow: Option<seq<bool>>, size: nat, floors: nat -> Option<int>, k: nat, keepTies: bool)
    requires size > 0 && Covers(allow, |rows|)
    requires forall c :: 0 <= c < |ChunkedRows(rows, allow, size)| ==> floors(c).None?
    ensures var chunks := ChunkedRows(rows, allow, size);
            Best(Survivors(chunks, floors, |chunks|), k, keepTies) == Best(Allowed(rows, allow, 0, |rows|), k, keepTies)
  {
    hide Best, ChunkedRows, Allowed;
    var chunks := ChunkedRows(rows, allow, size);
    ChunksCover(rows, allow, size, |chunks|);
    SurvivorBag(chunks, floors, |chunks|);
    assert chunks[..|chunks|] == chunks;
  }
}
