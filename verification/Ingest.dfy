/** The remote ingest of examples/court_ingest.rs. */
module Ingest {
  // Shard bounds over the corpus, a feeder that joins the chunks and embeddings
  // files block by block, and a driver that lands each block's documents and then
  // its vectors on a node, and can resume after a crash.

  import opened Options
  import opened Numbers

  // ----- shard bounds -----

  datatype Bound = Bound(lo: nat, hi: nat)

  function Edges(split: seq<nat>, m: nat): seq<nat> {
    [0] + split + [m]
  }

  predicate Ascends(edges: seq<nat>) {
    forall i :: 0 <= i < |edges| - 1 ==> edges[i] < edges[i + 1]
  }

  function Windows(edges: seq<nat>): seq<Bound>
    requires |edges| > 0
  {
    seq(|edges| - 1, i requires 0 <= i < |edges| - 1 => Bound(edges[i], edges[i + 1]))
  }

  function EqualBound(m: nat, shards: nat, i: nat): Bound
    requires i < shards
  {
    var per := m / shards;
    Bound(i * per, if i == shards - 1 then m else (i + 1) * per)
  }

  /** Equal blocks, or the explicit split points. */
  function Bounds(m: nat, shards: nat, split: seq<nat>): Result<seq<Bound>>
    requires shards > 0
  {
    if split == [] then
      Ok(seq(shards, i requires 0 <= i < shards => EqualBound(m, shards, i)))
    else if |split| != shards - 1 || !Ascends(Edges(split, m)) then
      Refused
    else
      Ok(Windows(Edges(split, m)))
  }

  /** Consecutive ranges from 0 to `m`. */
  ghost predicate Partitions(bounds: seq<Bound>, m: nat) {
    && |bounds| > 0 && bounds[0].lo == 0 && bounds[|bounds| - 1].hi == m
    && (forall i :: 0 <= i < |bounds| ==> bounds[i].lo <= bounds[i].hi)
    && (forall i :: 0 < i < |bounds| ==> bounds[i - 1].hi == bounds[i].lo)
  }

  lemma PerFits(m: nat, shards: nat, i: nat)
    requires i < shards
    ensures i * (m / shards) <= m && (i + 1) * (m / shards) == i * (m / shards) + m / shards
  {}

  /** The bounds partition the corpus whichever way they are given; they are
      refused exactly when explicit points do not cut it into one non-empty
      range per node. */
  lemma BoundsPartition(m: nat, shards: nat, split: seq<nat>)
    requires shards > 0
    ensures Bounds(m, shards, split).Refused? <==>
            split != [] && !(|split| == shards - 1 && Ascends(Edges(split, m)))
    ensures Bounds(m, shards, split).Ok? ==>
              |Bounds(m, shards, split).value| == shards && Partitions(Bounds(m, shards, split).value, m)
  {
    if split == [] {
      forall i | 0 <= i < shards ensures EqualBound(m, shards, i).lo <= EqualBound(m, shards, i).hi {
        PerFits(m, shards, i);
      }
    }
  }

  /** Every row belongs to exactly one shard. */
  lemma {:induction false} RowHome(bounds: seq<Bound>, m: nat, row: nat) returns (home: nat)
    requires Partitions(bounds, m) && row < m
    ensures home < |bounds| && bounds[home].lo <= row < bounds[home].hi
    ensures forall i :: 0 <= i < |bounds| && bounds[i].lo <= row < bounds[i].hi ==> i == home
  {
    home := 0;
    while row >= bounds[home].hi
      invariant home < |bounds| && bounds[home].lo <= row
      decreases |bounds| - home
    {
      home := home + 1;
    }
    forall i | 0 <= i < |bounds| && bounds[i].lo <= row < bounds[i].hi ensures i == home {
      Monotone(bounds, m, if i < home then i else home, if i < home then home else i);
    }
  }

  lemma {:induction false} Monotone(bounds: seq<Bound>, m: nat, i: nat, j: nat)
    requires Partitions(bounds, m) && i <= j < |bounds|
    ensures i < j ==> bounds[i].hi <= bounds[j].lo
    decreases j - i
  {
    if i + 1 < j {
      Monotone(bounds, m, i, j - 1);
      assert bounds[j - 1].lo <= bounds[j - 1].hi;
    }
  }

  // ----- the two files and the feeder -----

  datatype Chunk = Chunk(opinionId: nat, ordinal: nat, text: string)
  datatype Record = Record(opinionId: nat, ordinal: nat, vector: seq<int>)
  datatype Block = Block(docs: seq<Chunk>, vectors: seq<seq<int>>)

  predicate SameKey(c: Chunk, r: Record) {
    c.opinionId == r.opinionId && c.ordinal == r.ordinal
  }

  /** Rows `[lo, hi)` are present in both files and join. */
  ghost predicate Joined(chunks: seq<Chunk>, records: seq<Record>, lo: nat, hi: nat) {
    forall i: nat :: lo <= i < hi ==> JoinedAt(chunks, records, i)
  }

  predicate JoinedAt(chunks: seq<Chunk>, records: seq<Record>, i: nat) {
    i < |chunks| && i < |records| && SameKey(chunks[i], records[i])
  }

  lemma JoinedEnd(chunks: seq<Chunk>, records: seq<Record>, lo: nat, hi: nat)
    requires Joined(chunks, records, lo, hi) && lo < hi
    ensures hi <= |chunks| && hi <= |records|
  {
    assert JoinedAt(chunks, records, hi - 1);
  }

  /** The documents of rows `[lo, hi)`, as far as the file goes. */
  ghost function DocsOf(chunks: seq<Chunk>, lo: nat, hi: nat): (r: seq<Chunk>)
    ensures lo <= hi <= |chunks| ==> r == chunks[lo..hi]
    ensures lo >= hi ==> r == []
    decreases hi
  {
    if lo >= hi || hi > |chunks| then [] else DocsOf(chunks, lo, hi - 1) + [chunks[hi - 1]]
  }

  /** The vectors of rows `[lo, hi)`, as far as the file goes. */
  ghost function VectorsOf(records: seq<Record>, lo: nat, hi: nat): (r: seq<seq<int>>)
    ensures lo <= hi <= |records| ==> |r| == hi - lo
    ensures lo >= hi ==> r == []
    decreases hi
  {
    if lo >= hi || hi > |records| then [] else VectorsOf(records, lo, hi - 1) + [records[hi - 1].vector]
  }

  lemma {:induction false} DocsJoin(chunks: seq<Chunk>, lo: nat, mid: nat, hi: nat)
    requires lo <= mid <= hi && (mid < hi ==> hi <= |chunks|)
    ensures DocsOf(chunks, lo, hi) == DocsOf(chunks, lo, mid) + DocsOf(chunks, mid, hi)
    decreases hi
  {}

  lemma {:induction false} VectorsJoin(records: seq<Record>, lo: nat, mid: nat, hi: nat)
    requires lo <= mid <= hi && (mid < hi ==> hi <= |records|)
    ensures VectorsOf(records, lo, hi) == VectorsOf(records, lo, mid) + VectorsOf(records, mid, hi)
    decreases hi
  {
    if mid < hi {
      VectorsJoin(records, lo, mid, hi - 1);
    }
  }

  function AllDocs(blocks: seq<Block>): seq<Chunk> {
    if blocks == [] then [] else AllDocs(blocks[..|blocks| - 1]) + blocks[|blocks| - 1].docs
  }

  function AllVectors(blocks: seq<Block>): seq<seq<int>> {
    if blocks == [] then [] else AllVectors(blocks[..|blocks| - 1]) + blocks[|blocks| - 1].vectors
  }

  /** Every block is full, except that the last may be short. */
  ghost predicate BlocksFit(blocks: seq<Block>, blockRows: nat) {
    && (forall i :: 0 <= i < |blocks| ==> 0 < |blocks[i].docs| == |blocks[i].vectors| <= blockRows)
    && (forall i :: 0 <= i < |blocks| - 1 ==> |blocks[i].docs| == blockRows)
  }

  ghost predicate AllFull(blocks: seq<Block>, blockRows: nat) {
    forall i :: 0 <= i < |blocks| ==> |blocks[i].docs| == |blocks[i].vectors| == blockRows
  }

  lemma AppendBlock(blocks: seq<Block>, b: Block)
    ensures AllDocs(blocks + [b]) == AllDocs(blocks) + b.docs
    ensures AllVectors(blocks + [b]) == AllVectors(blocks) + b.vectors
  {}

  /** Blocks and the open block together carry rows `[lo, hi)`. */
  ghost predicate Carries(chunks: seq<Chunk>, records: seq<Record>, blocks: seq<Block>, open: Block, lo: nat, hi: nat) {
    && lo <= hi && Joined(chunks, records, lo, hi)
    && AllDocs(blocks) + open.docs == DocsOf(chunks, lo, hi)
    && AllVectors(blocks) + open.vectors == VectorsOf(records, lo, hi)
    && |open.docs| == |open.vectors|
  }

  lemma CarriesNext(chunks: seq<Chunk>, records: seq<Record>, blocks: seq<Block>, open: Block, lo: nat, hi: nat)
    requires Carries(chunks, records, blocks, open, lo, hi)
    requires JoinedAt(chunks, records, hi)
    ensures Carries(chunks, records, blocks, Block(open.docs + [chunks[hi]], open.vectors + [records[hi].vector]), lo, hi + 1)
  {}

  lemma CarriesClose(chunks: seq<Chunk>, records: seq<Record>, blocks: seq<Block>, open: Block, lo: nat, hi: nat)
    requires Carries(chunks, records, blocks, open, lo, hi)
    ensures Carries(chunks, records, blocks + [open], Block([], []), lo, hi)
  {}

  /** The feeder: joins both files row by row from `firstRow` and sends full
      blocks; a row that does not join ends the feed. Whatever it sends is a
      run of joined rows; it succeeds exactly when all rows join. */
  method Feeder(chunks: seq<Chunk>, records: seq<Record>, firstRow: nat, end: nat, blockRows: nat)
    returns (blocks: seq<Block>, ok: bool, ghost carried: nat)
    requires blockRows > 0 && firstRow <= end
    ensures BlocksFit(blocks, blockRows) && firstRow + carried <= end
    ensures Carries(chunks, records, blocks, Block([], []), firstRow, firstRow + carried)
    ensures ok <==> Joined(chunks, records, firstRow, end)
    ensures ok ==> firstRow + carried == end
  {
    FullNone(blockRows);
    CarriesNone(chunks, records, firstRow);
    hide Carries, Joined, AllDocs, AllVectors, AllFull, BlocksFit;
    blocks, ok := [], true;
    var open := Block([], []);
    var i := firstRow;
    ghost var closed := firstRow;
    while i < end && i < |chunks|
      invariant firstRow <= closed <= i <= end
      invariant AllFull(blocks, blockRows) && |open.docs| < blockRows
      invariant Carries(chunks, records, blocks, open, firstRow, i)
      invariant Carries(chunks, records, blocks, Block([], []), firstRow, closed)
      invariant ok
    {
      if !JoinedAt(chunks, records, i) {
        NotJoined(chunks, records, firstRow, end, i);
        FullFits(blocks, blockRows);
        return blocks, false, closed - firstRow;
      }
      CarriesNext(chunks, records, blocks, open, firstRow, i);
      open := Block(open.docs + [chunks[i]], open.vectors + [records[i].vector]);
      i := i + 1;
      if |open.docs| == blockRows {
        CarriesClose(chunks, records, blocks, open, firstRow, i);
        OpenEven(chunks, records, blocks, open, firstRow, i);
        FullMore(blocks, open, blockRows);
        blocks, open, closed := blocks + [open], Block([], []), i;
      }
    }
    OpenEven(chunks, records, blocks, open, firstRow, i);
    if open.docs != [] {
      CarriesClose(chunks, records, blocks, open, firstRow, i);
      FitsLast(blocks, open, blockRows);
      blocks := blocks + [open];
    } else {
      FullFits(blocks, blockRows);
    }
    carried := i - firstRow;
    var sent := i - firstRow;
    if sent != end - firstRow {
      NotJoined(chunks, records, firstRow, end, i);
      ok := false;
    }
  }

  lemma FullNone(blockRows: nat)
    ensures AllFull([], blockRows)
  {}

  lemma CarriesNone(chunks: seq<Chunk>, records: seq<Record>, lo: nat)
    ensures Carries(chunks, records, [], Block([], []), lo, lo)
  {}

  lemma FullMore(blocks: seq<Block>, b: Block, blockRows: nat)
    requires AllFull(blocks, blockRows) && |b.docs| == |b.vectors| == blockRows
    ensures AllFull(blocks + [b], blockRows)
  {}

  lemma FullFits(blocks: seq<Block>, blockRows: nat)
    requires AllFull(blocks, blockRows) && blockRows > 0
    ensures BlocksFit(blocks, blockRows)
  {}

  lemma FitsLast(blocks: seq<Block>, b: Block, blockRows: nat)
    requires AllFull(blocks, blockRows) && 0 < |b.docs| == |b.vectors| <= blockRows
    ensures BlocksFit(blocks + [b], blockRows)
  {}

  lemma OpenEven(chunks: seq<Chunk>, records: seq<Record>, blocks: seq<Block>, open: Block, lo: nat, hi: nat)
    requires Carries(chunks, records, blocks, open, lo, hi)
    ensures |open.docs| == |open.vectors| && Joined(chunks, records, lo, hi)
  {}

  lemma NotJoined(chunks: seq<Chunk>, records: seq<Record>, lo: nat, hi: nat, i: nat)
    requires lo <= i < hi && !JoinedAt(chunks, records, i)
    ensures !Joined(chunks, records, lo, hi)
  {}

  // ----- the node and the driver -----

  const VECTOR_BATCH := 512

  /** A vector backend configuration, and how a node answers one. */
  datatype Backend = Backend(dim: nat, parameters: seq<int>)
  datatype Answer = Configured | Locked | Different

  /** A node keeps what it is sent, in order, for as long as it lasts: `budget`
      is the number of rows it takes before the connection or the process ends. */
  class Node {
    var backend: Option<Backend>
    var docs: seq<Chunk>
    var vectors: seq<seq<int>>
    var budget: nat

    constructor (budget: nat)
      ensures backend == None && docs == [] && vectors == [] && this.budget == budget
    {
      backend, docs, vectors, this.budget := None, [], [], budget;
    }

    /** The vector backend is locked by the first vector, and before that by the
        first configuration. */
    method Configure(b: Backend) returns (answer: Answer)
      modifies `backend
      ensures answer == Locked <==> vectors != []
      ensures answer == Different <==> vectors == [] && old(backend).Some? && old(backend) != Some(b)
      ensures backend == if answer == Configured then Some(b) else old(backend)
    {
      if vectors != [] {
        return Locked;
      }
      if backend.Some? && backend.value != b {
        return Different;
      }
      backend, answer := Some(b), Configured;
    }

    method AddDocuments(stream: seq<Chunk>) returns (added: nat)
      modifies `docs, `budget
      ensures added == Min(old(budget), |stream|) && budget == old(budget) - added
      ensures docs == old(docs) + stream[..added]
    {
      added := Min(budget, |stream|);
      docs, budget := docs + stream[..added], budget - added;
    }

    /** The vectors arrive in batches; the count covers all of them. */
    method AddVectors(batches: seq<seq<seq<int>>>) returns (added: nat)
      modifies `vectors, `budget
      ensures added == Min(old(budget), |Unbatched(batches)|) && budget == old(budget) - added
      ensures vectors == old(vectors) + Unbatched(batches)[..added]
    {
      added := 0;
      for i := 0 to |batches|
        invariant added == Min(old(budget), |Unbatched(batches[..i])|) && budget == old(budget) - added
        invariant vectors == old(vectors) + Unbatched(batches[..i])[..added]
      {
        hide Unbatched;
        UnbatchedStep(batches, i);
        var take := Min(budget, |batches[i]|);
        LandMore(Unbatched(batches[..i]), batches[i], added, take, old(vectors), old(budget));
        vectors, budget, added := vectors + batches[i][..take], budget - take, added + take;
      }
      assert batches[..|batches|] == batches;
    }
  }

  function Unbatched(batches: seq<seq<seq<int>>>): seq<seq<int>> {
    if batches == [] then [] else Unbatched(batches[..|batches| - 1]) + batches[|batches| - 1]
  }

  lemma UnbatchedStep(batches: seq<seq<seq<int>>>, i: nat)
    requires i < |batches|
    ensures Unbatched(batches[..i + 1]) == Unbatched(batches[..i]) + batches[i]
  {
    assert batches[..i + 1][..i] == batches[..i];
  }

  lemma LandMore(all: seq<seq<int>>, batch: seq<seq<int>>, added: nat, take: nat, held: seq<seq<int>>, budget: nat)
    requires added == Min(budget, |all|) && take == Min(budget - added, |batch|)
    ensures added + take == Min(budget, |all + batch|)
    ensures held + all[..added] + batch[..take] == held + (all + batch)[..added + take]
  {}

  /** The size of the last batch. */
  function TailSize(n: nat): (r: nat)
    requires n > 0
    ensures 0 < r <= VECTOR_BATCH && r <= n && (n - r) % VECTOR_BATCH == 0
    ensures n % VECTOR_BATCH == 0 ==> r == VECTOR_BATCH
  {
    if n % VECTOR_BATCH == 0 then VECTOR_BATCH else n % VECTOR_BATCH
  }

  /** `chunks(512 rows)`: the cut changes nothing. */
  function Batched(vectors: seq<seq<int>>): (r: seq<seq<seq<int>>>)
    ensures Unbatched(r) == vectors
    decreases |vectors|
  {
    if vectors == [] then []
    else
      var tail := TailSize(|vectors|);
      var head := vectors[..|vectors| - tail];
      var r := Batched(head) + [vectors[|vectors| - tail..]];
      assert r[..|r| - 1] == Batched(head);
      r
  }

  /** Every batch is full, except that the last may be short. */
  lemma {:induction false} BatchSizes(vectors: seq<seq<int>>, i: nat)
    requires i < |Batched(vectors)|
    ensures 0 < |Batched(vectors)[i]| <= VECTOR_BATCH
    ensures i < |Batched(vectors)| - 1 || |vectors| % VECTOR_BATCH == 0 ==> |Batched(vectors)[i]| == VECTOR_BATCH
    decreases |vectors|
  {
    hide TailSize, Unbatched;
    var head := vectors[..|vectors| - TailSize(|vectors|)];
    if i < |Batched(head)| {
      BatchSizes(head, i);
    }
  }

  /** One block: documents, then vectors. */
  method LandBlock(node: Node, b: Block) returns (landed: bool, ghost d: nat, ghost v: nat)
    requires |b.docs| == |b.vectors|
    modifies node`docs, node`vectors, node`budget
    ensures v <= d <= |b.docs| && (v > 0 ==> d == |b.docs|)
    ensures node.docs == old(node.docs) + b.docs[..d] && node.vectors == old(node.vectors) + b.vectors[..v]
    ensures node.budget == old(node.budget) - d - v
    ensures landed <==> v == |b.vectors|
    ensures landed <==> old(node.budget) >= |b.docs| + |b.vectors|
  {
    hide Unbatched, Batched;
    var added := node.AddDocuments(b.docs);
    d, v := added, 0;
    if added != |b.docs| {
      return false, d, v;
    }
    added := node.AddVectors(Batched(b.vectors));
    v := added;
    landed := added == |b.vectors|;
  }

  /** Lands the blocks in turn until the node gives out. Landed documents and
      vectors are prefixes of what was sent, and the documents lead by at most
      one block. */
  method LandBlocks(node: Node, blocks: seq<Block>, ghost blockRows: nat) returns (landed: bool, ghost d: nat, ghost v: nat)
    requires BlocksFit(blocks, blockRows)
    modifies node`docs, node`vectors, node`budget
    ensures d <= |AllDocs(blocks)| && v <= |AllVectors(blocks)| && v <= d <= v + blockRows
    ensures node.docs == old(node.docs) + AllDocs(blocks)[..d]
    ensures node.vectors == old(node.vectors) + AllVectors(blocks)[..v]
    ensures landed ==> d == |AllDocs(blocks)| && v == |AllVectors(blocks)|
    ensures landed <==> old(node.budget) >= |AllDocs(blocks)| + |AllVectors(blocks)|
  {
    NoBlocks();
    hide AllDocs, AllVectors, BlocksFit;
    d, v := 0, 0;
    assert blocks[..0] == [];
    for i := 0 to |blocks|
      invariant d == |AllDocs(blocks[..i])| == |AllVectors(blocks[..i])| == v
      invariant d <= |AllDocs(blocks)| && v <= |AllVectors(blocks)|
      invariant node.docs == old(node.docs) + AllDocs(blocks)[..d]
      invariant node.vectors == old(node.vectors) + AllVectors(blocks)[..v]
      invariant old(node.budget) == node.budget + d + v
    {
      assert |blocks[i].docs| == |blocks[i].vectors| <= blockRows by { FitAt(blocks, blockRows, i); }
      BlockStep(blocks, i);
      ghost var d', v';
      landed, d', v' := LandBlock(node, blocks[i]);
      Slice(old(node.docs), AllDocs(blocks[..i]), blocks[i].docs, AllDocs(blocks), d');
      Slice(old(node.vectors), AllVectors(blocks[..i]), blocks[i].vectors, AllVectors(blocks), v');
      d, v := d + d', v + v';
      if !landed {
        return false, d, v;
      }
    }
    assert blocks[..|blocks|] == blocks;
    landed := true;
  }

  lemma NoBlocks()
    ensures AllDocs([]) == [] && AllVectors([]) == []
  {}

  lemma FitAt(blocks: seq<Block>, blockRows: nat, i: nat)
    requires BlocksFit(blocks, blockRows) && i < |blocks|
    ensures |blocks[i].docs| == |blocks[i].vectors| <= blockRows
  {}

  lemma Slice<T>(held: seq<T>, before: seq<T>, block: seq<T>, all: seq<T>, n: nat)
    requires before + block <= all && n <= |block|
    ensures held + all[..|before|] + block[..n] == held + all[..|before| + n]
  {}

  lemma {:induction false} BlockStep(blocks: seq<Block>, i: nat)
    requires i < |blocks|
    ensures AllDocs(blocks[..i + 1]) == AllDocs(blocks[..i]) + blocks[i].docs <= AllDocs(blocks)
    ensures AllVectors(blocks[..i + 1]) == AllVectors(blocks[..i]) + blocks[i].vectors <= AllVectors(blocks)
    decreases |blocks|
  {
    assert blocks[..i + 1] == blocks[..i] + [blocks[i]];
    AppendBlock(blocks[..i], blocks[i]);
    if i + 1 < |blocks| {
      var init := blocks[..|blocks| - 1];
      BlockStep(init, i);
      assert init[..i + 1] == blocks[..i + 1] && init[..i] == blocks[..i];
    } else {
      assert blocks[..i + 1] == blocks;
    }
  }

  /** Reads `count` vectors from row `from`, failing past the end of the file. */
  method ReadVectors(records: seq<Record>, from: nat, count: nat) returns (ok: bool, values: seq<seq<int>>)
    ensures ok <==> count == 0 || from + count <= |records|
    ensures ok ==> values == VectorsOf(records, from, from + count) && |values| == count
  {
    values := [];
    for i := 0 to count
      invariant count == 0 || i == 0 || from + i <= |records|
      invariant values == VectorsOf(records, from, from + i) && |values| == i
    {
      if from + i >= |records| {
        return false, [];
      }
      values := values + [records[from + i].vector];
    }
    ok := true;
  }

  /** How a shard's ingest ends. */
  datatype Outcome = Complete | BadHealth | Stopped | NotConfigured

  /** The node holds row prefixes of the shard, vectors behind documents. */
  ghost predicate Prefixes(chunks: seq<Chunk>, records: seq<Record>, start: nat, end: nat, docs: seq<Chunk>, vectors: seq<seq<int>>) {
    && start + |docs| <= end && |vectors| <= |docs|
    && Joined(chunks, records, start, start + |docs|)
    && docs == DocsOf(chunks, start, start + |docs|)
    && vectors == VectorsOf(records, start, start + |vectors|)
  }

  /** The rows after what was landed extend a prefix to a longer one. */
  lemma PrefixesGrow(chunks: seq<Chunk>, records: seq<Record>, start: nat, end: nat, docs: seq<Chunk>, vectors: seq<seq<int>>,
                     d: nat, v: nat)
    requires Prefixes(chunks, records, start, end, docs, vectors)
    requires start + |docs| + d <= end && |vectors| + v <= |docs| + d
    requires Joined(chunks, records, start + |docs|, start + |docs| + d)
    ensures var docs' := docs + DocsOf(chunks, start + |docs|, start + |docs| + d);
            var vectors' := vectors + VectorsOf(records, start + |vectors|, start + |vectors| + v);
            |docs'| == |docs| + d && |vectors'| == |vectors| + v && Prefixes(chunks, records, start, end, docs', vectors')
  {
    hide DocsOf, VectorsOf;
    var n := start + |docs| + d;
    assert Joined(chunks, records, start, n);
    if n > start {
      JoinedEnd(chunks, records, start, n);
    }
    DocsJoin(chunks, start, start + |docs|, n);
    VectorsJoin(records, start, start + |vectors|, start + |vectors| + v);
    DocsTake(chunks, start + |docs|, n, 0);
    VectorsTake(records, start + |vectors|, start + |vectors| + v, 0);
  }

  lemma {:induction false} VectorsTake(records: seq<Record>, lo: nat, hi: nat, n: nat)
    requires lo <= hi && lo + n <= hi && (lo < hi ==> hi <= |records|)
    ensures |VectorsOf(records, lo, hi)| == hi - lo
    ensures VectorsOf(records, lo, hi)[..n] == VectorsOf(records, lo, lo + n)
    decreases hi
  {
    if lo + n < hi {
      VectorsTake(records, lo, hi - 1, n);
    }
  }

  lemma {:induction false} DocsTake(chunks: seq<Chunk>, lo: nat, hi: nat, n: nat)
    requires lo <= hi && lo + n <= hi && (lo < hi ==> hi <= |chunks|)
    ensures |DocsOf(chunks, lo, hi)| == hi - lo
    ensures DocsOf(chunks, lo, hi)[..n] == DocsOf(chunks, lo, lo + n)
    decreases hi
  {}

  /** Vectors the last block did not finish are sent first. */
  method CatchUp(node: Node, records: seq<Record>, from: nat, count: nat) returns (ok: bool, ghost v: nat)
    modifies node`vectors, node`budget
    ensures node.budget == old(node.budget) - v
    ensures ok <==> (count == 0 || from + count <= |records|) && old(node.budget) >= count
    ensures v <= count && node.vectors == old(node.vectors) + VectorsOf(records, from, from + v)
    ensures ok <==> v == count
  {
    hide VectorsOf, Batched, Unbatched;
    var read, values := ReadVectors(records, from, count);
    if !read {
      VectorsNone(records, from);
      return false, 0;
    }
    var added := node.AddVectors(Batched(values));
    v := added;
    VectorsTake(records, from, from + count, v);
    ok := added == count;
  }

  lemma VectorsNone(records: seq<Record>, lo: nat)
    ensures VectorsOf(records, lo, lo) == []
  {}

  /** The blocks from row `first` on. */
  method LandRest(node: Node, chunks: seq<Chunk>, records: seq<Record>, first: nat, end: nat, blockRows: nat)
    returns (complete: bool, ghost d: nat, ghost v: nat)
    requires first <= end && blockRows > 0
    modifies node`docs, node`vectors, node`budget
    ensures v <= d <= v + blockRows && first + d <= end && Joined(chunks, records, first, first + d)
    ensures node.docs == old(node.docs) + DocsOf(chunks, first, first + d)
    ensures node.vectors == old(node.vectors) + VectorsOf(records, first, first + v)
    ensures complete ==> first + d == first + v == end
    ensures complete <==> Joined(chunks, records, first, end) && old(node.budget) >= 2 * (end - first)
  {
    hide DocsOf, VectorsOf, AllDocs, AllVectors;
    var blocks, ok; ghost var carried;
    blocks, ok, carried := Feeder(chunks, records, first, end, blockRows);
    Carried(chunks, records, blocks, first, carried);
    var landed;
    landed, d, v := LandBlocks(node, blocks, blockRows);
    DocsTake(chunks, first, first + carried, d);
    VectorsTake(records, first, first + carried, v);
    complete := landed && ok;
  }

  lemma Carried(chunks: seq<Chunk>, records: seq<Record>, blocks: seq<Block>, first: nat, n: nat)
    requires Carries(chunks, records, blocks, Block([], []), first, first + n)
    ensures AllDocs(blocks) == DocsOf(chunks, first, first + n) && |DocsOf(chunks, first, first + n)| == n
    ensures AllVectors(blocks) == VectorsOf(records, first, first + n) && |VectorsOf(records, first, first + n)| == n
    ensures n > 0 ==> first + n <= |chunks| && first + n <= |records|
  {
    hide AllDocs, AllVectors;
    if n > 0 {
      JoinedEnd(chunks, records, first, first + n);
    }
    DocsTake(chunks, first, first + n, 0);
    VectorsTake(records, first, first + n, 0);
  }

  /** What a resumed run makes of row prefixes: longer row prefixes, and the
      whole shard exactly when the files join and the node lasts. */
  ghost predicate Resumed(chunks: seq<Chunk>, records: seq<Record>, start: nat, end: nat, blockRows: nat,
                          docs: seq<Chunk>, vectors: seq<seq<int>>, budget: nat,
                          docs': seq<Chunk>, vectors': seq<seq<int>>, complete: bool) {
    && Prefixes(chunks, records, start, end, docs', vectors')
    && |docs'| - |vectors'| <= Max(blockRows, |docs| - |vectors|)
    && (complete ==> |docs'| == |vectors'| == end - start)
    && (complete <==> Joined(chunks, records, start, end) && budget >= 2 * (end - start) - |docs| - |vectors|)
  }

  /** A resumed shard, once its health was accepted. */
  method ResumeShard(node: Node, chunks: seq<Chunk>, records: seq<Record>, start: nat, end: nat, blockRows: nat)
    returns (complete: bool)
    requires start + |node.docs| <= end && |node.vectors| <= |node.docs| && blockRows > 0
    modifies node`docs, node`vectors, node`budget
    ensures Prefixes(chunks, records, start, end, old(node.docs), old(node.vectors)) ==>
              Resumed(chunks, records, start, end, blockRows, old(node.docs), old(node.vectors), old(node.budget),
                      node.docs, node.vectors, complete)
  {
    hide DocsOf, VectorsOf, Prefixes, Joined;
    ghost var docs0, vectors0 := node.docs, node.vectors;
    var docs, vectors := |node.docs|, |node.vectors|;
    ghost var caught := 0;
    if Prefixes(chunks, records, start, end, docs0, vectors0) {
      JoinedRest(chunks, records, start, end, docs0, vectors0);
    }
    NoDocs(chunks, records, start + docs);
    VectorsNone(records, start + docs);
    if vectors < docs {
      var ok;
      ok, caught := CatchUp(node, records, start + vectors, docs - vectors);
      if !ok {
        if Prefixes(chunks, records, start, end, docs0, vectors0) {
          Landed(chunks, records, start, end, docs0, vectors0, caught, 0, 0, blockRows);
          assert node.docs + [] == node.docs && node.vectors + [] == node.vectors;
        }
        return false;
      }
    }
    ghost var d, v;
    complete, d, v := LandRest(node, chunks, records, start + docs, end, blockRows);
    if Prefixes(chunks, records, start, end, docs0, vectors0) {
      assert vectors0 + [] == vectors0;
      Landed(chunks, records, start, end, docs0, vectors0, caught, d, v, blockRows);
    }
  }

  /** What a run without `--resume` does: the rows from the start of the shard
      are appended, and all of them exactly when the files join and the node
      lasts. */
  ghost predicate Appended(chunks: seq<Chunk>, records: seq<Record>, start: nat, end: nat, blockRows: nat,
                           docs: seq<Chunk>, vectors: seq<seq<int>>, budget: nat,
                           docs': seq<Chunk>, vectors': seq<seq<int>>, complete: bool) {
    && |vectors| <= |vectors'| && |vectors'| - |vectors| <= |docs'| - |docs| <= |vectors'| - |vectors| + blockRows
    && start + |docs'| - |docs| <= end && Joined(chunks, records, start, start + |docs'| - |docs|)
    && docs' == docs + DocsOf(chunks, start, start + |docs'| - |docs|)
    && vectors' == vectors + VectorsOf(records, start, start + |vectors'| - |vectors|)
    && (complete ==> |docs'| - |docs| == |vectors'| - |vectors| == end - start)
    && (complete <==> Joined(chunks, records, start, end) && budget >= 2 * (end - start))
  }

  /** One shard of `run_remote`, from whatever the node holds. */
  method IngestShard(node: Node, chunks: seq<Chunk>, records: seq<Record>, start: nat, end: nat, resume: bool, blockRows: nat)
    returns (outcome: Outcome)
    requires start <= end && blockRows > 0
    modifies node`docs, node`vectors, node`budget
    ensures outcome != NotConfigured
    ensures outcome == BadHealth <==>
            resume && (|old(node.docs)| > end - start || |old(node.vectors)| > |old(node.docs)|)
    ensures outcome == BadHealth ==> unchanged(node)
    ensures !resume ==>
              Appended(chunks, records, start, end, blockRows, old(node.docs), old(node.vectors), old(node.budget),
                       node.docs, node.vectors, outcome == Complete)
    ensures resume && Prefixes(chunks, records, start, end, old(node.docs), old(node.vectors)) ==>
              outcome != BadHealth &&
              Resumed(chunks, records, start, end, blockRows, old(node.docs), old(node.vectors), old(node.budget),
                      node.docs, node.vectors, outcome == Complete)
  {
    hide Resumed, DocsOf, VectorsOf, Joined;
    var complete;
    if resume {
      var docs, vectors := |node.docs|, |node.vectors|;
      if docs > end - start || vectors > docs {
        return BadHealth;
      }
      complete := ResumeShard(node, chunks, records, start, end, blockRows);
    } else {
      ghost var d, v;
      complete, d, v := LandRest(node, chunks, records, start, end, blockRows);
      Lengths(chunks, records, start, d, v);
    }
    outcome := if complete then Complete else Stopped;
  }

  lemma Lengths(chunks: seq<Chunk>, records: seq<Record>, start: nat, d: nat, v: nat)
    requires v <= d && Joined(chunks, records, start, start + d)
    ensures |DocsOf(chunks, start, start + d)| == d && |VectorsOf(records, start, start + v)| == v
  {
    hide DocsOf, VectorsOf;
    if d > 0 {
      JoinedEnd(chunks, records, start, start + d);
    }
    DocsTake(chunks, start, start + d, 0);
    VectorsTake(records, start, start + v, 0);
  }

  /** The driver's answer to a node that is already configured: a lock is
      expected when resuming, any other refusal ends the run. */
  predicate Admitted(answer: Answer, resume: bool) {
    answer == Configured || (resume && answer == Locked)
  }

  /** Whether the backend step lets a run reach the node's rows. */
  predicate Admits(backend: Option<Backend>, vectors: seq<seq<int>>, b: Backend, resume: bool) {
    if vectors != [] then resume else backend == None || backend == Some(b)
  }

  /** `run_remote` against one node: the backend, then the shard. */
  method Drive(node: Node, b: Backend, chunks: seq<Chunk>, records: seq<Record>, start: nat, end: nat, resume: bool, blockRows: nat)
    returns (outcome: Outcome)
    requires start <= end && blockRows > 0
    modifies node
    ensures outcome == NotConfigured <==> !Admits(old(node.backend), old(node.vectors), b, resume)
    ensures outcome == NotConfigured || outcome == BadHealth ==>
              node.docs == old(node.docs) && node.vectors == old(node.vectors)
    ensures node.backend == if Admits(old(node.backend), old(node.vectors), b, resume) && old(node.vectors) == []
                            then Some(b) else old(node.backend)
    ensures outcome == BadHealth <==>
            outcome != NotConfigured && resume && (|old(node.docs)| > end - start || |old(node.vectors)| > |old(node.docs)|)
    ensures !resume && outcome != NotConfigured ==>
              Appended(chunks, records, start, end, blockRows, old(node.docs), [], old(node.budget),
                       node.docs, node.vectors, outcome == Complete)
    ensures resume && outcome != NotConfigured && Prefixes(chunks, records, start, end, old(node.docs), old(node.vectors)) ==>
              outcome != BadHealth &&
              Resumed(chunks, records, start, end, blockRows, old(node.docs), old(node.vectors), old(node.budget),
                      node.docs, node.vectors, outcome == Complete)
  {
    hide Resumed, Appended, Prefixes;
    var answer := node.Configure(b);
    if !Admitted(answer, resume) {
      return NotConfigured;
    }
    outcome := IngestShard(node, chunks, records, start, end, resume, blockRows);
  }

  /** The rows already landed join, so only the rest matters. */
  lemma JoinedRest(chunks: seq<Chunk>, records: seq<Record>, start: nat, end: nat, docs: seq<Chunk>, vectors: seq<seq<int>>)
    requires Prefixes(chunks, records, start, end, docs, vectors)
    ensures Joined(chunks, records, start + |docs|, end) <==> Joined(chunks, records, start, end)
    ensures |vectors| < |docs| ==> start + |docs| <= |records|
  {
    hide DocsOf, VectorsOf;
    if |vectors| < |docs| {
      JoinedEnd(chunks, records, start, start + |docs|);
    }
  }

  /** Catching up and then landing blocks keeps row prefixes. */
  lemma Landed(chunks: seq<Chunk>, records: seq<Record>, start: nat, end: nat, docs: seq<Chunk>, vectors: seq<seq<int>>,
               caught: nat, d: nat, v: nat, blockRows: nat)
    requires Prefixes(chunks, records, start, end, docs, vectors) && |vectors| + caught <= |docs|
    requires v <= d <= v + blockRows && start + |docs| + d <= end && (|vectors| + caught == |docs| || d == v == 0)
    requires Joined(chunks, records, start + |docs|, start + |docs| + d)
    ensures var docs' := docs + DocsOf(chunks, start + |docs|, start + |docs| + d);
            var vectors' := vectors + VectorsOf(records, start + |vectors|, start + |vectors| + caught)
                            + VectorsOf(records, start + |docs|, start + |docs| + v);
            && Prefixes(chunks, records, start, end, docs', vectors')
            && |docs'| == |docs| + d && |vectors'| == |vectors| + caught + v
  {
    hide DocsOf, VectorsOf, Prefixes;
    var mid := vectors + VectorsOf(records, start + |vectors|, start + |vectors| + caught);
    PrefixesGrow(chunks, records, start, end, docs, vectors, 0, caught) by { NoDocs(chunks, records, start + |docs|); }
    NoDocs(chunks, records, start + |docs|);
    assert docs + [] == docs;
    PrefixesGrow(chunks, records, start, end, docs, mid, d, v);
  }

  lemma NoDocs(chunks: seq<Chunk>, records: seq<Record>, lo: nat)
    ensures DocsOf(chunks, lo, lo) == [] && Joined(chunks, records, lo, lo)
  {}

  /** What a complete shard holds, from row prefixes of full length. */
  lemma FullPrefixes(chunks: seq<Chunk>, records: seq<Record>, start: nat, end: nat, docs: seq<Chunk>, vectors: seq<seq<int>>)
    requires start <= end && Prefixes(chunks, records, start, end, docs, vectors) && |docs| == |vectors| == end - start
    ensures docs == DocsOf(chunks, start, end) && vectors == VectorsOf(records, start, end)
  {}

  /** A node after any number of resumed runs, each cut off anywhere and with
      its own block size: still row prefixes, so no resume is ever refused, and
      once a run completes the node holds exactly the shard. */
  method Campaign(b: Backend, chunks: seq<Chunk>, records: seq<Record>, start: nat, end: nat, budgets: seq<nat>,
                  blockRows: seq<nat>, ghost cap: nat)
    returns (node: Node, outcome: Outcome)
    requires start <= end && |blockRows| == |budgets| && forall i :: 0 <= i < |blockRows| ==> 0 < blockRows[i] <= cap
    ensures Prefixes(chunks, records, start, end, node.docs, node.vectors)
    ensures outcome == Complete || outcome == Stopped
    ensures outcome == Complete ==>
              node.docs == DocsOf(chunks, start, end) && node.vectors == VectorsOf(records, start, end)
    ensures |node.docs| - |node.vectors| <= cap
    ensures Joined(chunks, records, start, end) && budgets != [] && budgets[|budgets| - 1] >= 2 * (end - start) ==>
              outcome == Complete
  {
    hide DocsOf, VectorsOf, Joined;
    node := new Node(0);
    outcome := Stopped;
    NoDocs(chunks, records, start);
    VectorsNone(records, start);
    for r := 0 to |budgets|
      invariant Prefixes(chunks, records, start, end, node.docs, node.vectors) && fresh(node)
      invariant outcome == Complete || outcome == Stopped
      invariant (node.backend == None && node.vectors == []) || node.backend == Some(b)
      invariant outcome == Complete ==>
                  node.docs == DocsOf(chunks, start, end) && node.vectors == VectorsOf(records, start, end)
      invariant |node.docs| - |node.vectors| <= cap
      invariant Joined(chunks, records, start, end) && r > 0 && budgets[r - 1] >= 2 * (end - start) ==> outcome == Complete
    {
      node.budget := budgets[r];
      outcome := Drive(node, b, chunks, records, start, end, true, blockRows[r]);
      if outcome == Complete {
        FullPrefixes(chunks, records, start, end, node.docs, node.vectors);
      }
    }
  }

  /** Appending the whole shard leaves exactly the shard if and only if the node
      held nothing, and otherwise more documents than a resume accepts. */
  lemma FreshStart(chunks: seq<Chunk>, records: seq<Record>, start: nat, end: nat, docs: seq<Chunk>, vectors: seq<seq<int>>)
    requires start <= end && Joined(chunks, records, start, end) && |vectors| <= |docs|
    ensures var docs' := docs + DocsOf(chunks, start, end);
            var vectors' := vectors + VectorsOf(records, start, end);
            && (Prefixes(chunks, records, start, end, docs', vectors') <==> docs == [])
            && (|docs'| > end - start <==> docs != [])
  {
    hide DocsOf, VectorsOf;
    Lengths(chunks, records, start, end - start, end - start);
    if docs == [] {
      assert docs + DocsOf(chunks, start, end) == DocsOf(chunks, start, end);
      assert vectors + VectorsOf(records, start, end) == VectorsOf(records, start, end);
    }
  }

  /** Starting over without `--resume`, from any node, and then resuming. The
      first run is refused exactly when the node holds a vector or another
      backend. Otherwise, run to the end, it leaves exactly the shard if and only
      if the node held no document; then a resume has nothing left to do, and
      else it is refused. */
  method StartOver(node: Node, b: Backend, chunks: seq<Chunk>, records: seq<Record>, start: nat, end: nat,
                   blockRows: nat, later: nat)
    returns (first: Outcome, second: Outcome)
    requires start <= end && blockRows > 0
    modifies node
    ensures first == NotConfigured <==> old(node.vectors) != [] || (old(node.backend) != None && old(node.backend) != Some(b))
    ensures first == NotConfigured ==> second == first && node.docs == old(node.docs) && node.vectors == old(node.vectors)
    ensures first == Complete <==>
            first != NotConfigured && Joined(chunks, records, start, end) && old(node.budget) >= 2 * (end - start)
    ensures first == Complete ==>
              && node.docs == old(node.docs) + DocsOf(chunks, start, end) && node.vectors == VectorsOf(records, start, end)
              && (Prefixes(chunks, records, start, end, node.docs, node.vectors) <==> old(node.docs) == [])
              && second == if old(node.docs) == [] then Complete else BadHealth
  {
    hide DocsOf, VectorsOf, Joined, Prefixes;
    first := Drive(node, b, chunks, records, start, end, false, blockRows);
    second := first;
    if first != Complete {
      return;
    }
    ghost var docs, vectors := node.docs, node.vectors;
    Started(chunks, records, start, end, blockRows, old(node.docs), old(node.budget), docs, vectors);
    node.budget := later;
    second := Drive(node, b, chunks, records, start, end, true, blockRows);
    if old(node.docs) == [] {
      NoneLeft(chunks, records, start, end, docs, vectors, node.docs, node.vectors, blockRows, later, second == Complete);
    }
  }

  lemma Started(chunks: seq<Chunk>, records: seq<Record>, start: nat, end: nat, blockRows: nat, held: seq<Chunk>, budget: nat,
                docs: seq<Chunk>, vectors: seq<seq<int>>)
    requires start <= end && Appended(chunks, records, start, end, blockRows, held, [], budget, docs, vectors, true)
    ensures docs == held + DocsOf(chunks, start, end) && vectors == VectorsOf(records, start, end)
    ensures Prefixes(chunks, records, start, end, docs, vectors) <==> held == []
    ensures |vectors| == end - start && |docs| == |held| + end - start
  {
    hide DocsOf, VectorsOf, Prefixes, Joined;
    FreshStart(chunks, records, start, end, held, []);
    assert [] + VectorsOf(records, start, end) == VectorsOf(records, start, end);
  }

  /** A resume of a whole shard changes nothing. */
  lemma NoneLeft(chunks: seq<Chunk>, records: seq<Record>, start: nat, end: nat, docs: seq<Chunk>, vectors: seq<seq<int>>,
                 docs': seq<Chunk>, vectors': seq<seq<int>>, blockRows: nat, budget: nat, complete: bool)
    requires start <= end && |docs| == |vectors| == end - start && Joined(chunks, records, start, end)
    requires docs == DocsOf(chunks, start, end) && vectors == VectorsOf(records, start, end)
    requires Resumed(chunks, records, start, end, blockRows, docs, vectors, budget, docs', vectors', complete)
    ensures complete && docs' == docs && vectors' == vectors
  {
    hide DocsOf, VectorsOf, Joined;
    FullPrefixes(chunks, records, start, end, docs', vectors');
  }

  /** A first run that ends between a block's documents and its vectors, and a
      second one without `--resume`: every document is held twice and no later
      resume is accepted. */
  method DoubledDocuments(b: Backend, chunk: Chunk, record: Record, blockRows: nat, later: nat)
    returns (node: Node, first: Outcome, second: Outcome)
    requires SameKey(chunk, record) && blockRows > 0
    ensures first == Complete && second == BadHealth
    ensures node.docs == [chunk, chunk] && node.vectors == [record.vector]
  {
    node := new Node(1);
    var answer := node.Configure(b);
    var added := node.AddDocuments([chunk]);
    node.budget := 2;
    OneRow(chunk, record);
    first, second := StartOver(node, b, [chunk], [record], 0, 1, blockRows, later);
  }

  lemma OneRow(chunk: Chunk, record: Record)
    requires SameKey(chunk, record)
    ensures Joined([chunk], [record], 0, 1)
    ensures DocsOf([chunk], 0, 1) == [chunk] && VectorsOf([record], 0, 1) == [record.vector]
  {
    assert VectorsOf([record], 0, 0) == [];
  }
}
