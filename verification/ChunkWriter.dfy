/** The ordered chunk writer of examples/court_chunks.rs. */
module ChunkWriter {
  // Workers finish opinions in any order; the writer holds them back until every
  // earlier input line has been written, and stops at the first line whose analysis
  // failed so that a rerun can continue from the written prefix.

  import opened Options
  import ChunkPlans

  // ----- data -----

  /** One planned chunk of an opinion: its span and its vector. */
  datatype Piece = Piece(start: nat, end: nat, vector: seq<int>)

  datatype Opinion = Opinion(srcLine: nat, opinionId: nat, clusterId: nat, text: string, pieces: seq<Piece>)

  datatype Chunk = Chunk(chunkId: nat, opinionId: nat, clusterId: nat, start: nat, end: nat, ordinal: nat,
                         srcLine: nat, text: string)

  datatype Embedding = Embedding(opinionId: nat, ordinal: nat, vector: seq<int>)

  /** What a worker sends: an analyzed opinion or the line that failed. */
  datatype Done = Analyzed(opinion: Opinion) | Failed(line: nat) {
    function Line(): nat {
      if Analyzed? then opinion.srcLine else line
    }

    function Slot(): Option<Opinion> {
      if Analyzed? then Some(opinion) else None
    }
  }

  // ----- what the files should hold -----

  function ChunkOf(o: Opinion, ordinal: nat, id: nat): Chunk
    requires ordinal < |o.pieces|
  {
    var p := o.pieces[ordinal];
    Chunk(id, o.opinionId, o.clusterId, p.start, p.end, ordinal, o.srcLine, ChunkPlans.SliceChars(o.text, p.start, p.end))
  }

  /** The first `n` records of an opinion whose ids start at `id`. */
  function Records(o: Opinion, n: nat, id: nat): (r: seq<Chunk>)
    requires n <= |o.pieces|
    ensures |r| == n && forall i :: 0 <= i < n ==> r[i] == ChunkOf(o, i, id + i)
  {
    if n == 0 then [] else Records(o, n - 1, id) + [ChunkOf(o, n - 1, id + n - 1)]
  }

  /** The first `n` vectors of an opinion that are not already on file. */
  function Vectors(o: Opinion, n: nat, known: set<(nat, nat)>): seq<Embedding>
    requires n <= |o.pieces|
  {
    if n == 0 then []
    else if (o.opinionId, n - 1) in known then Vectors(o, n - 1, known)
    else Vectors(o, n - 1, known) + [Embedding(o.opinionId, n - 1, o.pieces[n - 1].vector)]
  }

  /** The corpus: what a successful analysis of each input line yields. */
  type Corpus = nat -> Opinion

  ghost predicate InPlace(corpus: Corpus) {
    forall l: nat :: corpus(l).srcLine == l
  }

  function LineRecords(corpus: Corpus, line: nat, id: nat): seq<Chunk> {
    Records(corpus(line), |corpus(line).pieces|, id)
  }

  /** All records of lines `[lo, hi)`, ids counting from `id`. */
  function File(corpus: Corpus, lo: nat, hi: nat, id: nat): (r: seq<Chunk>)
    decreases hi
  {
    if hi <= lo then []
    else
      var init := File(corpus, lo, hi - 1, id);
      init + LineRecords(corpus, hi - 1, id + |init|)
  }

  /** All vectors of lines `[lo, hi)` whose key is not already on file. */
  function Embeddings(corpus: Corpus, lo: nat, hi: nat, known: set<(nat, nat)>): seq<Embedding>
    decreases hi
  {
    if hi <= lo then []
    else Embeddings(corpus, lo, hi - 1, known) + Vectors(corpus(hi - 1), |corpus(hi - 1).pieces|, known)
  }

  /** The lines reported so far. */
  ghost function Reported(msgs: seq<Done>): set<nat> {
    set m | m in msgs :: m.Line()
  }

  /** The first line at or after `lo` that cannot be written: failed, or not
      reported. Order of arrival plays no part. */
  ghost predicate StopsAt(reported: set<nat>, fails: set<nat>, lo: nat, w: nat) {
    && lo <= w
    && (forall l :: lo <= l < w ==> l in reported && l !in fails)
    && (w !in reported || w in fails)
  }

  lemma StopUnique(reported: set<nat>, fails: set<nat>, lo: nat, w: nat, v: nat)
    requires StopsAt(reported, fails, lo, w) && StopsAt(reported, fails, lo, v)
    ensures w == v
  {}

  lemma ReportedStep(msgs: seq<Done>, i: nat, fails: set<nat>, skip: nat, w: nat)
    requires i < |msgs|
    ensures Reported(msgs[..i + 1]) == Reported(msgs[..i]) + {msgs[i].Line()} <= Reported(msgs)
    ensures w in fails && w in Reported(msgs[..i + 1]) && StopsAt(Reported(msgs[..i + 1]), fails, skip, w) ==>
              StopsAt(Reported(msgs), fails, skip, w)
  {}

  // ----- the writer -----

  /** One run: the corpus, the lines whose analysis fails, where it starts and
      what the files held before. */
  datatype Run = Run(corpus: Corpus, fails: set<nat>, skip: nat, id: nat, chunks0: seq<Chunk>, embeddings0: seq<Embedding>)

  /** The files hold exactly lines `[skip, w)` after what they held before. */
  ghost predicate Outputs(run: Run, known: set<(nat, nat)>, w: nat, chunks: seq<Chunk>, embeddings: seq<Embedding>, next: nat) {
    && chunks == run.chunks0 + File(run.corpus, run.skip, w, run.id)
    && embeddings == run.embeddings0 + Embeddings(run.corpus, run.skip, w, known)
    && next == run.id + |File(run.corpus, run.skip, w, run.id)|
  }

  /** Every reported line from the watermark on is held back, every earlier
      one was good, and nothing unreported is held. */
  ghost predicate Holds(run: Run, reported: set<nat>, w: nat, pending: map<nat, Option<Opinion>>) {
    && run.skip <= w
    && (forall l :: l in pending ==> l in reported && pending[l] == SlotOf(run, l))
    && (forall l :: l in reported && l >= w ==> l in pending)
    && (forall l :: run.skip <= l < w ==> l in reported && l !in run.fails)
  }

  ghost function SlotOf(run: Run, l: nat): Option<Opinion> {
    if l in run.fails then None else Some(run.corpus(l))
  }

  /** A message tells the truth about its line. */
  ghost predicate Truthful(run: Run, m: Done) {
    m.Slot() == SlotOf(run, m.Line())
  }

  lemma OutputsNext(run: Run, known: set<(nat, nat)>, w: nat, chunks: seq<Chunk>, embeddings: seq<Embedding>, next: nat)
    requires Outputs(run, known, w, chunks, embeddings, next) && run.skip <= w
    ensures var o := run.corpus(w);
            Outputs(run, known, w + 1, chunks + Records(o, |o.pieces|, next), embeddings + Vectors(o, |o.pieces|, known), next + |o.pieces|)
  {}

  class Writer {
    var pending: map<nat, Option<Opinion>>
    var watermark: nat
    var nextChunkId: nat
    var stalled: bool
    var writerNextId: nat
    var chunks: seq<Chunk>
    var embeddings: seq<Embedding>
    const embeddedKeys: set<(nat, nat)>

    constructor (chunks: seq<Chunk>, embeddings: seq<Embedding>, nextChunkId: nat, skip: nat, keys: set<(nat, nat)>)
      ensures pending == map[] && watermark == skip && !stalled
      ensures this.nextChunkId == writerNextId == nextChunkId && embeddedKeys == keys
      ensures this.chunks == chunks && this.embeddings == embeddings
    {
      pending, watermark, stalled := map[], skip, false;
      this.nextChunkId, writerNextId := nextChunkId, nextChunkId;
      this.chunks, this.embeddings, embeddedKeys := chunks, embeddings, keys;
    }

    method WriteOpinionChunks(o: Opinion)
      modifies `chunks, `writerNextId
      ensures chunks == old(chunks) + Records(o, |o.pieces|, old(writerNextId))
      ensures writerNextId == old(writerNextId) + |o.pieces|
    {
      for ordinal := 0 to |o.pieces|
        invariant chunks == old(chunks) + Records(o, ordinal, old(writerNextId))
        invariant writerNextId == old(writerNextId) + ordinal
      {
        chunks := chunks + [ChunkOf(o, ordinal, writerNextId)];
        writerNextId := writerNextId + 1;
      }
    }

    method WriteOpinion(o: Opinion, firstChunkId: nat) returns (next: nat)
      modifies `chunks, `writerNextId, `embeddings
      ensures chunks == old(chunks) + Records(o, |o.pieces|, old(writerNextId))
      ensures writerNextId == old(writerNextId) + |o.pieces|
      ensures embeddings == old(embeddings) + Vectors(o, |o.pieces|, embeddedKeys)
      ensures next == firstChunkId + |o.pieces|
    {
      WriteOpinionChunks(o);
      for ordinal := 0 to |o.pieces|
        invariant embeddings == old(embeddings) + Vectors(o, ordinal, embeddedKeys)
        invariant chunks == old(chunks) + Records(o, |o.pieces|, old(writerNextId))
        invariant writerNextId == old(writerNextId) + |o.pieces|
      {
        if (o.opinionId, ordinal) !in embeddedKeys {
          embeddings := embeddings + [Embedding(o.opinionId, ordinal, o.pieces[ordinal].vector)];
        }
      }
      next := firstChunkId + |o.pieces|;
    }

    ghost predicate Valid(run: Run, reported: set<nat>)
      reads this
    {
      && Outputs(run, embeddedKeys, watermark, chunks, embeddings, nextChunkId)
      && nextChunkId == writerNextId
      && Holds(run, reported, watermark, pending)
    }

    /** Writes the opinion held back for the watermark. */
    method WriteNext(o: Opinion, ghost run: Run, ghost reported: set<nat>)
      requires watermark in pending && pending[watermark] == Some(o) && Valid(run, reported)
      modifies `pending, `watermark, `nextChunkId, `writerNextId, `chunks, `embeddings
      ensures Valid(run, reported)
      ensures watermark == old(watermark) + 1 && pending == old(pending) - {old(watermark)}
    {
      hide Outputs, File, Embeddings, Records, Vectors;
      pending := pending - {watermark};
      OutputsNext(run, embeddedKeys, watermark, chunks, embeddings, nextChunkId);
      nextChunkId := WriteOpinion(o, nextChunkId);
      watermark := watermark + 1;
    }

    /** Writes held-back opinions while the next line is there. */
    method Drain(ghost run: Run, ghost reported: set<nat>)
      requires Valid(run, reported) && !stalled
      modifies this
      ensures Outputs(run, embeddedKeys, watermark, chunks, embeddings, nextChunkId) && nextChunkId == writerNextId
      ensures watermark >= old(watermark) && StopsAt(reported, run.fails, run.skip, watermark)
      ensures !stalled ==> Holds(run, reported, watermark, pending) && watermark !in pending
      ensures stalled <==> watermark in reported
    {
      hide Outputs, File, Embeddings;
      while watermark in pending
        invariant Valid(run, reported) && !stalled && watermark >= old(watermark)
        decreases |pending|
      {
        var slot := pending[watermark];
        if slot.None? {
          pending := pending - {watermark};
          stalled := true;
          return;
        }
        WriteNext(slot.value, run, reported);
      }
    }

    /** The receive loop, then the closing drain. `drained` counts the opinions
        the closing drain wrote. */
    method Consume(msgs: seq<Done>, ghost run: Run) returns (drained: nat)
      requires Valid(run, {}) && pending == map[] && watermark == run.skip && !stalled
      requires forall i :: 0 <= i < |msgs| ==> Truthful(run, msgs[i])
      modifies this
      ensures Outputs(run, embeddedKeys, watermark, chunks, embeddings, nextChunkId)
      ensures StopsAt(Reported(msgs), run.fails, run.skip, watermark)
      ensures stalled <==> watermark in Reported(msgs)
      ensures drained == 0 && (stalled ==> pending == map[])
    {
      var i := 0;
      while i < |msgs| && !stalled
        invariant i <= |msgs|
        invariant Outputs(run, embeddedKeys, watermark, chunks, embeddings, nextChunkId) && nextChunkId == writerNextId
        invariant !stalled ==> Holds(run, Reported(msgs[..i]), watermark, pending) && watermark !in pending
        invariant stalled ==> StopsAt(Reported(msgs), run.fails, run.skip, watermark) && watermark in Reported(msgs)
      {
        Receive(msgs[i], run, Reported(msgs[..i]));
        ReportedStep(msgs, i, run.fails, run.skip, watermark);
        i := i + 1;
      }
      drained := 0;
      if stalled {
        pending := map[];
        return;
      }
      assert msgs[..i] == msgs;
      drained := CloseOut();
    }

    /** One message: insert, then drain. */
    method Receive(m: Done, ghost run: Run, ghost reported: set<nat>)
      requires Valid(run, reported) && !stalled && Truthful(run, m)
      modifies this
      ensures Outputs(run, embeddedKeys, watermark, chunks, embeddings, nextChunkId) && nextChunkId == writerNextId
      ensures watermark >= old(watermark) && StopsAt(reported + {m.Line()}, run.fails, run.skip, watermark)
      ensures !stalled ==> Holds(run, reported + {m.Line()}, watermark, pending) && watermark !in pending
      ensures stalled <==> watermark in reported + {m.Line()}
    {
      hide Outputs, File, Embeddings, StopsAt;
      pending := pending[m.Line() := m.Slot()];
      Drain(run, reported + {m.Line()});
    }

    /** After the channel closes: held-back lines in key order, while they
        continue the watermark. */
    method CloseOut() returns (drained: nat)
      modifies this
      ensures old(watermark !in pending) ==>
                drained == 0 && unchanged(`chunks, `embeddings, `watermark, `nextChunkId, `stalled)
    {
      drained := 0;
      var rest := pending;
      pending := map[];
      while rest != map[]
        invariant old(watermark !in pending) ==> watermark !in rest && drained == 0
        invariant old(watermark !in pending) ==> unchanged(`chunks, `embeddings, `watermark, `nextChunkId, `stalled)
        decreases |rest|
      {
        var line := LeastKey(rest);
        var slot := rest[line];
        rest := rest - {line};
        if slot.None? || line != watermark {
          break;
        }
        nextChunkId := WriteOpinion(slot.value, nextChunkId);
        watermark := watermark + 1;
        drained := drained + 1;
      }
    }
  }

  method LeastKey(m: map<nat, Option<Opinion>>) returns (key: nat)
    requires m != map[]
    ensures key in m && forall l :: l in m ==> key <= l
  {
    key :| key in m;
    var rest := m.Keys - {key};
    while rest != {}
      invariant key in m && rest <= m.Keys && forall l :: l in m ==> l in rest || key <= l
    {
      var l :| l in rest;
      if l < key {
        key := l;
      }
      rest := rest - {l};
    }
  }

  // ----- the feed and the closing reconciliation -----

  /** The feeder: from `skip` on, until the input ends, the limit is met or a
      failure has been seen. What it feeds is always contiguous. */
  method Feed(lineCount: nat, skip: nat, limit: nat, failureSeen: nat -> bool) returns (fed: nat)
    ensures fed > 0 ==> skip + fed <= lineCount
    ensures limit > 0 ==> fed <= limit
    ensures forall l :: skip <= l < skip + fed ==> !failureSeen(l)
    ensures skip + fed >= lineCount || (limit > 0 && fed == limit) || failureSeen(skip + fed)
  {
    fed := 0;
    for i := 0 to lineCount
      invariant fed == if i < skip then 0 else i - skip
      invariant limit > 0 ==> fed <= limit
      invariant forall l :: skip <= l < skip + fed ==> !failureSeen(l)
    {
      if i < skip {
        continue;
      }
      if limit > 0 && fed >= limit {
        break;
      }
      if failureSeen(i) {
        break;
      }
      fed := fed + 1;
    }
  }

  /** The exit status: nothing failed and every fed line was accounted for. */
  method Reconcile(msgs: seq<Done>, fed: nat) returns (ok: bool)
    ensures ok <==> |msgs| == fed && forall i :: 0 <= i < |msgs| ==> msgs[i].Analyzed?
  {
    var analyzed, failed := 0, 0;
    for i := 0 to |msgs|
      invariant analyzed + failed == i
      invariant failed == 0 <==> forall j :: 0 <= j < i ==> msgs[j].Analyzed?
    {
      if msgs[i].Analyzed? {
        analyzed := analyzed + 1;
      } else {
        failed := failed + 1;
      }
    }
    ok := !(failed > 0 || analyzed + failed != fed);
  }

  ghost function Span(lo: nat, n: nat): (r: set<nat>)
    ensures forall l :: l in r <==> lo <= l < lo + n
    ensures |r| == n
  {
    if n == 0 then {} else Span(lo, n - 1) + {lo + n - 1}
  }

  lemma {:induction false} DistinctLines(msgs: seq<Done>)
    requires forall i, j :: 0 <= i < j < |msgs| ==> msgs[i].Line() != msgs[j].Line()
    ensures |Reported(msgs)| == |msgs|
  {
    if msgs != [] {
      var n := |msgs| - 1;
      var init := msgs[..n];
      DistinctLines(init);
      assert msgs == init + [msgs[n]];
      assert Reported(msgs) == Reported(init) + {msgs[n].Line()};
      assert msgs[n].Line() !in Reported(init);
    }
  }

  lemma SameSize(a: set<nat>, b: set<nat>)
    requires a <= b && |a| == |b|
    ensures a == b
  {
    assert b == a + (b - a);
    assert |b - a| == 0;
  }

  /** A lossy run never looks like a clean one: whatever results were lost or
      failed, the run reports success exactly when every fed line is written. */
  lemma CleanExit(run: Run, msgs: seq<Done>, fed: nat, w: nat)
    requires forall i :: 0 <= i < |msgs| ==> Truthful(run, msgs[i])
    requires forall i, j :: 0 <= i < j < |msgs| ==> msgs[i].Line() != msgs[j].Line()
    requires forall i :: 0 <= i < |msgs| ==> run.skip <= msgs[i].Line() < run.skip + fed
    requires StopsAt(Reported(msgs), run.fails, run.skip, w)
    ensures (|msgs| == fed && forall i :: 0 <= i < |msgs| ==> msgs[i].Analyzed?) <==> w == run.skip + fed
  {
    var reported, all := Reported(msgs), Span(run.skip, fed);
    DistinctLines(msgs);
    assert reported <= all;
    if |msgs| == fed && forall i :: 0 <= i < |msgs| ==> msgs[i].Analyzed? {
      SameSize(reported, all);
      StopLine(run.fails, run.skip, fed, w);
      forall l | l in reported ensures l !in run.fails {
        var i :| 0 <= i < |msgs| && msgs[i].Line() == l;
        assert Truthful(run, msgs[i]);
      }
      assert w < run.skip + fed ==> w in all;
    }
    if w == run.skip + fed {
      assert reported == all;
      assert |msgs| == |all| == fed;
      forall i | 0 <= i < |msgs| ensures msgs[i].Analyzed? {
        assert msgs[i].Line() in all && Truthful(run, msgs[i]);
      }
    }
  }

  /** When every fed line is reported, the watermark ends at the smallest failed
      line, or at the end of the feed. */
  lemma StopLine(fails: set<nat>, skip: nat, fed: nat, w: nat)
    requires StopsAt(Span(skip, fed), fails, skip, w)
    ensures w <= skip + fed && (w in fails || w == skip + fed)
    ensures forall l :: skip <= l < w ==> l !in fails
  {
    assert w > skip + fed ==> skip + fed in Span(skip, fed);
  }

  // ----- resume -----

  /** What `chunks_resume_state` reports as the next line. */
  ghost predicate ResumesAt(file: seq<Chunk>, line: nat) {
    && (forall c :: c in file ==> c.srcLine < line)
    && (line > 0 ==> exists c :: c in file && c.srcLine == line - 1)
  }

  method ChunksResumeState(file: seq<Chunk>) returns (records: nat, line: nat)
    ensures records == |file| && ResumesAt(file, line)
  {
    records, line := 0, 0;
    for i := 0 to |file|
      invariant records == i && ResumesAt(file[..i], line)
    {
      records := records + 1;
      assert file[..i + 1] == file[..i] + [file[i]];
      if line < file[i].srcLine + 1 {
        line := file[i].srcLine + 1;
        assert file[i] in file[..i + 1];
      }
    }
    assert file[..|file|] == file;
  }

  lemma {:induction false} FileStep(corpus: Corpus, lo: nat, hi: nat, id: nat)
    requires lo < hi
    ensures File(corpus, lo, hi, id) ==
            File(corpus, lo, hi - 1, id) + LineRecords(corpus, hi - 1, id + |File(corpus, lo, hi - 1, id)|)
  {
    hide LineRecords;
  }

  lemma {:induction false} FileJoin(corpus: Corpus, lo: nat, mid: nat, hi: nat, id: nat)
    requires lo <= mid <= hi
    ensures File(corpus, lo, hi, id) ==
            File(corpus, lo, mid, id) + File(corpus, mid, hi, id + |File(corpus, lo, mid, id)|)
    decreases hi
  {
    if mid < hi {
      FileJoin(corpus, lo, mid, hi - 1, id);
      JoinStep(corpus, lo, mid, hi, id);
    }
  }

  lemma JoinStep(corpus: Corpus, lo: nat, mid: nat, hi: nat, id: nat)
    requires lo <= mid < hi
    requires File(corpus, lo, hi - 1, id) ==
             File(corpus, lo, mid, id) + File(corpus, mid, hi - 1, id + |File(corpus, lo, mid, id)|)
    ensures File(corpus, lo, hi, id) ==
            File(corpus, lo, mid, id) + File(corpus, mid, hi, id + |File(corpus, lo, mid, id)|)
  {
    hide *;
    var a := File(corpus, lo, mid, id);
    var b := File(corpus, mid, hi - 1, id + |a|);
    FileStep(corpus, lo, hi, id);
    FileStep(corpus, mid, hi, id + |a|);
    Assoc(a, b, LineRecords(corpus, hi - 1, id + |a| + |b|));
  }

  lemma Assoc(a: seq<Chunk>, b: seq<Chunk>, c: seq<Chunk>)
    ensures (a + b) + c == a + (b + c)
  {}

  /** The records of lines `[0, w)` come from those lines. */
  lemma {:induction false} FileLines(corpus: Corpus, w: nat, line: nat)
    requires InPlace(corpus)
    ensures (exists c :: c in File(corpus, 0, w, 0) && c.srcLine == line) <==> line < w && corpus(line).pieces != []
  {
    if w > 0 {
      var init, o := File(corpus, 0, w - 1, 0), corpus(w - 1);
      var last := Records(o, |o.pieces|, |init|);
      FileLines(corpus, w - 1, line);
      assert forall c :: c in last ==> c.srcLine == w - 1;
      if line == w - 1 && o.pieces != [] {
        assert last[0] in File(corpus, 0, w, 0);
      }
      if exists c :: c in init && c.srcLine == line {
        var c :| c in init && c.srcLine == line;
        assert c in File(corpus, 0, w, 0);
      }
    }
  }

  lemma {:induction false} EmptyLines(corpus: Corpus, r: nat, w: nat, id: nat)
    requires r <= w && forall l :: r <= l < w ==> corpus(l).pieces == []
    ensures File(corpus, r, w, id) == []
    decreases w
  {
    if r < w {
      EmptyLines(corpus, r, w - 1, id);
    }
  }

  /** Where a rerun resumes after lines `[0, w)`: never past the watermark, and
      nothing is lost in between; exactly at the watermark if and only if the
      last written opinion has a chunk. */
  lemma {:induction false} ResumeAfter(corpus: Corpus, w: nat, r: nat)
    requires InPlace(corpus) && ResumesAt(File(corpus, 0, w, 0), r)
    ensures r <= w && File(corpus, 0, r, 0) == File(corpus, 0, w, 0)
    ensures r == w <==> w == 0 || corpus(w - 1).pieces != []
  {
    hide File, Records;
    var file := File(corpus, 0, w, 0);
    if r > 0 {
      FileLines(corpus, w, r - 1);
    }
    forall l: nat | r <= l < w ensures corpus(l).pieces == [] {
      FileLines(corpus, w, l);
    }
    FileJoin(corpus, 0, r, w, 0);
    EmptyLines(corpus, r, w, |File(corpus, 0, r, 0)|);
  }

  /** A file cut between any two records, as by a crash: the rerun completes it to the
      uninterrupted file if and only if the cut kept all chunks of the last line
      it kept any of. */
  lemma CutResume(corpus: Corpus, w: nat, cut: nat, r: nat)
    requires InPlace(corpus) && cut <= |File(corpus, 0, w, 0)|
    requires ResumesAt(File(corpus, 0, w, 0)[..cut], r)
    ensures r <= w
    ensures File(corpus, 0, w, 0)[..cut] + File(corpus, r, w, cut) == File(corpus, 0, w, 0) <==>
            cut == |File(corpus, 0, r, 0)|
  {
    hide File, ResumesAt, InPlace;
    var file, head := File(corpus, 0, w, 0), File(corpus, 0, r, 0);
    CutWithin(corpus, w, cut, r);
    FileJoin(corpus, 0, r, w, 0);
    FileLength(corpus, r, w, cut, |head|);
    CutAt(file, head, File(corpus, r, w, |head|), File(corpus, r, w, cut), cut);
  }

  /** A written opinion without text: the rerun goes back to it. */
  lemma ResumeFallsBack(corpus: Corpus)
    requires corpus == ((l: nat) => Opinion(l, l, 0, "", []))
    ensures InPlace(corpus) && ResumesAt(File(corpus, 0, 1, 0), 0)
  {}

  /** Two chunks of one line, cut after the first: the rerun skips the second. */
  lemma CutLosesChunk(corpus: Corpus)
    requires corpus == ((l: nat) => Opinion(l, l, 0, "ab", [Piece(0, 1, []), Piece(1, 2, [])]))
    ensures InPlace(corpus) && |File(corpus, 0, 1, 0)| == 2
    ensures ResumesAt(File(corpus, 0, 1, 0)[..1], 1)
    ensures File(corpus, 0, 1, 0)[..1] + File(corpus, 1, 1, 1) != File(corpus, 0, 1, 0)
  {
    assert File(corpus, 0, 0, 0) == [];
    var file := File(corpus, 0, 1, 0);
    assert file == Records(corpus(0), 2, 0);
    assert file[..1][0].srcLine == 0;
  }

  lemma CutWithin(corpus: Corpus, w: nat, cut: nat, r: nat)
    requires InPlace(corpus) && cut <= |File(corpus, 0, w, 0)|
    requires ResumesAt(File(corpus, 0, w, 0)[..cut], r)
    ensures r <= w
  {
    hide File;
    var file := File(corpus, 0, w, 0);
    if r > 0 {
      FileLines(corpus, w, r - 1);
      var c :| c in file[..cut] && c.srcLine == r - 1;
      assert c in file;
    }
  }

  lemma CutAt(file: seq<Chunk>, head: seq<Chunk>, tail: seq<Chunk>, tail': seq<Chunk>, cut: nat)
    requires file == head + tail && |tail'| == |tail| && cut <= |file| && (cut == |head| ==> tail' == tail)
    ensures file[..cut] + tail' == file <==> cut == |head|
  {}

  lemma {:induction false} FileLength(corpus: Corpus, lo: nat, hi: nat, id: nat, id': nat)
    ensures |File(corpus, lo, hi, id)| == |File(corpus, lo, hi, id')|
    decreases hi
  {
    hide LineRecords, Records;
    if lo < hi {
      FileLength(corpus, lo, hi - 1, id, id');
      var n := id + |File(corpus, lo, hi - 1, id)|;
      var n' := id' + |File(corpus, lo, hi - 1, id)|;
      LineLength(corpus, hi - 1, n);
      LineLength(corpus, hi - 1, n');
    }
  }

  lemma LineLength(corpus: Corpus, line: nat, id: nat)
    ensures |LineRecords(corpus, line, id)| == |corpus(line).pieces|
  {}

  // ----- a whole run, and any number of reruns -----

  // The vectors file is a 12-byte header followed by fixed-size records. A run
  // that finds no record writes the header, whether or not one is already there.

  datatype Item = Header | Vector(embedding: Embedding)

  const HEADER_BYTES := 12
  const RECORD_BYTES := 12 + 4 * 256

  function AsItems(embeddings: seq<Embedding>): (r: seq<Item>)
    ensures |r| == |embeddings| && forall i :: 0 <= i < |r| ==> r[i] == Vector(embeddings[i])
  {
    seq(|embeddings|, i requires 0 <= i < |embeddings| => Vector(embeddings[i]))
  }

  /** Some headers, then records. */
  function Layout(headers: nat, embeddings: seq<Embedding>): seq<Item> {
    seq(headers, _ => Header) + AsItems(embeddings)
  }

  function Bytes(items: seq<Item>): nat {
    if items == [] then 0
    else Bytes(items[..|items| - 1]) + if items[|items| - 1].Header? then HEADER_BYTES else RECORD_BYTES
  }

  function VectorsIn(items: seq<Item>): seq<Embedding> {
    if items == [] then []
    else
      VectorsIn(items[..|items| - 1]) +
      if items[|items| - 1].Header? then [] else [items[|items| - 1].embedding]
  }

  function KeysOf(embeddings: seq<Embedding>): set<(nat, nat)> {
    set e | e in embeddings :: (e.opinionId, e.ordinal)
  }

  /** The keys on file: none without a file; an error when the file does not open
      with a header or does not divide into whole records after it. */
  function EmbeddedKeys(items: seq<Item>): Result<set<(nat, nat)>> {
    if items == [] then Ok({})
    else if !items[0].Header? || (Bytes(items) - HEADER_BYTES) % RECORD_BYTES != 0 then Refused
    else Ok(KeysOf(VectorsIn(items)))
  }

  lemma {:induction false} LayoutBytes(headers: nat, embeddings: seq<Embedding>)
    ensures Bytes(Layout(headers, embeddings)) == headers * HEADER_BYTES + |embeddings| * RECORD_BYTES
    ensures VectorsIn(Layout(headers, embeddings)) == embeddings
    decreases headers + |embeddings|
  {
    var items := Layout(headers, embeddings);
    if embeddings != [] {
      var init := embeddings[..|embeddings| - 1];
      assert items[..|items| - 1] == Layout(headers, init);
      LayoutBytes(headers, init);
    } else if headers > 0 {
      assert items[..|items| - 1] == Layout(headers - 1, []);
      LayoutBytes(headers - 1, []);
    }
  }

  /** One header reads back exactly; a second one puts every record out of step
      and the file no longer divides. */
  lemma LayoutReads(headers: nat, embeddings: seq<Embedding>)
    requires headers <= 2 && (headers == 0 ==> embeddings == [])
    ensures EmbeddedKeys(Layout(headers, embeddings)) == if headers == 2 then Refused else Ok(KeysOf(embeddings))
  {
    hide Bytes, VectorsIn, KeysOf;
    LayoutBytes(headers, embeddings);
    if headers == 0 {
      assert Layout(headers, embeddings) == [];
      NoKeys(embeddings);
    } else {
      assert Layout(headers, embeddings)[0] == Header;
      WholeRecords(|embeddings|);
    }
  }

  lemma WholeRecords(m: nat)
    ensures (m * RECORD_BYTES) % RECORD_BYTES == 0
    ensures (HEADER_BYTES + m * RECORD_BYTES) % RECORD_BYTES == HEADER_BYTES
  {}

  lemma LayoutMore(headers: nat, held: seq<Embedding>, more: seq<Embedding>)
    ensures Layout(headers, held) + AsItems(more) == Layout(headers, held + more)
    ensures held == [] ==> Layout(headers, held) + [Header] == Layout(headers + 1, held)
  {}

  /** What a run leaves: both files, the line it resumed at and its watermark. */
  datatype Saved = Saved(file: seq<Chunk>, items: seq<Item>, skip: nat, watermark: nat)

  /** One run of the tool over existing files. Starting from lines `[0, w)` in
      any earlier state, the chunks file again holds exactly a line prefix. The
      run fails at the start exactly when the vectors file has a second header,
      and writes a header exactly when there is no vector on file. */
  method Session(file: seq<Chunk>, items: seq<Item>, msgs: seq<Done>,
                 ghost corpus: Corpus, ghost fails: set<nat>, ghost w: nat, ghost headers: nat, ghost held: seq<Embedding>)
    returns (r: Result<Saved>)
    requires InPlace(corpus) && file == File(corpus, 0, w, 0)
    requires items == Layout(headers, held) && headers <= 2 && (headers == 0 ==> held == [])
    requires forall i :: 0 <= i < |msgs| ==> msgs[i].Slot() == if msgs[i].Line() in fails then None else Some(corpus(msgs[i].Line()))
    ensures r.Refused? <==> headers == 2
    ensures r.Ok? ==>
              && ResumesAt(file, r.value.skip) && r.value.skip <= w && File(corpus, 0, r.value.skip, 0) == file
              && r.value.skip <= r.value.watermark && StopsAt(Reported(msgs), fails, r.value.skip, r.value.watermark)
              && r.value.file == File(corpus, 0, r.value.watermark, 0)
              && r.value.items == Layout(if held == [] then headers + 1 else headers,
                                         held + Embeddings(corpus, r.value.skip, r.value.watermark, KeysOf(held)))
  {
    hide File, Embeddings, EmbeddedKeys, Layout;
    var records, skip := ChunksResumeState(file);
    LayoutReads(headers, held);
    var keys := EmbeddedKeys(items);
    if keys.Refused? {
      return Refused;
    }
    ResumeAfter(corpus, w, skip);
    var ready := if keys.value == {} then items + [Header] else items;
    NoKeys(held);
    LayoutMore(headers, held, []);
    ghost var run := Run(corpus, fails, skip, records, file, []);
    var writer := new Writer(file, [], records, skip, keys.value);
    StartEmpty(run, keys.value);
    var drained := writer.Consume(msgs, run);
    FileJoin(corpus, 0, skip, writer.watermark, 0);
    LayoutMore(if held == [] then headers + 1 else headers, held, writer.embeddings);
    assert writer.embeddings == Embeddings(corpus, skip, writer.watermark, keys.value);
    r := Ok(Saved(writer.chunks, ready + AsItems(writer.embeddings), skip, writer.watermark));
  }

  lemma NoKeys(embeddings: seq<Embedding>)
    ensures KeysOf(embeddings) == {} <==> embeddings == []
  {
    if embeddings != [] {
      assert (embeddings[0].opinionId, embeddings[0].ordinal) in KeysOf(embeddings);
    }
  }

  lemma StartEmpty(run: Run, known: set<(nat, nat)>)
    ensures Outputs(run, known, run.skip, run.chunks0, run.embeddings0, run.id)
  {}

  ghost predicate DistinctIds(corpus: Corpus) {
    forall l, m: nat :: l != m ==> corpus(l).opinionId != corpus(m).opinionId
  }

  /** Some line before `w` has a chunk. */
  ghost predicate WritesVector(corpus: Corpus, w: nat) {
    exists l: nat :: l < w && corpus(l).pieces != []
  }

  lemma SomeVector(corpus: Corpus, w: nat)
    requires InPlace(corpus)
    ensures WritesVector(corpus, w) <==> Embeddings(corpus, 0, w, {}) != []
  {
    hide File, Embeddings;
    InStep(corpus, 0, w, 0);
    var file := File(corpus, 0, w, 0);
    if file != [] {
      assert file[0] in file;
      FileLines(corpus, w, file[0].srcLine);
    }
    if l: nat :| l < w && corpus(l).pieces != [] {
      FileLines(corpus, w, l);
    }
  }

  /** What holds after the first of several runs. */
  ghost predicate Progress(corpus: Corpus, runs: nat, first: nat, w: nat, headers: nat, held: seq<Embedding>) {
    && headers == (if runs == 0 then 0 else if runs == 1 || WritesVector(corpus, first) then 1 else 2)
    && (runs == 0 ==> held == [] && w == 0)
    && (runs == 1 ==> w == first)
    && (runs >= 1 ==> (WritesVector(corpus, first) ==> held != []))
    && (runs == 1 ==> (WritesVector(corpus, first) <==> held != []))
    && (DistinctIds(corpus) ==> held == Embeddings(corpus, 0, w, {}))
  }

  /** Any number of reruns, whatever failed or was lost in each. The chunks file
      is the one an uninterrupted run over `[0, w)` writes. The vectors file is
      one header and then, for distinct opinion ids, exactly the vectors of those
      lines, if and only if there was no rerun or the first run wrote a vector;
      otherwise a second header stands before the records and every run from the
      third on fails. */
  method Reruns(runs: seq<seq<Done>>, ghost corpus: Corpus, ghost fails: seq<set<nat>>)
    returns (file: seq<Chunk>, items: seq<Item>, w: nat, refused: bool, ghost first: nat, ghost held: seq<Embedding>)
    requires InPlace(corpus) && |fails| == |runs|
    requires forall r, i :: 0 <= r < |runs| && 0 <= i < |runs[r]| ==>
               runs[r][i].Slot() == if runs[r][i].Line() in fails[r] then None else Some(corpus(runs[r][i].Line()))
    ensures runs != [] ==> StopsAt(Reported(runs[0]), fails[0], 0, first)
    ensures file == File(corpus, 0, w, 0)
    ensures DistinctIds(corpus) ==> held == Embeddings(corpus, 0, w, {})
    ensures runs != [] ==> items == Layout(if |runs| == 1 || WritesVector(corpus, first) then 1 else 2, held)
    ensures refused <==> |runs| >= 3 && !WritesVector(corpus, first)
  {
    file, items, w, refused, first, held := [], [], 0, false, 0, [];
    ghost var headers := 0;
    for r := 0 to |runs|
      invariant file == File(corpus, 0, w, 0) && items == Layout(headers, held)
      invariant Progress(corpus, r, first, w, headers, held)
      invariant r > 0 ==> StopsAt(Reported(runs[0]), fails[0], 0, first)
      invariant refused <==> r >= 3 && !WritesVector(corpus, first)
    {
      hide File, Embeddings, StopsAt, ResumesAt, Layout, WritesVector, DistinctIds;
      var saved := Session(file, items, runs[r], corpus, fails[r], w, headers, held);
      if saved.Refused? {
        refused := true;
      } else {
        ghost var before, skip, was := w, saved.value.skip, held;
        file, items, w := saved.value.file, saved.value.items, saved.value.watermark;
        headers := if held == [] then headers + 1 else headers;
        held := held + Embeddings(corpus, skip, w, KeysOf(held));
        if r == 0 {
          StartsAtZero(corpus, skip);
          first := w;
        }
        Progresses(corpus, r, first, before, skip, w, was, headers, held);
      }
    }
  }

  /** A first run that fails on the first line and a rerun that writes it: the
      vectors file gets a second header, and the next run fails. */
  method RepeatedHeader(corpus: Corpus) returns (items: seq<Item>, refused: bool)
    requires InPlace(corpus) && corpus(0).pieces != []
    ensures |items| >= 3 && items[0] == items[1] == Header && items[2].Vector?
    ensures refused
  {
    hide File, Embeddings, Layout, StopsAt, Reported, KeysOf, ResumesAt, InPlace;
    FirstVector(corpus);
    NothingYet(corpus);
    ghost var held := Embeddings(corpus, 0, 1, {});
    var file;
    file, items := TwoRuns(corpus, held);
    TwoHeaders(held);
    var three := Session(file, items, [], corpus, {}, 1, 2, held);
    refused := three.Refused?;
  }

  lemma NothingYet(corpus: Corpus)
    ensures File(corpus, 0, 0, 0) == [] && Layout(0, []) == [] && Embeddings(corpus, 0, 0, {}) == []
  {}

  method TwoRuns(corpus: Corpus, ghost held: seq<Embedding>) returns (file: seq<Chunk>, items: seq<Item>)
    requires InPlace(corpus) && held == Embeddings(corpus, 0, 1, {}) && KeysOf([]) == {}
    requires File(corpus, 0, 0, 0) == [] && Layout(0, []) == [] && Embeddings(corpus, 0, 0, {}) == []
    ensures file == File(corpus, 0, 1, 0) && items == Layout(2, held)
  {
    assert corpus(0).srcLine == 0;
    hide File, Embeddings, Layout, StopsAt, Reported, KeysOf, ResumesAt, InPlace;
    var one := Session([], [], [Failed(0)], corpus, {0}, 0, 0, []);
    StopsShort([Failed(0)], {0}, 0, one.value.watermark);
    assert [] + Embeddings(corpus, 0, 0, {}) == [];
    var two := Session(one.value.file, one.value.items, [Analyzed(corpus(0))], corpus, {}, 0, 1, []);
    StopsShort([Analyzed(corpus(0))], {}, 1, two.value.watermark);
    assert [] + held == held;
    file, items := two.value.file, two.value.items;
  }

  lemma StopsShort(msgs: seq<Done>, fails: set<nat>, stop: nat, w: nat)
    requires |msgs| == 1 && msgs[0].Line() == 0 && stop == (if 0 in fails then 0 else 1)
    requires StopsAt(Reported(msgs), fails, 0, w)
    ensures w == stop
  {
    assert Reported(msgs) == {0} by { assert msgs[0] in msgs; }
    StopUnique(Reported(msgs), fails, 0, w, stop);
  }

  lemma TwoHeaders(held: seq<Embedding>)
    requires held != []
    ensures var items := Layout(2, held); |items| >= 3 && items[0] == items[1] == Header && items[2].Vector?
  {}

  lemma FirstVector(corpus: Corpus)
    requires corpus(0).pieces != []
    ensures KeysOf([]) == {} && Embeddings(corpus, 0, 1, {}) != []
  {
    AllVectors(corpus(0), |corpus(0).pieces|);
    assert Embeddings(corpus, 0, 0, {}) == [];
  }

  lemma Progresses(corpus: Corpus, r: nat, first: nat, before: nat, skip: nat, w: nat, was: seq<Embedding>,
                   headers: nat, held: seq<Embedding>)
    requires InPlace(corpus) && headers > 0 && (r == 0 ==> w == first && skip == 0)
    requires Progress(corpus, r, if r == 0 then 0 else first, before, if was == [] then headers - 1 else headers, was)
    requires r >= 2 ==> WritesVector(corpus, first)
    requires skip <= before && skip <= w && File(corpus, 0, skip, 0) == File(corpus, 0, before, 0)
    requires held == was + Embeddings(corpus, skip, w, KeysOf(was))
    ensures Progress(corpus, r + 1, first, w, headers, held)
  {
    hide File, Embeddings, DistinctIds, WritesVector;
    if DistinctIds(corpus) {
      DistinctIdsResume(corpus, before, skip, w, was);
    }
    SomeVector(corpus, first);
    if r == 0 {
      assert KeysOf([]) == {};
      assert [] + Embeddings(corpus, 0, w, {}) == Embeddings(corpus, 0, w, {});
    }
  }

  lemma StartsAtZero(corpus: Corpus, skip: nat)
    requires ResumesAt(File(corpus, 0, 0, 0), skip)
    ensures skip == 0
  {}

  // ----- chunks and vectors stay in step -----

  function Key(o: Opinion, ordinal: nat): (nat, nat) {
    (o.opinionId, ordinal)
  }

  /** None of the first `n` keys of an opinion is on file. */
  ghost predicate FreshTo(o: Opinion, n: nat, known: set<(nat, nat)>) {
    forall i: nat :: i < n ==> Key(o, i) !in known
  }

  lemma {:induction false} VectorsShort(o: Opinion, n: nat, known: set<(nat, nat)>)
    requires n <= |o.pieces|
    ensures |Vectors(o, n, known)| <= n
    ensures |Vectors(o, n, known)| == n <==> FreshTo(o, n, known)
    ensures |Vectors(o, n, known)| == n ==> Vectors(o, n, known) == Vectors(o, n, {})
  {
    if n > 0 {
      assert FreshTo(o, n, known) <==> FreshTo(o, n - 1, known) && Key(o, n - 1) !in known;
      VectorsShort(o, n - 1, known);
      VectorsShort(o, n - 1, {});
    }
  }

  /** Chunk `i` and vector `i` carry the same key, and ids count the records. */
  lemma {:induction false} InStep(corpus: Corpus, lo: nat, hi: nat, id: nat)
    ensures |Embeddings(corpus, lo, hi, {})| == |File(corpus, lo, hi, id)|
    ensures forall i :: 0 <= i < |File(corpus, lo, hi, id)| ==>
              Paired(File(corpus, lo, hi, id)[i], Embeddings(corpus, lo, hi, {})[i], id + i)
    decreases hi
  {
    if lo < hi {
      hide Records, Vectors;
      var o := corpus(hi - 1);
      InStep(corpus, lo, hi - 1, id);
      var init, held := File(corpus, lo, hi - 1, id), Embeddings(corpus, lo, hi - 1, {});
      AllVectors(o, |o.pieces|);
      PairedJoin(init, held, Records(o, |o.pieces|, id + |init|), Vectors(o, |o.pieces|, {}), id);
    }
  }

  ghost predicate Paired(c: Chunk, e: Embedding, id: nat) {
    c.chunkId == id && c.opinionId == e.opinionId && c.ordinal == e.ordinal
  }

  lemma PairedJoin(a: seq<Chunk>, b: seq<Embedding>, a': seq<Chunk>, b': seq<Embedding>, id: nat)
    requires |a| == |b| && |a'| == |b'|
    requires forall i :: 0 <= i < |a| ==> Paired(a[i], b[i], id + i)
    requires forall i :: 0 <= i < |a'| ==> Paired(a'[i], b'[i], id + |a| + i)
    ensures forall i :: 0 <= i < |a + a'| ==> Paired((a + a')[i], (b + b')[i], id + i)
  {}

  lemma {:induction false} AllVectors(o: Opinion, n: nat)
    requires n <= |o.pieces|
    ensures |Vectors(o, n, {})| == n
    ensures forall i :: 0 <= i < n ==> Vectors(o, n, {})[i] == Embedding(o.opinionId, i, o.pieces[i].vector)
  {
    if n > 0 {
      AllVectors(o, n - 1);
    }
  }

  ghost predicate Fresh(corpus: Corpus, lo: nat, hi: nat, known: set<(nat, nat)>) {
    forall l: nat :: lo <= l < hi ==> FreshTo(corpus(l), |corpus(l).pieces|, known)
  }

  lemma FreshStep(corpus: Corpus, lo: nat, hi: nat, known: set<(nat, nat)>)
    requires lo < hi
    ensures Fresh(corpus, lo, hi, known) <==>
            Fresh(corpus, lo, hi - 1, known) &&
            FreshTo(corpus(hi - 1), |corpus(hi - 1).pieces|, known)
  {}

  lemma {:induction false} EmbeddingsShort(corpus: Corpus, lo: nat, hi: nat, known: set<(nat, nat)>)
    ensures |Embeddings(corpus, lo, hi, known)| <= |Embeddings(corpus, lo, hi, {})|
    ensures |Embeddings(corpus, lo, hi, known)| == |Embeddings(corpus, lo, hi, {})| <==> Fresh(corpus, lo, hi, known)
    ensures Fresh(corpus, lo, hi, known) ==> Embeddings(corpus, lo, hi, known) == Embeddings(corpus, lo, hi, {})
    decreases hi
  {
    if lo < hi {
      hide Vectors, Fresh;
      var o := corpus(hi - 1);
      FreshStep(corpus, lo, hi, known);
      EmbeddingsShort(corpus, lo, hi - 1, known);
      VectorsShort(o, |o.pieces|, known);
      VectorsShort(o, |o.pieces|, {});
    }
  }

  lemma {:induction false} EmbeddingsJoin(corpus: Corpus, lo: nat, mid: nat, hi: nat)
    requires lo <= mid <= hi
    ensures Embeddings(corpus, lo, hi, {}) == Embeddings(corpus, lo, mid, {}) + Embeddings(corpus, mid, hi, {})
    decreases hi
  {
    if mid < hi {
      EmbeddingsJoin(corpus, lo, mid, hi - 1);
    }
  }

  /** A resumed run keeps the vectors in step with the chunks if and only if no
      key of a newly written line is already on file. */
  lemma ResumeInStep(corpus: Corpus, skip: nat, w: nat)
    requires skip <= w
    ensures var held := Embeddings(corpus, 0, skip, {});
            held + Embeddings(corpus, skip, w, KeysOf(held)) == Embeddings(corpus, 0, w, {}) <==>
            Fresh(corpus, skip, w, KeysOf(held))
  {
    hide Embeddings;
    var held := Embeddings(corpus, 0, skip, {});
    EmbeddingsJoin(corpus, 0, skip, w);
    EmbeddingsShort(corpus, skip, w, KeysOf(held));
  }

  lemma {:induction false} KeysFrom(corpus: Corpus, w: nat, e: Embedding)
    requires e in Embeddings(corpus, 0, w, {})
    ensures exists l: nat :: l < w && corpus(l).opinionId == e.opinionId
  {
    var o := corpus(w - 1);
    AllVectors(o, |o.pieces|);
    if e in Embeddings(corpus, 0, w - 1, {}) {
      KeysFrom(corpus, w - 1, e);
    }
  }

  /** Distinct opinion ids are enough, also across a resume that goes back over
      lines without chunks. */
  lemma DistinctIdsResume(corpus: Corpus, before: nat, skip: nat, w: nat, held: seq<Embedding>)
    requires DistinctIds(corpus) && held == Embeddings(corpus, 0, before, {})
    requires skip <= before && skip <= w && File(corpus, 0, skip, 0) == File(corpus, 0, before, 0)
    ensures held + Embeddings(corpus, skip, w, KeysOf(held)) == Embeddings(corpus, 0, w, {})
  {
    hide Embeddings, File;
    EmbeddingsJoin(corpus, 0, skip, before);
    InStep(corpus, 0, skip, 0);
    InStep(corpus, 0, before, 0);
    assert held == Embeddings(corpus, 0, skip, {});
    forall l: nat, i: nat | skip <= l < w ensures Key(corpus(l), i) !in KeysOf(held) {
      if e :| e in held && (e.opinionId, e.ordinal) == Key(corpus(l), i) {
        KeysFrom(corpus, skip, e);
      }
    }
    ResumeInStep(corpus, skip, w);
  }

  // ----- the chunks of an opinion restore its text -----

  function PieceSpans(o: Opinion): (r: seq<ChunkPlans.Span>)
    ensures |r| == |o.pieces| && forall i :: 0 <= i < |r| ==> r[i] == ChunkPlans.Span(o.pieces[i].start, o.pieces[i].end)
  {
    seq(|o.pieces|, i requires 0 <= i < |o.pieces| => ChunkPlans.Span(o.pieces[i].start, o.pieces[i].end))
  }

  ghost function Texts(chunks: seq<Chunk>): string {
    if chunks == [] then "" else Texts(chunks[..|chunks| - 1]) + chunks[|chunks| - 1].text
  }

  lemma {:induction false} TextsAreSlices(o: Opinion, n: nat, id: nat)
    requires n <= |o.pieces|
    ensures Texts(Records(o, n, id)) == ChunkPlans.Slices(o.text, PieceSpans(o), n)
  {
    if n > 0 {
      TextsAreSlices(o, n - 1, id);
      assert Records(o, n, id)[..n - 1] == Records(o, n - 1, id);
    }
  }

  /** The chunk texts of an accepted opinion, in ordinal order, are its text. */
  lemma ChunksRestoreText(o: Opinion, id: nat)
    requires ChunkPlans.IsContiguous(o.text, PieceSpans(o)) && forall i :: 0 <= i < |o.pieces| ==> o.pieces[i].start < o.pieces[i].end
    ensures Texts(Records(o, |o.pieces|, id)) == o.text
  {
    TextsAreSlices(o, |o.pieces|, id);
    ChunkPlans.Restores(o.text, PieceSpans(o));
  }
}
