/** The chunk planner of src/demo/court.rs: whole blocks are packed up to a token
    target, and a block over the hard cap is split at its own tokens. The plan
    should cut the text into contiguous, non-empty spans. */
module ChunkPlans {
  import opened Options
  import opened Numbers

  datatype Span = Span(start: nat, end: nat)

  /** Where a chunk's vector comes from: whole blocks, or a piece of one. */
  datatype Source = Blocks(first: nat, last: nat) | SoloPiece

  datatype Plan = Plan(span: Span, source: Source)

  /** The tokens that start inside `[start, end)`. */
  function TokensWithin(tokens: seq<Span>, start: nat, end: nat): seq<Span> {
    if tokens == [] then []
    else
      var init := TokensWithin(tokens[..|tokens| - 1], start, end);
      var t := tokens[|tokens| - 1];
      if start <= t.start < end then init + [t] else init
  }

  predicate Covering(s: Span, textLen: nat) {
    Min(s.end, textLen) > s.start
  }

  /** Sentences that cover some text. */
  function Kept(sentences: seq<Span>, textLen: nat): seq<Span> {
    if sentences == [] then []
    else
      var init := Kept(sentences[..|sentences| - 1], textLen);
      var s := sentences[|sentences| - 1];
      if Covering(s, textLen) then init + [s] else init
  }

  lemma {:induction false} KeptInside(sentences: seq<Span>, textLen: nat, i: nat)
    requires i < |Kept(sentences, textLen)|
    ensures Kept(sentences, textLen)[i].start < Min(Kept(sentences, textLen)[i].end, textLen)
  {
    var init := sentences[..|sentences| - 1];
    if i < |Kept(init, textLen)| {
      KeptInside(init, textLen, i);
    }
  }

  /** The spans follow one another without gap or overlap from `lo` to `hi`, and
      none is empty. */
  ghost predicate Chain(plans: seq<Plan>, lo: nat, hi: nat) {
    if plans == [] then lo == hi
    else
      var last := plans[|plans| - 1].span;
      last.start < last.end == hi && Chain(plans[..|plans| - 1], lo, last.start)
  }

  lemma ChainNone(lo: nat)
    ensures Chain([], lo, lo)
  {}

  lemma ChainMore(plans: seq<Plan>, lo: nat, mid: nat, hi: nat, source: Source)
    requires Chain(plans, lo, mid) && mid < hi
    ensures Chain(plans + [Plan(Span(mid, hi), source)], lo, hi)
  {}

  lemma {:induction false} ChainJoin(a: seq<Plan>, b: seq<Plan>, lo: nat, mid: nat, hi: nat)
    requires Chain(a, lo, mid) && Chain(b, mid, hi)
    ensures Chain(a + b, lo, hi)
  {
    if b == [] {
      assert a + b == a;
    } else {
      var init := b[..|b| - 1];
      ChainJoin(a, init, lo, mid, b[|b| - 1].span.start);
      assert (a + b)[..|a + b| - 1] == a + init;
    }
  }

  // ----- an oversized block -----

  /** Tokens in text order, none empty and none overlapping. */
  ghost predicate InOrder(tokens: seq<Span>) {
    && (forall i :: 0 <= i < |tokens| ==> tokens[i].start < tokens[i].end)
    && (forall i, j :: 0 <= i < j < |tokens| ==> tokens[i].end <= tokens[j].start)
  }

  /** The first token at or after `from`, or `otherwise`. */
  method NextStart(tokens: seq<Span>, from: nat, otherwise: nat) returns (start: nat)
    ensures (forall i :: 0 <= i < |tokens| ==> tokens[i].start < from) ==> start == otherwise
    ensures (exists i :: 0 <= i < |tokens| && tokens[i].start >= from) ==>
              exists i :: 0 <= i < |tokens| && tokens[i].start == start >= from && forall j :: 0 <= j < i ==> tokens[j].start < from
  {
    for i := 0 to |tokens|
      invariant forall j :: 0 <= j < i ==> tokens[j].start < from
    {
      if tokens[i].start >= from {
        return tokens[i].start;
      }
    }
    start := otherwise;
  }

  /** Where the piece that opens with token `w` ends. */
  method PieceEnd(tokens: seq<Span>, cap: nat, w: nat, nextStart: nat) returns (end: nat)
    requires cap > 0 && w < |tokens|
    ensures InOrder(tokens) ==> end == if w + cap < |tokens| then tokens[w + cap].start else nextStart
  {
    end := nextStart;
    if w + cap <= |tokens| {
      end := NextStart(tokens, tokens[w + cap - 1].end, nextStart);
      if InOrder(tokens) {
        AfterWindow(tokens, w + cap, end, nextStart);
      }
    }
  }

  ghost predicate SoloPieces(pieces: seq<Plan>) {
    forall p :: p in pieces ==> p.source == SoloPiece && p.span.start < p.span.end
  }

  lemma SoloMore(pieces: seq<Plan>, start: nat, end: nat)
    requires SoloPieces(pieces) && start < end
    ensures SoloPieces(pieces + [Plan(Span(start, end), SoloPiece)])
  {}

  /** Ordered tokens that start between a block and the next one. */
  ghost predicate Splittable(tokens: seq<Span>, blockStart: nat, nextStart: nat) {
    InOrder(tokens) && forall i :: 0 <= i < |tokens| ==> blockStart <= tokens[i].start < nextStart
  }

  /** Pieces of at most `cap` tokens, the last one up to `nextStart`. */
  method SplitBlock(tokens: seq<Span>, cap: nat, blockStart: nat, nextStart: nat) returns (pieces: seq<Plan>)
    requires cap > 0 && tokens != []
    ensures SoloPieces(pieces)
    ensures Splittable(tokens, blockStart, nextStart) ==> Chain(pieces, blockStart, nextStart) && Capped(tokens, cap, pieces)
  {
    pieces := [];
    var pieceStart: nat, w: nat := blockStart, 0;
    ChainNone(blockStart);
    hide Chain, InOrder, SoloPieces, TokensWithin;
    assert SoloPieces([]) by { NoPieces(); }
    while w < |tokens|
      invariant SoloPieces(pieces)
      invariant Splittable(tokens, blockStart, nextStart) ==> Chain(pieces, blockStart, pieceStart) && Capped(tokens, cap, pieces)
      invariant Splittable(tokens, blockStart, nextStart) && w >= |tokens| ==> pieceStart == nextStart
      invariant Splittable(tokens, blockStart, nextStart) && w < |tokens| ==>
                  pieceStart <= tokens[w].start && (w > 0 ==> pieceStart == tokens[w].start)
      decreases |tokens| - w
    {
      var pieceEnd := PieceEnd(tokens, cap, w, nextStart);
      if Splittable(tokens, blockStart, nextStart) {
        Advance(tokens, cap, w, nextStart);
      }
      if pieceEnd > pieceStart {
        SoloMore(pieces, pieceStart, pieceEnd);
        if Splittable(tokens, blockStart, nextStart) {
          ChainMore(pieces, blockStart, pieceStart, pieceEnd, SoloPiece);
          PieceCapped(tokens, cap, w, pieceStart, pieceEnd);
        }
        pieces := pieces + [Plan(Span(pieceStart, pieceEnd), SoloPiece)];
      }
      pieceStart := pieceEnd;
      w := w + cap;
    }
  }

  /** No piece holds more than `cap` of the block's tokens. */
  ghost predicate Capped(tokens: seq<Span>, cap: nat, pieces: seq<Plan>) {
    forall p :: p in pieces ==> |TokensWithin(tokens, p.span.start, p.span.end)| <= cap
  }

  lemma {:induction false} WindowCount(tokens: seq<Span>, lo: nat, hi: nat, w: nat, e: nat)
    requires w <= e
    requires forall i :: 0 <= i < |tokens| && i < w ==> tokens[i].start < lo
    requires forall i :: e <= i < |tokens| ==> tokens[i].start >= hi
    ensures |TokensWithin(tokens, lo, hi)| <= Min(e, |tokens|) - Min(w, |tokens|)
  {
    if tokens != [] {
      WindowCount(tokens[..|tokens| - 1], lo, hi, w, e);
    }
  }

  lemma PieceCapped(tokens: seq<Span>, cap: nat, w: nat, start: nat, end: nat)
    requires InOrder(tokens) && w < |tokens| && (w > 0 ==> start == tokens[w].start)
    requires w + cap < |tokens| ==> end == tokens[w + cap].start
    ensures |TokensWithin(tokens, start, end)| <= cap
  {
    hide TokensWithin;
    WindowCount(tokens, start, end, w, w + cap);
  }

  lemma NoPieces()
    ensures SoloPieces([])
  {}

  /** The next piece opens later. */
  lemma Advance(tokens: seq<Span>, cap: nat, w: nat, nextStart: nat)
    requires InOrder(tokens) && cap > 0 && w < |tokens|
    ensures w + cap < |tokens| ==> tokens[w].start < tokens[w + cap].start
  {}

  /** After a full window of ordered tokens comes the next token. */
  lemma AfterWindow(tokens: seq<Span>, next: nat, found: nat, otherwise: nat)
    requires InOrder(tokens) && 0 < next <= |tokens|
    requires (forall i :: 0 <= i < |tokens| ==> tokens[i].start < tokens[next - 1].end) ==> found == otherwise
    requires (exists i :: 0 <= i < |tokens| && tokens[i].start >= tokens[next - 1].end) ==>
               exists i :: 0 <= i < |tokens| && tokens[i].start == found >= tokens[next - 1].end &&
                           forall j :: 0 <= j < i ==> tokens[j].start < tokens[next - 1].end
    ensures found == if next < |tokens| then tokens[next].start else otherwise
  {}

  // ----- the planner -----

  /** One call: the kept blocks, all tokens, and the two limits. */
  datatype Call = Call(blocks: seq<Span>, tokens: seq<Span>, textLen: nat, target: nat, cap: nat) {
    ghost predicate Valid() {
      && textLen > 0 && target > 0 && cap > 0
      && forall i :: 0 <= i < |blocks| ==> blocks[i].start < Min(blocks[i].end, textLen)
    }

    function End(i: nat): nat
      requires i < |blocks|
    {
      Min(blocks[i].end, textLen)
    }

    function BlockTokens(i: nat): nat
      requires i < |blocks|
    {
      |TokensWithin(tokens, blocks[i].start, End(i))|
    }

    /** Tokens of blocks `[first, end)`. */
    ghost function Total(first: nat, end: nat): nat
      requires end <= |blocks|
      decreases end
    {
      if first >= end then 0 else Total(first, end - 1) + BlockTokens(end - 1)
    }

    /** Where the chunk that opens with block `j` starts. */
    function StartOf(j: nat): nat
      requires j <= |blocks|
    {
      if j == 0 then 0 else if j < |blocks| then blocks[j].start else textLen
    }

    /** Blocks and tokens in text order. */
    ghost predicate Ordered() {
      InOrder(tokens) && forall i, j :: 0 <= i < j < |blocks| ==> End(i) <= blocks[j].start
    }

    /** No block needs splitting. */
    ghost predicate NoneOversized() {
      forall i :: 0 <= i < |blocks| ==> BlockTokens(i) <= cap
    }

    /** A packed chunk spans exactly its blocks. */
    ghost predicate Attributed(p: Plan) {
      p.source.Blocks? ==>
        && p.source.first <= p.source.last < |blocks|
        && p.span == Span(StartOf(p.source.first), StartOf(p.source.last + 1))
    }

    /** A packed chunk keeps to the target, unless it is one block within the cap. */
    ghost predicate WithinBudget(p: Plan) {
      p.source.Blocks? && p.source.last < |blocks| ==>
        || Total(p.source.first, p.source.last + 1) <= target
        || (p.source.first == p.source.last && BlockTokens(p.source.first) <= cap)
    }
  }

  function CallOf(textLen: nat, sentences: seq<Span>, tokens: seq<Span>, targetTokens: nat, hardCap: nat): Call {
    Call(Kept(sentences, textLen), tokens, textLen, Max(targetTokens, 1), Max(hardCap, 1))
  }

  datatype State = State(plans: seq<Plan>, curStart: nat, curFirst: nat, curTokens: nat)

  /** After `i` blocks. */
  ghost predicate Inv(c: Call, i: nat, s: State) {
    && s.curFirst <= i <= |c.blocks| && s.curStart == c.StartOf(s.curFirst)
    && s.curTokens == c.Total(s.curFirst, i)
    && (forall p :: p in s.plans ==> c.Attributed(p) && p.span.start < p.span.end)
    && (c.Ordered() || c.NoneOversized() ==> Chain(s.plans, 0, s.curStart))
    && (c.Ordered() ==> (forall p :: p in s.plans ==> c.WithinBudget(p)) && Room(c, i, s))
  }

  /** The open chunk is within the target, or is one block within the cap. */
  ghost predicate Room(c: Call, i: nat, s: State)
    requires s.curFirst <= i <= |c.blocks|
  {
    s.curTokens <= c.target || (s.curFirst + 1 == i && c.BlockTokens(s.curFirst) <= c.cap)
  }

  /** Closing the open chunk before block `i`. */
  function Close(c: Call, i: nat, s: State): State
    requires 0 < i <= |c.blocks|
  {
    s.(plans := s.plans + [Plan(Span(s.curStart, c.StartOf(i)), Blocks(s.curFirst, i - 1))])
  }

  lemma CloseKeeps(c: Call, i: nat, s: State)
    requires c.Valid() && Inv(c, i, s) && 0 < i <= |c.blocks| && s.curStart < c.StartOf(i)
    ensures s.curFirst < i
    ensures forall p :: p in Close(c, i, s).plans ==> c.Attributed(p) && p.span.start < p.span.end
    ensures c.Ordered() || c.NoneOversized() ==> Chain(Close(c, i, s).plans, 0, c.StartOf(i))
    ensures c.Ordered() ==> forall p :: p in Close(c, i, s).plans ==> c.WithinBudget(p)
  {
    if c.Ordered() || c.NoneOversized() {
      ChainMore(s.plans, 0, s.curStart, c.StartOf(i), Blocks(s.curFirst, i - 1));
    }
  }

  lemma {:induction false} WithinTokens(tokens: seq<Span>, start: nat, end: nat)
    ensures forall t :: t in TokensWithin(tokens, start, end) ==> t in tokens && start <= t.start < end
  {
    if tokens != [] {
      WithinTokens(tokens[..|tokens| - 1], start, end);
    }
  }

  lemma OrderMore(tokens: seq<Span>, t: Span)
    requires InOrder(tokens) && t.start < t.end && forall u :: u in tokens ==> u.end <= t.start
    ensures InOrder(tokens + [t])
  {}

  lemma OrderLess(tokens: seq<Span>)
    requires InOrder(tokens) && tokens != []
    ensures InOrder(tokens[..|tokens| - 1]) && tokens[|tokens| - 1].start < tokens[|tokens| - 1].end
    ensures forall u :: u in tokens[..|tokens| - 1] ==> u.end <= tokens[|tokens| - 1].start
  {}

  lemma {:induction false} WithinOrder(tokens: seq<Span>, start: nat, end: nat)
    requires InOrder(tokens)
    ensures InOrder(TokensWithin(tokens, start, end))
  {
    if tokens != [] {
      hide InOrder;
      var init, t := tokens[..|tokens| - 1], tokens[|tokens| - 1];
      OrderLess(tokens);
      WithinOrder(init, start, end);
      WithinTokens(init, start, end);
      if start <= t.start < end {
        OrderMore(TokensWithin(init, start, end), t);
      }
    }
  }

  /** In text order the open chunk starts before block `i`, or with it. */
  lemma OpenBefore(c: Call, i: nat, s: State)
    requires c.Valid() && Inv(c, i, s) && i < |c.blocks| && c.Ordered()
    ensures s.curFirst < i ==> s.curStart < c.blocks[i].start
    ensures s.curFirst == i > 0 ==> s.curStart == c.blocks[i].start
    ensures i == 0 ==> s.curStart == 0 && s.curTokens == 0
  {
    hide Chain;
    if s.curFirst < i {
      assert c.End(s.curFirst) <= c.blocks[i].start;
    }
  }

  /** The pieces of an oversized block fill the gap to the next one. */
  lemma Splits(c: Call, i: nat)
    requires c.Valid() && i < |c.blocks| && c.Ordered()
    ensures Splittable(TokensWithin(c.tokens, c.blocks[i].start, c.End(i)), c.blocks[i].start, c.StartOf(i + 1))
  {
    WithinOrder(c.tokens, c.blocks[i].start, c.End(i));
    WithinTokens(c.tokens, c.blocks[i].start, c.End(i));
    if i + 1 < |c.blocks| {
      assert c.End(i) <= c.blocks[i + 1].start;
    }
  }

  /** Closing before block `i` and splitting it. */
  method SplitStep(c: Call, i: nat, s: State) returns (r: Result<State>)
    requires c.Valid() && i < |c.blocks| && Inv(c, i, s) && c.BlockTokens(i) > c.cap
    ensures r.Refused? <==> i == 0 && s.curStart < c.blocks[0].start
    ensures r.Ok? ==> Inv(c, i + 1, r.value)
  {
    hide TokensWithin, Chain, SoloPieces, Splittable;
    var block, next, plans := c.blocks[i], c.StartOf(i + 1), s.plans;
    if c.Ordered() {
      OpenBefore(c, i, s);
    }
    if s.curStart < block.start {
      if i == 0 {
        return Refused;
      }
      CloseKeeps(c, i, s);
      plans := Close(c, i, s).plans;
    }
    var pieces := SplitBlock(TokensWithin(c.tokens, block.start, c.End(i)), c.cap, block.start, next);
    if c.Ordered() {
      Splits(c, i);
      ChainJoin(plans, pieces, 0, block.start, next);
    }
    SoloIsAttributed(c, plans, pieces);
    return Ok(State(plans + pieces, next, i + 1, 0));
  }

  lemma SoloIsAttributed(c: Call, plans: seq<Plan>, pieces: seq<Plan>)
    requires SoloPieces(pieces) && forall p :: p in plans ==> c.Attributed(p) && p.span.start < p.span.end
    ensures forall p :: p in plans + pieces ==> c.Attributed(p) && p.span.start < p.span.end
    ensures (forall p :: p in plans ==> c.WithinBudget(p)) ==> forall p :: p in plans + pieces ==> c.WithinBudget(p)
  {}

  /** One block of the loop. The index of the chunk's last block runs below zero
      exactly when text precedes a first block that must be closed off. */
  method StepBlock(c: Call, i: nat, s: State) returns (r: Result<State>)
    requires c.Valid() && i < |c.blocks| && Inv(c, i, s)
    ensures r.Refused? <==> i == 0 && c.blocks[0].start > 0 && c.BlockTokens(0) > Min(c.target, c.cap)
    ensures r.Ok? ==> Inv(c, i + 1, r.value)
  {
    hide TokensWithin, Chain;
    var block, tokens := c.blocks[i], c.BlockTokens(i);
    if tokens > c.cap {
      r := SplitStep(c, i, s);
    } else if s.curTokens + tokens > c.target && s.curStart < block.start {
      if i == 0 {
        return Refused;
      }
      CloseKeeps(c, i, s);
      assert c.Total(i, i) == 0;
      return Ok(State(Close(c, i, s).plans, block.start, i, tokens));
    } else {
      if c.Ordered() {
        OpenBefore(c, i, s);
      }
      return Ok(s.(curTokens := s.curTokens + tokens));
    }
  }

  /** The planner. It fails exactly when text precedes a first block with more
      tokens than the smaller limit; otherwise every packed chunk spans its own
      blocks, the chunks cut the whole text when sentences and tokens come in
      text order or when no block is over the cap, and in text order packed
      chunks keep to the target. */
  method PlanChunks(textLen: nat, sentences: seq<Span>, tokens: seq<Span>, targetTokens: nat, hardCap: nat)
    returns (r: Result<seq<Plan>>)
    ensures var c := CallOf(textLen, sentences, tokens, targetTokens, hardCap);
            && (r.Refused? <==> c.blocks != [] && c.blocks[0].start > 0 && c.BlockTokens(0) > Min(c.target, c.cap))
            && (r.Ok? ==> forall p :: p in r.value ==> c.Attributed(p) && p.span.start < p.span.end)
            && (r.Ok? && (c.Ordered() || c.NoneOversized()) ==> Chain(r.value, 0, textLen))
            && (r.Ok? && c.Ordered() ==> forall p :: p in r.value ==> c.WithinBudget(p))
  {
    var call := CallOf(textLen, sentences, tokens, targetTokens, hardCap);
    if textLen == 0 {
      NoneKept(sentences);
      return Ok([]);
    }
    forall i | 0 <= i < |call.blocks| ensures call.blocks[i].start < Min(call.blocks[i].end, textLen) {
      KeptInside(sentences, textLen, i);
    }
    hide Kept, TokensWithin;
    var s := State([], 0, 0, 0);
    for i := 0 to |call.blocks|
      invariant Inv(call, i, s)
      invariant i > 0 ==> !(call.blocks[0].start > 0 && call.BlockTokens(0) > Min(call.target, call.cap))
    {
      hide Inv;
      var step := StepBlock(call, i, s);
      if step.Refused? {
        return Refused;
      }
      s := step.value;
    }
    var plans := s.plans;
    if s.curStart < textLen {
      if call.blocks == [] {
        ChainMore([], 0, 0, textLen, SoloPiece);
        plans := [Plan(Span(s.curStart, textLen), SoloPiece)];
      } else {
        CloseKeeps(call, |call.blocks|, s);
        plans := Close(call, |call.blocks|, s).plans;
      }
    }
    r := Ok(plans);
  }

  lemma {:induction false} NoneKept(sentences: seq<Span>)
    ensures Kept(sentences, 0) == []
  {
    if sentences != [] {
      NoneKept(sentences[..|sentences| - 1]);
    }
  }

  /** A first block after leading text, over the target: the planner fails. */
  lemma LeadingTextFails()
    ensures var c := Call([Span(2, 9)], [Span(2, 4), Span(5, 9)], 9, 1, 100);
            c.Valid() && c.Ordered() && c.blocks[0].start > 0 && c.BlockTokens(0) > Min(c.target, c.cap)
  {}

  // ----- which sentences the block indices name -----

  /** The positions of the sentences that became blocks. */
  function Places(sentences: seq<Span>, textLen: nat): seq<nat> {
    if sentences == [] then []
    else
      var n := |sentences| - 1;
      Places(sentences[..n], textLen) + if Covering(sentences[n], textLen) then [n] else []
  }

  /** Block `i` is the sentence at its place; places ascend and never fall behind. */
  lemma {:induction false} BlockPlaces(sentences: seq<Span>, textLen: nat, i: nat)
    requires i < |Kept(sentences, textLen)|
    ensures |Places(sentences, textLen)| == |Kept(sentences, textLen)|
    ensures var at := Places(sentences, textLen)[i];
            && i <= at < |sentences| && Covering(sentences[at], textLen)
            && Kept(sentences, textLen)[i] == sentences[at]
    ensures Places(sentences, textLen)[i] == i <==> forall a :: 0 <= a <= i < |sentences| ==> Covering(sentences[a], textLen)
  {
    hide Covering;
    var n := |sentences| - 1;
    var init := sentences[..n];
    PlacesCount(sentences, textLen);
    PlacesCount(init, textLen);
    KeptStep(sentences, textLen);
    if i < |Kept(init, textLen)| {
      BlockPlaces(init, textLen, i);
      assert forall a :: 0 <= a < n ==> init[a] == sentences[a];
    } else if i == n {
      AllPlaced(init, textLen);
    } else if forall a :: 0 <= a <= i ==> Covering(sentences[a], textLen) {
      KeptAtLeast(init, textLen, i + 1);
    }
  }

  lemma KeptStep(sentences: seq<Span>, textLen: nat)
    requires sentences != []
    ensures var n := |sentences| - 1;
            Kept(sentences, textLen) ==
            Kept(sentences[..n], textLen) + if Covering(sentences[n], textLen) then [sentences[n]] else []
  {}

  lemma {:induction false} PlacesCount(sentences: seq<Span>, textLen: nat)
    ensures |Places(sentences, textLen)| == |Kept(sentences, textLen)| <= |sentences|
  {
    if sentences != [] {
      PlacesCount(sentences[..|sentences| - 1], textLen);
      KeptStep(sentences, textLen);
    }
  }

  lemma {:induction false} AllPlaced(sentences: seq<Span>, textLen: nat)
    requires |Kept(sentences, textLen)| == |sentences|
    ensures forall a :: 0 <= a < |sentences| ==> Covering(sentences[a], textLen)
  {
    if sentences != [] {
      hide Covering;
      var init := sentences[..|sentences| - 1];
      KeptStep(sentences, textLen);
      PlacesCount(init, textLen);
      AllPlaced(init, textLen);
      assert forall a :: 0 <= a < |init| ==> init[a] == sentences[a];
    }
  }

  lemma {:induction false} KeptAtLeast(sentences: seq<Span>, textLen: nat, m: nat)
    requires m <= |sentences| && forall a :: 0 <= a < m ==> Covering(sentences[a], textLen)
    ensures |Kept(sentences, textLen)| >= m
  {
    if m > 0 {
      hide Covering;
      var n := |sentences| - 1;
      KeptStep(sentences, textLen);
      KeptAtLeast(sentences[..n], textLen, if m <= n then m else n);
    }
  }

  /** A dropped sentence comes before one that is kept. */
  ghost predicate DroppedBeforeKept(sentences: seq<Span>, textLen: nat) {
    exists a, b :: 0 <= a < b < |sentences| && !Covering(sentences[a], textLen) && Covering(sentences[b], textLen)
  }

  /** Every block index is the position of its sentence exactly when no dropped
      sentence precedes a kept one. */
  lemma IndicesNameSentences(sentences: seq<Span>, textLen: nat)
    ensures (forall i :: 0 <= i < |Places(sentences, textLen)| ==> Places(sentences, textLen)[i] == i) <==>
            !DroppedBeforeKept(sentences, textLen)
  {
    hide Covering, Kept, Places;
    PlacesCount(sentences, textLen);
    var places := Places(sentences, textLen);
    forall i | 0 <= i < |places|
      ensures i <= places[i] < |sentences| && Covering(sentences[places[i]], textLen)
      ensures places[i] == i <==> forall a :: 0 <= a <= i < |sentences| ==> Covering(sentences[a], textLen)
    {
      BlockPlaces(sentences, textLen, i);
    }
    if i :| 0 <= i < |places| && places[i] != i {
      var a :| 0 <= a <= i && !Covering(sentences[a], textLen);
      assert a < places[i];
    }
    if a, b :| 0 <= a < b < |sentences| && !Covering(sentences[a], textLen) && Covering(sentences[b], textLen) {
      var i := PlaceOf(sentences, textLen, b);
      assert places[i] == b;
    }
  }

  /** Every kept sentence is some block. */
  lemma {:induction false} PlaceOf(sentences: seq<Span>, textLen: nat, b: nat) returns (i: nat)
    requires b < |sentences| && Covering(sentences[b], textLen)
    ensures i < |Places(sentences, textLen)| && Places(sentences, textLen)[i] == b
  {
    var n := |sentences| - 1;
    if b == n {
      i := |Places(sentences[..n], textLen)|;
    } else {
      i := PlaceOf(sentences[..n], textLen, b);
    }
  }

  /** A packed chunk's block indices name its own sentences exactly when nothing up
      to its last index was dropped. */
  lemma ChunkNamesSentences(sentences: seq<Span>, textLen: nat, first: nat, last: nat)
    requires first <= last < |Places(sentences, textLen)|
    ensures (forall i :: first <= i <= last ==> Places(sentences, textLen)[i] == i) <==>
            forall a :: 0 <= a <= last < |sentences| ==> Covering(sentences[a], textLen)
  {
    hide Covering, Kept, Places;
    PlacesCount(sentences, textLen);
    var places := Places(sentences, textLen);
    BlockPlaces(sentences, textLen, last);
    if forall a :: 0 <= a <= last < |sentences| ==> Covering(sentences[a], textLen) {
      forall i | first <= i <= last ensures places[i] == i {
        BlockPlaces(sentences, textLen, i);
      }
    } else {
      assert places[last] != last;
    }
  }

  /** An empty sentence before the only other one: index 0 names the empty one. */
  lemma DroppedShifts(at: nat, s: Span, textLen: nat)
    requires Covering(s, textLen)
    ensures Kept([Span(at, at), s], textLen) == [s] && Places([Span(at, at), s], textLen) == [1]
  {
    var one, both := [Span(at, at)], [Span(at, at), s];
    assert both[..1] == one && one[..0] == [];
    KeptStep(one, textLen);
    KeptStep(both, textLen);
    assert Kept([], textLen) == [] && Places([], textLen) == [];
    assert Places(one, textLen) == Places(one[..0], textLen) + [];
    assert Places(both, textLen) == Places(both[..1], textLen) + [1];
  }

  // ----- what contiguity is for -----

  /** `skip(start)` then `take(end - start)`, both clamped to the text. */
  function SliceChars(text: string, start: nat, end: nat): string {
    if start >= |text| || end <= start then "" else if end >= |text| then text[start..] else text[start..end]
  }

  /** The test every opinion must pass before it is written. */
  predicate IsContiguous(text: string, spans: seq<Span>) {
    if spans == [] then text == ""
    else
      && spans[0].start == 0 && spans[|spans| - 1].end == |text|
      && forall i :: 0 < i < |spans| ==> spans[i - 1].end == spans[i].start
  }

  function SpansOf(plans: seq<Plan>): (r: seq<Span>)
    ensures |r| == |plans| && forall i :: 0 <= i < |plans| ==> r[i] == plans[i].span
  {
    seq(|plans|, i requires 0 <= i < |plans| => plans[i].span)
  }

  lemma {:induction false} ChainLinks(plans: seq<Plan>, lo: nat, hi: nat)
    requires forall p :: p in plans ==> p.span.start < p.span.end
    ensures Chain(plans, lo, hi) <==>
            if plans == [] then lo == hi
            else plans[0].span.start == lo && plans[|plans| - 1].span.end == hi &&
                 forall i :: 0 < i < |plans| ==> plans[i - 1].span.end == plans[i].span.start
  {
    if plans != [] {
      var n := |plans| - 1;
      assert plans[n] in plans;
      ChainLinks(plans[..n], lo, plans[n].span.start);
    }
  }

  /** The test passes exactly on chains over the whole text. */
  lemma ContiguousIsChain(text: string, plans: seq<Plan>)
    requires forall p :: p in plans ==> p.span.start < p.span.end
    ensures IsContiguous(text, SpansOf(plans)) <==> Chain(plans, 0, |text|)
  {
    ChainLinks(plans, 0, |text|);
    var spans := SpansOf(plans);
    assert (forall i :: 0 < i < |spans| ==> spans[i - 1].end == spans[i].start) <==>
           forall i :: 0 < i < |plans| ==> plans[i - 1].span.end == plans[i].span.start;
  }

  /** The slices of the first `n` spans, in order. */
  function Slices(text: string, spans: seq<Span>, n: nat): string
    requires n <= |spans|
  {
    if n == 0 then "" else Slices(text, spans, n - 1) + SliceChars(text, spans[n - 1].start, spans[n - 1].end)
  }

  lemma {:induction false} SlicesPrefix(text: string, spans: seq<Span>, n: nat)
    requires IsContiguous(text, spans) && 0 < n <= |spans| && forall i :: 0 <= i < |spans| ==> spans[i].start < spans[i].end
    ensures spans[n - 1].end <= |text| && Slices(text, spans, n) == text[..spans[n - 1].end]
  {
    EndsAscend(spans, n - 1, |spans| - 1);
    var last := spans[n - 1];
    hide SliceChars;
    if n > 1 {
      SlicesPrefix(text, spans, n - 1);
    } else {
      assert Slices(text, spans, 0) == "" == text[..0];
    }
    SliceStep(text, last.start, last.end);
  }

  lemma SliceStep(text: string, a: nat, b: nat)
    requires a < b <= |text|
    ensures text[..a] + SliceChars(text, a, b) == text[..b]
  {}

  lemma {:induction false} EndsAscend(spans: seq<Span>, i: nat, j: nat)
    requires i <= j < |spans| && forall k :: 0 <= k < |spans| ==> spans[k].start < spans[k].end
    requires forall k :: 0 < k < |spans| ==> spans[k - 1].end == spans[k].start
    ensures spans[i].end <= spans[j].end
    decreases j - i
  {
    if i < j {
      EndsAscend(spans, i, j - 1);
    }
  }

  /** Contiguous non-empty spans give back the text, character for character. */
  lemma Restores(text: string, spans: seq<Span>)
    requires IsContiguous(text, spans) && forall i :: 0 <= i < |spans| ==> spans[i].start < spans[i].end
    ensures Slices(text, spans, |spans|) == text
  {
    if spans != [] {
      SlicesPrefix(text, spans, |spans|);
    }
  }
}
