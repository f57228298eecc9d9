/** Distributed top-k with shared floors (src/coordinator.rs, src/merge.rs). */
module FloorSharing {
  // Every shard stream scans its rows chunk by chunk and publishes its k-th best
  // once it holds `k` rows; the coordinator keeps the highest floor it has seen
  // and relays it to the streams. Messages may be delayed, reordered, repeated or
  // lost, streams may fail, and a shard with a replica may be attempted twice.
  // The theorem is that the merged answer is the global top `k`.

  import opened Options
  import opened Ranking
  import opened ChunkScan

  /** One `SearchShard` stream, primary or hedge: how many rows it has scanned,
      its running best, the newest floor delivered to it, and whether it has not
      failed. */
  datatype Stream = Stream(shard: nat, pos: nat, heap: seq<Hit>, floor: Option<int>, alive: bool)

  /** `published` holds every floor a stream has sent, `relayed` every value the
      tracker has broadcast. */
  datatype State = State(streams: seq<Stream>, published: set<int>, tracker: Option<int>, relayed: set<int>)

  datatype Step =
    | Open(shard: nat)
    | Scan(stream: nat, rows: nat)
    | Publish(stream: nat)
    | Observe(floor: int)
    | Deliver(stream: nat, floor: int)
    | Fail(stream: nat)

  datatype Fleet = Fleet(shards: seq<seq<Hit>>, replicated: set<nat>, k: nat) {
    ghost function Rows(): seq<Hit> {
      Flatten(shards)
    }

    /** Global ids are unique. */
    ghost predicate Valid() {
      Distinct(Rows())
    }
  }

  /** `FloorTracker::observe`: a raise answers the new maximum. */
  function Raise(tracker: Option<int>, floor: int): Option<int> {
    if tracker.Some? && floor <= tracker.value then None else Some(floor)
  }

  function Update(s: State, i: nat, stream: Stream): State
    requires i < |s.streams|
  {
    s.(streams := s.streams[i := stream])
  }

  ghost function Initial(): State {
    State([], {}, None, {})
  }

  /** A primary, and one replica where there is one. */
  function Attempts(fleet: Fleet, shard: nat): nat {
    if shard in fleet.replicated then 2 else 1
  }

  /** The streams opened for a shard. */
  ghost function AttemptsAt(streams: seq<Stream>, shard: nat): set<nat> {
    set i: nat | i < |streams| && streams[i].shard == shard
  }

  ghost predicate Next(fleet: Fleet, s: State, step: Step, s': State) {
    match step
    case Open(shard) =>
      && shard < |fleet.shards| && |AttemptsAt(s.streams, shard)| < Attempts(fleet, shard)
      && s' == s.(streams := s.streams + [Stream(shard, 0, [], None, true)])
    case Scan(i, rows) =>
      && i < |s.streams| && s.streams[i].alive && s.streams[i].shard < |fleet.shards|
      && var st := s.streams[i];
         var shard := fleet.shards[st.shard];
         && st.pos + rows <= |shard|
         && s' == Update(s, i, st.(pos := st.pos + rows, heap := ChunkStep(st.heap, shard[st.pos..st.pos + rows], st.floor, fleet.k)))
    case Publish(i) =>
      && i < |s.streams| && s.streams[i].alive && fleet.k > 0 && |s.streams[i].heap| >= fleet.k
      && s' == s.(published := s.published + {s.streams[i].heap[fleet.k - 1].score})
    case Observe(floor) =>
      && floor in s.published
      && s' == if Raise(s.tracker, floor).None? then s
               else s.(tracker := Some(floor), relayed := s.relayed + {floor})
    case Deliver(i, floor) =>
      && i < |s.streams| && floor in s.relayed
      && s' == Update(s, i, s.streams[i].(floor := Some(floor)))
    case Fail(i) =>
      && i < |s.streams| && s' == Update(s, i, s.streams[i].(alive := false))
  }

  // ----- the invariant -----

  /** `w` is at least `k` rows of the fleet that score `floor` or more. */
  ghost predicate Backs(fleet: Fleet, w: seq<Hit>, floor: int) {
    multiset(w) <= multiset(fleet.Rows()) && |w| >= fleet.k && forall i :: 0 <= i < |w| ==> w[i].score >= floor
  }

  ghost predicate Sound(fleet: Fleet, floor: int) {
    exists w :: Backs(fleet, w, floor)
  }

  /** No row of the global top `k` among `seen` is missing from `heap`. */
  ghost predicate KeepsWinners(fleet: Fleet, seen: seq<Hit>, heap: seq<Hit>) {
    forall x :: x in seen && x in TopK(fleet.Rows(), fleet.k) ==> x in heap
  }

  /** A stream never drops a row of the global top `k`. */
  ghost predicate StreamOk(fleet: Fleet, st: Stream) {
    && st.shard < |fleet.shards|
    && st.pos <= |fleet.shards[st.shard]|
    && multiset(st.heap) <= multiset(fleet.shards[st.shard][..st.pos])
    && |st.heap| <= fleet.k
    && Sorted(st.heap)
    && KeepsWinners(fleet, fleet.shards[st.shard][..st.pos], st.heap)
    && (st.floor.Some? ==> Sound(fleet, st.floor.value))
  }

  ghost predicate Inv(fleet: Fleet, s: State) {
    && (forall i :: 0 <= i < |s.streams| ==> StreamOk(fleet, s.streams[i]))
    && (forall f :: f in s.published ==> Sound(fleet, f))
    && s.relayed <= s.published
    && (s.tracker.Some? ==> s.tracker.value in s.relayed && forall f :: f in s.relayed ==> f <= s.tracker.value)
    && (s.tracker.None? ==> s.relayed == {})
  }

  lemma {:induction false} ShardBag(shards: seq<seq<Hit>>, i: nat)
    requires i < |shards|
    ensures multiset(shards[i]) <= multiset(Flatten(shards))
  {
    var init, last := shards[..|shards| - 1], shards[|shards| - 1];
    assert multiset(Flatten(shards)) == multiset(Flatten(init)) + multiset(last);
    if i < |shards| - 1 {
      ShardBag(init, i);
    }
  }

  /** Searching a chunk above a sound floor loses no global winner. */
  lemma ScanKeepsWinners(fleet: Fleet, heap: seq<Hit>, done: seq<Hit>, chunk: seq<Hit>, floor: Option<int>, x: Hit)
    requires multiset(heap) <= multiset(done) && multiset(done + chunk) <= multiset(fleet.Rows())
    requires floor.Some? ==> Sound(fleet, floor.value)
    requires x in TopK(fleet.Rows(), fleet.k) && (x in chunk || x in heap)
    ensures x in ChunkStep(heap, chunk, floor, fleet.k)
  {
    hide Sort, AtOrAbove, TopK;
    var part := heap + AtOrAbove(chunk, floor);
    FloorSplits(chunk, floor);
    assert multiset(part) <= multiset(fleet.Rows());
    if floor.Some? {
      var w: seq<Hit> :| Backs(fleet, w, floor.value);
      TopKAboveFloor(fleet.Rows(), fleet.k, w, floor.value);
    }
    AtOrAboveMember(chunk, floor, x);
    assert x in part;
    TopKInPart(part, fleet.Rows(), fleet.k, x);
  }

  lemma ChunkStepBag(heap: seq<Hit>, done: seq<Hit>, chunk: seq<Hit>, floor: Option<int>, k: nat)
    requires multiset(heap) <= multiset(done)
    ensures multiset(ChunkStep(heap, chunk, floor, k)) <= multiset(done + chunk)
    ensures |ChunkStep(heap, chunk, floor, k)| <= k && Sorted(ChunkStep(heap, chunk, floor, k))
  {
    hide TopK, AtOrAbove, Sorted;
    TopKSize(heap + AtOrAbove(chunk, floor), k);
    FloorSplits(chunk, floor);
  }

  lemma ScanKeepsAll(fleet: Fleet, heap: seq<Hit>, done: seq<Hit>, chunk: seq<Hit>, floor: Option<int>)
    requires multiset(heap) <= multiset(done) && multiset(done + chunk) <= multiset(fleet.Rows())
    requires (floor.Some? ==> Sound(fleet, floor.value)) && KeepsWinners(fleet, done, heap)
    ensures KeepsWinners(fleet, done + chunk, ChunkStep(heap, chunk, floor, fleet.k))
  {
    hide TopK, ChunkStep, Sound, Flatten;
    forall x | x in done + chunk && x in TopK(fleet.Rows(), fleet.k)
      ensures x in ChunkStep(heap, chunk, floor, fleet.k)
    {
      ScanKeepsWinners(fleet, heap, done, chunk, floor, x);
    }
  }

  lemma ScanStepOk(fleet: Fleet, st: Stream, rows: nat)
    requires StreamOk(fleet, st) && st.pos + rows <= |fleet.shards[st.shard]|
    ensures StreamOk(fleet, st.(pos := st.pos + rows,
                                heap := ChunkStep(st.heap, fleet.shards[st.shard][st.pos..st.pos + rows], st.floor, fleet.k)))
  {
    hide TopK, ChunkStep, Sound, Flatten, Sorted, KeepsWinners;
    var shard := fleet.shards[st.shard];
    var done, chunk := shard[..st.pos], shard[st.pos..st.pos + rows];
    assert shard[..st.pos + rows] == done + chunk;
    TakeBag(shard, st.pos + rows);
    ShardBag(fleet.shards, st.shard);
    ChunkStepBag(st.heap, done, chunk, st.floor, fleet.k);
    ScanKeepsAll(fleet, st.heap, done, chunk, st.floor);
  }

  lemma LastIsLeast(heap: seq<Hit>)
    requires Sorted(heap) && heap != []
    ensures forall i :: 0 <= i < |heap| ==> heap[i].score >= heap[|heap| - 1].score
  {
    forall i | 0 <= i < |heap| - 1 ensures heap[i].score >= heap[|heap| - 1].score {
      assert !Before(heap[|heap| - 1], heap[i]);
    }
  }

  lemma PublishSound(fleet: Fleet, st: Stream)
    requires StreamOk(fleet, st) && fleet.k > 0 && |st.heap| >= fleet.k
    ensures Sound(fleet, st.heap[fleet.k - 1].score)
  {
    hide Sorted, KeepsWinners, Flatten;
    TakeBag(fleet.shards[st.shard], st.pos);
    ShardBag(fleet.shards, st.shard);
    LastIsLeast(st.heap);
    assert Backs(fleet, st.heap, st.heap[fleet.k - 1].score);
  }

  /** Every step of the protocol keeps the invariant. */
  lemma StepKeepsInv(fleet: Fleet, s: State, step: Step, s': State)
    requires Inv(fleet, s) && Next(fleet, s, step, s')
    ensures Inv(fleet, s')
  {
    hide StreamOk, Sound, ChunkStep;
    match step
    case Open(shard) =>
      OpenOk(fleet, shard);
    case Scan(i, rows) =>
      StreamBounds(fleet, s.streams[i]);
      ScanStepOk(fleet, s.streams[i], rows);
    case Publish(i) =>
      PublishSound(fleet, s.streams[i]);
    case Observe(floor) =>
    case Deliver(i, floor) =>
      DeliverOk(fleet, s.streams[i], floor);
    case Fail(i) =>
      FailOk(fleet, s.streams[i]);
  }

  lemma OpenOk(fleet: Fleet, shard: nat)
    requires shard < |fleet.shards|
    ensures StreamOk(fleet, Stream(shard, 0, [], None, true))
  {}

  lemma StreamBounds(fleet: Fleet, st: Stream)
    requires StreamOk(fleet, st)
    ensures st.shard < |fleet.shards| && st.pos <= |fleet.shards[st.shard]|
  {}

  lemma DeliverOk(fleet: Fleet, st: Stream, floor: int)
    requires StreamOk(fleet, st) && Sound(fleet, floor)
    ensures StreamOk(fleet, st.(floor := Some(floor)))
  {}

  lemma FailOk(fleet: Fleet, st: Stream)
    requires StreamOk(fleet, st)
    ensures StreamOk(fleet, st.(alive := false))
  {}

  // ----- runs -----

  ghost predicate Run(fleet: Fleet, states: seq<State>, steps: seq<Step>) {
    && |states| == |steps| + 1
    && states[0] == Initial()
    && forall i :: 0 <= i < |steps| ==> Next(fleet, states[i], steps[i], states[i + 1])
  }

  lemma {:induction false} RunInv(fleet: Fleet, states: seq<State>, steps: seq<Step>, n: nat)
    requires Run(fleet, states, steps) && n < |states|
    ensures Inv(fleet, states[n])
  {
    if n > 0 {
      RunInv(fleet, states, steps, n - 1);
      StepKeepsInv(fleet, states[n - 1], steps[n - 1], states[n]);
    }
  }

  /** The first shards have a finished stream each. */
  ghost predicate FinishedTo(fleet: Fleet, s: State, winners: seq<nat>) {
    && |winners| <= |fleet.shards|
    && forall j :: 0 <= j < |winners| ==>
         && winners[j] < |s.streams|
         && s.streams[winners[j]].shard == j
         && s.streams[winners[j]].pos == |fleet.shards[j]|
  }

  /** One finished stream per shard, whichever attempt won. */
  ghost predicate Finished(fleet: Fleet, s: State, winners: seq<nat>) {
    |winners| == |fleet.shards| && FinishedTo(fleet, s, winners)
  }

  ghost predicate Live(s: State, winners: seq<nat>) {
    forall j :: 0 <= j < |winners| ==> winners[j] < |s.streams| && s.streams[winners[j]].alive
  }

  ghost function Answers(s: State, winners: seq<nat>): seq<seq<Hit>>
    requires forall j :: 0 <= j < |winners| ==> winners[j] < |s.streams|
  {
    seq(|winners|, j requires 0 <= j < |winners| => s.streams[winners[j]].heap)
  }

  /** `merge_topk`: the shard lists joined, sorted and cut to `k`. */
  function MergeTopK(lists: seq<seq<Hit>>, k: nat): seq<Hit> {
    TopK(Flatten(lists), k)
  }

  lemma {:induction false} FlattenBag(parts: seq<seq<Hit>>, wholes: seq<seq<Hit>>)
    requires |parts| == |wholes| && forall j :: 0 <= j < |parts| ==> multiset(parts[j]) <= multiset(wholes[j])
    ensures multiset(Flatten(parts)) <= multiset(Flatten(wholes))
  {
    if parts != [] {
      FlattenBag(parts[..|parts| - 1], wholes[..|wholes| - 1]);
    }
  }

  /** Floor sharing is lossless: in every run, whatever was delayed, reordered,
      repeated or lost and whichever attempt finished each shard first, the
      merged answer is the top `k` of the whole fleet. */
  lemma Lossless(fleet: Fleet, states: seq<State>, steps: seq<Step>, n: nat, winners: seq<nat>)
    requires fleet.Valid() && Run(fleet, states, steps) && n < |states| && Finished(fleet, states[n], winners)
    ensures MergeTopK(Answers(states[n], winners), fleet.k) == TopK(fleet.Rows(), fleet.k)
  {
    hide Sort, TopK, Run, Sound, Distinct;
    RunInv(fleet, states, steps, n);
    var s, rows := states[n], fleet.Rows();
    var lists := Answers(s, winners);
    var best, merged := TopK(rows, fleet.k), Flatten(lists);
    forall j | 0 <= j < |lists|
      ensures multiset(lists[j]) <= multiset(fleet.shards[j])
      ensures forall x :: x in fleet.shards[j] && x in best ==> x in lists[j]
    {
      var st := s.streams[winners[j]];
      assert StreamOk(fleet, st);
      assert fleet.shards[j][..st.pos] == fleet.shards[j];
    }
    FlattenBag(lists, fleet.shards);
    TopKSize(rows, fleet.k);
    forall x | x in best ensures x in merged {
      assert x in multiset(best) && x in multiset(rows);
      FlattenMember(fleet.shards, x);
      FlattenMember(lists, x);
    }
    DistinctPart(best, merged, rows);
    TopKOfPart(merged, rows, fleet.k);
  }

  lemma ExtendRun(fleet: Fleet, states: seq<State>, steps: seq<Step>, step: Step, s': State)
    requires Run(fleet, states, steps) && Next(fleet, states[|steps|], step, s')
    ensures Run(fleet, states + [s'], steps + [step])
  {
    hide Next;
    var states', steps' := states + [s'], steps + [step];
    forall i | 0 <= i < |steps'| ensures Next(fleet, states'[i], steps'[i], states'[i + 1]) {
      assert i < |steps| ==> steps'[i] == steps[i] && states'[i] == states[i] && states'[i + 1] == states[i + 1];
    }
  }

  /** Every attempt a shard has was made, and failed. */
  ghost predicate Exhausted(fleet: Fleet, s: State, shard: nat) {
    && |AttemptsAt(s.streams, shard)| >= Attempts(fleet, shard)
    && forall i :: 0 <= i < |s.streams| && s.streams[i].shard == shard ==> !s.streams[i].alive
  }

  /** The shards from `lo` on can still answer. */
  ghost predicate Hopeful(fleet: Fleet, s: State, lo: nat) {
    forall j :: lo <= j < |fleet.shards| ==> !Exhausted(fleet, s, j)
  }

  /** A shard without a live stream gets one. */
  lemma OpenShard(fleet: Fleet, states: seq<State>, steps: seq<Step>, winners: seq<nat>)
    returns (states': seq<State>, steps': seq<Step>, stream: nat)
    requires Run(fleet, states, steps) && FinishedTo(fleet, states[|steps|], winners) && Live(states[|steps|], winners) && |winners| < |fleet.shards|
    requires Hopeful(fleet, states[|steps|], |winners|)
    ensures Run(fleet, states', steps') && states <= states'
    ensures FinishedTo(fleet, states'[|steps'|], winners) && Live(states'[|steps'|], winners)
    ensures var s := states'[|steps'|]; stream < |s.streams| && s.streams[stream].alive && s.streams[stream].shard == |winners|
    ensures Hopeful(fleet, states'[|steps'|], |winners| + 1)
  {
    hide Run, AttemptsAt;
    assert |states| == |steps| + 1 by { RunLength(fleet, states, steps); }
    var s, j := states[|steps|], |winners|;
    if i: nat :| i < |s.streams| && s.streams[i].shard == j && s.streams[i].alive {
      return states, steps, i;
    }
    assert !Exhausted(fleet, s, j);
    var st := Stream(j, 0, [], None, true);
    var ready := s.(streams := s.streams + [st]);
    ExtendRun(fleet, states, steps, Open(j), ready);
    forall other | j < other < |fleet.shards| ensures !Exhausted(fleet, ready, other) {
      assert !Exhausted(fleet, s, other);
      OpenAttempts(s.streams, st, other);
      OtherAlive(s.streams, s.streams + [st], other);
    }
    return states + [ready], steps + [Open(j)], |s.streams|;
  }

  lemma OpenAttempts(streams: seq<Stream>, st: Stream, shard: nat)
    requires st.shard != shard
    ensures AttemptsAt(streams + [st], shard) == AttemptsAt(streams, shard)
  {}

  lemma OtherAlive(streams: seq<Stream>, streams': seq<Stream>, shard: nat)
    requires streams <= streams'
    ensures (exists i :: 0 <= i < |streams| && streams[i].shard == shard && streams[i].alive) ==>
              exists i :: 0 <= i < |streams'| && streams'[i].shard == shard && streams'[i].alive
  {
    if i :| 0 <= i < |streams| && streams[i].shard == shard && streams[i].alive {
      assert streams'[i] == streams[i];
    }
  }

  lemma UpdateAttempts(streams: seq<Stream>, i: nat, st: Stream, shard: nat)
    requires i < |streams| && st.shard == streams[i].shard
    ensures AttemptsAt(streams[i := st], shard) == AttemptsAt(streams, shard)
  {}

  /** The rows a stream has left finish one more shard. */
  lemma FinishShard(fleet: Fleet, states: seq<State>, steps: seq<Step>, winners: seq<nat>, i: nat)
    returns (states': seq<State>, steps': seq<Step>)
    requires Run(fleet, states, steps) && FinishedTo(fleet, states[|steps|], winners) && Live(states[|steps|], winners) && |winners| < |fleet.shards|
    requires var s := states[|steps|]; i < |s.streams| && s.streams[i].alive && s.streams[i].shard == |winners|
    requires Hopeful(fleet, states[|steps|], |winners| + 1)
    ensures Run(fleet, states', steps') && states <= states'
    ensures FinishedTo(fleet, states'[|steps'|], winners + [i]) && Live(states'[|steps'|], winners + [i])
    ensures Hopeful(fleet, states'[|steps'|], |winners| + 1)
  {
    hide Run, ChunkStep, StreamOk, Sound, AttemptsAt;
    assert |states| == |steps| + 1 by { RunLength(fleet, states, steps); }
    RunInv(fleet, states, steps, |steps|);
    var s := states[|steps|];
    var st, shard := s.streams[i], fleet.shards[|winners|];
    StreamBounds(fleet, st);
    var rows := |shard| - st.pos;
    var st' := st.(pos := st.pos + rows, heap := ChunkStep(st.heap, shard[st.pos..st.pos + rows], st.floor, fleet.k));
    var scanned := Update(s, i, st');
    ExtendRun(fleet, states, steps, Scan(i, rows), scanned);
    forall other | |winners| < other < |fleet.shards| ensures !Exhausted(fleet, scanned, other) {
      assert !Exhausted(fleet, s, other);
      UpdateAttempts(s.streams, i, st', other);
      if n :| 0 <= n < |s.streams| && s.streams[n].shard == other && s.streams[n].alive {
        assert scanned.streams[n] == s.streams[n];
      }
    }
    return states + [scanned], steps + [Scan(i, rows)];
  }

  lemma RunLength(fleet: Fleet, states: seq<State>, steps: seq<Step>)
    requires Run(fleet, states, steps)
    ensures |states| == |steps| + 1
  {}

  /** A run in which no shard is exhausted extends to one in which every shard
      has answered, with no attempt beyond those the shards have. */
  lemma Completes(fleet: Fleet, states: seq<State>, steps: seq<Step>)
    returns (states': seq<State>, steps': seq<Step>, winners: seq<nat>)
    requires Run(fleet, states, steps) && Hopeful(fleet, states[|steps|], 0)
    ensures Run(fleet, states', steps') && states <= states' && |states'| == |steps'| + 1
    ensures Finished(fleet, states'[|steps'|], winners) && Live(states'[|steps'|], winners)
  {
    hide Run, Hopeful;
    RunLength(fleet, states, steps);
    states', steps', winners := states, steps, [];
    while |winners| < |fleet.shards|
      invariant Run(fleet, states', steps') && states <= states' && |states'| == |steps'| + 1
      invariant FinishedTo(fleet, states'[|steps'|], winners) && Live(states'[|steps'|], winners)
      invariant Hopeful(fleet, states'[|steps'|], |winners|)
      decreases |fleet.shards| - |winners|
    {
      var winner;
      states', steps', winner := OpenShard(fleet, states', steps', winners);
      states', steps' := FinishShard(fleet, states', steps', winners, winner);
      RunLength(fleet, states', steps');
      winners := winners + [winner];
    }
  }

  lemma StepExhausted(fleet: Fleet, s: State, step: Step, s': State, shard: nat)
    requires Next(fleet, s, step, s') && Exhausted(fleet, s, shard)
    ensures Exhausted(fleet, s', shard)
  {
    hide AttemptsAt, ChunkStep;
    match step
    case Open(other) =>
      OpenAttempts(s.streams, s'.streams[|s.streams|], shard);
    case Scan(i, rows) =>
      UpdateAttempts(s.streams, i, s'.streams[i], shard);
    case Publish(i) =>
    case Observe(floor) =>
    case Deliver(i, floor) =>
      UpdateAttempts(s.streams, i, s'.streams[i], shard);
    case Fail(i) =>
      UpdateAttempts(s.streams, i, s'.streams[i], shard);
  }

  /** An exhausted shard never answers, so the condition of `Completes` is exact. */
  lemma {:induction false} NeverFinishes(fleet: Fleet, states: seq<State>, steps: seq<Step>, n: nat, m: nat, shard: nat,
                                         winners: seq<nat>)
    requires Run(fleet, states, steps) && n <= m < |states| && shard < |fleet.shards| && Exhausted(fleet, states[n], shard)
    ensures Exhausted(fleet, states[m], shard) && !(Finished(fleet, states[m], winners) && Live(states[m], winners))
    decreases m
  {
    hide AttemptsAt, Next;
    if n < m {
      NeverFinishes(fleet, states, steps, n, m - 1, shard, winners);
      StepExhausted(fleet, states[m - 1], steps[m - 1], states[m], shard);
    }
    if Finished(fleet, states[m], winners) {
      assert !states[m].streams[winners[shard]].alive;
    }
  }

  // ----- the tracker -----

  /** The highest floor the coordinator has seen for one query. */
  class FloorTracker {
    var current: Option<int>

    constructor ()
      ensures current == None
    {
      current := None;
    }

    /** Answers the new maximum on a raise, nothing on a stale or equal floor. */
    method ObserveFloor(floor: int) returns (raised: Option<int>)
      modifies this
      ensures raised == Raise(old(current), floor)
      ensures current == Higher(old(current), Some(floor))
    {
      if current.Some? && floor <= current.value {
        return None;
      }
      current := Some(floor);
      return Some(floor);
    }
  }
}
