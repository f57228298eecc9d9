/** The shard-side Boolean evaluator (`BooleanMembership` of src/node.rs). */
module Planner {
  // Filters are resolved only over the slots their position can still decide,
  // MUST children are resolved cheapest first, and whole subtrees are skipped once
  // a MUST chain from the root is empty. The theorem is that none of this shows in
  // the answer.

  import opened Options
  import opened Bitmaps
  import opened Counting
  import opened Groups
  import opened Plans

  type Bound = Option<set<nat>>

  datatype LeafSlot = Todo | Done(membership: set<nat>, recheck: bool)

  datatype Evaluated = Evaluated(members: set<nat>, leaves: seq<LeafSlot>, positive: seq<bool>)

  // ----- bounds -----

  /** The slots a position can still decide; no bound is the whole shard. */
  ghost function Region(bound: Bound, n: nat): set<nat> {
    if bound.None? then Universe(n) else bound.value
  }

  ghost predicate AgreeOn(a: set<nat>, b: set<nat>, region: set<nat>) {
    forall s {:trigger s in a} {:trigger s in b} :: s in region ==> (s in a <==> s in b)
  }

  predicate IsLexical(node: Node, leaves: seq<Leaf>) {
    node.LeafNode? && node.index < |leaves| && leaves[node.index].Lexical?
  }

  function NarrowBy(bound: Bound, membership: set<nat>): Bound {
    if bound.None? then Some(membership) else Some(bound.value * membership)
  }

  /** The bound beside a group's lexical MUST clauses. */
  ghost function Narrow(nodes: seq<Node>, leaves: seq<Leaf>, truths: seq<set<nat>>, bound: Bound): Bound
    requires |truths| == |leaves|
  {
    if nodes == [] then bound
    else
      var before := Narrow(nodes[..|nodes| - 1], leaves, truths, bound);
      var last := nodes[|nodes| - 1];
      if IsLexical(last, leaves) then NarrowBy(before, truths[last.index]) else before
  }

  lemma {:induction false} NarrowRegion(nodes: seq<Node>, leaves: seq<Leaf>, truths: seq<set<nat>>, bound: Bound, n: nat, s: nat)
    requires |truths| == |leaves| && s < n
    ensures s in Region(Narrow(nodes, leaves, truths, bound), n)
       <==> s in Region(bound, n) && forall c :: 0 <= c < |nodes| && IsLexical(nodes[c], leaves) ==> s in truths[nodes[c].index]
  {
    assert IsSlot(s, n);
    if nodes != [] {
      var init := nodes[..|nodes| - 1];
      NarrowRegion(init, leaves, truths, bound, n, s);
      assert forall c :: 0 <= c < |init| ==> init[c] == nodes[c];
    }
  }

  lemma {:induction false} HoldingAgree(a: seq<set<nat>>, b: seq<set<nat>>, s: nat)
    requires |a| == |b| && forall k :: 0 <= k < |a| ==> (s in a[k] <==> s in b[k])
    ensures Holding(a, s) == Holding(b, s)
  {
    if a != [] {
      HoldingAgree(a[..|a| - 1], b[..|b| - 1], s);
    }
  }

  /** Children that agree with the truth where their position can decide give a
      group that does: MUST children only have to agree inside the lexical
      MUST memberships. */
  lemma GroupAgrees(group: Group, leaves: seq<Leaf>, truths: seq<set<nat>>, live: set<nat>, n: nat, bound: Bound,
                    must: seq<set<nat>>, should: seq<set<nat>>, mustNot: seq<set<nat>>)
    requires |truths| == |leaves|
    requires |must| == |group.must| && |should| == |group.should| && |mustNot| == |group.mustNot|
    requires forall c {:trigger must[c]} :: 0 <= c < |must| ==>
               && AgreeOn(must[c], NodeTruth(group.must[c], truths, live, n), Region(Narrow(group.must, leaves, truths, bound), n))
               && (IsLexical(group.must[c], leaves) ==> must[c] == truths[group.must[c].index])
    requires forall c {:trigger should[c]} :: 0 <= c < |should| ==>
               AgreeOn(should[c], NodeTruth(group.should[c], truths, live, n), Region(bound, n))
    requires forall c {:trigger mustNot[c]} :: 0 <= c < |mustNot| ==>
               AgreeOn(mustNot[c], NodeTruth(group.mustNot[c], truths, live, n), Region(bound, n))
    ensures AgreeOn(GroupRule(must, should, mustNot, group.minimum, live, n), GroupTruth(group, truths, live, n), Region(bound, n))
  {
    var mustT := NodeTruths(group.must, truths, live, n);
    var shouldT := NodeTruths(group.should, truths, live, n);
    var mustNotT := NodeTruths(group.mustNot, truths, live, n);
    forall s | s in Region(bound, n) && s in Universe(n)
      ensures Admits(must, should, mustNot, group.minimum, live, s)
         <==> Admits(mustT, shouldT, mustNotT, group.minimum, live, s)
    {
      HoldingAgree(should, shouldT, s);
      assert NoneHold(mustNot, s) <==> NoneHold(mustNotT, s) by {
        forall k | 0 <= k < |mustNot| ensures s in mustNot[k] <==> s in mustNotT[k] {}
      }
      NarrowRegion(group.must, leaves, truths, bound, n, s);
      if s in Region(Narrow(group.must, leaves, truths, bound), n) {
        forall k | 0 <= k < |must| ensures s in must[k] <==> s in mustT[k] {}
      } else {
        var c :| 0 <= c < |group.must| && IsLexical(group.must[c], leaves) && s !in truths[group.must[c].index];
        assert s !in must[c] && s !in mustT[c];
      }
    }
  }

  /** A resolved MUST child: right inside the lexical MUST memberships. */
  ghost predicate ChildResolved(group: Group, leaves: seq<Leaf>, truths: seq<set<nat>>, live: set<nat>, n: nat, bound: Bound,
                                c: nat, bits: set<nat>)
    requires |truths| == |leaves|
  {
    && c < |group.must|
    && AgreeOn(bits, NodeTruth(group.must[c], truths, live, n), Region(Narrow(group.must, leaves, truths, bound), n))
    && (IsLexical(group.must[c], leaves) ==> bits == truths[group.must[c].index])
  }

  /** The fold over the first `k` MUST children of `order`: what each resolved
      to, and the running intersection. */
  ghost predicate Folded(group: Group, leaves: seq<Leaf>, truths: seq<set<nat>>, live: set<nat>, n: nat, bound: Bound,
                         order: seq<nat>, must: seq<Option<set<nat>>>, acc: Bound, seen: seq<set<nat>>)
    requires |truths| == |leaves| && |seen| <= |order|
  {
    && |must| == |group.must| && (acc.None? <==> seen == [])
    && (forall s :: acc.Some? ==> (s in acc.value <==> AllHold(seen, s)))
    && (forall j :: 0 <= j < |seen| ==>
          order[j] < |must| && must[order[j]].Some? && ChildResolved(group, leaves, truths, live, n, bound, order[j], seen[j]))
    && (forall c :: 0 <= c < |must| && must[c].Some? ==>
          ChildResolved(group, leaves, truths, live, n, bound, c, must[c].value))
  }

  lemma FoldedStep(group: Group, leaves: seq<Leaf>, truths: seq<set<nat>>, live: set<nat>, n: nat, bound: Bound,
                   order: seq<nat>, must: seq<Option<set<nat>>>, acc: Bound, seen: seq<set<nat>>, bits: set<nat>, acc': Bound)
    requires |truths| == |leaves| && |seen| < |order| && order[|seen|] < |must|
    requires Folded(group, leaves, truths, live, n, bound, order, must, acc, seen)
    requires ChildResolved(group, leaves, truths, live, n, bound, order[|seen|], bits)
    requires acc'.Some? && forall s :: s in acc'.value <==> AllHold(seen + [bits], s)
    ensures Folded(group, leaves, truths, live, n, bound, order, must[order[|seen|] := Some(bits)], acc', seen + [bits])
  {}

  ghost predicate AdmitsNothing(group: Group, truths: seq<set<nat>>, live: set<nat>, n: nat, bound: Bound) {
    GroupTruth(group, truths, live, n) !! Region(bound, n)
  }

  /** A group whose resolved MUST children share no slot admits nothing its
      position can decide. */
  lemma EmptyMustAdmitsNothing(group: Group, leaves: seq<Leaf>, truths: seq<set<nat>>, live: set<nat>, n: nat, bound: Bound,
                               resolved: seq<nat>, seen: seq<set<nat>>)
    requires |truths| == |leaves| && resolved != [] && |seen| == |resolved|
    requires forall k :: 0 <= k < |resolved| ==> ChildResolved(group, leaves, truths, live, n, bound, resolved[k], seen[k])
    requires forall s :: !AllHold(seen, s)
    ensures AdmitsNothing(group, truths, live, n, bound)
  {
    var mustT := NodeTruths(group.must, truths, live, n);
    assert ChildResolved(group, leaves, truths, live, n, bound, resolved[0], seen[0]);
    forall s | s in GroupTruth(group, truths, live, n) && s in Region(bound, n)
      ensures false
    {
      assert AllHold(mustT, s);
      forall c | 0 <= c < |group.must| && IsLexical(group.must[c], leaves)
        ensures s in truths[group.must[c].index]
      {
        assert s in mustT[c];
      }
      NarrowRegion(group.must, leaves, truths, bound, n, s);
      forall k | 0 <= k < |seen| ensures s in seen[k] {
        assert ChildResolved(group, leaves, truths, live, n, bound, resolved[k], seen[k]);
        assert s in mustT[resolved[k]];
      }
      assert AllHold(seen, s);
    }
  }

  // ----- recorded domains -----

  ghost predicate LeafRecorded(bounded: seq<Bound>, unbounded: seq<bool>, index: nat, bound: Bound) {
    && index < |bounded| && index < |unbounded|
    && (unbounded[index] || (bound.Some? && bounded[index].Some? && bound.value <= bounded[index].value))
  }

  /** Every filter position under the node has its slots in the filter's domain. */
  ghost predicate NodeRecorded(bounded: seq<Bound>, unbounded: seq<bool>, leaves: seq<Leaf>, truths: seq<set<nat>>, node: Node, bound: Bound)
    requires |truths| == |leaves|
    decreases node, 0
  {
    match node
    case LeafNode(index) => index < |leaves| && leaves[index].Filter? ==> LeafRecorded(bounded, unbounded, index, bound)
    case GroupNode(group) => GroupRecorded(bounded, unbounded, leaves, truths, group, bound)
    case NoNode => true
  }

  ghost predicate NodesRecorded(bounded: seq<Bound>, unbounded: seq<bool>, leaves: seq<Leaf>, truths: seq<set<nat>>, nodes: seq<Node>, bound: Bound)
    requires |truths| == |leaves|
    decreases nodes, 0
  {
    forall c {:trigger nodes[c]} :: 0 <= c < |nodes| ==> NodeRecorded(bounded, unbounded, leaves, truths, nodes[c], bound)
  }

  ghost predicate GroupRecorded(bounded: seq<Bound>, unbounded: seq<bool>, leaves: seq<Leaf>, truths: seq<set<nat>>, group: Group, bound: Bound)
    requires |truths| == |leaves|
    decreases group, 0
  {
    && NodesRecorded(bounded, unbounded, leaves, truths, group.must, Narrow(group.must, leaves, truths, bound))
    && NodesRecorded(bounded, unbounded, leaves, truths, group.should, bound)
    && NodesRecorded(bounded, unbounded, leaves, truths, group.mustNot, bound)
  }

  /** Later positions only widen a filter's domain. */
  ghost predicate Widens(bounded: seq<Bound>, unbounded: seq<bool>, bounded': seq<Bound>, unbounded': seq<bool>) {
    && |bounded| == |bounded'| == |unbounded| == |unbounded'|
    && forall i :: 0 <= i < |bounded| ==>
         && (unbounded[i] ==> unbounded'[i])
         && (bounded[i].Some? ==> bounded'[i].Some? && bounded[i].value <= bounded'[i].value)
  }

  lemma {:induction false} WidensKeeps(b: seq<Bound>, u: seq<bool>, b': seq<Bound>, u': seq<bool>,
                                       leaves: seq<Leaf>, truths: seq<set<nat>>, node: Node, bound: Bound)
    requires |truths| == |leaves| && Widens(b, u, b', u')
    requires NodeRecorded(b, u, leaves, truths, node, bound)
    ensures NodeRecorded(b', u', leaves, truths, node, bound)
    decreases node, 0
  {
    if node.GroupNode? {
      var group := node.group;
      WidensKeepsAll(b, u, b', u', leaves, truths, group.must, Narrow(group.must, leaves, truths, bound));
      WidensKeepsAll(b, u, b', u', leaves, truths, group.should, bound);
      WidensKeepsAll(b, u, b', u', leaves, truths, group.mustNot, bound);
    }
  }

  lemma {:induction false} WidensKeepsAll(b: seq<Bound>, u: seq<bool>, b': seq<Bound>, u': seq<bool>,
                                          leaves: seq<Leaf>, truths: seq<set<nat>>, nodes: seq<Node>, bound: Bound)
    requires |truths| == |leaves| && Widens(b, u, b', u')
    requires NodesRecorded(b, u, leaves, truths, nodes, bound)
    ensures NodesRecorded(b', u', leaves, truths, nodes, bound)
    decreases nodes, 0
  {
    forall c | 0 <= c < |nodes|
      ensures NodeRecorded(b', u', leaves, truths, nodes[c], bound)
    {
      WidensKeeps(b, u, b', u', leaves, truths, nodes[c], bound);
    }
  }

  /** Without narrowing every position is recorded as unbounded. */
  lemma {:induction false} FullScanRecords(b: seq<Bound>, u: seq<bool>, leaves: seq<Leaf>, truths: seq<set<nat>>, node: Node, bound: Bound)
    requires |truths| == |leaves| == |b| == |u| && forall i :: 0 <= i < |u| ==> u[i]
    ensures NodeRecorded(b, u, leaves, truths, node, bound)
    decreases node, 0
  {
    if node.GroupNode? {
      var group := node.group;
      FullScanRecordsAll(b, u, leaves, truths, group.must, Narrow(group.must, leaves, truths, bound));
      FullScanRecordsAll(b, u, leaves, truths, group.should, bound);
      FullScanRecordsAll(b, u, leaves, truths, group.mustNot, bound);
    }
  }

  lemma {:induction false} FullScanRecordsAll(b: seq<Bound>, u: seq<bool>, leaves: seq<Leaf>, truths: seq<set<nat>>, nodes: seq<Node>, bound: Bound)
    requires |truths| == |leaves| == |b| == |u| && forall i :: 0 <= i < |u| ==> u[i]
    ensures NodesRecorded(b, u, leaves, truths, nodes, bound)
    decreases nodes, 0
  {
    forall c | 0 <= c < |nodes|
      ensures NodeRecorded(b, u, leaves, truths, nodes[c], bound)
    {
      FullScanRecords(b, u, leaves, truths, nodes[c], bound);
    }
  }

  // ----- the evaluator -----

  class BooleanMembership {
    const leaves: seq<Leaf>
    const shard: Shard
    ghost const truths: seq<set<nat>>
    var positive: seq<bool>
    var bounded: seq<Bound>
    var unbounded: seq<bool>
    var slots: seq<LeafSlot>

    ghost predicate Shaped()
      reads this
    {
      && shard.Valid() && truths == Truths(leaves, shard)
      && |positive| == |bounded| == |unbounded| == |slots| == |leaves|
    }

    /** The lexical pre-pass: every lexical leaf resolved over the whole shard. */
    ghost predicate LexicalDone()
      requires Shaped()
      reads this
    {
      forall i {:trigger slots[i]} :: 0 <= i < |leaves| && leaves[i].Lexical? ==> slots[i] == Done(truths[i], false)
    }

    function Domain(index: nat): Bound
      requires Shaped() && index < |leaves|
      reads this
    {
      if unbounded[index] then None else bounded[index]
    }

    /** A leaf resolved over its domain. */
    ghost function ResolvedSlot(index: nat): LeafSlot
      requires Shaped() && index < |leaves|
      reads this
    {
      if leaves[index].Filter? then
        Done(truths[index] * Region(Domain(index), shard.n), Domain(index).Some? && shard.hasStore)
      else Done(truths[index], false)
    }

    /** No leaf has been short-circuited. */
    ghost predicate Exact()
      requires Shaped()
      reads this
    {
      && LexicalDone()
      && forall i {:trigger slots[i]} :: 0 <= i < |leaves| && slots[i].Done? ==> slots[i] == ResolvedSlot(i)
    }

    /** Short-circuited or not, a leaf never claims a slot it does not hold. */
    ghost predicate Sound()
      requires Shaped()
      reads this
    {
      && LexicalDone()
      && forall i {:trigger slots[i]} :: 0 <= i < |leaves| && slots[i].Done? ==> slots[i].membership <= truths[i]
    }

    constructor (leaves: seq<Leaf>, shard: Shard)
      requires shard.Valid()
      ensures this.leaves == leaves && this.shard == shard && Shaped() && Exact()
      ensures forall i :: 0 <= i < |leaves| ==> !positive[i] && (slots[i].Done? ==> leaves[i].Lexical?)
    {
      this.leaves := leaves;
      this.shard := shard;
      truths := Truths(leaves, shard);
      positive := seq(|leaves|, _ => false);
      bounded := seq(|leaves|, _ => None);
      unbounded := seq(|leaves|, _ => false);
      slots := seq(|leaves|, i requires 0 <= i < |leaves| =>
        if leaves[i].Lexical? then Done(leaves[i].postings * shard.authority, false) else Todo);
    }

    // ----- validation and positive leaves -----

    method MarkGroup(group: Group, chain: bool, depth: nat) returns (ok: bool)
      requires Shaped()
      modifies this`positive
      ensures Shaped()
      ensures ok <==> GroupOk(group, leaves, depth)
      ensures ok ==> forall i {:trigger positive[i]} :: 0 <= i < |leaves| ==>
                (positive[i] <==> old(positive)[i] || (chain && (NodesReach(group.must, i) || NodesReach(group.should, i))))
      decreases group, 0
    {
      if depth > MAX_DEPTH {
        return false;
      }
      if group.must == [] && group.should == [] && group.mustNot == [] {
        return false;
      }
      ok := MarkNodes(group.must, chain, depth);
      if ok {
        ok := MarkNodes(group.should, chain, depth);
      }
      if ok {
        ok := MarkNodes(group.mustNot, false, depth);
      }
    }

    method MarkNode(node: Node, chain: bool, depth: nat) returns (ok: bool)
      requires Shaped()
      modifies this`positive
      ensures Shaped()
      ensures ok <==> NodeOk(node, leaves, depth)
      ensures ok ==> forall i {:trigger positive[i]} :: 0 <= i < |leaves| ==>
                (positive[i] <==> old(positive)[i] || (chain && Reaches(node, i)))
      decreases node, 0
    {
      match node
      case GroupNode(child) =>
        ok := MarkGroup(child, chain, depth + 1);
      case LeafNode(index) =>
        ok := index < |leaves| && !leaves[index].NoKind?;
        if ok && chain {
          positive := positive[index := true];
        }
      case NoNode =>
        ok := false;
    }

    method MarkNodes(nodes: seq<Node>, chain: bool, depth: nat) returns (ok: bool)
      requires Shaped()
      modifies this`positive
      ensures Shaped()
      ensures ok <==> NodesOk(nodes, leaves, depth)
      ensures ok ==> forall i {:trigger positive[i]} :: 0 <= i < |leaves| ==>
                (positive[i] <==> old(positive)[i] || (chain && NodesReach(nodes, i)))
      decreases nodes, 0
    {
      for c := 0 to |nodes|
        invariant Shaped()
        invariant NodesOk(nodes[..c], leaves, depth)
        invariant forall i {:trigger positive[i]} :: 0 <= i < |leaves| ==>
                    (positive[i] <==> old(positive)[i] || (chain && NodesReach(nodes[..c], i)))
      {
        assert nodes[..c + 1] == nodes[..c] + [nodes[c]];
        var marked := MarkNode(nodes[c], chain, depth);
        if !marked {
          return false;
        }
        ReachesSnoc(nodes[..c], nodes[c]);
      }
      assert nodes[..|nodes|] == nodes;
      ok := true;
    }

    // ----- filter domains -----

    method RecordLeaf(index: nat, domain: Bound)
      requires Shaped() && index < |leaves|
      modifies this`bounded, this`unbounded
      ensures Shaped()
      ensures Widens(old(bounded), old(unbounded), bounded, unbounded)
      ensures LeafRecorded(bounded, unbounded, index, domain)
    {
      if domain.None? {
        unbounded := unbounded[index := true];
      } else if bounded[index].None? {
        bounded := bounded[index := domain];
      } else {
        bounded := bounded[index := Some(bounded[index].value + domain.value)];
      }
    }

    /** One filter or nested group at a position with the given bound. */
    method RecordNode(node: Node, bound: Bound, depth: nat)
      requires Shaped() && LexicalDone() && NodeOk(node, leaves, depth)
      modifies this`bounded, this`unbounded
      ensures Shaped() && LexicalDone()
      ensures Widens(old(bounded), old(unbounded), bounded, unbounded)
      ensures NodeRecorded(bounded, unbounded, leaves, truths, node, bound)
      decreases node, 0
    {
      match node
      case GroupNode(child) =>
        FilterLeafDomains(child, bound, depth + 1);
      case LeafNode(index) =>
        if leaves[index].Filter? {
          RecordLeaf(index, bound);
        }
    }

    method RecordNodes(nodes: seq<Node>, bound: Bound, depth: nat)
      requires Shaped() && LexicalDone() && NodesOk(nodes, leaves, depth)
      modifies this`bounded, this`unbounded
      ensures Shaped() && LexicalDone()
      ensures Widens(old(bounded), old(unbounded), bounded, unbounded)
      ensures NodesRecorded(bounded, unbounded, leaves, truths, nodes, bound)
      decreases nodes, 0
    {
      for c := 0 to |nodes|
        invariant Shaped() && LexicalDone()
        invariant Widens(old(bounded), old(unbounded), bounded, unbounded)
        invariant NodesRecorded(bounded, unbounded, leaves, truths, nodes[..c], bound)
      {
        ghost var b, u := bounded, unbounded;
        RecordNode(nodes[c], bound, depth);
        WidensKeepsAll(b, u, bounded, unbounded, leaves, truths, nodes[..c], bound);
      }
      assert nodes[..|nodes|] == nodes;
    }

    /** The bound ANDed with every lexical MUST membership. */
    method NarrowBound(nodes: seq<Node>, bound: Bound, ghost depth: nat) returns (narrowed: Bound)
      requires Shaped() && LexicalDone() && NodesOk(nodes, leaves, depth)
      ensures narrowed == Narrow(nodes, leaves, truths, bound)
    {
      narrowed := bound;
      for c := 0 to |nodes|
        invariant narrowed == Narrow(nodes[..c], leaves, truths, bound)
      {
        assert nodes[..c + 1][..c] == nodes[..c];
        if IsLexical(nodes[c], leaves) {
          narrowed := NarrowBy(narrowed, slots[nodes[c].index].membership);
        }
      }
      assert nodes[..|nodes|] == nodes;
    }

    method FilterLeafDomains(group: Group, bound: Bound, depth: nat)
      requires Shaped() && LexicalDone() && GroupOk(group, leaves, depth)
      modifies this`bounded, this`unbounded
      ensures Shaped() && LexicalDone()
      ensures Widens(old(bounded), old(unbounded), bounded, unbounded)
      ensures GroupRecorded(bounded, unbounded, leaves, truths, group, bound)
      decreases group, 0
    {
      var narrowed := NarrowBound(group.must, bound, depth);
      RecordNodes(group.must, narrowed, depth);
      ghost var b, u := bounded, unbounded;
      RecordNodes(group.should, bound, depth);
      WidensKeepsAll(b, u, bounded, unbounded, leaves, truths, group.must, narrowed);
      b, u := bounded, unbounded;
      RecordNodes(group.mustNot, bound, depth);
      WidensKeepsAll(b, u, bounded, unbounded, leaves, truths, group.must, narrowed);
      WidensKeepsAll(b, u, bounded, unbounded, leaves, truths, group.should, bound);
    }

    // ----- leaves -----

    /** The filter's membership over its domain, or over the empty domain when
        its group is already empty. A sparse domain is walked row by row; a
        dense one reads every admitted row and the AND applies the domain. */
    method ResolveFilter(index: nat, short: bool)
      requires Shaped() && index < |leaves| && leaves[index].Filter?
      modifies this`slots
      ensures Shaped()
      ensures slots == old(slots)[index := slots[index]]
      ensures slots[index] == if old(slots)[index].Done? then old(slots)[index]
                              else if short then Done({}, shard.hasStore)
                              else ResolvedSlot(index)
    {
      if slots[index].Done? {
        return;
      }
      var domain: Bound := if short then Some({}) else Domain(index);
      var membership := leaves[index].passes;
      if domain.Some? {
        if |domain.value| * 2 <= (if leaves[index].admitted == 0 then 1 else leaves[index].admitted) {
          membership := set s | s in domain.value && s in leaves[index].passes;
        }
        membership := membership * domain.value;
      }
      membership := membership * shard.authority * shard.Live();
      slots := slots[index := Done(membership, domain.Some? && shard.hasStore)];
    }

    method ResolveDense(index: nat)
      requires Shaped() && index < |leaves| && leaves[index].Dense?
      modifies this`slots
      ensures Shaped()
      ensures slots == old(slots)[index := slots[index]]
      ensures slots[index] == if old(slots)[index].Done? then old(slots)[index] else ResolvedSlot(index)
    {
      if slots[index].Todo? {
        slots := slots[index := Done(leaves[index].rows * shard.authority, false)];
      }
    }

    method SkipDense(index: nat)
      requires Shaped() && index < |leaves|
      modifies this`slots
      ensures Shaped()
      ensures slots == old(slots)[index := slots[index]]
      ensures slots[index] == if old(slots)[index].Done? then old(slots)[index] else Done({}, false)
    {
      if slots[index].Todo? {
        slots := slots[index := Done({}, false)];
      }
    }

    // ----- an already empty group -----

    method ShortNode(node: Node, depth: nat)
      requires Shaped() && Sound() && NodeOk(node, leaves, depth)
      modifies this`slots
      ensures Shaped() && Sound()
      decreases node, 0
    {
      match node
      case GroupNode(child) =>
        ShortGroup(child, depth + 1);
      case LeafNode(index) =>
        match leaves[index]
        case Lexical(_) =>
        case Dense(_) => SkipDense(index);
        case Filter(_, _) => ResolveFilter(index, true);
    }

    method ShortNodes(nodes: seq<Node>, depth: nat)
      requires Shaped() && Sound() && NodesOk(nodes, leaves, depth)
      modifies this`slots
      ensures Shaped() && Sound()
      decreases nodes, 0
    {
      for c := 0 to |nodes|
        invariant Shaped() && Sound()
      {
        ShortNode(nodes[c], depth);
      }
    }

    method ShortGroup(group: Group, depth: nat)
      requires Shaped() && Sound() && GroupOk(group, leaves, depth)
      modifies this`slots
      ensures Shaped() && Sound()
      decreases group, 0
    {
      ShortNodes(group.must, depth);
      ShortNodes(group.should, depth);
      ShortNodes(group.mustNot, depth);
    }

    /** The MUST children an empty intersection left unresolved. */
    method ShortRest(group: Group, order: seq<nat>, must: seq<Option<set<nat>>>, depth: nat)
      requires Shaped() && Sound() && NodesOk(group.must, leaves, depth) && |must| == |group.must|
      requires forall k :: 0 <= k < |order| ==> order[k] < |group.must|
      modifies this`slots
      ensures Shaped() && Sound()
      decreases group, 0
    {
      for k := 0 to |order|
        invariant Shaped() && Sound()
      {
        if must[order[k]].None? {
          ShortNode(group.must[order[k]], depth);
        }
      }
    }

    // ----- the group walk -----

    /** What resolving a node promises: the bits agree with the node's truth on
        the slots its position decides and no leaf was short-circuited; or, on a
        MUST-only path, the position admits nothing and the bits are empty. */
    ghost predicate Resolved(bits: set<nat>, truth: set<nat>, bound: Bound, onMustPath: bool)
      requires Shaped()
      reads this
    {
      || (Exact() && AgreeOn(bits, truth, Region(bound, shard.n)))
      || (onMustPath && Sound() && bits == {} && truth !! Region(bound, shard.n))
    }

    method ResolveNode(node: Node, onMustPath: bool, depth: nat, ghost bound: Bound) returns (bits: set<nat>)
      requires Shaped() && Exact() && NodeOk(node, leaves, depth)
      requires NodeRecorded(bounded, unbounded, leaves, truths, node, bound)
      modifies this`slots
      ensures Shaped()
      ensures Resolved(bits, NodeTruth(node, truths, shard.Live(), shard.n), bound, onMustPath)
      ensures IsLexical(node, leaves) ==> bits == truths[node.index]
      decreases node, 0
    {
      match node
      case GroupNode(child) =>
        bits := ResolveGroup(child, onMustPath, depth + 1, bound);
      case LeafNode(index) =>
        match leaves[index] {
          case Lexical(_) =>
          case Filter(_, _) => ResolveFilter(index, false);
          case Dense(_) => ResolveDense(index);
        }
        bits := slots[index].membership;
    }

    /** SHOULD and MUST_NOT children: never on a MUST path. */
    method ResolveNodes(nodes: seq<Node>, depth: nat, ghost bound: Bound) returns (all: seq<set<nat>>)
      requires Shaped() && Exact() && NodesOk(nodes, leaves, depth)
      requires NodesRecorded(bounded, unbounded, leaves, truths, nodes, bound)
      modifies this`slots
      ensures Shaped() && Exact() && |all| == |nodes|
      ensures forall c {:trigger all[c]} :: 0 <= c < |all| ==>
                AgreeOn(all[c], NodeTruth(nodes[c], truths, shard.Live(), shard.n), Region(bound, shard.n))
      decreases nodes, 0
    {
      all := [];
      for c := 0 to |nodes|
        invariant Shaped() && Exact() && |all| == c
        invariant forall j {:trigger all[j]} :: 0 <= j < c ==>
                    AgreeOn(all[j], NodeTruth(nodes[j], truths, shard.Live(), shard.n), Region(bound, shard.n))
      {
        var bits := ResolveNode(nodes[c], false, depth, bound);
        all := all + [bits];
      }
    }

    /** One MUST child resolved on top of the running intersection. */
    method ResolveMustChild(group: Group, c: nat, onMustPath: bool, depth: nat, acc: Bound, ghost bound: Bound,
                            ghost resolved: seq<nat>, ghost seen: seq<set<nat>>)
      returns (bits: set<nat>, folded: Bound, short: bool)
      requires Shaped() && Exact() && GroupOk(group, leaves, depth) && c < |group.must|
      requires GroupRecorded(bounded, unbounded, leaves, truths, group, bound)
      requires |seen| == |resolved| && (acc.None? <==> seen == [])
      requires forall k {:trigger seen[k]} :: 0 <= k < |seen| ==>
                 resolved[k] < |group.must| && ChildResolved(group, leaves, truths, shard.Live(), shard.n, bound, resolved[k], seen[k])
      requires forall s :: acc.Some? ==> (s in acc.value <==> AllHold(seen, s))
      modifies this`slots
      ensures Shaped()
      ensures folded.Some? && forall s :: s in folded.value <==> AllHold(seen + [bits], s)
      ensures short ==> onMustPath && Sound() && AdmitsNothing(group, truths, shard.Live(), shard.n, bound)
      ensures !short ==> Exact() && ChildResolved(group, leaves, truths, shard.Live(), shard.n, bound, c, bits)
      decreases group, 0
    {
      hide GroupTruth, NodeTruth, Narrow;
      ghost var narrowed := Narrow(group.must, leaves, truths, bound);
      bits := ResolveNode(group.must[c], onMustPath, depth, narrowed);
      folded := NarrowBy(acc, bits);
      AllHoldSnoc(seen, bits);
      short := onMustPath && folded.value == {};
      if !Exact() {
        AllHoldSnoc([], bits);
        assert [] + [bits] == [bits];
        EmptyMustAdmitsNothing(group, leaves, truths, shard.Live(), shard.n, bound, [c], [bits]);
      } else if short {
        forall s: nat ensures !AllHold(seen + [bits], s) { assert s !in folded.value; }
        EmptyMustAdmitsNothing(group, leaves, truths, shard.Live(), shard.n, bound, resolved + [c], seen + [bits]);
        ExactIsSound();
      }
    }

    lemma ExactIsSound()
      requires Shaped() && Exact()
      ensures Sound()
    {}

    /** The MUST children, cheapest class first, folding the running
        intersection; an empty intersection on a MUST-only path stops the fold. */
    method ResolveMust(group: Group, onMustPath: bool, depth: nat, ghost bound: Bound)
      returns (short: bool, must: seq<Option<set<nat>>>)
      requires Shaped() && Exact() && GroupOk(group, leaves, depth)
      requires GroupRecorded(bounded, unbounded, leaves, truths, group, bound)
      modifies this`slots
      ensures Shaped() && |must| == |group.must|
      ensures short ==> onMustPath && Sound() && AdmitsNothing(group, truths, shard.Live(), shard.n, bound)
      ensures !short ==> Exact() && forall c {:trigger must[c]} :: 0 <= c < |must| ==>
                must[c].Some? && ChildResolved(group, leaves, truths, shard.Live(), shard.n, bound, c, must[c].value)
      decreases group, 1
    {
      hide ChildResolved, AdmitsNothing, AllHold, GroupRecorded, Exact, Sound, ClassOf;
      ghost var live, n := shard.Live(), shard.n;
      var order := CheapestFirst(group.must, leaves);
      must := seq(|group.must|, _ => None);
      var acc: Bound := None;
      short := false;
      ghost var seen: seq<set<nat>> := [];
      for k := 0 to |order|
        invariant Shaped() && |must| == |group.must|
        invariant short ==> onMustPath && Sound() && AdmitsNothing(group, truths, live, n, bound)
        invariant !short ==> Exact() && |seen| == k && Folded(group, leaves, truths, live, n, bound, order, must, acc, seen)
      {
        if !short {
          ghost var before := acc;
          var bits;
          bits, acc, short := ResolveMustChild(group, order[k], onMustPath, depth, acc, bound, order[..k], seen);
          if !short {
            FoldedStep(group, leaves, truths, live, n, bound, order, must, before, seen, bits, acc);
          }
          must := must[order[k] := Some(bits)];
          seen := seen + [bits];
        }
      }
      if short {
        ShortRest(group, order, must, depth);
      } else {
        forall c | 0 <= c < |must| ensures must[c].Some? { assert c in order; }
      }
    }

    method ResolveGroup(group: Group, onMustPath: bool, depth: nat, ghost bound: Bound) returns (bits: set<nat>)
      requires Shaped() && Exact() && GroupOk(group, leaves, depth)
      requires GroupRecorded(bounded, unbounded, leaves, truths, group, bound)
      modifies this`slots
      ensures Shaped()
      ensures Resolved(bits, GroupTruth(group, truths, shard.Live(), shard.n), bound, onMustPath)
      ensures bits <= Universe(shard.n)
      decreases group, 2
    {
      var short, resolved := ResolveMust(group, onMustPath, depth, bound);
      if short {
        ShortNodes(group.should, depth);
        ShortNodes(group.mustNot, depth);
        return {};
      }
      var should := ResolveNodes(group.should, depth, bound);
      var mustNot := ResolveNodes(group.mustNot, depth, bound);
      var must := seq(|resolved|, c requires 0 <= c < |resolved| && resolved[c].Some? => resolved[c].value);
      bits := GroupRule(must, should, mustNot, group.minimum, shard.Live(), shard.n);
      GroupAgrees(group, leaves, truths, shard.Live(), shard.n, bound, must, should, mustNot);
    }

    /** A leaf the tree never references still resolves. */
    method ResolveRest(ghost members: set<nat>)
      requires Shaped() && (Exact() || (Sound() && members == {}))
      requires forall i :: 0 <= i < |leaves| ==> !leaves[i].NoKind?
      modifies this`slots
      ensures Shaped() && (Exact() || (Sound() && members == {}))
      ensures forall i :: 0 <= i < |leaves| ==> slots[i].Done?
    {
      for i := 0 to |leaves|
        invariant Shaped() && (Exact() || (Sound() && members == {}))
        invariant forall j :: 0 <= j < i ==> slots[j].Done?
      {
        match leaves[i]
        case Lexical(_) =>
        case Filter(_, _) => ResolveFilter(i, false);
        case Dense(_) => ResolveDense(i);
      }
    }
  }

  // ----- resolution order -----

  /** Lexical bits come from the pre-pass, then filters, nested groups, dense leaves. */
  function ClassOf(node: Node, leaves: seq<Leaf>): nat {
    match node
    case GroupNode(_) => 2
    case LeafNode(index) =>
      if index >= |leaves| then 3
      else (match leaves[index] case Lexical(_) => 0 case Filter(_, _) => 1 case Dense(_) => 3 case NoKind => 3)
    case NoNode => 3
  }

  /** The children of one class, in list order. */
  function OfClass(nodes: seq<Node>, leaves: seq<Leaf>, class_: nat): (r: seq<nat>)
    ensures forall k :: 0 <= k < |r| ==> r[k] < |nodes| && ClassOf(nodes[r[k]], leaves) == class_
    ensures forall j, k :: 0 <= j < k < |r| ==> r[j] < r[k]
    ensures forall c :: 0 <= c < |nodes| && ClassOf(nodes[c], leaves) == class_ ==> c in r
  {
    if nodes == [] then []
    else
      OfClass(nodes[..|nodes| - 1], leaves, class_)
      + if ClassOf(nodes[|nodes| - 1], leaves) == class_ then [|nodes| - 1] else []
  }

  /** The stable sort of the children by class: every child exactly once. */
  function CheapestFirst(nodes: seq<Node>, leaves: seq<Leaf>): (order: seq<nat>)
    ensures forall k :: 0 <= k < |order| ==> order[k] < |nodes|
    ensures forall j, k :: 0 <= j < k < |order| ==>
              ClassOf(nodes[order[j]], leaves) < ClassOf(nodes[order[k]], leaves)
              || (ClassOf(nodes[order[j]], leaves) == ClassOf(nodes[order[k]], leaves) && order[j] < order[k])
    ensures forall c :: 0 <= c < |nodes| ==> c in order
  {
    OfClass(nodes, leaves, 0) + OfClass(nodes, leaves, 1) + OfClass(nodes, leaves, 2) + OfClass(nodes, leaves, 3)
  }

  lemma AllHoldSnoc(sets: seq<set<nat>>, last: set<nat>)
    ensures forall s :: AllHold(sets + [last], s) <==> AllHold(sets, s) && s in last
  {
    forall s
      ensures AllHold(sets + [last], s) <==> AllHold(sets, s) && s in last
    {
      var all := sets + [last];
      assert all[|sets|] == last;
      assert forall k :: 0 <= k < |sets| ==> all[k] == sets[k];
    }
  }

  lemma ReachesSnoc(nodes: seq<Node>, last: Node)
    ensures forall i :: NodesReach(nodes + [last], i) <==> NodesReach(nodes, i) || Reaches(last, i)
  {
    forall i
      ensures NodesReach(nodes + [last], i) <==> NodesReach(nodes, i) || Reaches(last, i)
    {
      var all := nodes + [last];
      if NodesReach(nodes, i) {
        var c :| 0 <= c < |nodes| && Reaches(nodes[c], i);
        assert all[c] == nodes[c];
      }
      if Reaches(last, i) {
        assert all[|nodes|] == last;
      }
    }
  }

  // ----- the whole evaluation -----

  lemma {:induction false} NodeInside(node: Node, truths: seq<set<nat>>, live: set<nat>, n: nat, allowed: set<nat>)
    requires live <= allowed && Within(truths, allowed)
    ensures NodeTruth(node, truths, live, n) <= allowed
    decreases node, 0
  {
    if node.GroupNode? {
      GroupInside(node.group, truths, live, n, allowed);
    }
  }

  lemma {:induction false} GroupInside(group: Group, truths: seq<set<nat>>, live: set<nat>, n: nat, allowed: set<nat>)
    requires live <= allowed && Within(truths, allowed)
    ensures GroupTruth(group, truths, live, n) <= allowed
    decreases group, 0
  {
    var must := NodeTruths(group.must, truths, live, n);
    var should := NodeTruths(group.should, truths, live, n);
    forall c | 0 <= c < |must| ensures must[c] <= allowed { NodeInside(group.must[c], truths, live, n, allowed); }
    forall c | 0 <= c < |should| ensures should[c] <= allowed { NodeInside(group.should[c], truths, live, n, allowed); }
    MembersWithin(must, should, NodeTruths(group.mustNot, truths, live, n), group.minimum, live, n, allowed);
  }

  /** What the response's matched list says of one leaf and one returned slot:
      the resolved bits, or the retained predicate asked again. */
  predicate Reported(leaf: Leaf, slot: LeafSlot, shard: Shard, s: nat) {
    && slot.Done?
    && (s in slot.membership || (slot.recheck && leaf.Filter? && s < shard.docs && s in leaf.passes))
  }

  /** The matched lists are complete for every returned member. */
  ghost predicate Provenance(leaves: seq<Leaf>, slots: seq<LeafSlot>, shard: Shard, members: set<nat>)
    requires |leaves| == |slots|
  {
    forall i, s {:trigger Reported(leaves[i], slots[i], shard, s)} :: 0 <= i < |leaves| && s in members ==>
      (Reported(leaves[i], slots[i], shard, s) <==> s in LeafTruth(leaves[i], shard))
  }

  /** The planned tree is refused exactly when malformed. Otherwise, with or
      without narrowing, its members are the truth of the tree. */
  method Evaluate(leaves: seq<Leaf>, shard: Shard, root: Option<Group>, narrowing: bool) returns (r: Result<Evaluated>)
    requires shard.Valid()
    ensures r.Ok? <==> root.Some? && GroupOk(root.value, leaves, 1) && forall i :: 0 <= i < |leaves| ==> !leaves[i].NoKind?
    ensures r.Ok? ==> r.value.members == GroupTruth(root.value, Truths(leaves, shard), shard.Live(), shard.n)
    ensures r.Ok? ==> |r.value.leaves| == |leaves| && Provenance(leaves, r.value.leaves, shard, r.value.members)
    ensures r.Ok? ==> |r.value.positive| == |leaves| && forall i :: 0 <= i < |leaves| ==>
              (r.value.positive[i] <==> NodesReach(root.value.must, i) || NodesReach(root.value.should, i))
  {
    if root.None? {
      return Refused;
    }
    var group := root.value;
    var eval := new BooleanMembership(leaves, shard);
    var ok := eval.MarkGroup(group, true, 1);
    if !ok || exists i :: 0 <= i < |leaves| && leaves[i].NoKind? {
      return Refused;
    }
    if narrowing {
      eval.FilterLeafDomains(group, None, 1);
    } else {
      eval.unbounded := seq(|leaves|, _ => true);
      FullScanRecords(eval.bounded, eval.unbounded, leaves, eval.truths, GroupNode(group), None);
    }
    var members := eval.ResolveGroup(group, true, 1, None);
    ghost var truth := GroupTruth(group, eval.truths, shard.Live(), shard.n);
    TruthsInside(leaves, shard);
    GroupInside(group, eval.truths, shard.Live(), shard.n, shard.authority);
    assert truth <= Universe(shard.n);
    assert forall s :: s in members <==> s in truth;
    eval.ResolveRest(members);
    if eval.Exact() {
      ExactProvenance(leaves, eval.slots, shard, members, eval.bounded, eval.unbounded);
    }
    r := Ok(Evaluated(members, eval.slots, eval.positive));
  }

  lemma TruthsInside(leaves: seq<Leaf>, shard: Shard)
    ensures Within(Truths(leaves, shard), shard.authority)
  {}

  lemma ExactProvenance(leaves: seq<Leaf>, slots: seq<LeafSlot>, shard: Shard, members: set<nat>, bounded: seq<Bound>, unbounded: seq<bool>)
    requires shard.Valid() && members <= shard.authority && |leaves| == |slots| == |bounded| == |unbounded|
    requires forall i {:trigger slots[i]} :: 0 <= i < |leaves| ==>
               var domain := if unbounded[i] then None else bounded[i];
               var truth := LeafTruth(leaves[i], shard);
               slots[i] == if leaves[i].Filter? then Done(truth * Region(domain, shard.n), domain.Some? && shard.hasStore)
                           else Done(truth, false)
    ensures Provenance(leaves, slots, shard, members)
  {}
}
