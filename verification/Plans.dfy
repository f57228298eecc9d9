/** The planned Boolean tree a shard evaluates (src/node.rs) and what it means. */
module Plans {
  // The membership of every group is folded bottom-up from the leaves' true
  // memberships by the group rule. Bitmaps appear as the slot sets they hold.

  import opened Bitmaps
  import opened Counting
  import opened Groups

  const MAX_DEPTH: nat := 64

  /** One planned leaf, with what this shard's stores answer for it: the slots
      in the terms' postings, the slots the predicate passes (and how many rows
      segment pruning admits), or the rows that hold a vector. */
  datatype Leaf =
    | Lexical(postings: set<nat>)
    | Filter(passes: set<nat>, admitted: nat)
    | Dense(rows: set<nat>)
    | NoKind

  datatype Node = LeafNode(index: nat) | GroupNode(group: Group) | NoNode

  datatype Group = Group(must: seq<Node>, should: seq<Node>, mustNot: seq<Node>, minimum: nat)

  /** The shard's rows: `n` slots, of which the first `docs` hold a document,
      and the slots that are neither deleted nor hidden from the caller. */
  datatype Shard = Shard(n: nat, docs: nat, hasStore: bool, authority: set<nat>) {
    ghost predicate Valid() {
      authority <= Universe(n) && docs <= n && (!hasStore ==> docs == 0)
    }

    function Live(): set<nat> {
      set s | s in authority && s < docs
    }
  }

  // ----- meaning -----

  /** The leaf's members, resolved over the whole shard. */
  function LeafTruth(leaf: Leaf, shard: Shard): set<nat> {
    match leaf
    case Lexical(postings) => postings * shard.authority
    case Filter(passes, _) => passes * shard.authority * shard.Live()
    case Dense(rows) => rows * shard.authority
    case NoKind => {}
  }

  function Truths(leaves: seq<Leaf>, shard: Shard): (truths: seq<set<nat>>)
    ensures |truths| == |leaves|
    ensures forall i :: 0 <= i < |leaves| ==> truths[i] == LeafTruth(leaves[i], shard)
  {
    seq(|leaves|, i requires 0 <= i < |leaves| => LeafTruth(leaves[i], shard))
  }

  function NodeTruth(node: Node, truths: seq<set<nat>>, live: set<nat>, n: nat): set<nat>
    decreases node, 0
  {
    match node
    case LeafNode(index) => if index < |truths| then truths[index] else {}
    case GroupNode(group) => GroupTruth(group, truths, live, n)
    case NoNode => {}
  }

  function NodeTruths(nodes: seq<Node>, truths: seq<set<nat>>, live: set<nat>, n: nat): (r: seq<set<nat>>)
    ensures |r| == |nodes|
    ensures forall i :: 0 <= i < |nodes| ==> r[i] == NodeTruth(nodes[i], truths, live, n)
    decreases nodes, 0
  {
    seq(|nodes|, i requires 0 <= i < |nodes| => NodeTruth(nodes[i], truths, live, n))
  }

  function GroupTruth(group: Group, truths: seq<set<nat>>, live: set<nat>, n: nat): set<nat>
    decreases group, 0
  {
    GroupRule(NodeTruths(group.must, truths, live, n), NodeTruths(group.should, truths, live, n),
              NodeTruths(group.mustNot, truths, live, n), group.minimum, live, n)
  }

  // ----- one slot at a time -----

  /** Whether the tree matches one slot, given which leaves do. */
  predicate Matches(node: Node, leaf: seq<bool>, live: bool)
    decreases node, 0
  {
    match node
    case LeafNode(index) => index < |leaf| && leaf[index]
    case GroupNode(group) => GroupMatches(group, leaf, live)
    case NoNode => false
  }

  predicate GroupMatches(group: Group, leaf: seq<bool>, live: bool)
    decreases group, 0
  {
    && (if group.must == [] && group.minimum == 0 then live
        else
          CountMatches(group.must, leaf, live) == |group.must| && CountMatches(group.should, leaf, live) >= group.minimum)
    && CountMatches(group.mustNot, leaf, live) == 0
  }

  function CountMatches(nodes: seq<Node>, leaf: seq<bool>, live: bool): nat
    decreases nodes, 0
  {
    if nodes == [] then 0
    else CountMatches(nodes[..|nodes| - 1], leaf, live) + if Matches(nodes[|nodes| - 1], leaf, live) then 1 else 0
  }

  function SlotLeaves(truths: seq<set<nat>>, s: nat): seq<bool> {
    seq(|truths|, i requires 0 <= i < |truths| => s in truths[i])
  }

  /** Bottom-up evaluation over whole sets is the per-slot truth of the tree. */
  lemma {:induction false} NodeSlotwise(node: Node, truths: seq<set<nat>>, live: set<nat>, n: nat, s: nat)
    requires s < n && forall i :: 0 <= i < |truths| ==> truths[i] <= Universe(n)
    ensures s in NodeTruth(node, truths, live, n) <==> Matches(node, SlotLeaves(truths, s), s in live)
    decreases node, 0
  {
    if node.GroupNode? {
      GroupSlotwise(node.group, truths, live, n, s);
    }
  }

  lemma {:induction false} GroupSlotwise(group: Group, truths: seq<set<nat>>, live: set<nat>, n: nat, s: nat)
    requires s < n && forall i :: 0 <= i < |truths| ==> truths[i] <= Universe(n)
    ensures s in GroupTruth(group, truths, live, n) <==> GroupMatches(group, SlotLeaves(truths, s), s in live)
    decreases group, 0
  {
    assert IsSlot(s, n);
    var must := NodeTruths(group.must, truths, live, n);
    var mustNot := NodeTruths(group.mustNot, truths, live, n);
    NodesSlotwise(group.must, truths, live, n, s);
    NodesSlotwise(group.should, truths, live, n, s);
    NodesSlotwise(group.mustNot, truths, live, n, s);
    HoldingBounds(must, s);
    HoldingBounds(mustNot, s);
  }

  lemma {:induction false} NodesSlotwise(nodes: seq<Node>, truths: seq<set<nat>>, live: set<nat>, n: nat, s: nat)
    requires s < n && forall i :: 0 <= i < |truths| ==> truths[i] <= Universe(n)
    ensures Holding(NodeTruths(nodes, truths, live, n), s) == CountMatches(nodes, SlotLeaves(truths, s), s in live)
    decreases nodes, 0
  {
    if nodes != [] {
      var init := nodes[..|nodes| - 1];
      NodesSlotwise(init, truths, live, n, s);
      NodeSlotwise(nodes[|nodes| - 1], truths, live, n, s);
      var all := NodeTruths(nodes, truths, live, n);
      assert all[..|all| - 1] == NodeTruths(init, truths, live, n);
    }
  }

  // ----- splitting the slots -----

  /** The slots of `[lo, hi)`, renumbered from zero. */
  ghost function Window(slots: set<nat>, lo: nat, hi: nat): set<nat> {
    set t | t in Universe(hi) && lo + t < hi && lo + t in slots
  }

  ghost function Windows(sets: seq<set<nat>>, lo: nat, hi: nat): seq<set<nat>> {
    seq(|sets|, i requires 0 <= i < |sets| => Window(sets[i], lo, hi))
  }

  /** Evaluating the tree on a window of the slots is the window of the whole
      answer, so any split of the slots concatenates to the whole answer. */
  lemma GroupWindow(group: Group, truths: seq<set<nat>>, live: set<nat>, n: nat, lo: nat, hi: nat)
    requires lo <= hi <= n && forall i :: 0 <= i < |truths| ==> truths[i] <= Universe(n)
    ensures Window(GroupTruth(group, truths, live, n), lo, hi)
         == GroupTruth(group, Windows(truths, lo, hi), Window(live, lo, hi), hi - lo)
  {
    var part := Windows(truths, lo, hi);
    forall t: nat
      ensures t in Window(GroupTruth(group, truths, live, n), lo, hi)
         <==> t in GroupTruth(group, part, Window(live, lo, hi), hi - lo)
    {
      if t < hi - lo {
        assert IsSlot(t, hi - lo) && IsSlot(t, hi) && IsSlot(lo + t, n);
        forall i | 0 <= i < |part|
          ensures part[i] <= Universe(hi - lo)
        {
          forall u | u in part[i] ensures u in Universe(hi - lo) { assert IsSlot(u, hi - lo); }
        }
        GroupSlotwise(group, truths, live, n, lo + t);
        GroupSlotwise(group, part, Window(live, lo, hi), hi - lo, t);
        assert SlotLeaves(truths, lo + t) == SlotLeaves(part, t);
      }
    }
  }

  // ----- validation -----

  predicate NodeOk(node: Node, leaves: seq<Leaf>, depth: nat)
    decreases node, 0
  {
    match node
    case LeafNode(index) => index < |leaves| && !leaves[index].NoKind?
    case GroupNode(group) => GroupOk(group, leaves, depth + 1)
    case NoNode => false
  }

  predicate NodesOk(nodes: seq<Node>, leaves: seq<Leaf>, depth: nat)
    decreases nodes, 0
  {
    forall i :: 0 <= i < |nodes| ==> NodeOk(nodes[i], leaves, depth)
  }

  predicate GroupOk(group: Group, leaves: seq<Leaf>, depth: nat)
    decreases group, 0
  {
    && depth <= MAX_DEPTH
    && (group.must != [] || group.should != [] || group.mustNot != [])
    && NodesOk(group.must, leaves, depth)
    && NodesOk(group.should, leaves, depth)
    && NodesOk(group.mustNot, leaves, depth)
  }

  /** A MUST / SHOULD chain from the node reaches the leaf. */
  predicate Reaches(node: Node, leaf: nat)
    decreases node, 0
  {
    match node
    case LeafNode(index) => index == leaf
    case GroupNode(group) => NodesReach(group.must, leaf) || NodesReach(group.should, leaf)
    case NoNode => false
  }

  predicate NodesReach(nodes: seq<Node>, leaf: nat)
    decreases nodes, 0
  {
    exists i :: 0 <= i < |nodes| && Reaches(nodes[i], leaf)
  }
}
