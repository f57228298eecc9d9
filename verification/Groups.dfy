/** The MUST / SHOULD / MUST_NOT group rule (`group_members` of
    src/boolean_bits.rs) and the laws of the membership it computes. */
module Groups {
  import opened Bitmaps
  import opened Counting

  predicate AllHold(sets: seq<set<nat>>, s: nat) {
    forall k :: 0 <= k < |sets| ==> s in sets[k]
  }

  predicate NoneHold(sets: seq<set<nat>>, s: nat) {
    forall k :: 0 <= k < |sets| ==> s !in sets[k]
  }

  /** Whether a group admits one slot. With no MUST and a zero minimum the
      live set is the seed; otherwise every MUST holds and the SHOULD count
      reaches the minimum. No MUST_NOT may hold. */
  predicate Admits(must: seq<set<nat>>, should: seq<set<nat>>, mustNot: seq<set<nat>>,
                         minimum: nat, live: set<nat>, s: nat)
  {
    && (if must == [] && minimum == 0 then s in live
        else AllHold(must, s) && Holding(should, s) >= minimum)
    && NoneHold(mustNot, s)
  }

  function GroupRule(must: seq<set<nat>>, should: seq<set<nat>>, mustNot: seq<set<nat>>,
                           minimum: nat, live: set<nat>, len: nat): set<nat>
  {
    set s | s in Universe(len) && Admits(must, should, mustNot, minimum, live, s)
  }

  // ----- the operation -----

  /** The intersection of the MUST clauses: the first cloned, the rest ANDed in. */
  method Intersect(must: seq<Bits>, len: nat) returns (out: Bits)
    requires must != [] && AllValid(must, len)
    ensures fresh(out) && fresh(out.words) && out.Valid() && out.len == len
    ensures out.Slots() == set s | s in Universe(len) && AllHold(Views(must), s)
  {
    assert must[0] in must;
    ghost var views := Views(must);
    out := new Bits.Clone(must[0]);
    for j := 1 to |must|
      invariant out.Valid() && AllValid(must, len) && Views(must) == views
      invariant out.Slots() == set s | s in Universe(len) && AllHold(views[..j], s)
    {
      assert must[j] in must;
      out.AndWith(must[j]);
      assert views[..j + 1] == views[..j] + [must[j].Slots()];
    }
    assert views[..|must|] == views;
  }

  /** The members before MUST_NOT: the MUST intersection, the live seed or the
      SHOULD count, with the SHOULD minimum enforced on a MUST intersection. */
  method Positive(must: seq<Bits>, should: seq<Bits>, minimum: nat, live: Bits)
    returns (members: Bits, seededLive: bool)
    requires live.Valid() && AllValid(must, live.len) && AllValid(should, live.len)
    ensures fresh(members) && fresh(members.words) && members.Valid() && members.len == live.len
    ensures members.Slots() == GroupRule(Views(must), Views(should), [], minimum, live.Slots(), live.len)
    ensures seededLive <==> must == [] && minimum == 0
  {
    var len := live.len;
    seededLive := false;
    if must != [] {
      members := Intersect(must, len);
    } else if minimum == 0 {
      seededLive := true;
      members := new Bits.Clone(live);
    } else {
      members := AtLeast(should, minimum, len);
    }
    if must != [] && minimum > 0 {
      var counted := AtLeast(should, minimum, len);
      members.AndWith(counted);
    }
  }

  method GroupMembers(must: seq<Bits>, should: seq<Bits>, mustNot: seq<Bits>, minimum: nat, live: Bits)
    returns (members: Bits, seededLive: bool)
    requires live.Valid()
    requires AllValid(must, live.len) && AllValid(should, live.len) && AllValid(mustNot, live.len)
    ensures fresh(members) && fresh(members.words) && members.Valid() && members.len == live.len
    ensures members.Slots()
         == GroupRule(Views(must), Views(should), Views(mustNot), minimum, live.Slots(), live.len)
    ensures seededLive <==> must == [] && minimum == 0
  {
    ghost var nots := Views(mustNot);
    members, seededLive := Positive(must, should, minimum, live);
    ghost var positive := members.Slots();
    for j := 0 to |mustNot|
      invariant members.Valid() && AllValid(mustNot, live.len) && Views(mustNot) == nots
      invariant members.Slots() == set s | s in positive && NoneHold(nots[..j], s)
    {
      assert mustNot[j] in mustNot;
      members.AndNot(mustNot[j]);
      assert nots[..j + 1] == nots[..j] + [mustNot[j].Slots()];
    }
    assert nots[..|mustNot|] == nots;
  }

  // ----- laws of the rule -----

  ghost predicate Within(sets: seq<set<nat>>, live: set<nat>) {
    forall k :: 0 <= k < |sets| ==> sets[k] <= live
  }

  /** Clauses and seed inside some set keep the members inside it; with the
      live set itself, live clauses give live members. */
  lemma MembersWithin(must: seq<set<nat>>, should: seq<set<nat>>, mustNot: seq<set<nat>>,
                      minimum: nat, live: set<nat>, len: nat, allowed: set<nat>)
    requires Within(must, allowed) && Within(should, allowed) && live <= allowed
    ensures GroupRule(must, should, mustNot, minimum, live, len) <= allowed
  {
    forall s | Admits(must, should, mustNot, minimum, live, s)
      ensures s in allowed
    {
      HoldingBounds(should, s);
      if must != [] {
        assert s in must[0];
      }
    }
  }

  /** A larger minimum only removes members. Leaving the live seed needs the
      SHOULD clauses inside the live set; `SeedIsNotMonotone` shows why. */
  lemma MinimumShrinks(must: seq<set<nat>>, should: seq<set<nat>>, mustNot: seq<set<nat>>,
                       low: nat, high: nat, live: set<nat>, len: nat)
    requires low <= high
    requires must == [] && low == 0 ==> Within(should, live)
    ensures GroupRule(must, should, mustNot, high, live, len) <= GroupRule(must, should, mustNot, low, live, len)
  {
    forall s | Admits(must, should, mustNot, high, live, s)
      ensures Admits(must, should, mustNot, low, live, s)
    {
      HoldingBounds(should, s);
    }
  }

  /** A SHOULD clause outside the live set is not a member under the live seed
      and becomes one at minimum 1. */
  lemma SeedIsNotMonotone()
    ensures GroupRule([], [{0}], [], 0, {}, 1) == {}
    ensures 0 in GroupRule([], [{0}], [], 1, {}, 1)
  {}

  /** Leaving the live seed only removes members if and only if every slot some
      SHOULD holds, and no MUST_NOT does, is live. */
  lemma SeedShrinksExact(should: seq<set<nat>>, mustNot: seq<set<nat>>, live: set<nat>, len: nat)
    ensures (forall high: nat :: GroupRule([], should, mustNot, high, live, len) <= GroupRule([], should, mustNot, 0, live, len))
       <==> forall s :: s in Universe(len) && Holding(should, s) >= 1 && NoneHold(mustNot, s) ==> s in live
  {
    var seeded, one := GroupRule([], should, mustNot, 0, live, len), GroupRule([], should, mustNot, 1, live, len);
    if forall high: nat :: GroupRule([], should, mustNot, high, live, len) <= seeded {
      assert one <= seeded;
      forall s | s in Universe(len) && Holding(should, s) >= 1 && NoneHold(mustNot, s) ensures s in live {
        assert s in one;
      }
    }
  }

  lemma MustNotShrinks(must: seq<set<nat>>, should: seq<set<nat>>, mustNot: seq<set<nat>>,
                       extra: set<nat>, minimum: nat, live: set<nat>, len: nat)
    ensures GroupRule(must, should, mustNot + [extra], minimum, live, len)
         == GroupRule(must, should, mustNot, minimum, live, len) - extra
  {
    forall s
      ensures NoneHold(mustNot + [extra], s) <==> NoneHold(mustNot, s) && s !in extra
    {
      assert (mustNot + [extra])[|mustNot|] == extra;
      assert forall k :: 0 <= k < |mustNot| ==> (mustNot + [extra])[k] == mustNot[k];
    }
  }

  /** The rule reads its clause lists as bags. */
  lemma ClauseOrder(must: seq<set<nat>>, must': seq<set<nat>>, should: seq<set<nat>>, should': seq<set<nat>>,
                    mustNot: seq<set<nat>>, mustNot': seq<set<nat>>, minimum: nat, live: set<nat>, len: nat)
    requires multiset(must) == multiset(must') && multiset(should) == multiset(should')
    requires multiset(mustNot) == multiset(mustNot')
    ensures GroupRule(must, should, mustNot, minimum, live, len)
         == GroupRule(must', should', mustNot', minimum, live, len)
  {
    SameMembers(must, must');
    SameMembers(mustNot, mustNot');
    forall s
      ensures Admits(must, should, mustNot, minimum, live, s) == Admits(must', should', mustNot', minimum, live, s)
    {
      HoldingOrder(should, should', s);
    }
  }

  lemma SameMembers(a: seq<set<nat>>, b: seq<set<nat>>)
    requires multiset(a) == multiset(b)
    ensures |a| == |b|
    ensures forall s :: AllHold(a, s) == AllHold(b, s) && NoneHold(a, s) == NoneHold(b, s)
  {
    assert |multiset(a)| == |a| && |multiset(b)| == |b|;
    forall k | 0 <= k < |a| ensures a[k] in b { assert a[k] in multiset(b); }
    forall k | 0 <= k < |b| ensures b[k] in a { assert b[k] in multiset(a); }
  }

  lemma {:induction false} HoldingOrder(a: seq<set<nat>>, b: seq<set<nat>>, s: nat)
    requires multiset(a) == multiset(b)
    ensures Holding(a, s) == Holding(b, s)
  {
    if a == [] {
      assert |multiset(b)| == 0;
    } else {
      var last := a[|a| - 1];
      var init := a[..|a| - 1];
      assert a == init + [last];
      assert last in multiset(b);
      var k :| 0 <= k < |b| && b[k] == last;
      var rest := b[..k] + b[k + 1..];
      assert b == b[..k] + [last] + b[k + 1..];
      assert multiset(b) == multiset(rest) + multiset{last};
      assert multiset(a) == multiset(init) + multiset{last};
      assert multiset(init) == multiset(a) - multiset{last};
      HoldingOrder(init, rest, s);
      HoldingRemove(b, k, s);
    }
  }

  lemma {:induction false} HoldingRemove(b: seq<set<nat>>, k: nat, s: nat)
    requires k < |b|
    ensures Holding(b, s) == Holding(b[..k] + b[k + 1..], s) + if s in b[k] then 1 else 0
  {
    if k == |b| - 1 {
      assert b[..k] + b[k + 1..] == b[..|b| - 1];
    } else {
      var init := b[..|b| - 1];
      HoldingRemove(init, k, s);
      var rest := b[..k] + b[k + 1..];
      assert rest[..|rest| - 1] == init[..k] + init[k + 1..];
      assert rest[|rest| - 1] == b[|b| - 1];
    }
  }
}
