/** State-based merge: when one call yields the union, the laws of a join, and repair. */
module Merging {
  import opened OpIds
  import opened Forest
  import opened Traversal
  import opened Docs

  /** Deletes produced by a merge carry the zero source identifier. */
  const NO_SOURCE := OpID("", 0)

  function InsertOf(ns: Nodes, id: OpID): Op
    requires id in ns
  {
    Insert(id, ns[id])
  }

  ghost predicate ByCounter(ids: seq<OpID>) {
    forall i, j :: 0 <= i < j < |ids| ==> ids[i].counter <= ids[j].counter
  }

  ghost predicate NoRepeats(ids: seq<OpID>) {
    forall i, j :: 0 <= i < j < |ids| ==> ids[i] != ids[j]
  }

  /** One way to list the nodes of the source: any map iteration order, any order of ties. */
  ghost predicate MergeOrder(b: Doc, ids: seq<OpID>) {
    && NoRepeats(ids)
    && ByCounter(ids)
    && (forall id :: id in ids <==> id in b.nodes)
  }

  /** One way to list the deleted nodes of the source; the sentinel is skipped. */
  ghost predicate DeadOrder(b: Doc, ids: seq<OpID>) {
    forall id :: id in ids <==> id in b.nodes && id in b.dead
  }

  function InsertAll(ns: Nodes, ids: seq<OpID>): (ops: seq<Op>)
    requires AllIn(ns, ids)
    ensures |ops| == |ids| && forall i :: 0 <= i < |ids| ==> ops[i] == InsertOf(ns, ids[i])
  {
    seq(|ids|, i requires 0 <= i < |ids| => assert ids[i] in ids; InsertOf(ns, ids[i]))
  }

  function DeleteAll(ids: seq<OpID>): (ops: seq<Op>)
    ensures |ops| == |ids| && forall i :: 0 <= i < |ids| ==> ops[i] == Delete(ids[i], NO_SOURCE)
  {
    seq(|ids|, i requires 0 <= i < |ids| => Delete(ids[i], NO_SOURCE))
  }

  lemma InsertAllSnoc(ns: Nodes, ids: seq<OpID>, id: OpID)
    requires AllIn(ns, ids) && id in ns
    ensures AllIn(ns, ids + [id]) && InsertAll(ns, ids + [id]) == InsertAll(ns, ids) + [InsertOf(ns, id)]
  {
  }

  lemma DeleteAllSnoc(ids: seq<OpID>, id: OpID)
    ensures DeleteAll(ids + [id]) == DeleteAll(ids) + [Delete(id, NO_SOURCE)]
  {
  }

  /** All inserts in order, then all deletes. */
  function MergeVia(a: Doc, b: Doc, ids: seq<OpID>, dels: seq<OpID>): Doc
    requires AllIn(b.nodes, ids)
  {
    Run(Run(a, InsertAll(b.nodes, ids)), DeleteAll(dels))
  }

  /** r is what a.Merge(b) may leave in a. */
  ghost predicate Merged(a: Doc, b: Doc, r: Doc) {
    exists ids, dels :: MergeOrder(b, ids) && DeadOrder(b, dels) && r == MergeVia(a, b, ids, dels)
  }

  /** Every node of both, the receiver's entry where both have one; every tombstone of both
      except the source sentinel's. */
  function Union(a: Doc, b: Doc): Doc {
    Doc(b.nodes + a.nodes, a.dead + (b.dead - {ROOT}))
  }

  /** The part of a document that merging transfers and text shows. */
  function Seen(d: Doc): Doc {
    Doc(d.nodes, d.dead - {ROOT})
  }

  /** Each source node is already in the receiver, or hangs off the receiver, or has a
      parent with a strictly smaller counter. */
  ghost predicate Mergeable(a: Doc, b: Doc) {
    forall x :: x in b.nodes ==> x in a.nodes || ArrivesAfterParent(a, b, x)
  }

  predicate ArrivesAfterParent(a: Doc, b: Doc, x: OpID)
    requires x in b.nodes
  {
    var p := b.nodes[x].parent;
    Present(a.nodes, p) || p.counter < x.counter
  }

  // ---------- What every merge does ----------

  lemma {:induction false} InsertsStayWithin(a: Doc, b: Doc, ids: seq<OpID>)
    requires Sound(a) && AllIn(b.nodes, ids)
    ensures var r := Run(a, InsertAll(b.nodes, ids));
            Sound(r) && Grows(a, r) && r.dead == a.dead && WithinUnion(a, b, r)
  {
    var ops := InsertAll(b.nodes, ids);
    RunGrows(a, ops);
    if ids != [] {
      var n := |ids| - 1;
      assert forall y :: y in ids[..n] ==> y in ids;
      assert ids[n] in ids;
      InsertsStayWithin(a, b, ids[..n]);
      assert ops[..n] == InsertAll(b.nodes, ids[..n]);
      RunGrows(a, ops[..n]);
    }
  }

  lemma {:induction false} DeletesMarkPresent(d: Doc, dels: seq<OpID>)
    requires Sound(d)
    ensures var r := Run(d, DeleteAll(dels));
            && Sound(r) && r.nodes == d.nodes
            && forall t :: t in r.dead <==> t in d.dead || (t in dels && Present(d.nodes, t))
  {
    var ops := DeleteAll(dels);
    RunGrows(d, ops);
    if dels != [] {
      var n := |dels| - 1;
      DeletesMarkPresent(d, dels[..n]);
      assert ops[..n] == DeleteAll(dels[..n]);
      assert dels == dels[..n] + [dels[n]];
    }
  }

  /** Every node of r is a node of the union, with the same entry. */
  ghost predicate WithinUnion(a: Doc, b: Doc, r: Doc) {
    forall id :: id in r.nodes ==> id in Union(a, b).nodes && r.nodes[id] == Union(a, b).nodes[id]
  }

  /** The tombstones of r are those of a and those of b on nodes that made it. */
  ghost predicate Tombstoned(a: Doc, b: Doc, r: Doc) {
    forall t :: t in r.dead <==> t in a.dead || (t in b.dead && t in b.nodes && t in r.nodes)
  }

  /** Whatever the orders: nothing is lost, nothing is invented, tombstones of the source
      reach every node that made it. */
  ghost predicate Between(a: Doc, b: Doc, r: Doc) {
    Sound(r) && Grows(a, r) && WithinUnion(a, b, r) && Tombstoned(a, b, r)
  }

  lemma MergeViaIsBetween(a: Doc, b: Doc, ids: seq<OpID>, dels: seq<OpID>)
    requires Sound(a) && Sound(b) && AllIn(b.nodes, ids) && DeadOrder(b, dels)
    ensures Between(a, b, MergeVia(a, b, ids, dels))
  {
    InsertsStayWithin(a, b, ids);
    var m := Run(a, InsertAll(b.nodes, ids));
    DeletesMarkPresent(m, dels);
    DeletesTombstone(a, b, m, dels, MergeVia(a, b, ids, dels));
  }

  lemma DeletesTombstone(a: Doc, b: Doc, m: Doc, dels: seq<OpID>, r: Doc)
    requires Sound(b) && DeadOrder(b, dels) && m.dead == a.dead && r.nodes == m.nodes
    requires forall t :: t in r.dead <==> t in m.dead || (t in dels && Present(m.nodes, t))
    ensures Tombstoned(a, b, r)
  {
  }

  lemma MergeIsBetween(a: Doc, b: Doc, r: Doc)
    requires Sound(a) && Sound(b) && Merged(a, b, r)
    ensures Between(a, b, r)
  {
    var ids: seq<OpID>, dels: seq<OpID> :| MergeOrder(b, ids) && DeadOrder(b, dels) && r == MergeVia(a, b, ids, dels);
    MergeViaIsBetween(a, b, ids, dels);
  }

  /** Once every source node is there, the result is the union. */
  lemma BetweenAndFullIsUnion(a: Doc, b: Doc, r: Doc)
    requires Sound(b) && Between(a, b, r)
    requires forall x :: x in b.nodes ==> x in r.nodes
    ensures r == Union(a, b)
  {
  }

  // ---------- One merge is the union exactly when the source is mergeable ----------

  /** Each listed node is known already, or hangs off the receiver or off an earlier one. */
  ghost predicate ParentFirst(a: Doc, ns: Nodes, ids: seq<OpID>)
    requires AllIn(ns, ids)
  {
    forall i :: 0 <= i < |ids| ==> Attaches(a, ns, ids, i)
  }

  ghost predicate Attaches(a: Doc, ns: Nodes, ids: seq<OpID>, i: nat)
    requires AllIn(ns, ids) && i < |ids|
  {
    assert ids[i] in ids;
    Present(a.nodes, ids[i]) || Present(a.nodes, ns[ids[i]].parent) || ns[ids[i]].parent in ids[..i]
  }

  lemma {:induction false} ParentFirstArrives(a: Doc, ns: Nodes, ids: seq<OpID>)
    requires Sound(a) && AllIn(ns, ids) && ParentFirst(a, ns, ids)
    ensures forall x :: x in ids ==> Present(Run(a, InsertAll(ns, ids)).nodes, x)
  {
    if ids != [] {
      var n := |ids| - 1;
      var init := ids[..n];
      assert ids == init + [ids[n]];
      forall i | 0 <= i < n ensures Attaches(a, ns, init, i) {
        assert Attaches(a, ns, ids, i) && init[..i] == ids[..i];
      }
      ParentFirstArrives(a, ns, init);
      var before := InsertAll(ns, init);
      assert InsertAll(ns, ids)[..n] == before;
      RunGrows(a, before);
      ApplyGrows(Run(a, before), InsertOf(ns, ids[n]));
      assert Attaches(a, ns, ids, n);
    }
  }

  lemma MergeableIsParentFirst(a: Doc, b: Doc, ids: seq<OpID>)
    requires Sound(b) && Mergeable(a, b) && MergeOrder(b, ids)
    ensures ParentFirst(a, b.nodes, ids)
  {
    forall i | 0 <= i < |ids| ensures Attaches(a, b.nodes, ids, i) {
      assert ids[i] in ids;
      var p := b.nodes[ids[i]].parent;
      ParentIsHigher(b.nodes, ids[i]);
      if !Present(a.nodes, ids[i]) && !Present(a.nodes, p) {
        assert p in ids;
        var j :| 0 <= j < |ids| && ids[j] == p;
        assert j < i;
      }
    }
  }

  /** One merge gives the union, for every iteration order and every order of ties. */
  lemma MergeIsUnion(a: Doc, b: Doc, r: Doc)
    requires Sound(a) && Sound(b) && Mergeable(a, b) && Merged(a, b, r)
    ensures r == Union(a, b)
  {
    MergeIsBetween(a, b, r);
    var ids: seq<OpID>, dels: seq<OpID> :| MergeOrder(b, ids) && DeadOrder(b, dels) && r == MergeVia(a, b, ids, dels);
    MergeableIsParentFirst(a, b, ids);
    ParentFirstArrives(a, b.nodes, ids);
    InsertsStayWithin(a, b, ids);
    DeletesMarkPresent(Run(a, InsertAll(b.nodes, ids)), dels);
    forall x | x in b.nodes ensures x in r.nodes {
      assert x in ids;
    }
    BetweenAndFullIsUnion(a, b, r);
  }

  /** No occurrence of x comes after one of p. */
  ghost predicate NeverAfter(ids: seq<OpID>, x: OpID, p: OpID) {
    forall j :: 0 <= j < |ids| && ids[j] == x ==> p !in ids[..j]
  }

  /** Sorting by counter leaves room to put x before p whenever p's counter is not smaller. */
  lemma {:induction false} OrderAgainst(s: set<OpID>, x: OpID, p: OpID) returns (ids: seq<OpID>)
    requires x == p || x.counter <= p.counter
    ensures NoRepeats(ids) && ByCounter(ids)
    ensures forall id :: id in ids <==> id in s
    ensures x != p ==> NeverAfter(ids, x, p)
    decreases |s|
  {
    if s == {} {
      ids := [];
    } else {
      var top := Highest(s);
      var m := if top == x && p in s then p else top;
      var init := OrderAgainst(s - {m}, x, p);
      ids := init + [m];
      forall i | 0 <= i < |init| ensures init[i] != m && init[i].counter <= m.counter {
        assert init[i] in init;
      }
      forall id ensures id in ids <==> id in s {
        assert id in init <==> id in s - {m};
      }
      forall j | 0 <= j < |ids| && ids[j] == x && x != p ensures p !in ids[..j] {
        assert ids[..j] == init[..j];
        if j == |init| {
          assert init[..j] == init;
        }
      }
    }
  }

  lemma {:induction false} Highest(s: set<OpID>) returns (m: OpID)
    requires s != {}
    ensures m in s && forall y :: y in s ==> y.counter <= m.counter
    decreases |s|
  {
    m :| m in s;
    if s != {m} {
      var rest := Highest(s - {m});
      if m.counter < rest.counter { m := rest; }
    }
  }

  /** An insert that runs before its absent parent's is dropped for good. */
  lemma {:induction false} DroppedForGood(a: Doc, ns: Nodes, ids: seq<OpID>, x: OpID)
    requires Sound(a) && AllIn(ns, ids) && x in ns
    requires !Present(a.nodes, x) && !Present(a.nodes, ns[x].parent)
    requires NeverAfter(ids, x, ns[x].parent)
    ensures var r := Run(a, InsertAll(ns, ids));
            && !Present(r.nodes, x)
            && (ns[x].parent !in ids ==> !Present(r.nodes, ns[x].parent))
  {
    if ids != [] {
      var n, p := |ids| - 1, ns[x].parent;
      var init := ids[..n];
      assert ids == init + [ids[n]];
      forall j | 0 <= j < n && init[j] == x ensures p !in init[..j] {
        assert init[..j] == ids[..j];
      }
      DroppedForGood(a, ns, init, x);
      assert InsertAll(ns, ids)[..n] == InsertAll(ns, init);
      DropStep(Run(a, InsertAll(ns, init)), ns, ids[n], x);
    }
  }

  lemma DropStep(r: Doc, ns: Nodes, y: OpID, x: OpID)
    requires x in ns && y in ns && !Present(r.nodes, x)
    requires y == x ==> !Present(r.nodes, ns[x].parent)
    ensures var r' := Apply(r, InsertOf(ns, y));
            && !Present(r'.nodes, x)
            && (y != ns[x].parent && !Present(r.nodes, ns[x].parent) ==> !Present(r'.nodes, ns[x].parent))
  {
  }

  /** A node that may be listed before its absent parent is lost by some merge. */
  lemma SomeMergeLoses(a: Doc, b: Doc, x: OpID) returns (r: Doc)
    requires Sound(a) && Sound(b) && x in b.nodes && x !in a.nodes
    requires !Present(a.nodes, b.nodes[x].parent) && x.counter <= b.nodes[x].parent.counter
    ensures Merged(a, b, r) && x !in r.nodes
  {
    var p := b.nodes[x].parent;
    var ids := OrderAgainst(b.nodes.Keys, x, p);
    var dels := OrderAgainst(b.nodes.Keys * b.dead, x, x);
    r := MergeVia(a, b, ids, dels);
    assert MergeOrder(b, ids) && DeadOrder(b, dels);
    InsertsStayWithin(a, b, ids);
    ParentIsHigher(b.nodes, x);
    DroppedForGood(a, b.nodes, ids, x);
    DeletesMarkPresent(Run(a, InsertAll(b.nodes, ids)), dels);
  }

  /** a.Merge(b) is the union for every iteration order and every order of ties if and only
      if the source is mergeable into the receiver. */
  lemma AlwaysUnionIffMergeable(a: Doc, b: Doc)
    requires Sound(a) && Sound(b)
    ensures (forall r :: Merged(a, b, r) ==> r == Union(a, b)) <==> Mergeable(a, b)
  {
    if Mergeable(a, b) {
      forall r | Merged(a, b, r) ensures r == Union(a, b) {
        MergeIsUnion(a, b, r);
      }
    } else {
      var x :| x in b.nodes && x !in a.nodes && !ArrivesAfterParent(a, b, x);
      var r := SomeMergeLoses(a, b, x);
      assert x in Union(a, b).nodes && x !in r.nodes;
    }
  }

  /** Some outcome always exists, so the statements above are not vacuous. */
  lemma SomeMergeExists(a: Doc, b: Doc) returns (r: Doc)
    ensures Merged(a, b, r)
  {
    var ids := OrderAgainst(b.nodes.Keys, ROOT, ROOT);
    var dels := OrderAgainst(b.nodes.Keys * b.dead, ROOT, ROOT);
    r := MergeVia(a, b, ids, dels);
    assert MergeOrder(b, ids) && DeadOrder(b, dels);
  }

  lemma MergeOutcome(a: Doc, b: Doc, ids: seq<OpID>, dels: seq<OpID>, r: Doc)
    requires Sound(a) && Sound(b) && MergeOrder(b, ids) && DeadOrder(b, dels)
    requires r == MergeVia(a, b, ids, dels)
    ensures Merged(a, b, r)
    ensures Mergeable(a, b) ==> r == Union(a, b)
  {
    if Mergeable(a, b) {
      MergeIsUnion(a, b, r);
    }
  }

  // ---------- The laws of a join ----------

  /** Every parent is the sentinel or has a smaller counter. */
  ghost predicate Laddered(d: Doc) {
    forall x :: x in d.nodes ==> d.nodes[x].parent == ROOT || d.nodes[x].parent.counter < x.counter
  }

  lemma LadderedIsMergeable(a: Doc, b: Doc)
    requires Laddered(b)
    ensures Mergeable(a, b)
  {
  }

  lemma MergeKeepsLadders(a: Doc, b: Doc, r: Doc)
    requires Sound(a) && Sound(b) && Laddered(a) && Laddered(b) && Merged(a, b, r)
    ensures Sound(r) && Laddered(r)
  {
    MergeIsBetween(a, b, r);
  }

  /** Merging commutes, up to the sentinel's mark, when both merges are unions. */
  lemma MergeIsCommutative(a: Doc, b: Doc, ab: Doc, ba: Doc)
    requires Sound(a) && Sound(b) && Agree(a.nodes, b.nodes) && Mergeable(a, b) && Mergeable(b, a)
    requires Merged(a, b, ab) && Merged(b, a, ba)
    ensures Sound(ab) && Sound(ba)
    ensures Seen(ab) == Seen(ba) && Text(ab) == Text(ba)
  {
    assert Sound(ab) && ab == Union(a, b) by {
      MergeIsBetween(a, b, ab);
      MergeIsUnion(a, b, ab);
    }
    assert Sound(ba) && ba == Union(b, a) by {
      MergeIsBetween(b, a, ba);
      MergeIsUnion(b, a, ba);
    }
    UnionIsCommutative(a, b);
    SeenDecidesText(ab, ba);
  }

  /** Merging a into b and b into a always shows the same, for every iteration order and every
      order of ties, if and only if the two agree and each is mergeable into the other. */
  lemma MergeCommutesIff(a: Doc, b: Doc)
    requires Sound(a) && Sound(b)
    ensures (forall ab, ba :: Merged(a, b, ab) && Merged(b, a, ba) ==> Seen(ab) == Seen(ba))
            <==> Agree(a.nodes, b.nodes) && Mergeable(a, b) && Mergeable(b, a)
  {
    if Agree(a.nodes, b.nodes) && Mergeable(a, b) && Mergeable(b, a) {
      forall ab, ba | Merged(a, b, ab) && Merged(b, a, ba) ensures Seen(ab) == Seen(ba) {
        MergeIsCommutative(a, b, ab, ba);
      }
    }
    if forall ab, ba :: Merged(a, b, ab) && Merged(b, a, ba) ==> Seen(ab) == Seen(ba) {
      forall ab, ba | Merged(a, b, ab) && Merged(b, a, ba)
        ensures Agree(a.nodes, b.nodes) && ab == Union(a, b) && ba == Union(b, a)
      {
        SameBothWaysIsUnion(a, b, ab, ba);
      }
      var ab := SomeMergeExists(a, b);
      var ba := SomeMergeExists(b, a);
      AlwaysUnionIffMergeable(a, b);
      AlwaysUnionIffMergeable(b, a);
    }
  }

  lemma SameBothWaysIsUnion(a: Doc, b: Doc, ab: Doc, ba: Doc)
    requires Sound(a) && Sound(b) && Merged(a, b, ab) && Merged(b, a, ba) && Seen(ab) == Seen(ba)
    ensures Agree(a.nodes, b.nodes) && ab == Union(a, b) && ba == Union(b, a)
  {
    MergeIsBetween(a, b, ab);
    MergeIsBetween(b, a, ba);
    assert ab.nodes == Seen(ab).nodes == Seen(ba).nodes == ba.nodes;
    BetweenAndFullIsUnion(a, b, ab);
    BetweenAndFullIsUnion(b, a, ba);
  }

  lemma UnionIsCommutative(a: Doc, b: Doc)
    requires Agree(a.nodes, b.nodes)
    ensures Seen(Union(a, b)) == Seen(Union(b, a))
  {
  }

  lemma UnionIsAssociative(a: Doc, b: Doc, c: Doc)
    ensures Union(Union(a, b), c) == Union(a, Union(b, c))
  {
  }

  /** Merging is associative when each of the four merges finds its source mergeable. */
  lemma MergeIsAssociative(a: Doc, b: Doc, c: Doc, ab: Doc, bc: Doc, left: Doc, right: Doc)
    requires Sound(a) && Sound(b) && Sound(c)
    requires Mergeable(a, b) && Mergeable(Union(a, b), c) && Mergeable(b, c) && Mergeable(a, Union(b, c))
    requires Merged(a, b, ab) && Merged(ab, c, left)
    requires Merged(b, c, bc) && Merged(a, bc, right)
    ensures left == right == Union(a, Union(b, c))
  {
    assert left == Union(Union(a, b), c) by {
      MergeIsBetween(a, b, ab);
      MergeIsUnion(a, b, ab);
      MergeIsUnion(ab, c, left);
    }
    assert right == Union(a, Union(b, c)) by {
      MergeIsBetween(b, c, bc);
      MergeIsUnion(b, c, bc);
      MergeIsUnion(a, bc, right);
    }
    UnionIsAssociative(a, b, c);
  }

  /** Idempotence needs no condition on counters. */
  lemma MergeIsIdempotent(a: Doc, r: Doc)
    requires Sound(a) && Merged(a, a, r)
    ensures r == a
  {
    MergeIsUnion(a, a, r);
    assert a.nodes + a.nodes == a.nodes;
    assert a.dead + (a.dead - {ROOT}) == a.dead;
  }

  /** After one merge the same merge changes nothing, again without a condition. */
  lemma MergeAbsorbs(a: Doc, b: Doc, ab: Doc, again: Doc)
    requires Sound(a) && Sound(b) && Mergeable(a, b) && Merged(a, b, ab) && Merged(ab, b, again)
    ensures again == ab
  {
    MergeIsUnion(a, b, ab);
    MergeIsBetween(a, b, ab);
    MergeIsUnion(ab, b, again);
    assert b.nodes + ab.nodes == ab.nodes;
    assert ab.dead + (b.dead - {ROOT}) == ab.dead;
  }

  lemma {:induction false} HiddenDecidesVisible(s: seq<OpID>, dead: set<OpID>, dead': set<OpID>)
    requires forall y :: y in s ==> (y in dead <==> y in dead')
    ensures Visible(s, dead) == Visible(s, dead')
  {
    if s != [] {
      assert s == s[..|s| - 1] + [s[|s| - 1]];
      HiddenDecidesVisible(s[..|s| - 1], dead, dead');
    }
  }

  lemma SeenDecidesText(a: Doc, b: Doc)
    requires Sound(a) && Sound(b) && Seen(a) == Seen(b)
    ensures VisibleIds(a) == VisibleIds(b) && Text(a) == Text(b)
  {
    OrderIsTheListing(a.nodes);
    forall y | y in Order(a.nodes) ensures y in a.dead <==> y in b.dead {
      assert y in Seen(a).dead <==> y in Seen(b).dead;
    }
    HiddenDecidesVisible(Order(a.nodes), a.dead, b.dead);
  }

  // ---------- Repair by repetition ----------

  /** r is what n calls of Merge(b) may leave in a. */
  ghost predicate MergedTimes(a: Doc, b: Doc, n: nat, r: Doc) {
    if n == 0 then r == a
    else exists m :: MergedTimes(a, b, n - 1, m) && Merged(m, b, r)
  }

  lemma {:induction false} InsertArrives(a: Doc, ns: Nodes, ids: seq<OpID>, x: OpID)
    requires Sound(a) && AllIn(ns, ids) && x in ids && Present(a.nodes, ns[x].parent)
    ensures Present(Run(a, InsertAll(ns, ids)).nodes, x)
  {
    var n := |ids| - 1;
    var init := ids[..n];
    assert ids == init + [ids[n]];
    assert InsertAll(ns, ids)[..n] == InsertAll(ns, init);
    RunGrows(a, InsertAll(ns, init));
    ApplyGrows(Run(a, InsertAll(ns, init)), InsertOf(ns, ids[n]));
    if x in init {
      InsertArrives(a, ns, init, x);
    }
  }

  lemma ChildArrivesIfParentIsThere(a: Doc, b: Doc, r: Doc, x: OpID)
    requires Sound(a) && Sound(b) && Merged(a, b, r) && x in b.nodes
    requires Present(a.nodes, b.nodes[x].parent)
    ensures x in r.nodes
  {
    var ids: seq<OpID>, dels: seq<OpID> :| MergeOrder(b, ids) && DeadOrder(b, dels) && r == MergeVia(a, b, ids, dels);
    InsertArrives(a, b.nodes, ids, x);
    RunGrows(a, InsertAll(b.nodes, ids));
    DeletesMarkPresent(Run(a, InsertAll(b.nodes, ids)), dels);
  }

  /** r grew out of a, stayed within the union and, with n merges, got down to depth n. */
  ghost predicate Reached(a: Doc, b: Doc, n: nat, r: Doc)
    requires Sound(b)
  {
    && Sound(r) && Grows(a, r) && WithinUnion(a, b, r) && r.dead <= Union(a, b).dead
    && (forall x :: x in b.nodes && |Path(b.nodes, x)| <= n ==> x in r.nodes)
    && (n > 0 ==> forall t :: t in b.nodes && t in b.dead && t in r.nodes ==> t in r.dead)
  }

  lemma {:induction false} RepeatedMergeReaches(a: Doc, b: Doc, n: nat, r: Doc)
    requires Sound(a) && Sound(b) && MergedTimes(a, b, n, r)
    ensures Reached(a, b, n, r)
  {
    if n == 0 {
      forall x | x in b.nodes ensures |Path(b.nodes, x)| > 0 {
        PathEnds(b.nodes, x);
      }
    } else {
      var m :| MergedTimes(a, b, n - 1, m) && Merged(m, b, r);
      RepeatedMergeReaches(a, b, n - 1, m);
      MergeIsBetween(m, b, r);
      ReachesOneDeeper(a, b, n, m, r);
    }
  }

  lemma WithinUnionChains(a: Doc, b: Doc, m: Doc, r: Doc)
    requires WithinUnion(a, b, m) && WithinUnion(m, b, r) && Grows(a, m)
    ensures WithinUnion(a, b, r)
  {
  }

  lemma ReachesOneDeeper(a: Doc, b: Doc, n: nat, m: Doc, r: Doc)
    requires Sound(b) && n > 0 && Reached(a, b, n - 1, m)
    requires Between(m, b, r) && Merged(m, b, r)
    ensures Reached(a, b, n, r)
  {
    assert WithinUnion(a, b, r) by { WithinUnionChains(a, b, m, r); }
    assert r.dead <= Union(a, b).dead by { assert ROOT !in b.nodes; }
    forall x | x in b.nodes && |Path(b.nodes, x)| <= n ensures x in r.nodes {
      PathEnds(b.nodes, x);
      ChildArrivesIfParentIsThere(m, b, r, x);
    }
  }

  lemma FullTombstones(a: Doc, b: Doc, r: Doc)
    requires Sound(b) && Grows(a, r) && r.nodes == Union(a, b).nodes && r.dead <= Union(a, b).dead
    requires b.nodes != map[] ==> forall t :: t in b.nodes && t in b.dead && t in r.nodes ==> t in r.dead
    ensures r.dead == Union(a, b).dead
  {
  }

  lemma ReachedNodes(a: Doc, b: Doc, r: Doc)
    requires Grows(a, r) && WithinUnion(a, b, r) && forall x :: x in b.nodes ==> x in r.nodes
    ensures r.nodes == Union(a, b).nodes
  {
  }

  lemma ReachedIsUnion(a: Doc, b: Doc, n: nat, r: Doc)
    requires Sound(b) && Reached(a, b, n, r) && forall x :: x in b.nodes ==> |Path(b.nodes, x)| <= n
    ensures r == Union(a, b)
  {
    ReachedNodes(a, b, r);
    if b.nodes != map[] {
      var x :| x in b.nodes;
      PathEnds(b.nodes, x);
    }
    FullTombstones(a, b, r);
  }

  /** With no assumption on counters: as many merges as the longest parent chain of the
      source bring in all of it, for every order in every call. */
  lemma RepeatedMergeRepairs(a: Doc, b: Doc, n: nat, r: Doc)
    requires Sound(a) && Sound(b) && MergedTimes(a, b, n, r)
    requires forall x :: x in b.nodes ==> |Path(b.nodes, x)| <= n
    ensures r == Union(a, b)
  {
    RepeatedMergeReaches(a, b, n, r);
    ReachedIsUnion(a, b, n, r);
  }

  /** A node whose foreign parent has the larger counter never survives a merge into a tree
      that lacks the parent. */
  lemma LargerParentCounterLosesTheChild(a: Doc, b: Doc, r: Doc, x: OpID)
    requires Sound(a) && Sound(b) && Merged(a, b, r)
    requires x in b.nodes && x !in a.nodes && !Present(a.nodes, b.nodes[x].parent)
    requires x.counter < b.nodes[x].parent.counter
    ensures x !in r.nodes && r != Union(a, b)
  {
    var ids: seq<OpID>, dels: seq<OpID> :| MergeOrder(b, ids) && DeadOrder(b, dels) && r == MergeVia(a, b, ids, dels);
    var p := b.nodes[x].parent;
    forall j | 0 <= j < |ids| && ids[j] == x ensures p !in ids[..j] {
      assert forall i :: 0 <= i < j ==> ids[i].counter <= ids[j].counter;
    }
    DroppedForGood(a, b.nodes, ids, x);
    InsertsStayWithin(a, b, ids);
    DeletesMarkPresent(Run(a, InsertAll(b.nodes, ids)), dels);
    assert x in Union(a, b).nodes;
  }
}
