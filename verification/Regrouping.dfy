/** Associativity of merge: which documents can be merged in, one after the other or as one,
    by every receiver with the same outcome. */
module Regrouping {
  import opened OpIds
  import opened Forest
  import opened Traversal
  import opened Docs
  import opened Merging

  /** Both groupings of three documents always end alike, whatever the orders. */
  ghost predicate Associates(a: Doc, b: Doc, c: Doc) {
    forall ab, bc, left, right ::
      Merged(a, b, ab) && Merged(ab, c, left) && Merged(b, c, bc) && Merged(a, bc, right) ==> left == right
  }

  /** No parent but the sentinel shares its child's counter. */
  ghost predicate NoTies(d: Doc) {
    forall x :: x in d.nodes ==> d.nodes[x].parent == ROOT || d.nodes[x].parent.counter != x.counter
  }

  // ---------- Which nodes arrive when no counters tie ----------

  lemma {:induction false} OnlyListedArrive(a: Doc, ns: Nodes, ids: seq<OpID>, x: OpID)
    requires AllIn(ns, ids) && x !in ids && !Present(a.nodes, x)
    ensures !Present(Run(a, InsertAll(ns, ids)).nodes, x)
  {
    if ids != [] {
      var n := |ids| - 1;
      assert ids == ids[..n] + [ids[n]];
      assert InsertAll(ns, ids)[..n] == InsertAll(ns, ids[..n]);
      OnlyListedArrive(a, ns, ids[..n], x);
    }
  }

  /** What is listed after its parent has arrived arrives. */
  lemma ListedLaterArrives(a: Doc, ns: Nodes, ids: seq<OpID>, j: nat, x: OpID)
    requires Sound(a) && AllIn(ns, ids) && j <= |ids| && x in ids[j..]
    requires AllIn(ns, ids[..j]) && Present(Run(a, InsertAll(ns, ids[..j])).nodes, ns[x].parent)
    ensures Present(Run(a, InsertAll(ns, ids)).nodes, x)
  {
    var u, v := ids[..j], ids[j..];
    assert forall y :: y in v ==> y in ids;
    assert InsertAll(ns, ids) == InsertAll(ns, u) + InsertAll(ns, v);
    RunConcat(a, InsertAll(ns, u), InsertAll(ns, v));
    RunGrows(a, InsertAll(ns, u));
    InsertArrives(Run(a, InsertAll(ns, u)), ns, v, x);
  }

  lemma SmallerParentIsListedFirst(a: Doc, ns: Nodes, ids: seq<OpID>, x: OpID)
    requires Sound(a) && AllIn(ns, ids) && NoRepeats(ids) && ByCounter(ids) && x in ids
    requires ns[x].parent in ids && ns[x].parent.counter < x.counter
    requires Present(Run(a, InsertAll(ns, ids)).nodes, ns[x].parent)
    ensures Present(Run(a, InsertAll(ns, ids)).nodes, x)
  {
    var p := ns[x].parent;
    var j :| 0 <= j < |ids| && ids[j] == x;
    var i :| 0 <= i < |ids| && ids[i] == p;
    assert i < j;
    PrefixBringsIn(a, ns, ids, j, p);
    assert x == ids[j..][0];
    ListedLaterArrives(a, ns, ids, j, x);
  }

  lemma ArrivesAfterSmallerParent(a: Doc, b: Doc, r: Doc, x: OpID)
    requires Sound(a) && Sound(b) && Merged(a, b, r) && x in b.nodes && ROOT !in r.nodes
    requires b.nodes[x].parent in r.nodes && b.nodes[x].parent in b.nodes && b.nodes[x].parent.counter < x.counter
    ensures x in r.nodes
  {
    var ids: seq<OpID>, dels: seq<OpID> :| MergeOrder(b, ids) && DeadOrder(b, dels) && r == MergeVia(a, b, ids, dels);
    RunGrows(a, InsertAll(b.nodes, ids));
    DeletesMarkPresent(Run(a, InsertAll(b.nodes, ids)), dels);
    SmallerParentIsListedFirst(a, b.nodes, ids, x);
  }

  lemma InsertAllSplits(ns: Nodes, ids: seq<OpID>, j: nat)
    requires AllIn(ns, ids) && j <= |ids|
    ensures AllIn(ns, ids[..j]) && AllIn(ns, ids[j..])
    ensures InsertAll(ns, ids) == InsertAll(ns, ids[..j]) + InsertAll(ns, ids[j..])
  {
  }

  /** What arrives and is listed among the first j arrives with the first j. */
  lemma PrefixBringsIn(a: Doc, ns: Nodes, ids: seq<OpID>, j: nat, p: OpID)
    requires Sound(a) && AllIn(ns, ids) && NoRepeats(ids) && j <= |ids| && p in ids[..j]
    requires Present(Run(a, InsertAll(ns, ids)).nodes, p)
    ensures AllIn(ns, ids[..j]) && Present(Run(a, InsertAll(ns, ids[..j])).nodes, p)
  {
    var u, v := ids[..j], ids[j..];
    InsertAllSplits(ns, ids, j);
    RunConcat(a, InsertAll(ns, u), InsertAll(ns, v));
    assert p !in v;
    if !Present(Run(a, InsertAll(ns, u)).nodes, p) {
      OnlyListedArrive(Run(a, InsertAll(ns, u)), ns, v, p);
    }
  }

  /** Without a tie the orders decide nothing: a new node arrives if and only if its parent is
      in the receiver, or arrives and has the smaller counter. */
  lemma ArrivalIsDecided(a: Doc, b: Doc, r: Doc, x: OpID)
    requires Sound(a) && Sound(b) && Merged(a, b, r) && x in b.nodes && x !in a.nodes
    requires var p := b.nodes[x].parent; Present(a.nodes, p) || p.counter != x.counter
    ensures var p := b.nodes[x].parent;
            x in r.nodes <==> Present(a.nodes, p) || (p.counter < x.counter && p in r.nodes)
  {
    var p := b.nodes[x].parent;
    MergeIsBetween(a, b, r);
    if Present(a.nodes, p) {
      ChildArrivesIfParentIsThere(a, b, r, x);
    } else if p.counter < x.counter {
      if p in r.nodes {
        ArrivesAfterSmallerParent(a, b, r, x);
      }
      if x in r.nodes { ParentIsHigher(r.nodes, x); }
    } else {
      LargerParentCounterLosesTheChild(a, b, r, x);
    }
  }

  // ---------- Laddered and without ties is enough ----------

  lemma {:induction false} FirstSourceArrivesAlike(a: Doc, b: Doc, c: Doc, ab: Doc, right: Doc, x: OpID)
    requires Sound(a) && Sound(b) && Sound(Union(b, c)) && NoTies(b)
    requires Merged(a, b, ab) && Merged(a, Union(b, c), right) && x in b.nodes
    ensures x in ab.nodes <==> x in right.nodes
    decreases Level(b.nodes, x)
  {
    MergeIsBetween(a, b, ab);
    MergeIsBetween(a, Union(b, c), right);
    if x !in a.nodes {
      var p := b.nodes[x].parent;
      ParentIsHigher(b.nodes, x);
      ArrivalIsDecided(a, b, ab, x);
      ArrivalIsDecided(a, Union(b, c), right, x);
      if p != ROOT {
        FirstSourceArrivesAlike(a, b, c, ab, right, p);
      }
    }
  }

  lemma {:induction false} SecondSourceArrives(a: Doc, b: Doc, c: Doc, right: Doc, x: OpID)
    requires Sound(a) && Sound(c) && Sound(Union(b, c)) && Agree(b.nodes, c.nodes) && Laddered(c)
    requires Merged(a, Union(b, c), right) && x in c.nodes
    ensures x in right.nodes
    decreases Level(c.nodes, x)
  {
    MergeIsBetween(a, Union(b, c), right);
    if x !in a.nodes {
      var p := c.nodes[x].parent;
      ParentIsHigher(c.nodes, x);
      if p != ROOT {
        SecondSourceArrives(a, b, c, right, p);
      }
      ArrivalIsDecided(a, Union(b, c), right, x);
    }
  }

  lemma LadderedAssociates(a: Doc, b: Doc, c: Doc, ab: Doc, bc: Doc, left: Doc, right: Doc)
    requires Sound(a) && Sound(b) && Sound(c) && Agree(b.nodes, c.nodes) && Laddered(c) && NoTies(b)
    requires Merged(a, b, ab) && Merged(ab, c, left) && Merged(b, c, bc) && Merged(a, bc, right)
    ensures left == right
  {
    MergeIsBetween(a, b, ab);
    MergeIsBetween(b, c, bc);
    LadderedIsMergeable(ab, c);
    LadderedIsMergeable(b, c);
    MergeIsUnion(ab, c, left);
    MergeIsUnion(b, c, bc);
    MergeIsBetween(a, bc, right);
    forall x | x in b.nodes ensures x in ab.nodes <==> x in right.nodes {
      FirstSourceArrivesAlike(a, b, c, ab, right, x);
    }
    forall x | x in c.nodes ensures x in right.nodes {
      SecondSourceArrives(a, b, c, right, x);
    }
    SameNodesSameDoc(a, b, c, ab, right);
  }

  lemma SameNodesSameDoc(a: Doc, b: Doc, c: Doc, ab: Doc, right: Doc)
    requires Sound(b) && Sound(c) && Agree(b.nodes, c.nodes)
    requires Between(a, b, ab) && Between(a, Union(b, c), right)
    requires forall x :: x in b.nodes ==> (x in ab.nodes <==> x in right.nodes)
    requires forall x :: x in c.nodes ==> x in right.nodes
    ensures Union(ab, c) == right
  {
    SameNodes(a, b, c, ab, right);
    SameMarks(a, b, c, ab, right);
  }

  lemma SameNodes(a: Doc, b: Doc, c: Doc, ab: Doc, right: Doc)
    requires Agree(b.nodes, c.nodes) && Grows(a, ab) && Grows(a, right)
    requires WithinUnion(a, b, ab) && WithinUnion(a, Union(b, c), right)
    requires forall x :: x in b.nodes ==> (x in ab.nodes <==> x in right.nodes)
    requires forall x :: x in c.nodes ==> x in right.nodes
    ensures Union(ab, c).nodes == right.nodes
  {
    forall x ensures x in Union(ab, c).nodes <==> x in right.nodes {
      assert x in Union(ab, c).nodes <==> x in ab.nodes || x in c.nodes;
      assert x in right.nodes ==> x in a.nodes || x in b.nodes || x in c.nodes;
      assert x in ab.nodes ==> x in a.nodes || x in b.nodes;
    }
    forall x | x in right.nodes ensures Union(ab, c).nodes[x] == right.nodes[x] {
      assert x in ab.nodes || x !in b.nodes;
    }
  }

  lemma SameMarks(a: Doc, b: Doc, c: Doc, ab: Doc, right: Doc)
    requires ROOT !in b.nodes && ROOT !in c.nodes
    requires forall id :: id in b.dead ==> Present(b.nodes, id)
    requires forall id :: id in c.dead ==> Present(c.nodes, id)
    requires Tombstoned(a, b, ab) && Tombstoned(a, Union(b, c), right)
    requires forall x :: x in b.nodes ==> (x in ab.nodes <==> x in right.nodes)
    requires forall x :: x in c.nodes ==> x in right.nodes
    ensures Union(ab, c).dead == right.dead
  {
    forall t ensures t in Union(ab, c).dead <==> t in right.dead {
      assert t in ab.dead <==> t in a.dead || (t in b.dead && t in b.nodes && t in ab.nodes);
      assert t in right.dead <==> t in a.dead || (t in Union(b, c).dead && t in Union(b, c).nodes && t in right.nodes);
    }
  }

  // ---------- And needed ----------

  /** A node and all its ancestors. */
  lemma {:induction false} AncestorDoc(ns: Nodes, p: OpID) returns (a: Doc)
    requires Grounded(ns) && Present(ns, p)
    ensures Sound(a) && Present(a.nodes, p) && a.dead == {}
    ensures forall id :: id in a.nodes ==> id in ns && a.nodes[id] == ns[id] && Level(ns, id) <= Level(ns, p)
    decreases Level(ns, p)
  {
    if p == ROOT {
      EmptyIsSound();
      a := EMPTY;
    } else {
      ParentIsHigher(ns, p);
      a := AncestorDoc(ns, ns[p].parent);
      GroundedInsert(a.nodes, p, ns[p]);
      a := Doc(a.nodes[p := ns[p]], {});
    }
  }

  /** A receiver that shows up a node y of c whose parent is in neither the receiver nor b. */
  lemma SecondSourceUnseen(b: Doc, c: Doc, y: OpID) returns (a: Doc)
    requires Sound(b) && Sound(c) && Agree(b.nodes, c.nodes) && y in c.nodes
    requires c.nodes[y].parent != ROOT && c.nodes[y].parent.counter >= y.counter && c.nodes[y].parent !in b.nodes
    ensures Sound(a) && Agree(a.nodes, b.nodes) && Agree(a.nodes, c.nodes) && !Associates(a, b, c)
  {
    var p := c.nodes[y].parent;
    ParentIsHigher(c.nodes, y);
    a := AncestorDoc(c.nodes, p);
    if y in b.nodes { ParentIsHigher(b.nodes, y); }
    var ab := SomeMergeExists(a, b);
    MergeIsBetween(a, b, ab);
    var left := SomeMergeExists(ab, c);
    ChildArrivesIfParentIsThere(ab, c, left, y);
    var bc := SomeMergeLoses(b, c, y);
    MergeIsBetween(b, c, bc);
    var right := SomeMergeExists(a, bc);
    MergeIsBetween(a, bc, right);
  }

  /** The same when b has the parent: the receiver is only up to the grandparent. */
  lemma SecondSourceParentSeen(b: Doc, c: Doc, y: OpID) returns (a: Doc)
    requires Sound(b) && Sound(c) && Agree(b.nodes, c.nodes) && y in c.nodes
    requires c.nodes[y].parent != ROOT && c.nodes[y].parent.counter >= y.counter && c.nodes[y].parent in b.nodes
    ensures Sound(a) && Agree(a.nodes, b.nodes) && Agree(a.nodes, c.nodes) && !Associates(a, b, c)
  {
    var p := c.nodes[y].parent;
    ParentIsHigher(c.nodes, y);
    ParentIsHigher(c.nodes, p);
    a := AncestorDoc(c.nodes, c.nodes[p].parent);
    var ab := SomeMergeExists(a, b);
    MergeIsBetween(a, b, ab);
    ChildArrivesIfParentIsThere(a, b, ab, p);
    var left := SomeMergeExists(ab, c);
    ChildArrivesIfParentIsThere(ab, c, left, y);
    var bc := SomeMergeExists(b, c);
    MergeIsBetween(b, c, bc);
    var right := LosesWherePossible(a, bc, y, p);
  }

  lemma LosesWherePossible(a: Doc, b: Doc, y: OpID, p: OpID) returns (r: Doc)
    requires Sound(a) && Sound(b) && y !in a.nodes && !Present(a.nodes, p) && y.counter <= p.counter
    requires y in b.nodes ==> b.nodes[y].parent == p
    ensures Merged(a, b, r) && y !in r.nodes
  {
    if y in b.nodes {
      r := SomeMergeLoses(a, b, y);
    } else {
      r := SomeMergeExists(a, b);
      MergeIsBetween(a, b, r);
    }
  }

  lemma ListedFirstArrivesFirst(a: Doc, ns: Nodes, ids: seq<OpID>, p: OpID, y: OpID)
    requires Sound(a) && AllIn(ns, ids) && p in ids && y in ids && p != y && ns[y].parent == p
    requires NeverAfter(ids, p, y) && Present(a.nodes, ns[p].parent)
    ensures Present(Run(a, InsertAll(ns, ids)).nodes, y)
  {
    var j :| 0 <= j < |ids| && ids[j] == y;
    var i :| 0 <= i < |ids| && ids[i] == p;
    assert forall l :: 0 <= l < i ==> ids[l] in ids[..i];
    assert p in ids[..j] && forall z :: z in ids[..j] ==> z in ids;
    InsertArrives(a, ns, ids[..j], p);
    assert y == ids[j..][0];
    ListedLaterArrives(a, ns, ids, j, y);
  }

  /** With equal counters the orders decide: some merge keeps the child. */
  lemma SomeMergeKeeps(a: Doc, b: Doc, y: OpID) returns (r: Doc)
    requires Sound(a) && Sound(b) && y in b.nodes && b.nodes[y].parent in b.nodes
    requires var p := b.nodes[y].parent;
             p != y && p.counter <= y.counter && Present(a.nodes, b.nodes[p].parent)
    ensures Merged(a, b, r) && y in r.nodes
  {
    var p := b.nodes[y].parent;
    var ids := OrderAgainst(b.nodes.Keys, p, y);
    var dels := OrderAgainst(b.nodes.Keys * b.dead, p, p);
    r := MergeVia(a, b, ids, dels);
    assert MergeOrder(b, ids) && DeadOrder(b, dels);
    ListedFirstArrivesFirst(a, b.nodes, ids, p, y);
    RunGrows(a, InsertAll(b.nodes, ids));
    DeletesMarkPresent(Run(a, InsertAll(b.nodes, ids)), dels);
  }

  /** A receiver that shows up a tie in b. */
  lemma FirstSourceTies(b: Doc, c: Doc, y: OpID) returns (a: Doc)
    requires Sound(b) && Sound(c) && Agree(b.nodes, c.nodes) && Laddered(c) && y in b.nodes
    requires b.nodes[y].parent != ROOT && b.nodes[y].parent.counter == y.counter
    ensures Sound(a) && Agree(a.nodes, b.nodes) && Agree(a.nodes, c.nodes) && !Associates(a, b, c)
  {
    var p := b.nodes[y].parent;
    ParentIsHigher(b.nodes, y);
    ParentIsHigher(b.nodes, p);
    a := AncestorDoc(b.nodes, b.nodes[p].parent);
    var ab := SomeMergeLoses(a, b, y);
    MergeIsBetween(a, b, ab);
    var left := SomeMergeExists(ab, c);
    MergeIsBetween(ab, c, left);
    var bc := SomeMergeExists(b, c);
    MergeIsBetween(b, c, bc);
    var right := SomeMergeKeeps(a, bc, y);
  }

  ghost predicate AgreesWithBoth(a: Doc, b: Doc, c: Doc) {
    Agree(a.nodes, b.nodes) && Agree(a.nodes, c.nodes)
  }

  /** Merging b and then c ends like merging the two as one, for every receiver, every iteration
      order and every order of ties, if and only if every parent in c has a smaller counter and
      no parent in b an equal one. */
  lemma AssociatesIff(b: Doc, c: Doc)
    requires Sound(b) && Sound(c) && Agree(b.nodes, c.nodes)
    ensures (forall a :: Sound(a) && AgreesWithBoth(a, b, c) ==> Associates(a, b, c)) <==> Laddered(c) && NoTies(b)
  {
    if Laddered(c) && NoTies(b) {
      forall a | Sound(a) ensures Associates(a, b, c) {
        forall ab, bc, left, right | Merged(a, b, ab) && Merged(ab, c, left) && Merged(b, c, bc) && Merged(a, bc, right)
          ensures left == right
        {
          LadderedAssociates(a, b, c, ab, bc, left, right);
        }
      }
    } else {
      var a := WitnessAgainst(b, c);
      assert AgreesWithBoth(a, b, c);
    }
  }

  lemma WitnessAgainst(b: Doc, c: Doc) returns (a: Doc)
    requires Sound(b) && Sound(c) && Agree(b.nodes, c.nodes) && !(Laddered(c) && NoTies(b))
    ensures Sound(a) && Agree(a.nodes, b.nodes) && Agree(a.nodes, c.nodes) && !Associates(a, b, c)
  {
    if !Laddered(c) {
      var y :| y in c.nodes && c.nodes[y].parent != ROOT && c.nodes[y].parent.counter >= y.counter;
      if c.nodes[y].parent in b.nodes {
        a := SecondSourceParentSeen(b, c, y);
      } else {
        a := SecondSourceUnseen(b, c, y);
      }
    } else {
      var y :| y in b.nodes && b.nodes[y].parent != ROOT && b.nodes[y].parent.counter == y.counter;
      a := FirstSourceTies(b, c, y);
    }
  }
}
