/** The least and the greatest outcome of a merge, and with them when two groupings of three given
    documents always end alike. */
module Outcomes {
  import opened OpIds
  import opened Forest
  import opened Traversal
  import opened Docs
  import opened Merging
  import opened Regrouping

  /** The node of s gets into a, equal counters counting for it or against it. */
  ghost predicate Arrives(a: Doc, s: Doc, x: OpID, ties: bool)
    requires Grounded(s.nodes) && x in s.nodes
    decreases Level(s.nodes, x)
  {
    ParentIsHigher(s.nodes, x);
    var p := s.nodes[x].parent;
    || x in a.nodes || Present(a.nodes, p)
    || ((p.counter < x.counter || (ties && p.counter == x.counter)) && Arrives(a, s, p, ties))
  }

  ghost function Arriving(a: Doc, s: Doc, ties: bool): set<OpID>
    requires Grounded(s.nodes)
  {
    set x | x in s.nodes && Arrives(a, s, x, ties)
  }

  /** What a.Merge(s) leaves if every tie is sorted for, or against, the child. */
  ghost function Outcome(a: Doc, s: Doc, ties: bool): Doc
    requires Grounded(s.nodes)
  {
    Doc((map x | x in Arriving(a, s, ties) :: s.nodes[x]) + a.nodes,
        a.dead + (s.dead * Arriving(a, s, ties)))
  }

  // ---------- Arrival is decided by the order ----------

  /** A new node under a new parent arrives if and only if the parent does and is listed first. */
  lemma ArrivalByOrder(a: Doc, ns: Nodes, ids: seq<OpID>, i: nat, j: nat)
    requires Sound(a) && AllIn(ns, ids) && NoRepeats(ids) && i < |ids| && j < |ids| && ids[i] in ids && ids[j] in ids
    requires ids[i] == ns[ids[j]].parent && !Present(a.nodes, ids[i]) && !Present(a.nodes, ids[j])
    ensures var r := Run(a, InsertAll(ns, ids));
            Present(r.nodes, ids[j]) <==> i < j && Present(r.nodes, ids[i])
  {
    var r, x, p := Run(a, InsertAll(ns, ids)), ids[j], ids[i];
    if i < j {
      InsertedParentIsThere(a, ns, ids, x);
      if Present(r.nodes, p) {
        assert p == ids[..j][i];
        PrefixBringsIn(a, ns, ids, j, p);
        assert x == ids[j..][0];
        ListedLaterArrives(a, ns, ids, j, x);
      }
    } else {
      forall k | 0 <= k < |ids| && ids[k] == x ensures p !in ids[..k] {
        assert k == j;
      }
      DroppedForGood(a, ns, ids, x);
    }
  }

  lemma {:induction false} InsertedParentIsThere(a: Doc, ns: Nodes, ids: seq<OpID>, x: OpID)
    requires Sound(a) && AllIn(ns, ids) && x in ns && !Present(a.nodes, x)
    ensures var r := Run(a, InsertAll(ns, ids));
            Present(r.nodes, x) ==> Present(r.nodes, ns[x].parent)
  {
    if ids != [] {
      var n := |ids| - 1;
      assert ids == ids[..n] + [ids[n]];
      assert InsertAll(ns, ids)[..n] == InsertAll(ns, ids[..n]);
      InsertedParentIsThere(a, ns, ids[..n], x);
    }
  }

  /** Whatever the order: what arrives against all ties arrives, and nothing arrives that does not
      arrive with all ties. */
  lemma {:induction false} ArrivalIsBounded(a: Doc, s: Doc, ids: seq<OpID>, x: OpID)
    requires Sound(a) && Sound(s) && MergeOrder(s, ids) && x in s.nodes
    ensures var r := Run(a, InsertAll(s.nodes, ids));
            && (Arrives(a, s, x, false) ==> Present(r.nodes, x))
            && (Present(r.nodes, x) ==> Arrives(a, s, x, true))
    decreases Level(s.nodes, x)
  {
    var p := s.nodes[x].parent;
    ParentIsHigher(s.nodes, x);
    RunGrows(a, InsertAll(s.nodes, ids));
    if x !in a.nodes && Present(a.nodes, p) {
      InsertArrives(a, s.nodes, ids, x);
    } else if x !in a.nodes {
      var i := PlaceOf(ids, p);
      var j := PlaceOf(ids, x);
      ArrivalByOrder(a, s.nodes, ids, i, j);
      ArrivalIsBounded(a, s, ids, p);
    }
  }

  /** Equal counters of parent and child are sorted for the child, or against it. */
  ghost predicate TiesSorted(ns: Nodes, ids: seq<OpID>, ties: bool)
    requires AllIn(ns, ids)
  {
    forall i, j :: 0 <= i < |ids| && 0 <= j < |ids| ==> TieSorted(ns, ids, i, j, ties)
  }

  ghost predicate TieSorted(ns: Nodes, ids: seq<OpID>, i: nat, j: nat, ties: bool)
    requires AllIn(ns, ids) && i < |ids| && j < |ids|
  {
    assert ids[j] in ids;
    ns[ids[j]].parent == ids[i] && ids[i].counter == ids[j].counter ==> (i < j <==> ties)
  }

  lemma {:induction false} ArrivalWithTies(a: Doc, s: Doc, ids: seq<OpID>, ties: bool, x: OpID)
    requires Sound(a) && Sound(s) && MergeOrder(s, ids) && TiesSorted(s.nodes, ids, ties) && x in s.nodes
    ensures Present(Run(a, InsertAll(s.nodes, ids)).nodes, x) <==> Arrives(a, s, x, ties)
    decreases Level(s.nodes, x)
  {
    var p := s.nodes[x].parent;
    ParentIsHigher(s.nodes, x);
    RunGrows(a, InsertAll(s.nodes, ids));
    if x !in a.nodes && Present(a.nodes, p) {
      InsertArrives(a, s.nodes, ids, x);
    } else if x !in a.nodes {
      var i := PlaceOf(ids, p);
      var j := PlaceOf(ids, x);
      ArrivalByOrder(a, s.nodes, ids, i, j);
      assert TieSorted(s.nodes, ids, i, j, ties);
      ArrivalWithTies(a, s, ids, ties, p);
    }
  }

  // ---------- Both extremes occur ----------

  /** By counter, then by rank. */
  ghost predicate ByRank(ids: seq<OpID>, rank: map<OpID, int>) {
    forall i, j :: 0 <= i < j < |ids| && ids[i] in rank && ids[j] in rank && ids[i].counter == ids[j].counter ==>
      rank[ids[i]] <= rank[ids[j]]
  }

  lemma {:induction false} HighestByRank(s: set<OpID>, rank: map<OpID, int>) returns (m: OpID)
    requires s != {} && s <= rank.Keys
    ensures m in s
    ensures forall y :: y in s ==> y.counter < m.counter || (y.counter == m.counter && rank[y] <= rank[m])
    decreases |s|
  {
    m :| m in s;
    if s != {m} {
      var rest := HighestByRank(s - {m}, rank);
      if m.counter < rest.counter || (m.counter == rest.counter && rank[m] <= rank[rest]) { m := rest; }
    }
  }

  lemma {:induction false} SortByRank(s: set<OpID>, rank: map<OpID, int>) returns (ids: seq<OpID>)
    requires s <= rank.Keys
    ensures NoRepeats(ids) && ByCounter(ids) && ByRank(ids, rank)
    ensures forall id :: id in ids <==> id in s
    decreases |s|
  {
    if s == {} {
      ids := [];
    } else {
      var m := HighestByRank(s, rank);
      var init := SortByRank(s - {m}, rank);
      ids := init + [m];
      forall i | 0 <= i < |init| ensures init[i] in s && init[i] != m {
        assert init[i] in init;
      }
      forall id ensures id in ids <==> id in s {
        assert id in init <==> id in s - {m};
      }
    }
  }

  function Signed(level: int, ties: bool): int {
    if ties then level else -level
  }

  lemma SomeOrderSortsTies(s: Doc, ties: bool) returns (ids: seq<OpID>)
    requires Sound(s)
    ensures MergeOrder(s, ids) && TiesSorted(s.nodes, ids, ties)
  {
    var rank := map x | x in s.nodes :: Signed(Level(s.nodes, x), ties);
    ids := SortByRank(s.nodes.Keys, rank);
    forall i, j | 0 <= i < |ids| && 0 <= j < |ids| ensures TieSorted(s.nodes, ids, i, j, ties) {
      assert ids[i] in ids && ids[j] in ids;
      ParentIsHigher(s.nodes, ids[j]);
    }
  }

  lemma OutcomeOf(a: Doc, s: Doc, ties: bool, r: Doc)
    requires Sound(a) && Sound(s) && Between(a, s, r)
    requires forall x :: x in s.nodes ==> (x in r.nodes <==> Arrives(a, s, x, ties))
    ensures r == Outcome(a, s, ties)
  {
    assert r.nodes == Outcome(a, s, ties).nodes;
    forall t ensures t in r.dead <==> t in Outcome(a, s, ties).dead {
      assert t in r.dead <==> t in a.dead || (t in s.dead && t in s.nodes && t in r.nodes);
    }
  }

  /** Each of the two extremes is the outcome of some merge. */
  lemma OutcomeIsMerged(a: Doc, s: Doc, ties: bool)
    requires Sound(a) && Sound(s)
    ensures Merged(a, s, Outcome(a, s, ties)) && Sound(Outcome(a, s, ties))
  {
    var ids := SomeOrderSortsTies(s, ties);
    var dels := OrderAgainst(s.nodes.Keys * s.dead, ROOT, ROOT);
    var r := MergeVia(a, s, ids, dels);
    assert MergeOrder(s, ids) && DeadOrder(s, dels);
    MergeViaIsBetween(a, s, ids, dels);
    InsertsStayWithin(a, s, ids);
    DeletesMarkPresent(Run(a, InsertAll(s.nodes, ids)), dels);
    forall x | x in s.nodes ensures x in r.nodes <==> Arrives(a, s, x, ties) {
      ArrivalWithTies(a, s, ids, ties, x);
    }
    OutcomeOf(a, s, ties, r);
  }

  // ---------- Every outcome is between the two ----------

  ghost predicate Within(d: Doc, d': Doc) {
    (forall id :: id in d.nodes ==> id in d'.nodes && d'.nodes[id] == d.nodes[id]) && d.dead <= d'.dead
  }

  lemma BoundedNodes(a: Doc, s: Doc, r: Doc)
    requires Grounded(s.nodes) && Between(a, s, r)
    requires forall x :: x in s.nodes ==>
               (Arrives(a, s, x, false) ==> x in r.nodes) && (x in r.nodes ==> Arrives(a, s, x, true))
    ensures Within(Outcome(a, s, false), r) && Within(r, Outcome(a, s, true))
  {
    forall t | t in r.dead ensures t in Outcome(a, s, true).dead {
      assert t in a.dead || (t in s.dead && t in s.nodes && t in r.nodes);
    }
    forall t | t in Outcome(a, s, false).dead ensures t in r.dead {
      assert t in a.dead || (t in s.dead && t in s.nodes && t in r.nodes);
    }
  }

  lemma MergedIsBounded(a: Doc, s: Doc, r: Doc)
    requires Sound(a) && Sound(s) && Merged(a, s, r)
    ensures Sound(r) && Within(Outcome(a, s, false), r) && Within(r, Outcome(a, s, true))
  {
    MergeIsBetween(a, s, r);
    var ids: seq<OpID>, dels: seq<OpID> :| MergeOrder(s, ids) && DeadOrder(s, dels) && r == MergeVia(a, s, ids, dels);
    InsertsStayWithin(a, s, ids);
    DeletesMarkPresent(Run(a, InsertAll(s.nodes, ids)), dels);
    forall x | x in s.nodes
      ensures (Arrives(a, s, x, false) ==> x in r.nodes) && (x in r.nodes ==> Arrives(a, s, x, true))
    {
      ArrivalIsBounded(a, s, ids, x);
    }
    BoundedNodes(a, s, r);
  }

  lemma {:induction false} ArrivesMore(a: Doc, a': Doc, s: Doc, s': Doc, x: OpID, ties: bool)
    requires Grounded(s.nodes) && Grounded(s'.nodes) && Within(a, a') && Within(s, s') && x in s.nodes
    requires Arrives(a, s, x, ties)
    ensures Arrives(a', s', x, ties)
    decreases Level(s.nodes, x)
  {
    var p := s.nodes[x].parent;
    ParentIsHigher(s.nodes, x);
    if x !in a.nodes && !Present(a.nodes, p) {
      ArrivesMore(a, a', s, s', p, ties);
    }
  }

  /** More in the receiver and more in the source: more in the outcome. */
  lemma OutcomeGrows(a: Doc, a': Doc, s: Doc, s': Doc, ties: bool)
    requires Grounded(s.nodes) && Grounded(s'.nodes) && Within(a, a') && Within(s, s')
    requires forall x :: x in a'.nodes && x in s.nodes && x !in a.nodes ==> a'.nodes[x] == s.nodes[x]
    ensures Within(Outcome(a, s, ties), Outcome(a', s', ties))
  {
    forall x | x in s.nodes && Arrives(a, s, x, ties) ensures Arrives(a', s', x, ties) {
      ArrivesMore(a, a', s, s', x, ties);
    }
  }

  lemma Squeezed(d: Doc, r: Doc)
    requires Within(d, r) && Within(r, d)
    ensures r == d
  {
  }

  // ---------- One triple ----------

  /** What a has been given of b, where c knows it too, is c's. */
  lemma GivenAgrees(a: Doc, b: Doc, c: Doc, d: Doc, d': Doc)
    requires Agree(b.nodes, c.nodes) && Grows(a, d) && WithinUnion(a, b, d')
    ensures forall x :: x in d'.nodes && x in c.nodes && x !in d.nodes ==> d'.nodes[x] == c.nodes[x]
  {
  }

  lemma LeftIsBounded(a: Doc, b: Doc, c: Doc, ab: Doc, left: Doc)
    requires Sound(a) && Sound(b) && Sound(c) && Agree(b.nodes, c.nodes)
    requires Merged(a, b, ab) && Merged(ab, c, left)
    ensures Within(Outcome(Outcome(a, b, false), c, false), left)
    ensures Within(left, Outcome(Outcome(a, b, true), c, true))
  {
    var low, high := Outcome(a, b, false), Outcome(a, b, true);
    OutcomeIsMerged(a, b, false);
    OutcomeIsMerged(a, b, true);
    MergeIsBetween(a, b, low);
    MergeIsBetween(a, b, high);
    MergeIsBetween(a, b, ab);
    MergedIsBounded(a, b, ab);
    MergedIsBounded(ab, c, left);
    GivenAgrees(a, b, c, low, ab);
    GivenAgrees(a, b, c, ab, high);
    OutcomeGrows(low, ab, c, c, false);
    OutcomeGrows(ab, high, c, c, true);
  }

  lemma RightIsBounded(a: Doc, b: Doc, c: Doc, bc: Doc, right: Doc)
    requires Sound(a) && Sound(b) && Sound(c) && Merged(b, c, bc) && Merged(a, bc, right)
    ensures Sound(Outcome(b, c, false)) && Within(Outcome(a, Outcome(b, c, false), false), right)
    ensures Sound(Outcome(b, c, true)) && Within(right, Outcome(a, Outcome(b, c, true), true))
  {
    OutcomeIsMerged(b, c, false);
    OutcomeIsMerged(b, c, true);
    MergedIsBounded(b, c, bc);
    MergedIsBounded(a, bc, right);
    OutcomeGrows(a, a, Outcome(b, c, false), bc, false);
    OutcomeGrows(a, a, bc, Outcome(b, c, true), true);
  }

  ghost function LeftOutcome(a: Doc, b: Doc, c: Doc, ties: bool): Doc
    requires Sound(a) && Sound(b) && Sound(c)
  {
    Outcome(Outcome(a, b, ties), c, ties)
  }

  ghost function RightOutcome(a: Doc, b: Doc, c: Doc, ties: bool): Doc
    requires Sound(a) && Sound(b) && Sound(c)
  {
    OutcomeIsMerged(b, c, ties);
    Outcome(a, Outcome(b, c, ties), ties)
  }

  /** Two groupings of three given documents always end alike, whatever the orders, if and only if
      the four merges with every tie sorted one way and with every tie sorted the other way give
      one document. */
  lemma AssociatesHereIff(a: Doc, b: Doc, c: Doc)
    requires Sound(a) && Sound(b) && Sound(c) && Agree(b.nodes, c.nodes)
    ensures Associates(a, b, c) <==>
            && LeftOutcome(a, b, c, false) == LeftOutcome(a, b, c, true)
            && LeftOutcome(a, b, c, true) == RightOutcome(a, b, c, true)
            && RightOutcome(a, b, c, true) == RightOutcome(a, b, c, false)
  {
    if Associates(a, b, c) {
      ExtremesAreAlike(a, b, c, false, false);
      ExtremesAreAlike(a, b, c, true, false);
      ExtremesAreAlike(a, b, c, true, true);
    }
    if && LeftOutcome(a, b, c, false) == LeftOutcome(a, b, c, true)
       && LeftOutcome(a, b, c, true) == RightOutcome(a, b, c, true)
       && RightOutcome(a, b, c, true) == RightOutcome(a, b, c, false) {
      forall ab, bc, left, right | Merged(a, b, ab) && Merged(ab, c, left) && Merged(b, c, bc) && Merged(a, bc, right)
        ensures left == right
      {
        LeftIsBounded(a, b, c, ab, left);
        RightIsBounded(a, b, c, bc, right);
        Squeezed(LeftOutcome(a, b, c, true), left);
        Squeezed(RightOutcome(a, b, c, true), right);
      }
    }
  }

  lemma ExtremesAreAlike(a: Doc, b: Doc, c: Doc, one: bool, other: bool)
    requires Sound(a) && Sound(b) && Sound(c) && Associates(a, b, c)
    ensures LeftOutcome(a, b, c, one) == RightOutcome(a, b, c, other)
  {
    OutcomeIsMerged(a, b, one);
    OutcomeIsMerged(Outcome(a, b, one), c, one);
    OutcomeIsMerged(b, c, other);
    OutcomeIsMerged(a, Outcome(b, c, other), other);
  }
}
