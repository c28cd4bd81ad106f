/** Where a typed character lands, and exactly when that is the requested position. */
module Placement {
  import opened OpIds
  import opened Forest
  import opened Traversal
  import opened Docs

  /** s with x put in at index k. */
  function PutIn(s: seq<OpID>, k: nat, x: OpID): seq<OpID>
    requires k <= |s|
  {
    s[..k] + [x] + s[k..]
  }

  lemma PutInFirst(s: seq<OpID>, k: nat, x: OpID)
    requires k <= |s| && x !in s
    ensures PutIn(s, k, x)[k] == x
    ensures forall i :: 0 <= i < k ==> PutIn(s, k, x)[i] != x
  {
  }

  lemma PutInDecidesIndex(s: seq<OpID>, x: OpID, k: nat, m: nat)
    requires k <= |s| && m <= |s| && x !in s && PutIn(s, k, x) == PutIn(s, m, x)
    ensures k == m
  {
    PutInFirst(s, k, x);
    PutInFirst(s, m, x);
  }

  /** A fresh live node joins the visible text at one place and moves nothing else. */
  lemma InsertJoinsVisible(d: Doc, id: OpID, e: Entry) returns (m: nat)
    requires Sound(d) && !Present(d.nodes, id) && Present(d.nodes, e.parent)
    ensures Sound(ApplyInsert(d, id, e))
    ensures m <= |VisibleIds(d)| && VisibleIds(ApplyInsert(d, id, e)) == PutIn(VisibleIds(d), m, id)
  {
    ApplyGrows(d, Insert(id, e));
    InsertSplices(d.nodes, id, e);
    var s, t := Order(d.nodes), Order(d.nodes[id := e]);
    var k :| 0 <= k <= |s| && t == s[..k] + [id] + s[k..];
    m := |Visible(s[..k], d.dead)|;
    VisibleAroundSplice(s, k, id, d.dead);
  }

  lemma VisibleAroundSplice(s: seq<OpID>, k: nat, id: OpID, dead: set<OpID>)
    requires k <= |s| && id !in dead
    ensures var m := |Visible(s[..k], dead)|;
            && m <= |Visible(s, dead)|
            && Visible(s[..k] + [id] + s[k..], dead) == PutIn(Visible(s, dead), m, id)
  {
    assert s == s[..k] + s[k..];
    VisibleConcat(s[..k], s[k..], dead);
    VisibleConcat(s[..k] + [id], s[k..], dead);
    VisibleConcat(s[..k], [id], dead);
    VisibleSingle(id, dead);
  }

  /** Index m is right exactly when the new node follows its left neighbour and precedes its
      right one. */
  lemma NeighboursFixIndex(ns: Nodes, v: seq<OpID>, m: nat, id: OpID, pos: nat)
    requires Grounded(ns) && m <= |v| && pos <= |v|
    requires AllIn(ns, PutIn(v, m, id)) && InOrder(ns, PutIn(v, m, id))
    requires forall y :: y in v ==> y in ns
    requires id in ns
    ensures m == pos <==>
              && (pos > 0 ==> Precedes(ns, v[pos - 1], id))
              && (pos < |v| ==> Precedes(ns, id, v[pos]))
  {
    var w := PutIn(v, m, id);
    assert w[m] == id;
    if pos > 0 {
      var i := if pos - 1 < m then pos - 1 else pos;
      assert w[i] == v[pos - 1];
      PositionsDecide(ns, w, i, m);
    }
    if pos < |v| {
      var j := if pos < m then pos else pos + 1;
      assert w[j] == v[pos];
      PositionsDecide(ns, w, m, j);
    }
  }

  /** Leaving p for good keeps its order against a q that is not below it. */
  lemma {:induction false} PathLessExtends(p: seq<Step>, t: seq<Step>, q: seq<Step>)
    requires PathLess(p, q) && !(p <= q)
    ensures PathLess(p + t, q)
  {
    if q != [] && p[0] == q[0] {
      assert (p + t)[1..] == p[1..] + t;
      PathLessExtends(p[1..], t, q[1..]);
    }
  }

  /** The right neighbour is absent, or a child of the left one, or not below it, or the new
      identifier sorts before the right child of the left neighbour it is below. */
  ghost predicate LandingGuard(d: Doc, pos: int, id: OpID)
    requires Sound(d) && 0 <= pos <= |VisibleIds(d)|
  {
    VisibleIdsListing(d);
    match RightNeighbour(d, pos)
    case None => true
    case Some(right) =>
      var left := LeftNeighbour(d, pos);
      assert pos > 0 ==> left in VisibleIds(d);
      assert right in VisibleIds(d);
      || d.nodes[right].parent == left
      || !(Path(d.nodes, left) < Path(d.nodes, right))
      || var step := Path(d.nodes, right)[|Path(d.nodes, left)|];
         !step.left && Less(id, step.id)
  }

  lemma ChildPath(d: Doc, id: OpID, e: Entry)
    requires Sound(d) && !Present(d.nodes, id) && Present(d.nodes, e.parent)
    ensures var ns' := d.nodes[id := e];
            && Grounded(ns')
            && (forall y :: Present(d.nodes, y) ==> Path(ns', y) == Path(d.nodes, y))
            && Path(ns', id) == Path(d.nodes, e.parent) + [Step(e.OnLeft(), id)]
  {
    GroundedInsert(d.nodes, id, e);
    var ns' := d.nodes[id := e];
    forall y | Present(d.nodes, y) ensures Path(ns', y) == Path(d.nodes, y) {
      PathsAgree(ns', d.nodes, y);
    }
    PathEnds(ns', id);
    PathsAgree(ns', d.nodes, e.parent);
  }

  /** A left child of its right neighbour, which is a child of the left neighbour. */
  lemma BetweenParentAndChild(d: Doc, id: OpID, e: Entry, left: OpID, right: OpID)
    requires Sound(d) && !Present(d.nodes, id) && Present(d.nodes, left)
    requires right in d.nodes && d.nodes[right].parent == left
    requires e.parent == right && e.OnLeft()
    ensures var ns' := d.nodes[id := e];
            && Grounded(ns') && Precedes(ns', id, right)
            && (Precedes(d.nodes, left, right) ==> Precedes(ns', left, id))
  {
    ChildPath(d, id, e);
    var p, q := Path(d.nodes, left), Path(d.nodes, right);
    PathEnds(d.nodes, right);
    PathLessDown(q, q + [Step(true, id)]);
    PathLessDown(p, q);
    PathLessDown(p, q + [Step(true, id)]);
  }

  /** A right child of its left neighbour, against a right neighbour below the left one. */
  lemma AgainstOneBelow(d: Doc, id: OpID, e: Entry, left: OpID, right: OpID)
    requires Sound(d) && !Present(d.nodes, id) && Present(d.nodes, left) && right in d.nodes
    requires e.parent == left && !e.OnLeft()
    requires Path(d.nodes, left) < Path(d.nodes, right)
    ensures var ns' := d.nodes[id := e];
            var step := Path(d.nodes, right)[|Path(d.nodes, left)|];
            Grounded(ns') && (Precedes(ns', id, right) <==> !step.left && Less(id, step.id))
  {
    ChildPath(d, id, e);
    StepBelowIsAChild(d.nodes, left, right);
    var p, q := Path(d.nodes, left), Path(d.nodes, right);
    PathLessAtFork(p + [Step(false, id)], q, |p|);
  }

  /** The same against a right neighbour that is not below the left one. */
  lemma AgainstOneElsewhere(d: Doc, id: OpID, e: Entry, left: OpID, right: OpID)
    requires Sound(d) && !Present(d.nodes, id) && Present(d.nodes, left) && right in d.nodes
    requires e.parent == left && !e.OnLeft()
    requires Precedes(d.nodes, left, right) && !(Path(d.nodes, left) < Path(d.nodes, right))
    ensures Grounded(d.nodes[id := e]) && Precedes(d.nodes[id := e], id, right)
  {
    ChildPath(d, id, e);
    var p, q := Path(d.nodes, left), Path(d.nodes, right);
    PathLessIsTotal(p, p);
    assert p <= q && |p| == |q| ==> p == q;
    PathLessExtends(p, [Step(false, id)], q);
  }

  lemma FollowsItsLeft(d: Doc, id: OpID, e: Entry)
    requires Sound(d) && !Present(d.nodes, id) && Present(d.nodes, e.parent) && !e.OnLeft()
    ensures Grounded(d.nodes[id := e]) && Precedes(d.nodes[id := e], e.parent, id)
  {
    ChildPath(d, id, e);
    var p := Path(d.nodes, e.parent);
    PathLessDown(p, p + [Step(false, id)]);
  }

  /** Where the new node stands against its two neighbours. */
  lemma NewNodeAgainstNeighbours(d: Doc, pos: int, c: Rune, id: OpID)
    requires Sound(d) && 0 <= pos <= |VisibleIds(d)| && !Present(d.nodes, id)
    ensures var e := EntryAt(d, pos, c);
            var ns' := d.nodes[id := e];
            && Present(d.nodes, e.parent)
            && Grounded(ns') && AllIn(ns', VisibleIds(d))
            && (pos > 0 ==> Precedes(ns', VisibleIds(d)[pos - 1], id))
            && (pos < |VisibleIds(d)| ==> (Precedes(ns', id, VisibleIds(d)[pos]) <==> LandingGuard(d, pos, id)))
  {
    VisibleIdsListing(d);
    var v, e := VisibleIds(d), EntryAt(d, pos, c);
    var left := LeftNeighbour(d, pos);
    assert pos > 0 ==> left in v;
    if pos < |v| {
      var right := v[pos];
      assert right in v;
      if pos > 0 { PositionsDecide(d.nodes, v, pos - 1, pos); }
      if d.nodes[right].parent == left {
        BetweenParentAndChild(d, id, e, left, right);
      } else {
        FollowsItsLeft(d, id, e);
        PathEnds(d.nodes, right);
        PathEnds(d.nodes, left);
        if Path(d.nodes, left) < Path(d.nodes, right) {
          AgainstOneBelow(d, id, e, left, right);
        } else {
          AgainstOneElsewhere(d, id, e, left, right);
        }
      }
    } else {
      FollowsItsLeft(d, id, e);
    }
  }

  ghost predicate Lands(d: Doc, pos: int, c: Rune, id: OpID)
    requires Sound(d) && 0 <= pos <= |VisibleIds(d)|
  {
    var d' := ApplyInsert(d, id, EntryAt(d, pos, c));
    Sound(d') && VisibleIds(d') == PutIn(VisibleIds(d), pos, id)
  }

  /** InsertAt(pos, c) puts the new character at pos if and only if the guard holds. */
  lemma LandsIffGuard(d: Doc, pos: int, c: Rune, id: OpID)
    requires Sound(d) && 0 <= pos <= |VisibleIds(d)| && !Present(d.nodes, id)
    ensures Lands(d, pos, c, id) <==> LandingGuard(d, pos, id)
  {
    var v, e := VisibleIds(d), EntryAt(d, pos, c);
    NewNodeAgainstNeighbours(d, pos, c, id);
    var m := InsertJoinsVisible(d, id, e);
    var d' := ApplyInsert(d, id, e);
    VisibleIdsListing(d');
    VisibleIdsListing(d);
    NeighboursFixIndex(d'.nodes, v, m, id, pos);
    if Lands(d, pos, c, id) {
      PutInDecidesIndex(v, id, pos, m);
    }
  }

  /** The same with the entry named. */
  lemma GuardLands(d: Doc, pos: int, c: Rune, id: OpID, e: Entry)
    requires Sound(d) && 0 <= pos <= |VisibleIds(d)| && !Present(d.nodes, id)
    requires LandingGuard(d, pos, id) && e == EntryAt(d, pos, c)
    ensures Sound(ApplyInsert(d, id, e)) && VisibleIds(ApplyInsert(d, id, e)) == PutIn(VisibleIds(d), pos, id)
  {
    LandsIffGuard(d, pos, c, id);
  }

  /** Wherever it lands, the text gains exactly the new character. */
  lemma InsertAddsOneCharacter(d: Doc, pos: int, c: Rune, id: OpID)
    requires Sound(d) && 0 <= pos <= |VisibleIds(d)| && !Present(d.nodes, id)
    ensures var d' := ApplyInsert(d, id, EntryAt(d, pos, c));
            && Sound(d')
            && exists k :: 0 <= k <= |Text(d)| && Text(d') == Text(d)[..k] + [c] + Text(d)[k..]
  {
    NewNodeAgainstNeighbours(d, pos, c, id);
    var m := InsertJoinsVisible(d, id, EntryAt(d, pos, c));
    TextOfPutIn(d, id, EntryAt(d, pos, c), m);
  }

  lemma TextOfPutIn(d: Doc, id: OpID, e: Entry, m: nat)
    requires Sound(d) && !Present(d.nodes, id) && Present(d.nodes, e.parent)
    requires Sound(ApplyInsert(d, id, e)) && m <= |VisibleIds(d)|
    requires VisibleIds(ApplyInsert(d, id, e)) == PutIn(VisibleIds(d), m, id)
    ensures |Text(d)| == |VisibleIds(d)|
    ensures Text(ApplyInsert(d, id, e)) == Text(d)[..m] + [e.value] + Text(d)[m..]
  {
    var v, d' := VisibleIds(d), ApplyInsert(d, id, e);
    VisibleIdsListing(d);
    VisibleIdsListing(d');
    assert Text(d') == Values(d'.nodes, PutIn(v, m, id));
    ValuesOfPutIn(d.nodes, v, m, id, e);
  }

  lemma ValuesOfPutIn(ns: Nodes, v: seq<OpID>, m: nat, id: OpID, e: Entry)
    requires AllIn(ns, v) && id !in ns && m <= |v|
    ensures AllIn(ns[id := e], PutIn(v, m, id))
    ensures var s := Values(ns, v);
            Values(ns[id := e], PutIn(v, m, id)) == s[..m] + [e.value] + s[m..]
  {
  }

  /** Under the guard the text reads as the user expects. */
  lemma GuardedInsertReadsInPlace(d: Doc, pos: int, c: Rune, id: OpID)
    requires Sound(d) && 0 <= pos <= |VisibleIds(d)| && !Present(d.nodes, id)
    requires LandingGuard(d, pos, id)
    ensures var d' := ApplyInsert(d, id, EntryAt(d, pos, c));
            && Sound(d') && |Text(d)| == |VisibleIds(d)|
            && Text(d') == Text(d)[..pos] + [c] + Text(d)[pos..]
  {
    NewNodeAgainstNeighbours(d, pos, c, id);
    LandsIffGuard(d, pos, c, id);
    TextOfPutIn(d, id, EntryAt(d, pos, c), pos);
  }

  /** Appending always lands. */
  lemma AppendLands(d: Doc, c: Rune, id: OpID)
    requires Sound(d) && !Present(d.nodes, id)
    ensures Lands(d, |VisibleIds(d)|, c, id)
  {
    LandsIffGuard(d, |VisibleIds(d)|, c, id);
  }
}
