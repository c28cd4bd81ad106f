/** Blocks: characters that stand next to each other, and chains of right children, which
    always do. */
module Blocks {
  import opened OpIds
  import opened Forest
  import opened Traversal
  import opened Docs

  // ---------- A subtree is one block of the document ----------

  ghost predicate HasBlock<T>(s: seq<T>, block: seq<T>) {
    exists i :: 0 <= i <= |s| && block <= s[i..]
  }

  lemma BlockIntro<T>(s: seq<T>, u: seq<T>, block: seq<T>, v: seq<T>)
    requires s == u + block + v
    ensures HasBlock(s, block)
  {
    assert s[|u|..] == block + v;
  }

  lemma BlockWithin<T>(s: seq<T>, t: seq<T>, block: seq<T>)
    requires HasBlock(s, t) && HasBlock(t, block)
    ensures HasBlock(s, block)
  {
    var i :| 0 <= i <= |s| && t <= s[i..];
    var j :| 0 <= j <= |t| && block <= t[j..];
    assert s[i + j..] == t[j..] + s[i + |t|..];
  }

  lemma {:induction false} KidIsABlock(ns: Nodes, x: OpID, kids: seq<OpID>, k: OpID)
    requires Grounded(ns) && Present(ns, x) && k in kids
    requires forall c :: c in kids ==> c in ns && ns[c].parent == x
    ensures HasBlock(WalkAll(ns, x, kids), Walk(ns, k))
  {
    var n := |kids| - 1;
    var init := kids[..n];
    assert kids == init + [kids[n]];
    if k == kids[n] {
      BlockIntro(WalkAll(ns, x, kids), WalkAll(ns, x, init), Walk(ns, k), []);
    } else {
      KidIsABlock(ns, x, init, k);
      BlockIntro(WalkAll(ns, x, kids), [], WalkAll(ns, x, init), Walk(ns, kids[n]));
      BlockWithin(WalkAll(ns, x, kids), WalkAll(ns, x, init), Walk(ns, k));
    }
  }

  /** The nodes below x stand together in the document. */
  lemma {:induction false} SubtreeIsABlock(ns: Nodes, x: OpID)
    requires Grounded(ns) && Present(ns, x)
    ensures HasBlock(Order(ns), Walk(ns, x))
    decreases Level(ns, x)
  {
    if x == ROOT {
      BlockIntro(Order(ns), [], Walk(ns, x), []);
    } else {
      ParentIsHigher(ns, x);
      var p := ns[x].parent;
      KidIsABlock(ns, p, Children(ns, p, ns[x].OnLeft()), x);
      SidesAreBlocks(ns, p, ns[x].OnLeft());
      BlockWithin(Walk(ns, p), WalkAll(ns, p, Children(ns, p, ns[x].OnLeft())), Walk(ns, x));
      SubtreeIsABlock(ns, p);
      BlockWithin(Order(ns), Walk(ns, p), Walk(ns, x));
    }
  }

  lemma SidesAreBlocks(ns: Nodes, p: OpID, left: bool)
    requires Grounded(ns) && Present(ns, p)
    ensures HasBlock(Walk(ns, p), WalkAll(ns, p, Children(ns, p, left)))
  {
    var l, r := WalkAll(ns, p, Children(ns, p, true)), WalkAll(ns, p, Children(ns, p, false));
    var self := if p == ROOT then [] else [p];
    var w := Walk(ns, p);
    assert w == l + self + r;
    if left {
      assert w == [] + l + (self + r);
      BlockIntro(w, [], l, self + r);
    } else {
      assert w == (l + self) + r + [];
      BlockIntro(w, l + self, r, []);
    }
  }

  // ---------- A chain of right children nobody else hangs off ----------

  /** ids[1..] is a chain of right children below ids[0]. */
  ghost predicate RightChain(ns: Nodes, ids: seq<OpID>) {
    && AllIn(ns, ids)
    && forall i :: 0 < i < |ids| ==> ns[ids[i]].parent == ids[i - 1] && !ns[ids[i]].OnLeft()
  }

  /** No node outside the chain has its parent in the chain. */
  ghost predicate Undisturbed(ns: Nodes, ids: seq<OpID>) {
    forall y :: y in ns && ns[y].parent in ids ==> y in ids
  }

  lemma {:induction false} ChainGoesDown(ns: Nodes, ids: seq<OpID>, i: nat, j: nat)
    requires Grounded(ns) && RightChain(ns, ids) && i < j < |ids|
    requires ids[i] in ids && ids[j] in ids
    ensures var p, q := Path(ns, ids[i]), Path(ns, ids[j]);
            p < q && !q[|p|].left
  {
    PathEnds(ns, ids[j]);
    assert ids[j - 1] in ids;
    if i < j - 1 {
      ChainGoesDown(ns, ids, i, j - 1);
    }
  }

  // ---------- A block is what nothing else stands between ----------

  /** Every other node precedes the first of ids or follows the last. */
  ghost predicate OthersOutside(ns: Nodes, ids: seq<OpID>)
    requires Grounded(ns) && AllIn(ns, ids) && ids != []
  {
    assert ids[0] in ids && ids[|ids| - 1] in ids;
    forall z :: z in ns && z !in ids ==> Precedes(ns, z, ids[0]) || Precedes(ns, ids[|ids| - 1], z)
  }

  lemma SpanHasOnly(ns: Nodes, s: seq<OpID>, ids: seq<OpID>, i: nat, k: nat, m: nat)
    requires Grounded(ns) && AllIn(ns, s) && InOrder(ns, s)
    requires ids != [] && AllIn(ns, ids) && OthersOutside(ns, ids)
    requires i <= m <= k < |s| && s[i] == ids[0] && s[k] == ids[|ids| - 1] && s[m] in ns
    ensures s[m] in ids
  {
    PositionsDecide(ns, s, m, i);
    PositionsDecide(ns, s, k, m);
  }

  lemma SpanHasAll(ns: Nodes, s: seq<OpID>, ids: seq<OpID>, i: nat, k: nat, j: nat) returns (m: nat)
    requires Grounded(ns) && AllIn(ns, s) && InOrder(ns, s) && j < |ids| && ids[j] in s
    requires AllIn(ns, ids) && InOrder(ns, ids)
    requires i <= k < |s| && s[i] == ids[0] && s[k] == ids[|ids| - 1]
    ensures i <= m <= k && s[m] == ids[j]
  {
    m := PlaceOf(s, ids[j]);
    PositionsDecide(ns, ids, j, 0);
    PositionsDecide(ns, ids, |ids| - 1, j);
    PositionsDecide(ns, s, m, i);
    PositionsDecide(ns, s, k, m);
  }

  lemma SpanInOrder(ns: Nodes, s: seq<OpID>, i: nat, k: nat)
    requires Grounded(ns) && AllIn(ns, s) && InOrder(ns, s) && i <= k < |s|
    ensures AllIn(ns, s[i..k + 1]) && InOrder(ns, s[i..k + 1])
  {
    var t := s[i..k + 1];
    assert forall m :: 0 <= m < |t| ==> t[m] == s[i + m] && s[i + m] in s;
  }

  /** Between the places of the first and the last stand exactly ids. */
  lemma SpanIs(ns: Nodes, s: seq<OpID>, ids: seq<OpID>, i: nat, k: nat)
    requires Grounded(ns) && AllIn(ns, s) && InOrder(ns, s) && forall y :: y in ns ==> y in s
    requires ids != [] && AllIn(ns, ids) && InOrder(ns, ids) && OthersOutside(ns, ids)
    requires i <= k < |s| && s[i] == ids[0] && s[k] == ids[|ids| - 1]
    ensures s[i..k + 1] == ids
  {
    var t := s[i..k + 1];
    SpanInOrder(ns, s, i, k);
    forall y ensures y in t <==> y in ids {
      if y in t {
        var m := PlaceOf(t, y);
        SpanHasOnly(ns, s, ids, i, k, i + m);
      }
      if y in ids {
        var j := PlaceOf(ids, y);
        var m := SpanHasAll(ns, s, ids, i, k, j);
        assert t[m - i] == y;
      }
    }
    InOrderIsUnique(ns, t, ids);
  }

  lemma SpanIsABlock(s: seq<OpID>, i: nat, k: nat)
    requires i <= k < |s|
    ensures HasBlock(s, s[i..k + 1])
  {
    assert s == s[..i] + s[i..k + 1] + s[k + 1..];
    BlockIntro(s, s[..i], s[i..k + 1], s[k + 1..]);
  }

  lemma OutsideMakesABlock(ns: Nodes, ids: seq<OpID>)
    requires Grounded(ns) && ids != [] && AllIn(ns, ids) && InOrder(ns, ids) && OthersOutside(ns, ids)
    ensures HasBlock(Order(ns), ids)
  {
    var s, last := Order(ns), |ids| - 1;
    OrderIsTheListing(ns);
    assert ids[0] in ids && ids[last] in ids;
    var i := PlaceOf(s, ids[0]);
    var k := PlaceOf(s, ids[last]);
    PositionsDecide(ns, s, k, i);
    PositionsDecide(ns, ids, last, 0);
    SpanIs(ns, s, ids, i, k);
    SpanIsABlock(s, i, k);
  }

  lemma BlockKeepsOut(ns: Nodes, ids: seq<OpID>, i: nat, z: OpID)
    requires Grounded(ns) && ids != [] && AllIn(ns, ids) && z in ns && z !in ids
    requires ids[0] in ids && ids[|ids| - 1] in ids && i <= |Order(ns)| && ids <= Order(ns)[i..]
    ensures Precedes(ns, z, ids[0]) || Precedes(ns, ids[|ids| - 1], z)
  {
    var s, last := Order(ns), |ids| - 1;
    OrderIsTheListing(ns);
    var m := PlaceOf(s, z);
    assert s[i] == s[i..][0] == ids[0] && s[i + last] == s[i..][last] == ids[last];
    var at := if i <= m <= i + last then m - i else 0;
    assert s[i + at] == s[i..][at] == ids[at] && ids[at] in ids;
    PositionsDecide(ns, s, m, i);
    PositionsDecide(ns, s, i + last, m);
  }

  /** Nodes in document order are one block of the document if and only if every other node
      stands before the first or behind the last. */
  lemma BlockIffOthersOutside(ns: Nodes, ids: seq<OpID>)
    requires Grounded(ns) && ids != [] && AllIn(ns, ids) && InOrder(ns, ids)
    ensures HasBlock(Order(ns), ids) <==> OthersOutside(ns, ids)
  {
    assert ids[0] in ids && ids[|ids| - 1] in ids;
    if OthersOutside(ns, ids) {
      OutsideMakesABlock(ns, ids);
    }
    if HasBlock(Order(ns), ids) {
      var i :| 0 <= i <= |Order(ns)| && ids <= Order(ns)[i..];
      forall z | z in ns && z !in ids ensures Precedes(ns, z, ids[0]) || Precedes(ns, ids[|ids| - 1], z) {
        BlockKeepsOut(ns, ids, i, z);
      }
    }
  }

  // ---------- When a chain is a block ----------

  /** Whoever leaves p for good keeps its order against a q that is not below p. */
  lemma {:induction false} PathLessBeyond(p: seq<Step>, t: seq<Step>, q: seq<Step>)
    requires !(p <= q)
    ensures PathLess(p + t, q) == PathLess(p, q)
  {
    if q != [] && p[0] == q[0] {
      assert (p + t)[1..] == p[1..] + t;
      assert p[1..] <= q[1..] ==> p <= q;
      PathLessBeyond(p[1..], t, q[1..]);
    }
  }

  /** A node that is not below x stands on the same side of x and of all that is below x. */
  lemma OneSideOfASubtree(ns: Nodes, x: OpID, w: OpID, z: OpID)
    requires Grounded(ns) && x in ns && w in ns && z in ns && Below(ns, x, w) && !Below(ns, x, z)
    ensures Precedes(ns, z, w) <==> Precedes(ns, z, x)
    ensures Precedes(ns, w, z) <==> Precedes(ns, x, z)
  {
    var p, q, r := Path(ns, x), Path(ns, w), Path(ns, z);
    assert q == p + q[|p|..];
    PathLessBeyond(p, q[|p|..], r);
    PathLessIsTotal(p, r);
    PathLessIsTotal(q, r);
  }

  /** Where y hangs off the chain, if at all, it stands outside: on the left of the first, or on
      the right of some link behind the next one, or on the right of the last. */
  ghost predicate HangsOutside(ns: Nodes, ids: seq<OpID>, y: OpID)
    requires y in ns
  {
    forall j :: 0 <= j < |ids| && ids[j] == ns[y].parent ==>
      (ns[y].OnLeft() ==> j == 0) && (!ns[y].OnLeft() && j + 1 < |ids| ==> Less(ids[j + 1], y))
  }

  /** Nothing foreign hangs inside the chain. */
  ghost predicate Clear(ns: Nodes, ids: seq<OpID>) {
    forall y :: y in ns && y !in ids ==> HangsOutside(ns, ids, y)
  }

  lemma ChainIsInOrder(ns: Nodes, ids: seq<OpID>)
    requires Grounded(ns) && RightChain(ns, ids)
    ensures AllIn(ns, ids) && InOrder(ns, ids)
  {
    forall i, j | 0 <= i < j < |ids| ensures ids[i] in ids && ids[j] in ids && Precedes(ns, ids[i], ids[j]) {
      assert ids[i] in ids && ids[j] in ids;
      ChainGoesDown(ns, ids, i, j);
      PathLessDown(Path(ns, ids[i]), Path(ns, ids[j]));
    }
  }

  /** The step from one link down to a later one leads to the next link. */
  lemma StepDownTheChain(ns: Nodes, ids: seq<OpID>, i: nat, j: nat)
    requires Grounded(ns) && RightChain(ns, ids) && i < j < |ids|
    requires ids[i] in ids && ids[i + 1] in ids && ids[j] in ids
    ensures Path(ns, ids[i]) < Path(ns, ids[j])
    ensures Path(ns, ids[j])[|Path(ns, ids[i])|] == Step(false, ids[i + 1])
  {
    PathEnds(ns, ids[i + 1]);
    ChainGoesDown(ns, ids, i, j);
    if i + 1 < j { ChainGoesDown(ns, ids, i + 1, j); }
  }

  /** The last link above z. */
  lemma {:induction false} LastLinkAbove(ns: Nodes, ids: seq<OpID>, z: OpID, i: nat) returns (j: nat)
    requires Grounded(ns) && AllIn(ns, ids) && z in ns && i < |ids| && ids[i] in ids && Below(ns, ids[i], z)
    ensures j < |ids| && ids[j] in ids && Below(ns, ids[j], z)
    ensures j + 1 < |ids| ==> ids[j + 1] in ids && !Below(ns, ids[j + 1], z)
    decreases |ids| - i
  {
    assert i + 1 < |ids| ==> ids[i + 1] in ids;
    if i + 1 < |ids| && Below(ns, ids[i + 1], z) {
      j := LastLinkAbove(ns, ids, z, i + 1);
    } else {
      j := i;
    }
  }

  /** A foreign node below the chain leaves it over a foreign child of the last link above it. */
  lemma LeavesTheChain(ns: Nodes, ids: seq<OpID>, j: nat, z: OpID) returns (k: OpID)
    requires Grounded(ns) && RightChain(ns, ids) && j < |ids| && ids[j] in ids && z in ns && z !in ids
    requires Below(ns, ids[j], z) && (j + 1 < |ids| ==> ids[j + 1] in ids && !Below(ns, ids[j + 1], z))
    ensures k in ns && k !in ids && ns[k].parent == ids[j]
    ensures Path(ns, ids[j]) < Path(ns, z) && Path(ns, z)[|Path(ns, ids[j])|] == StepOf(ns, k)
  {
    PathsTellApart(ns, ids[j], z);
    assert Path(ns, ids[j]) < Path(ns, z);
    StepBelowIsAChild(ns, ids[j], z);
    k := Path(ns, z)[|Path(ns, ids[j])|].id;
    if k in ids {
      var i := PlaceOf(ids, k);
      PathEnds(ns, k);
      if i < j {
        ChainGoesDown(ns, ids, i, j);
      } else if i > j + 1 {
        ChainGoesDown(ns, ids, j + 1, i);
      }
    }
  }

  lemma ClearIsOutside(ns: Nodes, ids: seq<OpID>, z: OpID)
    requires Grounded(ns) && ids != [] && RightChain(ns, ids) && Clear(ns, ids) && z in ns && z !in ids
    requires ids[0] in ids && ids[|ids| - 1] in ids
    ensures Precedes(ns, z, ids[0]) || Precedes(ns, ids[|ids| - 1], z)
  {
    var last := |ids| - 1;
    if last > 0 { ChainGoesDown(ns, ids, 0, last); }
    if !Below(ns, ids[0], z) {
      OneSideOfASubtree(ns, ids[0], ids[last], z);
      PathsTellApart(ns, ids[0], z);
      PathLessIsTotal(Path(ns, ids[0]), Path(ns, z));
    } else {
      var j := LastLinkAbove(ns, ids, z, 0);
      var k := LeavesTheChain(ns, ids, j, z);
      PathLessDown(Path(ns, ids[j]), Path(ns, z));
      assert HangsOutside(ns, ids, k);
      if !ns[k].OnLeft() && j < last {
        StepDownTheChain(ns, ids, j, last);
        PrecedesAcrossKids(ns, ids[j], ids[last], z);
      }
    }
  }

  lemma OutsideIsClear(ns: Nodes, ids: seq<OpID>, y: OpID, j: nat)
    requires Grounded(ns) && ids != [] && RightChain(ns, ids) && OthersOutside(ns, ids)
    requires y in ns && y !in ids && j < |ids| && ids[j] == ns[y].parent
    requires ids[0] in ids && ids[j] in ids && ids[|ids| - 1] in ids
    ensures (ns[y].OnLeft() ==> j == 0) && (!ns[y].OnLeft() && j + 1 < |ids| ==> Less(ids[j + 1], y))
  {
    var last := |ids| - 1;
    var p, q := Path(ns, ids[j]), Path(ns, y);
    PathEnds(ns, y);
    assert q[..|p|] == p && q[|p|] == StepOf(ns, y);
    PathLessDown(p, q);
    PathLessIsTotal(p, q);
    if j > 0 {
      ChainGoesDown(ns, ids, 0, j);
      PathLessDown(Path(ns, ids[0]), q);
      PathLessIsTotal(Path(ns, ids[0]), q);
    }
    PathLessIsTotal(Path(ns, ids[last]), q);
    if j < last {
      assert ids[j + 1] in ids;
      StepDownTheChain(ns, ids, j, last);
      LessIsTotal(ids[j + 1], y);
      if StepLess(StepOf(ns, y), Step(false, ids[j + 1])) {
        PrecedesAcrossKids(ns, ids[j], y, ids[last]);
      }
    }
  }

  /** A chain of right children is one block of the document, in the order of the chain, if and
      only if nothing foreign hangs inside it. */
  lemma ChainIsABlockIff(ns: Nodes, ids: seq<OpID>)
    requires Grounded(ns) && ids != [] && RightChain(ns, ids)
    ensures HasBlock(Order(ns), ids) <==> Clear(ns, ids)
  {
    assert forall i :: 0 <= i < |ids| ==> ids[i] in ids;
    ChainIsInOrder(ns, ids);
    BlockIffOthersOutside(ns, ids);
    if Clear(ns, ids) {
      forall z | z in ns && z !in ids ensures Precedes(ns, z, ids[0]) || Precedes(ns, ids[|ids| - 1], z) {
        ClearIsOutside(ns, ids, z);
      }
    }
    if OthersOutside(ns, ids) {
      forall y | y in ns && y !in ids ensures HangsOutside(ns, ids, y) {
        forall j | 0 <= j < |ids| && ids[j] == ns[y].parent
          ensures (ns[y].OnLeft() ==> j == 0) && (!ns[y].OnLeft() && j + 1 < |ids| ==> Less(ids[j + 1], y))
        {
          OutsideIsClear(ns, ids, y, j);
        }
      }
    }
  }

  /** A chain nobody else hangs off is one block. */
  lemma ChainIsABlock(ns: Nodes, ids: seq<OpID>)
    requires Grounded(ns) && ids != [] && RightChain(ns, ids) && Undisturbed(ns, ids)
    ensures HasBlock(Order(ns), ids)
  {
    assert forall i :: 0 <= i < |ids| ==> ids[i] in ids;
    ChainIsABlockIff(ns, ids);
  }

  // ---------- What is visible of a block ----------

  lemma {:induction false} VisibleAll(s: seq<OpID>, dead: set<OpID>)
    requires forall x :: x in s ==> x !in dead
    ensures Visible(s, dead) == s
  {
    if s != [] {
      assert s == s[..|s| - 1] + [s[|s| - 1]];
      VisibleAll(s[..|s| - 1], dead);
    }
  }

  lemma VisibleAround(u: seq<OpID>, ids: seq<OpID>, v: seq<OpID>, dead: set<OpID>)
    ensures HasBlock(Visible(u + ids + v, dead), Visible(ids, dead))
  {
    VisibleConcat(u + ids, v, dead);
    VisibleConcat(u, ids, dead);
    BlockIntro(Visible(u + ids + v, dead), Visible(u, dead), Visible(ids, dead), Visible(v, dead));
  }

  lemma BlockSplits<T>(s: seq<T>, ids: seq<T>, i: nat)
    requires i <= |s| && ids <= s[i..]
    ensures i + |ids| <= |s| && s == s[..i] + ids + s[i + |ids|..]
  {
    assert s[i..][..|ids|] == ids;
  }

  /** What is visible of a block is a block of the visible text. */
  lemma BlockStaysVisible(d: Doc, ids: seq<OpID>)
    requires Sound(d) && HasBlock(Order(d.nodes), ids)
    ensures HasBlock(VisibleIds(d), Visible(ids, d.dead))
  {
    var s := Order(d.nodes);
    var i :| 0 <= i <= |s| && ids <= s[i..];
    BlockSplits(s, ids, i);
    VisibleAround(s[..i], ids, s[i + |ids|..], d.dead);
  }

  /** A sequence in document order that lists all nodes is the document. */
  lemma VisibleIs(d: Doc, s: seq<OpID>)
    requires Sound(d) && d.dead == {} && AllIn(d.nodes, s) && InOrder(d.nodes, s)
    requires forall y :: y in d.nodes ==> y in s
    ensures VisibleIds(d) == s
  {
    OrderIsTheListing(d.nodes);
    InOrderIsUnique(d.nodes, s, Order(d.nodes));
    VisibleAll(s, {});
  }

  lemma BlockReads(d: Doc, ids: seq<OpID>, chars: seq<Rune>)
    requires Sound(d) && HasBlock(VisibleIds(d), ids) && |ids| == |chars|
    requires forall j :: 0 <= j < |ids| ==> ids[j] in d.nodes && d.nodes[ids[j]].value == chars[j]
    ensures HasBlock(Text(d), chars)
  {
    var v := VisibleIds(d);
    VisibleIdsListing(d);
    var i :| 0 <= i <= |v| && ids <= v[i..];
    BlockOfValues(d.nodes, v, ids, i);
    assert Values(d.nodes, ids) == chars;
  }

  lemma BlockOfValues(ns: Nodes, v: seq<OpID>, ids: seq<OpID>, i: nat)
    requires AllIn(ns, v) && i <= |v| && ids <= v[i..]
    ensures AllIn(ns, ids) && HasBlock(Values(ns, v), Values(ns, ids))
  {
    var rest := v[i..];
    assert forall y :: y in rest ==> y in v;
    assert forall j :: 0 <= j < |ids| ==> ids[j] == rest[j] && ids[j] in rest;
    assert Values(ns, v)[i..] == Values(ns, rest);
    assert Values(ns, ids) <= Values(ns, rest);
  }
}
