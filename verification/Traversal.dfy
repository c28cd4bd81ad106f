/** The in-order walk of the tree, and the proof that it is the one listing of all nodes
    in document order. */
module Traversal {
  import opened OpIds
  import opened Siblings
  import opened Forest

  ghost function ChildSet(ns: Nodes, p: OpID, left: bool): set<OpID> {
    set id | id in ns && ns[id].parent == p && ns[id].OnLeft() == left
  }

  ghost function Children(ns: Nodes, p: OpID, left: bool): (kids: seq<OpID>)
    ensures Ascending(kids)
    ensures forall k :: k in kids <==> k in ns && ns[k].parent == p && ns[k].OnLeft() == left
  {
    SortedIdsIsTheListing(ChildSet(ns, p, left));
    SortedIds(ChildSet(ns, p, left))
  }

  /** traverseNode: left children, the node unless it is the sentinel, right children. */
  ghost function Walk(ns: Nodes, x: OpID): seq<OpID>
    requires Grounded(ns) && Present(ns, x)
    decreases |ns| - Level(ns, x), 1, 0
  {
    WalkAll(ns, x, Children(ns, x, true))
    + (if x == ROOT then [] else [x])
    + WalkAll(ns, x, Children(ns, x, false))
  }

  ghost function WalkAll(ns: Nodes, x: OpID, kids: seq<OpID>): seq<OpID>
    requires Grounded(ns) && Present(ns, x)
    requires forall k :: k in kids ==> k in ns && ns[k].parent == x
    decreases |ns| - Level(ns, x), 0, |kids|
  {
    if kids == [] then []
    else
      ParentIsHigher(ns, kids[|kids| - 1]);
      WalkAll(ns, x, kids[..|kids| - 1]) + Walk(ns, kids[|kids| - 1])
  }

  /** The three stages of a walk that appends to base. */
  lemma WalkInStages(ns: Nodes, x: OpID, base: seq<OpID>, s: seq<OpID>, t: seq<OpID>, u: seq<OpID>)
    requires Grounded(ns) && Present(ns, x)
    requires s == base + WalkAll(ns, x, Children(ns, x, true))
    requires t == if x == ROOT then s else s + [x]
    requires u == t + WalkAll(ns, x, Children(ns, x, false))
    ensures u == base + Walk(ns, x)
  {
    var l, r := WalkAll(ns, x, Children(ns, x, true)), WalkAll(ns, x, Children(ns, x, false));
    var self := if x == ROOT then [] else [x];
    assert Walk(ns, x) == l + self + r;
    assert t == s + self;
    Regroup(base, l, self, r);
  }

  lemma Regroup(a: seq<OpID>, b: seq<OpID>, c: seq<OpID>, d: seq<OpID>)
    ensures a + (b + c + d) == a + b + c + d
  {
  }

  /** One iteration of the loop over the children. */
  lemma WalkAllNext(ns: Nodes, x: OpID, kids: seq<OpID>, i: nat, base: seq<OpID>, s: seq<OpID>, t: seq<OpID>)
    requires Grounded(ns) && Present(ns, x) && i < |kids|
    requires forall k :: k in kids ==> k in ns && ns[k].parent == x
    requires AllIn(ns, kids[..i]) && forall k :: k in kids[..i] ==> ns[k].parent == x
    requires s == base + WalkAll(ns, x, kids[..i])
    requires kids[i] in kids && t == s + Walk(ns, kids[i])
    ensures forall k :: k in kids[..i + 1] ==> k in kids
    ensures t == base + WalkAll(ns, x, kids[..i + 1])
  {
    var more := kids[..i + 1];
    assert more[..i] == kids[..i] && more[i] == kids[i];
    assert WalkAll(ns, x, more) == WalkAll(ns, x, kids[..i]) + Walk(ns, kids[i]);
    Regroup(base, WalkAll(ns, x, kids[..i]), Walk(ns, kids[i]), []);
  }

  /** The document, tombstones included. */
  ghost function Order(ns: Nodes): seq<OpID>
    requires Grounded(ns)
  {
    Walk(ns, ROOT)
  }

  // ---------- Sequences in document order ----------

  ghost predicate AllIn(ns: Nodes, s: seq<OpID>) {
    forall y :: y in s ==> y in ns
  }

  ghost predicate InOrder(ns: Nodes, s: seq<OpID>)
    requires Grounded(ns) && AllIn(ns, s)
  {
    forall i, j :: 0 <= i < j < |s| ==> Precedes(ns, s[i], s[j])
  }

  lemma PlaceOf(s: seq<OpID>, x: OpID) returns (i: nat)
    requires x in s
    ensures i < |s| && s[i] == x
  {
    i :| 0 <= i < |s| && s[i] == x;
  }

  lemma InOrderConcat(ns: Nodes, s: seq<OpID>, t: seq<OpID>)
    requires Grounded(ns) && AllIn(ns, s) && AllIn(ns, t)
    requires InOrder(ns, s) && InOrder(ns, t)
    requires forall a, b :: a in s && b in t ==> Precedes(ns, a, b)
    ensures AllIn(ns, s + t) && InOrder(ns, s + t)
  {
  }

  lemma InOrderHasNoRepeats(ns: Nodes, s: seq<OpID>, i: nat, j: nat)
    requires Grounded(ns) && AllIn(ns, s) && InOrder(ns, s)
    requires i < |s| && j < |s| && s[i] == s[j]
    ensures i == j
  {
    PathLessIsTotal(Path(ns, s[i]), Path(ns, s[i]));
  }

  /** Nodes that follow each other in the sequence do so in the document, and back. */
  lemma PositionsDecide(ns: Nodes, s: seq<OpID>, i: nat, j: nat)
    requires Grounded(ns) && AllIn(ns, s) && InOrder(ns, s)
    requires i < |s| && j < |s|
    ensures i < j <==> Precedes(ns, s[i], s[j])
  {
    PathLessIsTotal(Path(ns, s[i]), Path(ns, s[j]));
    PathLessIsTotal(Path(ns, s[i]), Path(ns, s[i]));
  }

  lemma InOrderTail(ns: Nodes, s: seq<OpID>)
    requires Grounded(ns) && AllIn(ns, s) && InOrder(ns, s) && s != []
    ensures AllIn(ns, s[1..]) && InOrder(ns, s[1..])
    ensures forall y :: y in s[1..] <==> y in s && y != s[0]
  {
    assert s == [s[0]] + s[1..];
    forall j | 0 <= j < |s[1..]| ensures s[1..][j] != s[0] {
      if s[j + 1] == s[0] { InOrderHasNoRepeats(ns, s, j + 1, 0); }
    }
  }

  /** A listing in document order is determined by its elements. */
  lemma {:induction false} InOrderIsUnique(ns: Nodes, s: seq<OpID>, t: seq<OpID>)
    requires Grounded(ns) && AllIn(ns, s) && AllIn(ns, t)
    requires InOrder(ns, s) && InOrder(ns, t)
    requires forall y :: y in s <==> y in t
    ensures s == t
  {
    assert s != [] ==> s[0] in t;
    assert t != [] ==> t[0] in s;
    if s != [] {
      PathLessIsTotal(Path(ns, s[0]), Path(ns, t[0]));
      assert s[0] == t[0];
      InOrderTail(ns, s);
      InOrderTail(ns, t);
      InOrderIsUnique(ns, s[1..], t[1..]);
      assert s == [s[0]] + s[1..] && t == [t[0]] + t[1..];
    }
  }

  // ---------- The walk lists every node below its start, in document order ----------

  ghost predicate Below(ns: Nodes, x: OpID, y: OpID)
    requires Grounded(ns) && Present(ns, x) && Present(ns, y)
  {
    Path(ns, x) <= Path(ns, y)
  }

  /** y is strictly below x, on the given side, through one of the kids. */
  ghost predicate Via(ns: Nodes, x: OpID, left: bool, kids: seq<OpID>, y: OpID)
    requires Grounded(ns) && Present(ns, x) && Present(ns, y)
  {
    var p, q := Path(ns, x), Path(ns, y);
    p < q && q[|p|].left == left && q[|p|].id in kids
  }

  lemma BelowKid(ns: Nodes, x: OpID, k: OpID, y: OpID)
    requires Grounded(ns) && Present(ns, x) && Present(ns, y)
    requires k in ns && ns[k].parent == x
    ensures Below(ns, k, y) <==>
              Path(ns, x) < Path(ns, y) && Path(ns, y)[|Path(ns, x)|] == StepOf(ns, k)
  {
  }

  /** Whatever lies strictly below x lies below exactly one child of x. */
  lemma StepBelowIsAChild(ns: Nodes, x: OpID, y: OpID)
    requires Grounded(ns) && Present(ns, x) && Present(ns, y)
    requires Path(ns, x) < Path(ns, y)
    ensures var k := Path(ns, y)[|Path(ns, x)|].id;
            && k in ns && ns[k].parent == x && Below(ns, k, y)
            && Path(ns, y)[|Path(ns, x)|] == StepOf(ns, k)
  {
    var p, q := Path(ns, x), Path(ns, y);
    AncestorPath(ns, y, |p|);
    AncestorPath(ns, y, |p| + 1);
    assert q[..|p|] == p;
    PathIsInjective(ns, x, Ancestor(q, |p|));
    BelowKid(ns, x, q[|p|].id, y);
  }

  lemma PrecedesAcrossKids(ns: Nodes, x: OpID, a: OpID, b: OpID)
    requires Grounded(ns) && Present(ns, x) && a in ns && b in ns
    requires Path(ns, x) < Path(ns, a) && Path(ns, x) < Path(ns, b)
    requires StepLess(Path(ns, a)[|Path(ns, x)|], Path(ns, b)[|Path(ns, x)|])
    ensures Precedes(ns, a, b)
  {
    var n := |Path(ns, x)|;
    StepLessIsTotal(Path(ns, a)[n], Path(ns, b)[n]);
    StepLessIsTotal(Path(ns, a)[n], Path(ns, a)[n]);
    PathLessAtFork(Path(ns, a), Path(ns, b), n);
  }

  ghost predicate ListsBelow(ns: Nodes, x: OpID, s: seq<OpID>)
    requires Grounded(ns) && Present(ns, x)
  {
    && (forall y :: y in s <==> y in ns && Below(ns, x, y))
    && InOrder(ns, s)
  }

  ghost predicate ListsVia(ns: Nodes, x: OpID, left: bool, kids: seq<OpID>, s: seq<OpID>)
    requires Grounded(ns) && Present(ns, x)
  {
    && (forall y :: y in s <==> y in ns && Via(ns, x, left, kids, y))
    && InOrder(ns, s)
  }

  lemma {:induction false} WalkLists(ns: Nodes, x: OpID)
    requires Grounded(ns) && Present(ns, x)
    ensures ListsBelow(ns, x, Walk(ns, x))
    decreases |ns| - Level(ns, x), 1, 0
  {
    var ls, rs := Children(ns, x, true), Children(ns, x, false);
    assert ls[..|ls|] == ls && rs[..|rs|] == rs;
    WalkAllLists(ns, x, true, |ls|);
    WalkAllLists(ns, x, false, |rs|);
    WalkGlue(ns, x, WalkAll(ns, x, ls), WalkAll(ns, x, rs));
  }

  lemma WalkGlue(ns: Nodes, x: OpID, l: seq<OpID>, r: seq<OpID>)
    requires Grounded(ns) && Present(ns, x)
    requires ListsVia(ns, x, true, Children(ns, x, true), l)
    requires ListsVia(ns, x, false, Children(ns, x, false), r)
    ensures ListsBelow(ns, x, l + (if x == ROOT then [] else [x]) + r)
  {
    var self := if x == ROOT then [] else [x];
    var p := Path(ns, x);
    forall a, b | a in l && b in self ensures Precedes(ns, a, b) {
      PathLessDown(p, Path(ns, a));
    }
    InOrderConcat(ns, l, self);
    forall a, b | a in l + self && b in r ensures Precedes(ns, a, b) {
      PathLessDown(p, Path(ns, b));
      if a in l {
        PrecedesAcrossKids(ns, x, a, b);
      }
    }
    InOrderConcat(ns, l + self, r);
    forall y ensures y in l + self + r <==> y in ns && Below(ns, x, y) {
      if y in ns && p < Path(ns, y) {
        StepBelowIsAChild(ns, x, y);
      } else if y in ns && p == Path(ns, y) {
        PathIsInjective(ns, x, y);
      }
    }
  }

  lemma {:induction false} WalkAllLists(ns: Nodes, x: OpID, left: bool, n: nat)
    requires Grounded(ns) && Present(ns, x)
    requires n <= |Children(ns, x, left)|
    ensures var kids := Children(ns, x, left)[..n];
            ListsVia(ns, x, left, kids, WalkAll(ns, x, kids))
    decreases |ns| - Level(ns, x), 0, n
  {
    if n > 0 {
      var all := Children(ns, x, left);
      var init, k := all[..n - 1], all[n - 1];
      assert all[..n] == init + [k] && all[..n][..n - 1] == init;
      WalkAllLists(ns, x, left, n - 1);
      ParentIsHigher(ns, k);
      WalkLists(ns, k);
      WalkAllGlue(ns, x, left, init, k, WalkAll(ns, x, init), Walk(ns, k));
    }
  }

  lemma WalkAllGlue(ns: Nodes, x: OpID, left: bool, init: seq<OpID>, k: OpID, s: seq<OpID>, t: seq<OpID>)
    requires Grounded(ns) && Present(ns, x)
    requires k in ns && ns[k].parent == x && ns[k].OnLeft() == left
    requires forall y :: y in init ==> Less(y, k)
    requires ListsVia(ns, x, left, init, s) && ListsBelow(ns, k, t)
    ensures ListsVia(ns, x, left, init + [k], s + t)
  {
    var n := |Path(ns, x)|;
    forall y | y in ns ensures y in t <==> Via(ns, x, left, [k], y) {
      BelowKid(ns, x, k, y);
      if Via(ns, x, left, [k], y) {
        StepBelowIsAChild(ns, x, y);
      }
    }
    forall a, b | a in s && b in t ensures Precedes(ns, a, b) {
      PrecedesAcrossKids(ns, x, a, b);
    }
    InOrderConcat(ns, s, t);
  }

  /** The walk from the sentinel lists every node exactly once, in document order. */
  lemma OrderIsTheListing(ns: Nodes)
    requires Grounded(ns)
    ensures forall y :: y in Order(ns) <==> y in ns
    ensures InOrder(ns, Order(ns))
    ensures forall i, j :: 0 <= i < j < |Order(ns)| ==> Order(ns)[i] != Order(ns)[j]
  {
    WalkLists(ns, ROOT);
    assert Path(ns, ROOT) == [];
    forall i, j | 0 <= i < j < |Order(ns)| ensures Order(ns)[i] != Order(ns)[j] {
      PathLessIsTotal(Path(ns, Order(ns)[i]), Path(ns, Order(ns)[i]));
    }
  }
}
