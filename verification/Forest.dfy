/** The tree of characters as a map from identifiers to entries, the path of a node,
    and the document order that paths induce. */
module Forest {
  import opened OpIds

  type Rune = int

  type FugueSide = int
  const FUGUE_LEFT: FugueSide := 0
  const FUGUE_RIGHT: FugueSide := 1

  /** What an insert fixes for ever about a node. Any side but FUGUE_LEFT counts as right. */
  datatype Entry = Entry(value: Rune, parent: OpID, side: FugueSide) {
    predicate OnLeft() { side == FUGUE_LEFT }
  }

  /** All nodes but the sentinel. */
  type Nodes = map<OpID, Entry>

  predicate Present(ns: Nodes, id: OpID) {
    id == ROOT || id in ns
  }

  /** A rank certifies that parent chains reach the sentinel. */
  ghost predicate Ranks(ns: Nodes, rank: map<OpID, nat>) {
    forall id {:trigger RankAbove(ns, rank, id)} :: id in ns ==> RankAbove(ns, rank, id)
  }

  ghost predicate RankAbove(ns: Nodes, rank: map<OpID, nat>, id: OpID)
    requires id in ns
  {
    && id in rank && rank[id] < |ns|
    && var p := ns[id].parent;
       p == ROOT || (p in ns && p in rank && rank[p] < rank[id])
  }

  /** Every node has a present parent and no chain of parents is cyclic. */
  ghost predicate Grounded(ns: Nodes) {
    ROOT !in ns && exists rank :: Ranks(ns, rank)
  }

  ghost function Rank(ns: Nodes): (rank: map<OpID, nat>)
    requires Grounded(ns)
    ensures Ranks(ns, rank)
  {
    var rank :| Ranks(ns, rank);
    rank
  }

  ghost function Level(ns: Nodes, id: OpID): (level: nat)
    requires Grounded(ns) && Present(ns, id)
    ensures level <= |ns|
  {
    if id == ROOT then 0
    else
      assert RankAbove(ns, Rank(ns), id);
      1 + Rank(ns)[id]
  }

  lemma ParentIsHigher(ns: Nodes, id: OpID)
    requires Grounded(ns) && id in ns
    ensures Present(ns, ns[id].parent)
    ensures Level(ns, ns[id].parent) < Level(ns, id)
  {
    assert RankAbove(ns, Rank(ns), id);
  }

  lemma GroundedEmpty()
    ensures Grounded(map[])
  {
    assert Ranks(map[], map[]);
  }

  lemma GroundedInsert(ns: Nodes, id: OpID, e: Entry)
    requires Grounded(ns) && !Present(ns, id) && Present(ns, e.parent)
    ensures Grounded(ns[id := e])
  {
    var rank := Rank(ns);
    var ns', rank' := ns[id := e], rank[id := |ns|];
    assert |ns'| == |ns| + 1 by {
      assert ns'.Keys == ns.Keys + {id};
      assert |ns'| == |ns'.Keys| && |ns| == |ns.Keys|;
    }
    forall x | x in ns' ensures RankAbove(ns', rank', x) {
      assert x != id ==> RankAbove(ns, rank, x);
      assert e.parent != ROOT ==> RankAbove(ns, rank, e.parent);
    }
    assert Ranks(ns', rank');
  }

  // ---------- Paths ----------

  datatype Step = Step(left: bool, id: OpID)

  function StepOf(ns: Nodes, id: OpID): Step
    requires id in ns
  {
    Step(ns[id].OnLeft(), id)
  }

  /** The turns taken from the sentinel down to a node. */
  ghost function Path(ns: Nodes, id: OpID): seq<Step>
    requires Grounded(ns) && Present(ns, id)
    decreases Level(ns, id)
  {
    if id == ROOT then []
    else
      ParentIsHigher(ns, id);
      Path(ns, ns[id].parent) + [StepOf(ns, id)]
  }

  predicate StepLess(s: Step, t: Step) {
    if s.left != t.left then s.left else Less(s.id, t.id)
  }

  /** Document order: everything on the left of a node, the node, everything on its right;
      siblings by identifier. */
  predicate PathLess(p: seq<Step>, q: seq<Step>) {
    if p == [] then q != [] && !q[0].left
    else if q == [] then p[0].left
    else if p[0] == q[0] then PathLess(p[1..], q[1..])
    else StepLess(p[0], q[0])
  }

  ghost predicate Precedes(ns: Nodes, a: OpID, b: OpID)
    requires Grounded(ns) && Present(ns, a) && Present(ns, b)
  {
    PathLess(Path(ns, a), Path(ns, b))
  }

  lemma StepLessIsTotal(s: Step, t: Step)
    ensures s != t ==> StepLess(s, t) != StepLess(t, s)
    ensures !StepLess(s, s)
  {
    LessIsTotal(s.id, t.id);
    LessIsTotal(s.id, s.id);
  }

  lemma {:induction false} PathLessIsTotal(p: seq<Step>, q: seq<Step>)
    ensures p != q ==> PathLess(p, q) != PathLess(q, p)
    ensures !PathLess(p, p)
  {
    if p != [] {
      PathLessIsTotal(p[1..], p[1..]);
      if q != [] {
        StepLessIsTotal(p[0], q[0]);
        PathLessIsTotal(p[1..], q[1..]);
        assert p == [p[0]] + p[1..] && q == [q[0]] + q[1..];
      }
    }
  }

  lemma StepLessIsTransitive(s: Step, t: Step, u: Step)
    requires StepLess(s, t) && StepLess(t, u)
    ensures StepLess(s, u)
  {
    if s.left == t.left == u.left { LessIsTransitive(s.id, t.id, u.id); }
  }

  lemma {:induction false} PathLessIsTransitive(p: seq<Step>, q: seq<Step>, r: seq<Step>)
    requires PathLess(p, q) && PathLess(q, r)
    ensures PathLess(p, r)
  {
    if p != [] && q != [] && r != [] {
      StepLessIsTotal(p[0], q[0]);
      StepLessIsTotal(q[0], r[0]);
      if p[0] == q[0] == r[0] {
        PathLessIsTransitive(p[1..], q[1..], r[1..]);
      } else if p[0] != q[0] && q[0] != r[0] {
        StepLessIsTransitive(p[0], q[0], r[0]);
        StepLessIsTotal(p[0], r[0]);
      }
    }
  }

  /** Two paths that part at index n are ordered by the steps they take there. */
  lemma {:induction false} PathLessAtFork(p: seq<Step>, q: seq<Step>, n: nat)
    requires n < |p| && n < |q| && p[..n] == q[..n] && p[n] != q[n]
    ensures PathLess(p, q) == StepLess(p[n], q[n])
  {
    if n > 0 {
      assert p[0] == p[..n][0] == q[..n][0] == q[0];
      assert p[1..][..n - 1] == p[..n][1..] == q[..n][1..] == q[1..][..n - 1];
      PathLessAtFork(p[1..], q[1..], n - 1);
    }
  }

  /** A node against one below it: the first step down decides. */
  lemma {:induction false} PathLessDown(p: seq<Step>, q: seq<Step>)
    requires p < q
    ensures PathLess(p, q) == !q[|p|].left
    ensures PathLess(q, p) == q[|p|].left
  {
    if p != [] {
      assert p[0] == q[0];
      PathLessDown(p[1..], q[1..]);
    }
  }

  lemma PathEnds(ns: Nodes, id: OpID)
    requires Grounded(ns) && Present(ns, id)
    ensures id == ROOT <==> Path(ns, id) == []
    ensures id != ROOT ==>
              && Present(ns, ns[id].parent)
              && Level(ns, ns[id].parent) < Level(ns, id)
              && Path(ns, id)[|Path(ns, id)| - 1] == StepOf(ns, id)
              && Path(ns, id)[..|Path(ns, id)| - 1] == Path(ns, ns[id].parent)
  {
    if id != ROOT { ParentIsHigher(ns, id); }
  }

  lemma PathIsInjective(ns: Nodes, a: OpID, b: OpID)
    requires Grounded(ns) && Present(ns, a) && Present(ns, b)
    requires Path(ns, a) == Path(ns, b)
    ensures a == b
  {
    PathEnds(ns, a);
    PathEnds(ns, b);
  }

  lemma PathsTellApart(ns: Nodes, a: OpID, b: OpID)
    requires Grounded(ns) && Present(ns, a) && Present(ns, b)
    ensures Path(ns, a) == Path(ns, b) <==> a == b
  {
    PathEnds(ns, a);
    PathEnds(ns, b);
  }

  /** The ancestor at a given depth. */
  ghost function Ancestor(path: seq<Step>, n: nat): OpID
    requires n <= |path|
  {
    if n == 0 then ROOT else path[n - 1].id
  }

  /** Every prefix of a path is the path of the ancestor it names. */
  lemma {:induction false} AncestorPath(ns: Nodes, id: OpID, n: nat)
    requires Grounded(ns) && Present(ns, id) && n <= |Path(ns, id)|
    ensures var a := Ancestor(Path(ns, id), n);
            Present(ns, a) && Path(ns, a) == Path(ns, id)[..n]
    ensures n > 0 ==>
              var a := Ancestor(Path(ns, id), n);
              && a in ns && Path(ns, id)[n - 1] == StepOf(ns, a)
              && ns[a].parent == Ancestor(Path(ns, id), n - 1)
    decreases Level(ns, id)
  {
    PathEnds(ns, id);
    if id != ROOT {
      var p := Path(ns, id);
      if n == |p| {
        assert p[..n] == p;
        var q := ns[id].parent;
        PathEnds(ns, q);
        if q != ROOT { assert p[n - 2] == Path(ns, q)[n - 2]; }
      } else {
        var q := ns[id].parent;
        AncestorPath(ns, q, n);
        assert Path(ns, q)[..n] == p[..n];
        assert n > 0 ==> Path(ns, q)[n - 1] == p[n - 1];
        assert n > 1 ==> Path(ns, q)[n - 2] == p[n - 2];
      }
    }
  }

  /** Paths never change while a tree grows, nor do they differ between two trees that
      agree on the entries they share. */
  ghost predicate Agree(ms: Nodes, ns: Nodes) {
    forall id :: id in ms && id in ns ==> ms[id] == ns[id]
  }

  lemma {:induction false} PathsAgree(ms: Nodes, ns: Nodes, id: OpID)
    requires Grounded(ms) && Grounded(ns) && Agree(ms, ns)
    requires Present(ms, id) && Present(ns, id)
    ensures Path(ms, id) == Path(ns, id)
    decreases Level(ms, id)
  {
    if id != ROOT {
      ParentIsHigher(ms, id);
      ParentIsHigher(ns, id);
      PathsAgree(ms, ns, ms[id].parent);
    }
  }
}
