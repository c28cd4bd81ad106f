/** Backward typing: two characters typed one after the other at one position. The pair is one
    block after every exchange exactly when the first character landed as a right child. */
module Prepending {
  import opened OpIds
  import opened Forest
  import opened Traversal
  import opened Docs
  import opened Convergence
  import opened Placement
  import opened Blocks
  import opened Typing

  /** A replica that types first at pos and then second at pos, in front of it. */
  datatype Pair = Pair(start: Replica, pos: nat, first: Rune, second: Rune)

  ghost predicate ProperPair(p: Pair) {
    && Sound(p.start.doc) && CounterCovers(p.start) && p.start.counter + 2 <= MAX_COUNTER
    && p.pos <= |VisibleIds(p.start.doc)|
  }

  function FirstId(p: Pair): OpID
    requires p.start.counter + 2 <= MAX_COUNTER
  {
    RunId(p.start, 0)
  }

  function SecondId(p: Pair): OpID
    requires p.start.counter + 2 <= MAX_COUNTER
  {
    RunId(p.start, 1)
  }

  ghost function FirstEntry(p: Pair): Entry
    requires ProperPair(p)
  {
    EntryAt(p.start.doc, p.pos, p.first)
  }

  /** The document after the first character. */
  ghost function Middle(p: Pair): (d: Doc)
    requires ProperPair(p)
    ensures Sound(d) && p.pos + 1 <= |VisibleIds(d)|
  {
    PairStarts(p);
    ApplyInsert(p.start.doc, FirstId(p), FirstEntry(p))
  }

  ghost function SecondEntry(p: Pair): Entry
    requires ProperPair(p)
  {
    EntryAt(Middle(p), p.pos, p.second)
  }

  lemma VisibleGrows(d: Doc, id: OpID, e: Entry)
    requires Sound(d) && !Present(d.nodes, id) && Present(d.nodes, e.parent)
    ensures Sound(ApplyInsert(d, id, e)) && |VisibleIds(ApplyInsert(d, id, e))| == |VisibleIds(d)| + 1
  {
    var m := InsertJoinsVisible(d, id, e);
  }

  lemma PairStarts(p: Pair)
    requires ProperPair(p)
    ensures !Present(p.start.doc.nodes, FirstId(p)) && Present(p.start.doc.nodes, FirstEntry(p).parent)
    ensures var d := ApplyInsert(p.start.doc, FirstId(p), FirstEntry(p));
            Sound(d) && p.pos + 1 <= |VisibleIds(d)|
  {
    RunIdIsFresh(p.start, 0);
    ResolveIsReady(p.start, InsertEdit(p.pos, p.first));
    var m := InsertJoinsVisible(p.start.doc, FirstId(p), FirstEntry(p));
  }

  ghost function FirstOp(p: Pair): Op
    requires ProperPair(p)
  {
    Insert(FirstId(p), FirstEntry(p))
  }

  ghost function SecondOp(p: Pair): Op
    requires ProperPair(p)
  {
    Insert(SecondId(p), SecondEntry(p))
  }

  /** These are the operations the two edits return. */
  lemma PairIsTyped(p: Pair)
    requires ProperPair(p)
    ensures var (r, op) := Local(p.start, InsertEdit(p.pos, p.first));
            && op == Some(FirstOp(p)) && r.doc == Middle(p)
            && Local(r, InsertEdit(p.pos, p.second)).1 == Some(SecondOp(p))
  {
    PairStarts(p);
    assert IsRunSoFar(p.start, 0, p.start);
    RunStep(p.start, 0, p.start, p.pos, p.first);
    var r := Local(p.start, InsertEdit(p.pos, p.first)).0;
    RunStep(p.start, 1, r, p.pos, p.second);
  }

  lemma SecondIsReady(p: Pair)
    requires ProperPair(p)
    ensures !Present(Middle(p).nodes, SecondId(p)) && Present(Middle(p).nodes, SecondEntry(p).parent)
  {
    RunIdIsFresh(p.start, 1);
    ResolveIsReady(Replica(p.start.name, p.start.counter, Middle(p)), InsertEdit(p.pos, p.second));
  }

  // ---------- Exchanges ----------

  /** Operations of others: nobody else has or hangs anything off the two characters. */
  ghost predicate Foreign(p: Pair, others: set<Op>)
    requires p.start.counter + 2 <= MAX_COUNTER
  {
    forall op :: op in others && op.Insert? ==>
      && op.id != FirstId(p) && op.id != SecondId(p)
      && op.entry.parent != FirstId(p) && op.entry.parent != SecondId(p)
  }

  /** The document with the pair and the operations of the others in effect. */
  ghost predicate IsExchange(p: Pair, others: set<Op>, d: Doc)
    requires ProperPair(p)
  {
    Sound(d) && Exactly(p.start.doc, {FirstOp(p), SecondOp(p)} + others, d)
  }

  ghost predicate LandsRight(p: Pair)
    requires ProperPair(p)
  {
    LandingGuard(p.start.doc, p.pos, FirstId(p)) && !FirstEntry(p).OnLeft()
  }

  ghost predicate PairIsABlock(p: Pair, d: Doc)
    requires p.start.counter + 2 <= MAX_COUNTER && Sound(d)
  {
    HasBlock(Order(d.nodes), [SecondId(p), FirstId(p)])
  }

  /** The tree has the two characters of the pair. */
  ghost predicate HasPair(p: Pair, ns: Nodes)
    requires ProperPair(p)
  {
    && FirstId(p) in ns && ns[FirstId(p)] == FirstEntry(p)
    && SecondId(p) in ns && ns[SecondId(p)] == SecondEntry(p)
  }

  lemma ExactlyHasPair(p: Pair, ops: set<Op>, d: Doc)
    requires ProperPair(p) && Exactly(p.start.doc, ops, d) && FirstOp(p) in ops && SecondOp(p) in ops
    ensures HasPair(p, d.nodes)
  {
    RunIdIsFresh(p.start, 0);
    RunIdIsFresh(p.start, 1);
  }

  lemma ExchangeHasPair(p: Pair, others: set<Op>, d: Doc)
    requires ProperPair(p) && IsExchange(p, others, d)
    ensures HasPair(p, d.nodes)
  {
    ExactlyHasPair(p, {FirstOp(p), SecondOp(p)} + others, d);
  }

  // ---------- A first character that landed as a right child ----------

  /** Then the second one becomes its left child. */
  lemma SecondGoesLeft(p: Pair)
    requires ProperPair(p) && LandsRight(p)
    ensures SecondEntry(p) == Entry(p.second, FirstId(p), FUGUE_LEFT)
  {
    PairStarts(p);
    GuardLands(p.start.doc, p.pos, p.first, FirstId(p), FirstEntry(p));
    assert VisibleIds(Middle(p)) == PutIn(VisibleIds(p.start.doc), p.pos, FirstId(p));
  }

  /** What hangs off the pair belongs to it. */
  lemma PairStaysUndisturbed(p: Pair, others: set<Op>, d: Doc, y: OpID)
    requires ProperPair(p) && LandsRight(p) && Foreign(p, others) && IsExchange(p, others, d)
    requires y in d.nodes && (d.nodes[y].parent == FirstId(p) || d.nodes[y].parent == SecondId(p))
    ensures y == SecondId(p)
  {
    var base, ops := p.start.doc, {FirstOp(p), SecondOp(p)} + others;
    RunIdIsFresh(p.start, 0);
    RunIdIsFresh(p.start, 1);
    PairStarts(p);
    if y in base.nodes {
      ParentIsHigher(base.nodes, y);
    } else {
      assert Known(base, ops, y);
      var op :| op in ops && op.Insert? && op.id == y;
      assert d.nodes[y] == op.entry;
    }
  }

  lemma {:induction false} BelowStaysIn(ns: Nodes, x: OpID, s: set<OpID>, z: OpID)
    requires Grounded(ns) && x in ns && x in s && z in ns && Below(ns, x, z)
    requires forall y :: y in ns && ns[y].parent in s ==> y in s
    ensures z in s
    decreases Level(ns, z)
  {
    if z != x {
      var p, q := Path(ns, x), Path(ns, z);
      PathEnds(ns, z);
      PathEnds(ns, x);
      var up := ns[z].parent;
      assert |p| == |q| ==> p == q;
      PathsTellApart(ns, z, x);
      assert Path(ns, up) == q[..|q| - 1];
      PathEnds(ns, up);
      BelowStaysIn(ns, x, s, up);
    }
  }

  /** A leaf on the left of a node without other children stands right before it. */
  lemma LeafBeforeItsParent(ns: Nodes, x: OpID, y: OpID)
    requires Grounded(ns) && x in ns && y in ns && ns[y].parent == x && ns[y].OnLeft()
    requires forall z :: z in ns && (ns[z].parent == x || ns[z].parent == y) ==> z == y
    ensures HasBlock(Order(ns), [y, x])
  {
    var ids := [y, x];
    PathEnds(ns, y);
    PathLessDown(Path(ns, x), Path(ns, y));
    assert AllIn(ns, ids) && InOrder(ns, ids);
    forall z | z in ns && z !in ids ensures Precedes(ns, z, y) || Precedes(ns, x, z) {
      if Below(ns, x, z) { BelowStaysIn(ns, x, {x, y}, z); }
      OneSideOfASubtree(ns, x, y, z);
      PathsTellApart(ns, x, z);
      PathLessIsTotal(Path(ns, x), Path(ns, z));
    }
    BlockIffOthersOutside(ns, ids);
  }

  /** The pair is one block of every exchange, and what is visible of it one block of the text. */
  lemma RightPairStaysWhole(p: Pair, others: set<Op>, d: Doc)
    requires ProperPair(p) && LandsRight(p) && Foreign(p, others) && IsExchange(p, others, d)
    ensures PairIsABlock(p, d)
    ensures HasBlock(VisibleIds(d), Visible([SecondId(p), FirstId(p)], d.dead))
  {
    ExchangeHasPair(p, others, d);
    SecondGoesLeft(p);
    forall z | z in d.nodes && (d.nodes[z].parent == FirstId(p) || d.nodes[z].parent == SecondId(p))
      ensures z == SecondId(p)
    {
      PairStaysUndisturbed(p, others, d, z);
    }
    LeafBeforeItsParent(d.nodes, FirstId(p), SecondId(p));
    BlockStaysVisible(d, [SecondId(p), FirstId(p)]);
  }

  // ---------- Any other first character ----------

  ghost function Left(p: Pair): OpID
    requires ProperPair(p)
  {
    LeftNeighbour(p.start.doc, p.pos)
  }

  lemma PutInBehind(ns: Nodes, v: seq<OpID>, m: nat, id: OpID, pos: nat)
    requires Grounded(ns) && m <= |v| && 0 < pos <= |v| && id in ns && v[pos - 1] in ns
    requires AllIn(ns, PutIn(v, m, id)) && InOrder(ns, PutIn(v, m, id)) && Precedes(ns, v[pos - 1], id)
    ensures PutIn(v, m, id)[pos - 1] == v[pos - 1]
  {
    if m < pos { PositionsDecide(ns, PutIn(v, m, id), pos, m); }
  }

  /** Nothing lands before its left neighbour. */
  lemma LeftStays(p: Pair)
    requires ProperPair(p)
    ensures LeftNeighbour(Middle(p), p.pos) == Left(p) && Present(p.start.doc.nodes, Left(p))
  {
    var d, x := p.start.doc, FirstId(p);
    PairStarts(p);
    VisibleIdsListing(d);
    VisibleIdsListing(Middle(p));
    NewNodeAgainstNeighbours(d, p.pos, p.first, x);
    var m := InsertJoinsVisible(d, x, FirstEntry(p));
    if p.pos > 0 {
      assert VisibleIds(d)[p.pos - 1] in VisibleIds(d);
      PutInBehind(Middle(p).nodes, VisibleIds(d), m, x, p.pos);
    }
  }

  /** If the first one missed its place, or landed as a left child, the second one becomes a right
      child of the left neighbour. */
  lemma SecondGoesRight(p: Pair)
    requires ProperPair(p) && !LandsRight(p)
    ensures SecondEntry(p) == Entry(p.second, Left(p), FUGUE_RIGHT)
  {
    var d := p.start.doc;
    PairStarts(p);
    LeftStays(p);
    if !LandingGuard(d, p.pos, FirstId(p)) {
      MissedCharacter(d, p.pos, p.first, FirstId(p));
      VisibleIsPresent(d, p.pos);
    } else {
      GuardLands(d, p.pos, p.first, FirstId(p), FirstEntry(p));
      assert VisibleIds(Middle(p)) == PutIn(VisibleIds(d), p.pos, FirstId(p));
      FirstHangsLeft(p);
    }
  }

  /** A first character on the left is the left child of a right neighbour that is a child of the
      left one. */
  lemma FirstHangsLeft(p: Pair)
    requires ProperPair(p) && FirstEntry(p).OnLeft()
    ensures var d, right := p.start.doc, FirstEntry(p).parent;
            && p.pos < |VisibleIds(d)| && VisibleIds(d)[p.pos] == right && right in d.nodes
            && d.nodes[right].parent == Left(p) && right != Left(p)
  {
    var d := p.start.doc;
    VisibleIdsListing(d);
    VisibleIsPresent(d, p.pos);
    ParentIsHigher(d.nodes, FirstEntry(p).parent);
  }

  lemma MissedFirst(p: Pair)
    requires ProperPair(p) && !LandingGuard(p.start.doc, p.pos, FirstId(p))
    ensures FirstEntry(p) == Entry(p.first, Left(p), FUGUE_RIGHT)
  {
  }

  lemma SiblingsByIdentifier(ns: Nodes, x: OpID, y: OpID)
    requires Grounded(ns) && x in ns && y in ns && ns[x].parent == ns[y].parent
    requires ns[x].OnLeft() == ns[y].OnLeft() && Less(x, y)
    ensures Precedes(ns, x, y)
  {
    PathEnds(ns, x);
    PathEnds(ns, y);
    LessIsTotal(x, y);
    var n := |Path(ns, x)| - 1;
    PathLessAtFork(Path(ns, x), Path(ns, y), n);
  }

  /** y and right are children of one node; x hangs below right. */
  lemma AcrossSiblings(ns: Nodes, y: OpID, right: OpID, x: OpID)
    requires Grounded(ns) && x in ns && y in ns && right in ns && y != right
    requires ns[x].parent == right && ns[right].parent == ns[y].parent
    ensures StepLess(StepOf(ns, y), StepOf(ns, right)) ==> Precedes(ns, y, x)
    ensures StepLess(StepOf(ns, right), StepOf(ns, y)) ==> Precedes(ns, x, y)
  {
    PathEnds(ns, x);
    PathEnds(ns, y);
    PathEnds(ns, right);
    var n := |Path(ns, y)| - 1;
    assert Path(ns, right)[n] == StepOf(ns, right) == Path(ns, x)[n];
    PathLessAtFork(Path(ns, x), Path(ns, y), n);
    PathLessAtFork(Path(ns, y), Path(ns, x), n);
  }

  /** Another replica with the same document, whose next identifier sorts before the first one of
      the pair. */
  ghost predicate IsRival(p: Pair, q: Replica)
    requires ProperPair(p)
  {
    && q.doc == p.start.doc && CounterCovers(q) && q.counter < MAX_COUNTER
    && Less(RunId(q, 0), FirstId(p))
  }

  ghost function RivalOp(p: Pair, q: Replica, c: Rune): Op
    requires ProperPair(p) && IsRival(p, q)
  {
    Insert(RunId(q, 0), EntryAt(q.doc, p.pos, c))
  }

  lemma RivalIsFresh(p: Pair, q: Replica, c: Rune)
    requires ProperPair(p) && IsRival(p, q)
    ensures !Present(p.start.doc.nodes, RunId(q, 0)) && RunId(q, 0) != FirstId(p) && RunId(q, 0) != SecondId(p)
    ensures Present(p.start.doc.nodes, RivalOp(p, q, c).entry.parent)
    ensures Foreign(p, {RivalOp(p, q, c)})
  {
    RunIdIsFresh(q, 0);
    RunIdIsFresh(p.start, 0);
    RunIdIsFresh(p.start, 1);
    ResolveIsReady(q, InsertEdit(p.pos, c));
    LessIsTotal(RunId(q, 0), FirstId(p));
    LessIsTotal(RunId(q, 0), RunId(q, 0));
    LessIsTotal(FirstId(p), SecondId(p));
  }

  /** The exchange with one character of a rival. */
  lemma RivalExchange(p: Pair, q: Replica, c: Rune) returns (d: Doc)
    requires ProperPair(p) && IsRival(p, q)
    ensures IsExchange(p, {RivalOp(p, q, c)}, d)
  {
    var base, a, b, z := p.start.doc, FirstOp(p), SecondOp(p), RivalOp(p, q, c);
    PairStarts(p);
    SecondIsReady(p);
    RivalIsFresh(p, q, c);
    ExactlyNothing(base);
    ExactlyStep(base, {}, base, a);
    ApplyGrows(Middle(p), b);
    ExactlyStep(base, {} + {a}, Middle(p), b);
    d := Apply(Apply(Middle(p), b), z);
    ApplyGrows(Apply(Middle(p), b), z);
    ExactlyStep(base, {} + {a} + {b}, Apply(Middle(p), b), z);
    assert {} + {a} + {b} + {z} == {a, b} + {z};
  }

  lemma ReversedIsNoBlock(p: Pair, d: Doc)
    requires p.start.counter + 2 <= MAX_COUNTER && Sound(d) && FirstId(p) in d.nodes && SecondId(p) in d.nodes
    requires Precedes(d.nodes, FirstId(p), SecondId(p))
    ensures !PairIsABlock(p, d)
  {
    OrderIsTheListing(d.nodes);
    if PairIsABlock(p, d) {
      BlockIsInOrder(d.nodes, Order(d.nodes), [SecondId(p), FirstId(p)]);
    }
  }

  lemma SplitIsNoBlock(p: Pair, d: Doc, z: OpID)
    requires p.start.counter + 2 <= MAX_COUNTER && Sound(d) && FirstId(p) in d.nodes && SecondId(p) in d.nodes
    requires z in d.nodes && Precedes(d.nodes, SecondId(p), z) && Precedes(d.nodes, z, FirstId(p))
    ensures !PairIsABlock(p, d)
  {
    var x, y := FirstId(p), SecondId(p);
    PathLessIsTotal(Path(d.nodes, z), Path(d.nodes, x));
    PathLessIsTotal(Path(d.nodes, z), Path(d.nodes, y));
    PathLessIsTotal(Path(d.nodes, z), Path(d.nodes, z));
    PathLessIsTotal(Path(d.nodes, y), Path(d.nodes, x));
    if PairIsABlock(p, d) {
      OrderIsTheListing(d.nodes);
      BlockIsInOrder(d.nodes, Order(d.nodes), [y, x]);
      BlockIffOthersOutside(d.nodes, [y, x]);
    }
  }

  /** A document that grew out of the common one and has the pair and the rival's character. */
  ghost predicate HasRival(p: Pair, q: Replica, c: Rune, d: Doc)
    requires ProperPair(p) && IsRival(p, q)
  {
    && Sound(d) && Grows(p.start.doc, d) && HasPair(p, d.nodes)
    && RunId(q, 0) in d.nodes && d.nodes[RunId(q, 0)] == RivalOp(p, q, c).entry
  }

  lemma ExchangeHasRival(p: Pair, q: Replica, c: Rune, d: Doc)
    requires ProperPair(p) && IsRival(p, q) && IsExchange(p, {RivalOp(p, q, c)}, d)
    ensures HasRival(p, q, c, d)
  {
    ExchangeHasPair(p, {RivalOp(p, q, c)}, d);
    RunIdIsFresh(q, 0);
    assert RivalOp(p, q, c) in {FirstOp(p), SecondOp(p)} + {RivalOp(p, q, c)};
  }

  /** The pair is reversed, or the rival's character stands between. */
  ghost predicate TornApart(p: Pair, q: Replica, d: Doc)
    requires p.start.counter + 2 <= MAX_COUNTER && q.counter < MAX_COUNTER && Sound(d)
    requires FirstId(p) in d.nodes && SecondId(p) in d.nodes && RunId(q, 0) in d.nodes
  {
    || Precedes(d.nodes, FirstId(p), SecondId(p))
    || (Precedes(d.nodes, SecondId(p), RunId(q, 0)) && Precedes(d.nodes, RunId(q, 0), FirstId(p)))
  }

  /** A pair whose first character missed its place, or became a left child, is split by a rival
      that types one character at the same position. */
  lemma OtherPairIsApart(p: Pair, q: Replica, c: Rune, d: Doc)
    requires ProperPair(p) && !LandsRight(p) && IsRival(p, q) && HasRival(p, q, c, d)
    ensures TornApart(p, q, d)
  {
    SecondGoesRight(p);
    if !LandingGuard(p.start.doc, p.pos, FirstId(p)) {
      MissedFirst(p);
      SiblingsByIdentifier(d.nodes, FirstId(p), SecondId(p));
    } else {
      FirstHangsLeft(p);
      LeftPairIsApart(p, q, c, d);
    }
  }

  lemma LeftPairIsApart(p: Pair, q: Replica, c: Rune, d: Doc)
    requires ProperPair(p) && IsRival(p, q) && HasRival(p, q, c, d) && FirstEntry(p).OnLeft()
    requires SecondEntry(p) == Entry(p.second, Left(p), FUGUE_RIGHT)
    requires var right := FirstEntry(p).parent;
             right in p.start.doc.nodes && p.start.doc.nodes[right].parent == Left(p)
    ensures TornApart(p, q, d)
  {
    var x, y, z, right := FirstId(p), SecondId(p), RunId(q, 0), FirstEntry(p).parent;
    RunIdIsFresh(p.start, 1);
    AcrossSiblings(d.nodes, y, right, x);
    AcrossSiblings(d.nodes, y, right, z);
    SiblingsByIdentifier(d.nodes, z, x);
    StepLessIsTotal(StepOf(d.nodes, y), StepOf(d.nodes, right));
  }

  lemma ApartIsNoBlock(p: Pair, q: Replica, d: Doc)
    requires p.start.counter + 2 <= MAX_COUNTER && q.counter < MAX_COUNTER && Sound(d)
    requires FirstId(p) in d.nodes && SecondId(p) in d.nodes && RunId(q, 0) in d.nodes && TornApart(p, q, d)
    ensures !PairIsABlock(p, d)
  {
    if Precedes(d.nodes, FirstId(p), SecondId(p)) {
      ReversedIsNoBlock(p, d);
    } else {
      SplitIsNoBlock(p, d, RunId(q, 0));
    }
  }

  /** With a rival about, the pair is one block of every exchange if and only if its first
      character landed as a right child. */
  lemma WholeInEveryExchangeIff(p: Pair, q: Replica)
    requires ProperPair(p) && IsRival(p, q)
    ensures (forall others, d :: Foreign(p, others) && IsExchange(p, others, d) ==> PairIsABlock(p, d))
            <==> LandsRight(p)
  {
    if LandsRight(p) {
      forall others, d | Foreign(p, others) && IsExchange(p, others, d) ensures PairIsABlock(p, d) {
        RightPairStaysWhole(p, others, d);
      }
    } else {
      RivalIsFresh(p, q, 0);
      var d := RivalExchange(p, q, 0);
      ExchangeHasRival(p, q, 0, d);
      OtherPairIsApart(p, q, 0, d);
      ApartIsNoBlock(p, q, d);
    }
  }

  // ---------- Two left pairs, and a third character ----------

  ghost predicate SecondLands(p: Pair)
    requires ProperPair(p)
  {
    LandingGuard(Middle(p), p.pos, SecondId(p))
  }

  /** A second character that lands beside a left child sorts before the right neighbour. */
  lemma LandedSecondSortsFirst(p: Pair)
    requires ProperPair(p) && FirstEntry(p).OnLeft() && SecondLands(p)
    ensures var right := FirstEntry(p).parent;
            right in p.start.doc.nodes && !p.start.doc.nodes[right].OnLeft() && Less(SecondId(p), right)
  {
    var d, ns, x, right := p.start.doc, Middle(p).nodes, FirstId(p), FirstEntry(p).parent;
    PairStarts(p);
    FirstHangsLeft(p);
    LeftStays(p);
    GuardLands(d, p.pos, p.first, x, FirstEntry(p));
    assert VisibleIds(Middle(p)) == PutIn(VisibleIds(d), p.pos, x);
    PathEnds(ns, x);
    PathEnds(ns, right);
    assert Path(ns, x)[|Path(ns, Left(p))|] == StepOf(ns, right);
  }

  /** Two pairs prepended at one place, each in place on its own replica, the first characters as
      left children: together they are interleaved character by character. */
  lemma LeftPairsInterleave(p: Pair, q: Pair, d: Doc)
    requires ProperPair(p) && ProperPair(q) && p.start.doc == q.start.doc && p.pos == q.pos
    requires FirstEntry(p).OnLeft() && SecondLands(p) && SecondLands(q)
    requires Less(FirstId(p), FirstId(q)) && Less(SecondId(p), SecondId(q))
    requires Sound(d) && Grows(p.start.doc, d) && HasPair(p, d.nodes) && HasPair(q, d.nodes)
    ensures Precedes(d.nodes, SecondId(p), SecondId(q))
    ensures Precedes(d.nodes, SecondId(q), FirstId(p))
    ensures Precedes(d.nodes, FirstId(p), FirstId(q))
  {
    var right := FirstEntry(p).parent;
    FirstHangsLeft(p);
    LandedSecondSortsFirst(q);
    SecondGoesRight(p);
    SecondGoesRight(q);
    SiblingsByIdentifier(d.nodes, SecondId(p), SecondId(q));
    SiblingsByIdentifier(d.nodes, FirstId(p), FirstId(q));
    LessIsTotal(SecondId(q), right);
    LessIsTotal(right, right);
    AcrossSiblings(d.nodes, SecondId(q), right, FirstId(p));
  }

  /** A third character typed at the position of a right pair goes behind the first one. */
  lemma ThirdGoesBehind(p: Pair, third: Rune)
    requires ProperPair(p) && LandsRight(p) && p.start.counter + 3 <= MAX_COUNTER
    ensures var d := Apply(Middle(p), SecondOp(p));
            && Sound(d) && p.pos <= |VisibleIds(d)|
            && var e := EntryAt(d, p.pos, third);
               var d' := Apply(d, Insert(RunId(p.start, 2), e));
               && Sound(d') && FirstId(p) in d'.nodes && RunId(p.start, 2) in d'.nodes
               && Precedes(d'.nodes, FirstId(p), RunId(p.start, 2))
  {
    var d0, d := p.start.doc, Apply(Middle(p), SecondOp(p));
    PairStarts(p);
    SecondIsReady(p);
    SecondGoesLeft(p);
    LeftStays(p);
    GuardLands(d0, p.pos, p.first, FirstId(p), FirstEntry(p));
    GuardLands(Middle(p), p.pos, p.second, SecondId(p), SecondEntry(p));
    ThirdEntry(p, third);
    RunIdIsFresh(p.start, 2);
    var e := EntryAt(d, p.pos, third);
    ApplyGrows(d, Insert(RunId(p.start, 2), e));
    SiblingsByIdentifier(d.nodes[RunId(p.start, 2) := e], FirstId(p), RunId(p.start, 2));
  }

  lemma ThirdEntry(p: Pair, third: Rune)
    requires ProperPair(p) && LandsRight(p)
    requires SecondEntry(p) == Entry(p.second, FirstId(p), FUGUE_LEFT)
    requires VisibleIds(Middle(p)) == PutIn(VisibleIds(p.start.doc), p.pos, FirstId(p))
    requires var d := Apply(Middle(p), SecondOp(p));
             Sound(d) && VisibleIds(d) == PutIn(VisibleIds(Middle(p)), p.pos, SecondId(p))
    ensures var d := Apply(Middle(p), SecondOp(p));
            p.pos <= |VisibleIds(d)| && EntryAt(d, p.pos, third) == Entry(third, Left(p), FUGUE_RIGHT)
    ensures FirstEntry(p) == Entry(p.first, Left(p), FUGUE_RIGHT)
  {
    PairStarts(p);
    SecondIsReady(p);
    LeftStays(p);
  }

  // ---------- Three and more ----------

  /** The entry of a third character typed at the position of the pair. */
  ghost function ThirdEntryOf(p: Pair, third: Rune): Entry
    requires ProperPair(p)
  {
    SecondIsReady(p);
    ApplyGrows(Middle(p), SecondOp(p));
    VisibleGrows(Middle(p), SecondId(p), SecondEntry(p));
    EntryAt(Apply(Middle(p), SecondOp(p)), p.pos, third)
  }

  lemma ThreeInARow(s: seq<OpID>, z: OpID, y: OpID, x: OpID) returns (i: nat)
    requires HasBlock(s, [z, y, x])
    ensures i + 2 < |s| && s[i] == z && s[i + 1] == y && s[i + 2] == x
    ensures HasBlock(s, [y, x])
  {
    i :| 0 <= i <= |s| && [z, y, x] <= s[i..];
    BlockSplits(s, [z, y, x], i);
    assert s == (s[..i] + [z]) + [y, x] + s[i + 3..];
    BlockIntro(s, s[..i] + [z], [y, x], s[i + 3..]);
  }

  lemma LastTwoOfThree(ns: Nodes, z: OpID, y: OpID, x: OpID)
    requires Grounded(ns) && HasBlock(Order(ns), [z, y, x])
    ensures HasBlock(Order(ns), [y, x])
    ensures z in ns && x in ns && Precedes(ns, z, x)
  {
    OrderIsTheListing(ns);
    var i := ThreeInARow(Order(ns), z, y, x);
    assert Order(ns)[i] in Order(ns) && Order(ns)[i + 2] in Order(ns);
  }

  /** Three characters typed backwards are never one block where a rival has typed one character
      at their position, whatever else is there: either the third one is behind the first, or the
      first two are apart. */
  lemma ThreeAreNeverWhole(p: Pair, q: Replica, c: Rune, third: Rune, d: Doc)
    requires ProperPair(p) && p.start.counter + 3 <= MAX_COUNTER && IsRival(p, q) && HasRival(p, q, c, d)
    requires RunId(p.start, 2) in d.nodes && d.nodes[RunId(p.start, 2)] == ThirdEntryOf(p, third)
    ensures !HasBlock(Order(d.nodes), [RunId(p.start, 2), SecondId(p), FirstId(p)])
  {
    if HasBlock(Order(d.nodes), [RunId(p.start, 2), SecondId(p), FirstId(p)]) {
      LastTwoOfThree(d.nodes, RunId(p.start, 2), SecondId(p), FirstId(p));
      if LandsRight(p) {
        ThirdIsASibling(p, third);
        SiblingsByIdentifier(d.nodes, FirstId(p), RunId(p.start, 2));
        PathLessIsTotal(Path(d.nodes, FirstId(p)), Path(d.nodes, RunId(p.start, 2)));
      } else {
        OtherPairIsApart(p, q, c, d);
        ApartIsNoBlock(p, q, d);
      }
    }
  }

  lemma ThirdIsASibling(p: Pair, third: Rune)
    requires ProperPair(p) && LandsRight(p)
    ensures ThirdEntryOf(p, third) == Entry(third, Left(p), FUGUE_RIGHT)
    ensures FirstEntry(p) == Entry(p.first, Left(p), FUGUE_RIGHT)
  {
    var d0 := p.start.doc;
    PairStarts(p);
    SecondIsReady(p);
    SecondGoesLeft(p);
    LeftStays(p);
    GuardLands(d0, p.pos, p.first, FirstId(p), FirstEntry(p));
    GuardLands(Middle(p), p.pos, p.second, SecondId(p), SecondEntry(p));
    ThirdEntry(p, third);
  }
}
