/** Two replicas that type backwards at one place: a small run in which their characters end up
    interleaved one by one. */
module Interleaving {
  import opened OpIds
  import opened Forest
  import opened Traversal
  import opened Docs
  import opened Convergence
  import opened Placement
  import opened Blocks
  import opened Prepending

  function OneCharacter(o: string, v: Rune): Doc {
    Doc(map[OpID(o, 1) := Entry(v, ROOT, FUGUE_RIGHT)], {})
  }

  lemma OneCharacterIsVisible(o: string, v: Rune)
    ensures var d := OneCharacter(o, v);
            Sound(d) && VisibleIds(d) == [OpID(o, 1)] && Path(d.nodes, OpID(o, 1)) == [Step(false, OpID(o, 1))]
  {
    var d := OneCharacter(o, v);
    GroundedEmpty();
    GroundedInsert(map[], OpID(o, 1), Entry(v, ROOT, FUGUE_RIGHT));
    assert d.nodes == map[][OpID(o, 1) := Entry(v, ROOT, FUGUE_RIGHT)];
    VisibleIs(d, [OpID(o, 1)]);
  }

  /** Two characters typed at the front of a one-character document of o. */
  function FrontPair(name: string, o: string, v: Rune, first: Rune, second: Rune): Pair {
    Pair(Replica(name, 0, OneCharacter(o, v)), 0, first, second)
  }

  lemma FrontPairLands(name: string, o: string, v: Rune, first: Rune, second: Rune)
    requires StringLess(name, o)
    ensures var p := FrontPair(name, o, v, first, second);
            && ProperPair(p) && LandingGuard(p.start.doc, 0, FirstId(p)) && SecondLands(p)
            && FirstEntry(p) == Entry(first, OpID(o, 1), FUGUE_LEFT)
            && SecondEntry(p) == Entry(second, ROOT, FUGUE_RIGHT)
  {
    var p := FrontPair(name, o, v, first, second);
    OneCharacterIsVisible(o, v);
    StringLessTotal(name, o);
    assert ProperPair(p);
    FrontFirst(p, o, v);
    FrontSecond(p, o, v);
  }

  lemma FrontFirst(p: Pair, o: string, v: Rune)
    requires ProperPair(p) && p.start.doc == OneCharacter(o, v) && p.pos == 0 && VisibleIds(p.start.doc) == [OpID(o, 1)]
    ensures FirstEntry(p) == Entry(p.first, OpID(o, 1), FUGUE_LEFT) && LandingGuard(p.start.doc, 0, FirstId(p))
  {
  }

  lemma FrontSecond(p: Pair, o: string, v: Rune)
    requires ProperPair(p) && p.start.doc == OneCharacter(o, v) && p.pos == 0 && VisibleIds(p.start.doc) == [OpID(o, 1)]
    requires FirstEntry(p) == Entry(p.first, OpID(o, 1), FUGUE_LEFT) && LandingGuard(p.start.doc, 0, FirstId(p))
    requires Less(SecondId(p), OpID(o, 1))
    ensures SecondEntry(p) == Entry(p.second, ROOT, FUGUE_RIGHT) && SecondLands(p)
  {
    var d, x := Middle(p), FirstId(p);
    PairStarts(p);
    GuardLands(p.start.doc, 0, p.first, x, FirstEntry(p));
    assert VisibleIds(d) == PutIn([OpID(o, 1)], 0, x) == [x, OpID(o, 1)];
    PathEnds(d.nodes, OpID(o, 1));
    PathEnds(d.nodes, x);
    assert Path(d.nodes, x)[0] == StepOf(d.nodes, OpID(o, 1));
  }

  /** After the exchange of two front pairs nothing but the five characters is there. */
  ghost predicate FrontExchange(p: Pair, q: Pair, d: Doc)
    requires ProperPair(p) && ProperPair(q)
  {
    Sound(d) && Exactly(p.start.doc, {FirstOp(p), SecondOp(p), FirstOp(q), SecondOp(q)}, d)
  }

  /** Another insert that hangs off the base document. */
  lemma OneMoreInserted(base: Doc, ops: set<Op>, d: Doc, a: Op)
    requires Sound(base) && Sound(d) && Exactly(base, ops, d) && a.Insert? && Present(base.nodes, a.entry.parent)
    requires Consistent(ops) && forall o :: o in ops && o.Insert? ==> o.id != a.id
    ensures Sound(Apply(d, a)) && Exactly(base, ops + {a}, Apply(d, a)) && Consistent(ops + {a})
  {
    ApplyGrows(d, a);
    ExactlyStep(base, ops, d, a);
  }

  lemma FourExchange(base: Doc, a: Op, b: Op, c: Op, e: Op) returns (d: Doc)
    requires Sound(base) && a.Insert? && b.Insert? && c.Insert? && e.Insert?
    requires Present(base.nodes, a.entry.parent) && Present(base.nodes, b.entry.parent)
    requires Present(base.nodes, c.entry.parent) && Present(base.nodes, e.entry.parent)
    requires a.id != b.id && a.id != c.id && a.id != e.id && b.id != c.id && b.id != e.id && c.id != e.id
    ensures Sound(d) && Exactly(base, {a, b, c, e}, d)
  {
    ExactlyNothing(base);
    OneMoreInserted(base, {}, base, a);
    OneMoreInserted(base, {} + {a}, Apply(base, a), b);
    OneMoreInserted(base, {} + {a} + {b}, Apply(Apply(base, a), b), c);
    d := Apply(Apply(Apply(base, a), b), c);
    OneMoreInserted(base, {} + {a} + {b} + {c}, d, e);
    d := Apply(d, e);
    assert {} + {a} + {b} + {c} + {e} == {a, b, c, e};
  }

  /** Two replicas type two characters each at the front of one document, both in place; after the
      exchange the four are interleaved character by character. */
  lemma PrependedPairsInterleave(m: string, n: string, o: string, v: Rune, a: Rune, b: Rune, x: Rune, y: Rune)
    returns (d: Doc)
    requires StringLess(m, n) && StringLess(n, o)
    ensures var p, q := FrontPair(m, o, v, a, b), FrontPair(n, o, v, x, y);
            && ProperPair(p) && LandingGuard(p.start.doc, 0, FirstId(p)) && SecondLands(p)
            && ProperPair(q) && LandingGuard(q.start.doc, 0, FirstId(q)) && SecondLands(q)
            && FrontExchange(p, q, d) && Text(d) == [b, y, a, x, v]
  {
    var p, q := FrontPair(m, o, v, a, b), FrontPair(n, o, v, x, y);
    StringLessTransitive(m, n, o);
    FrontPairLands(m, o, v, a, b);
    FrontPairLands(n, o, v, x, y);
    StringLessAsymmetric(m, n);
    d := FourExchange(p.start.doc, FirstOp(p), SecondOp(p), FirstOp(q), SecondOp(q));
    FrontExchangeIs(p, q, o, v, d);
    InterleavedText(p, q, o, v, d);
  }

  lemma FourInserted(base: Doc, a: Op, b: Op, c: Op, e: Op, d: Doc)
    requires a.Insert? && b.Insert? && c.Insert? && e.Insert? && Exactly(base, {a, b, c, e}, d)
    requires ROOT !in d.nodes
    ensures d.dead == base.dead
    ensures forall id :: id in d.nodes ==> id in base.nodes || id == a.id || id == b.id || id == c.id || id == e.id
  {
    var ops := {a, b, c, e};
    forall t ensures t in d.dead <==> t in base.dead {
      assert !Deletes(ops, t);
    }
    forall id | id in d.nodes ensures id in base.nodes || id == a.id || id == b.id || id == c.id || id == e.id {
      assert Known(base, ops, id);
    }
  }

  lemma FrontExchangeIs(p: Pair, q: Pair, o: string, v: Rune, d: Doc)
    requires ProperPair(p) && ProperPair(q) && FrontExchange(p, q, d)
    requires p.start.doc == OneCharacter(o, v) == q.start.doc
    ensures Grows(p.start.doc, d) && HasPair(p, d.nodes) && HasPair(q, d.nodes) && d.dead == {}
    ensures forall id :: id in d.nodes ==> id in FiveIds(p, q, o)
  {
    var ops := {FirstOp(p), SecondOp(p), FirstOp(q), SecondOp(q)};
    ExactlyHasPair(p, ops, d);
    ExactlyHasPair(q, ops, d);
    FourInserted(p.start.doc, FirstOp(p), SecondOp(p), FirstOp(q), SecondOp(q), d);
  }

  function FiveIds(p: Pair, q: Pair, o: string): seq<OpID>
    requires p.start.counter + 2 <= MAX_COUNTER && q.start.counter + 2 <= MAX_COUNTER
  {
    [SecondId(p), SecondId(q), FirstId(p), FirstId(q), OpID(o, 1)]
  }

  lemma InterleavedText(p: Pair, q: Pair, o: string, v: Rune, d: Doc)
    requires ProperPair(p) && ProperPair(q) && p.start.doc == OneCharacter(o, v) == q.start.doc && p.pos == q.pos == 0
    requires FirstEntry(p) == Entry(p.first, OpID(o, 1), FUGUE_LEFT) && SecondLands(p)
    requires FirstEntry(q) == Entry(q.first, OpID(o, 1), FUGUE_LEFT) && SecondLands(q)
    requires SecondEntry(p).value == p.second && SecondEntry(q).value == q.second
    requires Less(FirstId(p), FirstId(q)) && Less(SecondId(p), SecondId(q))
    requires Sound(d) && Grows(p.start.doc, d) && HasPair(p, d.nodes) && HasPair(q, d.nodes) && d.dead == {}
    requires forall id :: id in d.nodes ==> id in FiveIds(p, q, o)
    ensures Text(d) == [p.second, q.second, p.first, q.first, v]
  {
    var s := FiveIds(p, q, o);
    LeftPairsInterleave(p, q, d);
    LastBeforeTheOld(d, FirstId(q), OpID(o, 1));
    FiveInOrder(d.nodes, s);
    FiveRead(d, s);
  }

  lemma FiveRead(d: Doc, s: seq<OpID>)
    requires Sound(d) && d.dead == {} && AllIn(d.nodes, s) && InOrder(d.nodes, s) && |s| == 5
    requires forall id :: id in d.nodes ==> id in s
    requires s[0] in d.nodes && s[1] in d.nodes && s[2] in d.nodes && s[3] in d.nodes && s[4] in d.nodes
    ensures var ns := d.nodes;
            Text(d) == [ns[s[0]].value, ns[s[1]].value, ns[s[2]].value, ns[s[3]].value, ns[s[4]].value]
  {
    VisibleIs(d, s);
  }

  lemma LastBeforeTheOld(d: Doc, x: OpID, parent: OpID)
    requires Sound(d) && x in d.nodes && parent in d.nodes && d.nodes[x].parent == parent && d.nodes[x].OnLeft()
    ensures Precedes(d.nodes, x, parent)
  {
    PathEnds(d.nodes, x);
    PathLessDown(Path(d.nodes, parent), Path(d.nodes, x));
  }

  lemma FiveInOrder(ns: Nodes, s: seq<OpID>)
    requires Grounded(ns) && AllIn(ns, s) && |s| == 5
    requires s[0] in ns && s[1] in ns && s[2] in ns && s[3] in ns && s[4] in ns
    requires Precedes(ns, s[0], s[1]) && Precedes(ns, s[1], s[2])
    requires Precedes(ns, s[2], s[3]) && Precedes(ns, s[3], s[4])
    ensures InOrder(ns, s)
  {
    PathLessIsTransitive(Path(ns, s[0]), Path(ns, s[1]), Path(ns, s[2]));
    PathLessIsTransitive(Path(ns, s[1]), Path(ns, s[2]), Path(ns, s[3]));
    PathLessIsTransitive(Path(ns, s[2]), Path(ns, s[3]), Path(ns, s[4]));
    PathLessIsTransitive(Path(ns, s[0]), Path(ns, s[1]), Path(ns, s[3]));
    PathLessIsTransitive(Path(ns, s[1]), Path(ns, s[2]), Path(ns, s[4]));
    PathLessIsTransitive(Path(ns, s[0]), Path(ns, s[1]), Path(ns, s[4]));
  }
}
