/** Small runs of the program that show why the conditions of the theorems are there. */
module Witnesses {
  import opened OpIds
  import opened Forest
  import opened Traversal
  import opened Docs
  import opened Merging
  import opened Placement
  import opened Blocks
  import opened Typing

  // ---------- Prepending ----------

  function Id(name: string, n: uint64): OpID {
    OpID(name, n)
  }

  /** A typed at 0, B typed at 0, then X at 0 and Y at 1. */
  function Prepends(name: string, a: Rune, b: Rune, x: Rune, y: Rune, n: nat): Doc
    requires n <= 4
  {
    var one := map[Id(name, 1) := Entry(a, ROOT, FUGUE_RIGHT)];
    var two := one[Id(name, 2) := Entry(b, Id(name, 1), FUGUE_LEFT)];
    var three := two[Id(name, 3) := Entry(x, ROOT, FUGUE_RIGHT)];
    var four := three[Id(name, 4) := Entry(y, Id(name, 2), FUGUE_RIGHT)];
    Doc(if n == 0 then map[] else if n == 1 then one else if n == 2 then two else if n == 3 then three else four, {})
  }

  function PrependOrder(name: string, n: nat): seq<OpID>
    requires n <= 4
  {
    if n == 0 then []
    else if n == 1 then [Id(name, 1)]
    else if n == 2 then [Id(name, 2), Id(name, 1)]
    else if n == 3 then [Id(name, 2), Id(name, 1), Id(name, 3)]
    else [Id(name, 2), Id(name, 4), Id(name, 1), Id(name, 3)]
  }

  lemma {:induction false} PrependsAreSound(name: string, a: Rune, b: Rune, x: Rune, y: Rune, n: nat)
    requires n <= 4
    ensures Sound(Prepends(name, a, b, x, y, n))
  {
    if n == 0 {
      GroundedEmpty();
    } else {
      PrependsAreSound(name, a, b, x, y, n - 1);
      var before, after := Prepends(name, a, b, x, y, n - 1).nodes, Prepends(name, a, b, x, y, n).nodes;
      var id := Id(name, n);
      assert after == before[id := after[id]];
      GroundedInsert(before, id, after[id]);
    }
  }

  function PrependPath(name: string, k: nat): seq<Step> {
    if k == 1 then [Step(false, Id(name, 1))]
    else if k == 2 then [Step(false, Id(name, 1)), Step(true, Id(name, 2))]
    else if k == 3 then [Step(false, Id(name, 3))]
    else [Step(false, Id(name, 1)), Step(true, Id(name, 2)), Step(false, Id(name, 4))]
  }

  lemma PathSteps(ns: Nodes, id: OpID, above: seq<Step>)
    requires Grounded(ns) && id in ns && Present(ns, ns[id].parent) && Path(ns, ns[id].parent) == above
    ensures Path(ns, id) == above + [StepOf(ns, id)]
  {
  }

  lemma {:induction false} PrependPathIs(name: string, a: Rune, b: Rune, x: Rune, y: Rune, n: nat, k: nat)
    requires 0 < k <= n <= 4
    ensures var ns := Prepends(name, a, b, x, y, n).nodes;
            Grounded(ns) && Id(name, k) in ns && Path(ns, Id(name, k)) == PrependPath(name, k)
  {
    PrependsAreSound(name, a, b, x, y, n);
    var ns := Prepends(name, a, b, x, y, n).nodes;
    if k == 1 || k == 3 {
      PathSteps(ns, Id(name, k), []);
    } else if k == 2 {
      PrependPathIs(name, a, b, x, y, n, 1);
      PathSteps(ns, Id(name, 2), PrependPath(name, 1));
    } else {
      PrependPathIs(name, a, b, x, y, n, 2);
      PathSteps(ns, Id(name, 4), PrependPath(name, 2));
    }
  }

  lemma SameReplicaLess(name: string, m: uint64, n: uint64)
    requires m < n
    ensures Less(Id(name, m), Id(name, n))
  {
  }

  lemma PrependPathsAreOrdered(name: string)
    ensures PathLess(PrependPath(name, 2), PrependPath(name, 1))
    ensures PathLess(PrependPath(name, 2), PrependPath(name, 3))
    ensures PathLess(PrependPath(name, 2), PrependPath(name, 4))
    ensures PathLess(PrependPath(name, 4), PrependPath(name, 1))
    ensures PathLess(PrependPath(name, 4), PrependPath(name, 3))
    ensures PathLess(PrependPath(name, 1), PrependPath(name, 3))
  {
  }

  lemma PrependsInOrder(name: string, d: Doc, n: nat)
    requires n <= 4 && Sound(d)
    requires forall k :: 0 < k <= n ==> Id(name, k) in d.nodes && Path(d.nodes, Id(name, k)) == PrependPath(name, k)
    ensures AllIn(d.nodes, PrependOrder(name, n)) && InOrder(d.nodes, PrependOrder(name, n))
  {
    PrependPathsAreOrdered(name);
  }

  lemma PrependsVisible(name: string, a: Rune, b: Rune, x: Rune, y: Rune, n: nat)
    requires n <= 4
    ensures Sound(Prepends(name, a, b, x, y, n))
    ensures VisibleIds(Prepends(name, a, b, x, y, n)) == PrependOrder(name, n)
  {
    PrependsAreSound(name, a, b, x, y, n);
    var d := Prepends(name, a, b, x, y, n);
    forall k | 0 < k <= n ensures Id(name, k) in d.nodes && Path(d.nodes, Id(name, k)) == PrependPath(name, k) {
      PrependPathIs(name, a, b, x, y, n, k);
    }
    PrependsInOrder(name, d, n);
    VisibleIs(d, PrependOrder(name, n));
  }

  function PrependEdit(a: Rune, b: Rune, x: Rune, y: Rune, n: nat): Edit {
    if n == 0 then InsertEdit(0, a) else if n == 1 then InsertEdit(0, b)
    else if n == 2 then InsertEdit(0, x) else InsertEdit(1, y)
  }

  /** The replica after n of the four edits makes the next one. */
  ghost predicate TypesPrepends(name: string, a: Rune, b: Rune, x: Rune, y: Rune, n: nat)
    requires n < 4
  {
    var r := Replica(name, n, Prepends(name, a, b, x, y, n));
    && Sound(r.doc)
    && Local(r, PrependEdit(a, b, x, y, n)).0 == Replica(name, n + 1, Prepends(name, a, b, x, y, n + 1))
  }

  lemma PrependEntries(name: string, a: Rune, b: Rune, x: Rune, y: Rune, n: nat)
    requires n < 4
    ensures var d, e := Prepends(name, a, b, x, y, n), PrependEdit(a, b, x, y, n);
            && Sound(d) && e.pos <= |VisibleIds(d)|
            && EntryAt(d, e.pos, e.value) ==
                 (if n == 0 then Entry(a, ROOT, FUGUE_RIGHT) else if n == 1 then Entry(b, Id(name, 1), FUGUE_LEFT)
                  else if n == 2 then Entry(x, ROOT, FUGUE_RIGHT) else Entry(y, Id(name, 2), FUGUE_RIGHT))
  {
    PrependsVisible(name, a, b, x, y, n);
  }

  lemma EachPrependIsAnEdit(name: string, a: Rune, b: Rune, x: Rune, y: Rune, n: nat)
    requires n < 4
    ensures TypesPrepends(name, a, b, x, y, n)
  {
    var d, e := Prepends(name, a, b, x, y, n), PrependEdit(a, b, x, y, n);
    PrependEntries(name, a, b, x, y, n);
    LocalInsert(Replica(name, n, d), e.pos, e.value);
    assert ApplyInsert(d, Id(name, n + 1), EntryAt(d, e.pos, e.value)) == Prepends(name, a, b, x, y, n + 1);
  }

  /** B and A typed at the front read "BA"; X typed at the front then goes to the end. */
  lemma ThirdPrependMisses(name: string, a: Rune, b: Rune, x: Rune, y: Rune)
    ensures forall n :: 0 <= n < 4 ==> TypesPrepends(name, a, b, x, y, n)
    ensures var d := Prepends(name, a, b, x, y, 3);
            Sound(d) && Text(d) == [b, a, x]
    ensures var d := Prepends(name, a, b, x, y, 2);
            Sound(d) && 0 <= |VisibleIds(d)| && !LandingGuard(d, 0, Id(name, 3))
  {
    forall n | 0 <= n < 4 ensures TypesPrepends(name, a, b, x, y, n) {
      EachPrependIsAnEdit(name, a, b, x, y, n);
    }
    PrependsVisible(name, a, b, x, y, 3);
    ThirdIsUnguarded(name, a, b, x, y);
  }

  lemma ThirdIsUnguarded(name: string, a: Rune, b: Rune, x: Rune, y: Rune)
    ensures var d := Prepends(name, a, b, x, y, 2);
            Sound(d) && 0 <= |VisibleIds(d)| && !LandingGuard(d, 0, Id(name, 3))
  {
    PrependsVisible(name, a, b, x, y, 2);
    PrependPathIs(name, a, b, x, y, 2, 2);
    SameReplicaLess(name, 1, 3);
    LessIsTotal(Id(name, 1), Id(name, 3));
  }

  /** A run whose first character misses its place need not stay whole: X and Y typed in a row
      at the front read "BYAX". */
  lemma RunSplitsWhenItsStartMisses(name: string, a: Rune, b: Rune, x: Rune, y: Rune)
    ensures var d := Prepends(name, a, b, x, y, 4);
            && Sound(d) && Text(d) == [b, y, a, x]
            && !HasBlock(VisibleIds(d), [Id(name, 3), Id(name, 4)])
  {
    PrependsVisible(name, a, b, x, y, 4);
    var v := VisibleIds(Prepends(name, a, b, x, y, 4));
    forall i | 0 <= i <= |v| ensures !([Id(name, 3), Id(name, 4)] <= v[i..]) {
      assert i < 3 ==> v[i..][0] == v[i] && v[i..][1] == v[i + 1];
      assert i >= 3 ==> |v[i..]| < 2;
    }
  }

  // ---------- Three replicas ----------

  /** A text of two or more characters typed into an empty document. */
  ghost predicate FirstText(first: string, s: Session) {
    Proper(s) && s.start == Replica(first, 0, EMPTY) && s.pos == 0 && |s.chars| >= 2
  }

  lemma NothingIsVisible()
    ensures Sound(EMPTY) && VisibleIds(EMPTY) == []
  {
    EmptyIsSound();
    VisibleIs(EMPTY, []);
  }

  lemma NodesFromNothing(start: Replica, n: nat, d: Doc)
    requires start.doc == EMPTY && start.counter + n <= MAX_COUNTER && RunNodes(start, n, d)
    ensures forall id :: id in d.nodes ==> id.replica == start.name
  {
  }

  lemma TextFromNothing(s: Session, n: nat, d: Doc)
    requires Proper(s) && VisibleIds(s.start.doc) == [] && s.pos == 0 && n <= |s.chars|
    requires Sound(d) && RunInPlace(s, n, d)
    ensures VisibleIds(d) == RunIds(s.start, n)
  {
    var none := VisibleIds(s.start.doc);
    assert none[..s.pos] == [] && none[s.pos..] == [];
  }

  lemma FirstTextLands(s: Session)
    requires Sound(EMPTY) && VisibleIds(EMPTY) == [] && Proper(s) && s.start.doc == EMPTY && s.pos == 0
    ensures StartLands(s)
  {
  }

  lemma FirstTextIsAChain(first: string, s: Session, d: Doc)
    requires FirstText(first, s) && d == s.states[|s.chars|].doc
    ensures Sound(d) && VisibleIds(d) == RunIds(s.start, |s.chars|)
    ensures forall id :: id in d.nodes ==> id.replica == first
  {
    NothingIsVisible();
    FirstTextLands(s);
    TypedIsARun(s, |s.chars|);
    TypedInPlace(s, |s.chars|);
    NodesFromNothing(s.start, |s.chars|, d);
    TextFromNothing(s, |s.chars|, d);
  }

  lemma SomeFirstText(first: string, chars: seq<Rune>) returns (s: Session)
    requires 2 <= |chars| <= MAX_COUNTER
    ensures FirstText(first, s) && s.chars == chars
  {
    NothingIsVisible();
    s := CanBeTyped(Replica(first, 0, EMPTY), 0, chars);
  }

  lemma FirstTextEnds(first: string, s: Session, second: string, d: Doc)
    requires FirstText(first, s) && d == s.states[|s.chars|].doc && first != second
    ensures Sound(d) && VisibleIds(d) != [] && VisibleIds(d)[|VisibleIds(d)| - 1].counter > 1
    ensures OpID(second, 1) !in d.nodes
  {
    FirstTextIsAChain(first, s, d);
    assert RunIds(s.start, |s.chars|)[|s.chars| - 1] == RunId(s.start, |s.chars| - 1);
  }

  /** A second replica that has received all of d appends a reply. */
  ghost function Replied(d: Doc, second: string, reply: Rune): (r: Doc)
    requires Sound(d)
    ensures Sound(r)
  {
    VisibleIdsListing(d);
    LocalGrows(Replica(second, 0, d), InsertEdit(|VisibleIds(d)|, reply));
    Local(Replica(second, 0, d), InsertEdit(|VisibleIds(d)|, reply)).0.doc
  }

  /** The reply hangs off the last visible character. */
  lemma ReplyHangsOffTheLast(d: Doc, second: string, reply: Rune)
    requires Sound(d) && VisibleIds(d) != [] && OpID(second, 1) !in d.nodes
    ensures var r, x := Replied(d, second, reply), OpID(second, 1);
            && x in r.nodes && r.nodes[x].parent == VisibleIds(d)[|VisibleIds(d)| - 1]
            && r.nodes[x].parent in d.nodes
  {
    var v := VisibleIds(d);
    VisibleIdsListing(d);
    assert v[|v| - 1] in v;
    LocalInsert(Replica(second, 0, d), |v|, reply);
  }

  lemma ReplyCanGetLost(d: Doc, x: OpID, once: Doc)
    requires Sound(d) && x in d.nodes && x.counter < d.nodes[x].parent.counter && Merged(EMPTY, d, once)
    ensures x !in once.nodes
  {
    EmptyIsSound();
    LargerParentCounterLosesTheChild(EMPTY, d, once, x);
  }

  lemma MergeLosesTheReply(d: Doc, second: string, reply: Rune, once: Doc, back: Doc)
    requires Sound(d) && VisibleIds(d) != [] && OpID(second, 1) !in d.nodes
    requires VisibleIds(d)[|VisibleIds(d)| - 1].counter > 1
    requires Merged(EMPTY, Replied(d, second, reply), once) && Merged(Replied(d, second, reply), EMPTY, back)
    ensures OpID(second, 1) !in once.nodes
    ensures OpID(second, 1) in back.nodes && Seen(once) != Seen(back)
  {
    ReplyHangsOffTheLast(d, second, reply);
    ReplyCanGetLost(Replied(d, second, reply), OpID(second, 1), once);
    EmptyIsSound();
    MergeIsBetween(Replied(d, second, reply), EMPTY, back);
  }

  /** A third replica that merges the second one loses the reply to any text of two or more
      characters, whatever the orders; the merge the other way round keeps it, so merging does
      not commute. */
  lemma ThirdReplicaLosesTheReply(first: string, s: Session, second: string, reply: Rune, once: Doc, back: Doc)
    requires FirstText(first, s) && first != second
    requires Merged(EMPTY, Replied(s.states[|s.chars|].doc, second, reply), once)
    requires Merged(Replied(s.states[|s.chars|].doc, second, reply), EMPTY, back)
    ensures OpID(second, 1) !in once.nodes
    ensures OpID(second, 1) in back.nodes && Seen(once) != Seen(back)
  {
    var d := s.states[|s.chars|].doc;
    FirstTextEnds(first, s, second, d);
    MergeLosesTheReply(d, second, reply, once, back);
  }
}
