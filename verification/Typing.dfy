/** Runs of typed characters: a run that starts in place is a chain of right children, one that
    does not is reversed at once, and runs typed apart keep their shape when they meet. */
module Typing {
  import opened OpIds
  import opened Forest
  import opened Traversal
  import opened Docs
  import opened Convergence
  import opened Placement
  import opened Blocks

  // ---------- One run ----------

  /** A replica that types a run at consecutive positions: the state it starts from, what it
      types, the states it goes through and the operations it produces. */
  datatype Session = Session(start: Replica, pos: nat, chars: seq<Rune>, states: seq<Replica>, ops: seq<Op>)

  /** The i-th edit of the run. */
  function EditAt(s: Session, i: nat): Edit
    requires i < |s.chars|
  {
    InsertEdit(s.pos + i, s.chars[i])
  }

  /** The i-th edit leads from the i-th state to the next one. */
  ghost predicate TypesAt(s: Session, i: nat)
    requires i < |s.chars| && |s.states| == |s.chars| + 1 && |s.ops| == |s.chars| && Sound(s.states[i].doc)
  {
    Local(s.states[i], EditAt(s, i)) == (s.states[i + 1], Some(s.ops[i]))
  }

  ghost predicate Recorded(s: Session) {
    && |s.states| == |s.chars| + 1 && |s.ops| == |s.chars| && s.states[0] == s.start
    && (forall i :: 0 <= i <= |s.chars| ==> Sound(s.states[i].doc))
    && (forall i {:trigger TypesAt(s, i)} :: 0 <= i < |s.chars| ==> TypesAt(s, i))
  }

  /** The i-th identifier a replica gives out. */
  function RunId(start: Replica, i: nat): OpID
    requires start.counter + i < MAX_COUNTER
  {
    OpID(start.name, start.counter + i + 1)
  }

  function RunIds(start: Replica, n: nat): (ids: seq<OpID>)
    requires start.counter + n <= MAX_COUNTER
    ensures |ids| == n && forall i :: 0 <= i < n ==> ids[i] == RunId(start, i)
  {
    seq(n, i requires 0 <= i < n => RunId(start, i))
  }

  /** No identifier of the replica runs ahead of its counter. */
  ghost predicate CounterCovers(r: Replica) {
    forall id :: id in r.doc.nodes && id.replica == r.name ==> id.counter <= r.counter
  }

  /** The run starts inside the text and fits the counter. */
  ghost predicate Fits(start: Replica, pos: nat, chars: seq<Rune>) {
    && Sound(start.doc) && CounterCovers(start)
    && start.counter + |chars| <= MAX_COUNTER && pos <= |VisibleIds(start.doc)|
  }

  ghost predicate Proper(s: Session) {
    Fits(s.start, s.pos, s.chars) && Recorded(s) && s.chars != []
  }

  /** The first character lands where it was typed. */
  ghost predicate StartLands(s: Session)
    requires Proper(s)
  {
    LandingGuard(s.start.doc, s.pos, RunId(s.start, 0))
  }

  ghost predicate RunNodes(start: Replica, n: nat, d: Doc)
    requires start.counter + n <= MAX_COUNTER
  {
    && Sound(d) && Grows(start.doc, d) && d.dead == start.doc.dead
    && (forall id :: id in d.nodes <==> id in start.doc.nodes || id in RunIds(start, n))
  }

  /** The i-th operation of a run hangs off the start document or an earlier one of the run. */
  ghost predicate IsRunOp(start: Replica, i: nat, c: Rune, op: Op)
    requires start.counter + i < MAX_COUNTER
  {
    && op.Insert? && op.id == RunId(start, i) && op.entry.value == c
    && (Present(start.doc.nodes, op.entry.parent) || op.entry.parent in RunIds(start, i))
  }

  ghost predicate IsRunSoFar(start: Replica, n: nat, r: Replica)
    requires start.counter + n <= MAX_COUNTER && Sound(start.doc)
  {
    && r.name == start.name && r.counter == start.counter + n && RunNodes(start, n, r.doc)
    && |VisibleIds(r.doc)| == |VisibleIds(start.doc)| + n
  }

  lemma RunIdIsFresh(start: Replica, i: nat)
    requires CounterCovers(start) && start.counter + i < MAX_COUNTER
    ensures !Present(start.doc.nodes, RunId(start, i))
  {
  }

  lemma NextIdIsFresh(start: Replica, n: nat, r: Replica)
    requires CounterCovers(start) && start.counter + n < MAX_COUNTER && Sound(start.doc) && IsRunSoFar(start, n, r)
    ensures NextId(r) == RunId(start, n) && !Present(r.doc.nodes, RunId(start, n))
  {
    RunIdIsFresh(start, n);
    var ids := RunIds(start, n);
    assert forall i :: 0 <= i < n ==> ids[i] != RunId(start, n);
  }

  lemma RunNodesStep(start: Replica, n: nat, d: Doc, e: Entry)
    requires start.counter + n < MAX_COUNTER && RunNodes(start, n, d)
    requires !Present(d.nodes, RunId(start, n)) && Present(d.nodes, e.parent)
    ensures RunNodes(start, n + 1, ApplyInsert(d, RunId(start, n), e))
  {
    ApplyGrows(d, Insert(RunId(start, n), e));
    assert RunIds(start, n + 1) == RunIds(start, n) + [RunId(start, n)];
  }

  lemma RunSoFarStep(start: Replica, n: nat, r: Replica, e: Entry)
    requires start.counter + n < MAX_COUNTER && Sound(start.doc) && IsRunSoFar(start, n, r)
    requires !Present(r.doc.nodes, RunId(start, n)) && Present(r.doc.nodes, e.parent)
    ensures IsRunSoFar(start, n + 1, Replica(r.name, r.counter + 1, ApplyInsert(r.doc, RunId(start, n), e)))
  {
    RunNodesStep(start, n, r.doc, e);
    var m := InsertJoinsVisible(r.doc, RunId(start, n), e);
  }

  /** One more character at some position of the text. */
  lemma RunStep(start: Replica, n: nat, r: Replica, pos: nat, c: Rune)
    requires CounterCovers(start) && start.counter + n < MAX_COUNTER && Sound(start.doc) && IsRunSoFar(start, n, r)
    requires pos <= |VisibleIds(r.doc)|
    ensures var e := EntryAt(r.doc, pos, c);
            var op := Insert(RunId(start, n), e);
            && Present(r.doc.nodes, e.parent) && !Present(r.doc.nodes, op.id) && IsRunOp(start, n, c, op)
            && Local(r, InsertEdit(pos, c)) == (Replica(r.name, r.counter + 1, Apply(r.doc, op)), Some(op))
            && IsRunSoFar(start, n + 1, Replica(r.name, r.counter + 1, Apply(r.doc, op)))
  {
    NextIdIsFresh(start, n, r);
    LocalInsert(r, pos, c);
    ResolveIsReady(r, InsertEdit(pos, c));
    RunSoFarStep(start, n, r, EntryAt(r.doc, pos, c));
  }

  lemma NextState(s: Session, m: nat)
    requires Recorded(s) && m < |s.chars|
    ensures Local(s.states[m], InsertEdit(s.pos + m, s.chars[m])) == (s.states[m + 1], Some(s.ops[m]))
  {
    assert TypesAt(s, m);
  }

  lemma RunGoesOn(s: Session, m: nat, r: Replica, r': Replica)
    requires Fits(s.start, s.pos, s.chars) && m < |s.chars| && IsRunSoFar(s.start, m, r)
    requires Local(r, InsertEdit(s.pos + m, s.chars[m])).0 == r'
    ensures IsRunSoFar(s.start, m + 1, r')
  {
    RunStep(s.start, m, r, s.pos + m, s.chars[m]);
  }

  /** Wherever it goes, a run inserts its characters under consecutive identifiers. */
  lemma {:induction false} TypedIsARun(s: Session, n: nat)
    requires Fits(s.start, s.pos, s.chars) && Recorded(s) && n <= |s.chars|
    ensures IsRunSoFar(s.start, n, s.states[n])
  {
    if n > 0 {
      var m := n - 1;
      TypedIsARun(s, m);
      NextState(s, m);
      RunGoesOn(s, m, s.states[m], s.states[m + 1]);
    }
  }

  /** Every run that fits can be typed. */
  lemma {:induction false} CanBeTyped(start: Replica, pos: nat, chars: seq<Rune>) returns (s: Session)
    requires Fits(start, pos, chars)
    ensures s.start == start && s.pos == pos && s.chars == chars && Recorded(s)
  {
    if chars == [] {
      s := Session(start, pos, [], [start], []);
    } else {
      var m := |chars| - 1;
      var before := CanBeTyped(start, pos, chars[..m]);
      var r := before.states[m];
      TypedIsARun(before, m);
      RunStep(start, m, r, pos + m, chars[m]);
      var (next, op) := Local(r, InsertEdit(pos + m, chars[m]));
      s := OneMore(before, chars, next, op.value);
    }
  }

  lemma OneMore(before: Session, chars: seq<Rune>, next: Replica, op: Op) returns (s: Session)
    requires Recorded(before) && chars != [] && before.chars == chars[..|chars| - 1] && Sound(next.doc)
    requires var m := |chars| - 1;
             Local(before.states[m], InsertEdit(before.pos + m, chars[m])) == (next, Some(op))
    ensures s.start == before.start && s.pos == before.pos && s.chars == chars && Recorded(s)
  {
    s := Session(before.start, before.pos, chars, before.states + [next], before.ops + [op]);
    forall i | 0 <= i < |chars| ensures TypesAt(s, i) {
      if i < |chars| - 1 {
        assert TypesAt(before, i);
        assert EditAt(before, i) == EditAt(s, i);
      }
    }
  }

  /** The entry of the next character. */
  ghost function NextEntry(s: Session, n: nat, d: Doc): Entry
    requires n < |s.chars| && Sound(d) && s.pos + n <= |VisibleIds(d)|
  {
    EntryAt(d, s.pos + n, s.chars[n])
  }

  lemma AppliedFresh(d: Doc, id: OpID, e: Entry)
    requires !Present(d.nodes, id) && Present(d.nodes, e.parent)
    ensures Apply(d, Insert(id, e)).nodes == d.nodes[id := e]
  {
  }

  lemma TypedNext(s: Session, n: nat)
    requires Proper(s) && n < |s.chars|
    ensures s.pos + n <= |VisibleIds(s.states[n].doc)| && !Present(s.states[n].doc.nodes, RunId(s.start, n))
    ensures s.ops[n] == Insert(RunId(s.start, n), NextEntry(s, n, s.states[n].doc))
    ensures IsRunOp(s.start, n, s.chars[n], s.ops[n])
    ensures s.states[n + 1].doc == Apply(s.states[n].doc, s.ops[n])
    ensures s.states[n + 1].doc.nodes == s.states[n].doc.nodes[RunId(s.start, n) := s.ops[n].entry]
  {
    TypedIsARun(s, n);
    NextState(s, n);
    RunStep(s.start, n, s.states[n], s.pos + n, s.chars[n]);
    AppliedFresh(s.states[n].doc, RunId(s.start, n), NextEntry(s, n, s.states[n].doc));
  }

  /** What the typist holds is what its operations build. */
  lemma {:induction false} TypedIsReplayed(s: Session, n: nat)
    requires Proper(s) && n <= |s.chars|
    ensures s.states[n].doc == Run(s.start.doc, s.ops[..n])
  {
    if n > 0 {
      TypedIsReplayed(s, n - 1);
      TypedNext(s, n - 1);
      assert s.ops[..n] == s.ops[..n - 1] + [s.ops[n - 1]];
    }
  }

  /** The operations are in causal order, and build what the typist holds. */
  lemma OwnDocumentIsReplayed(s: Session)
    requires Proper(s)
    ensures Causal(s.start.doc, s.ops)
    ensures s.states[|s.chars|].doc == Run(s.start.doc, s.ops)
  {
    TypedIsReplayed(s, |s.chars|);
    var d, ops := s.start.doc, s.ops;
    assert ops[..|s.chars|] == ops;
    forall i | 0 <= i < |ops| ensures Precondition(d, OpSet(ops[..i]), ops[i]) {
      TypedNext(s, i);
      var p := ops[i].entry.parent;
      if p in RunIds(s.start, i) {
        var j :| 0 <= j < i && RunIds(s.start, i)[j] == p;
        TypedNext(s, j);
        assert ops[j] == ops[..i][j] && ops[j] in OpSet(ops[..i]);
      }
    }
  }

  /** The tree has the entries of the first n operations. */
  ghost predicate Carries(s: Session, n: nat, ns: Nodes)
    requires Proper(s) && n <= |s.chars|
  {
    forall i :: 0 <= i < n ==> RunId(s.start, i) in ns && s.ops[i].Insert? && ns[RunId(s.start, i)] == s.ops[i].entry
  }

  lemma {:induction false} TypedCarries(s: Session, n: nat)
    requires Proper(s) && n <= |s.chars|
    ensures Carries(s, n, s.states[n].doc.nodes)
  {
    if n > 0 {
      TypedCarries(s, n - 1);
      TypedNext(s, n - 1);
    }
  }

  // ---------- A run that starts in place ----------

  ghost predicate RunInPlace(s: Session, n: nat, d: Doc)
    requires Proper(s) && n <= |s.chars| && Sound(d)
  {
    var v := VisibleIds(s.start.doc);
    VisibleIds(d) == v[..s.pos] + RunIds(s.start, n) + v[s.pos..]
  }

  /** Nothing old is below something new. */
  lemma OldIsNotBelowNew(ms: Nodes, ns: Nodes, x: OpID, y: OpID)
    requires Grounded(ms) && Grounded(ns) && Agree(ms, ns)
    requires y in ms && y in ns && x in ns && !Present(ms, x)
    ensures !(Path(ns, x) <= Path(ns, y))
  {
    PathsAgree(ms, ns, y);
    if Path(ns, x) <= Path(ns, y) {
      var n := |Path(ns, x)|;
      AncestorPath(ms, y, n);
      PathEnds(ns, x);
      assert false;
    }
  }

  lemma OldAgainstRun(s: Session, n: nat, d: Doc, right: OpID)
    requires Sound(s.start.doc) && CounterCovers(s.start) && s.start.counter + n <= MAX_COUNTER && n > 0
    requires RunNodes(s.start, n, d) && right in s.start.doc.nodes && RunId(s.start, n - 1) in d.nodes
    ensures d.nodes[right].parent != RunId(s.start, n - 1)
    ensures !(Path(d.nodes, RunId(s.start, n - 1)) < Path(d.nodes, right))
  {
    RunIdIsFresh(s.start, n - 1);
    ParentIsHigher(s.start.doc.nodes, right);
    OldIsNotBelowNew(s.start.doc.nodes, d.nodes, RunId(s.start, n - 1), right);
  }

  /** After the first character each further one becomes the right child of the last. */
  lemma NextGoesRight(s: Session, n: nat, d: Doc)
    requires Proper(s) && 0 < n < |s.chars| && RunNodes(s.start, n, d) && RunInPlace(s, n, d)
    ensures s.pos + n <= |VisibleIds(d)|
    ensures NextEntry(s, n, d) == Entry(s.chars[n], RunId(s.start, n - 1), FUGUE_RIGHT)
    ensures LandingGuard(d, s.pos + n, RunId(s.start, n))
  {
    var w, v, last := VisibleIds(d), VisibleIds(s.start.doc), RunId(s.start, n - 1);
    assert w[s.pos + n - 1] == RunIds(s.start, n)[n - 1] == last;
    VisibleIdsListing(d);
    assert last in w;
    if s.pos < |v| {
      var right := v[s.pos];
      assert w[s.pos + n] == right;
      VisibleIdsListing(s.start.doc);
      assert right in v;
      OldAgainstRun(s, n, d, right);
    }
  }

  lemma PutInAfterRun(v: seq<OpID>, pos: nat, ids: seq<OpID>, id: OpID)
    requires pos <= |v|
    ensures PutIn(v[..pos] + ids + v[pos..], pos + |ids|, id) == v[..pos] + (ids + [id]) + v[pos..]
  {
  }

  lemma RunInPlaceStep(s: Session, n: nat, d: Doc, e: Entry)
    requires Proper(s) && n < |s.chars| && Sound(d) && RunInPlace(s, n, d)
    requires s.pos + n <= |VisibleIds(d)| && !Present(d.nodes, RunId(s.start, n))
    requires e == NextEntry(s, n, d) && LandingGuard(d, s.pos + n, RunId(s.start, n))
    ensures var d' := ApplyInsert(d, RunId(s.start, n), e);
            Sound(d') && RunInPlace(s, n + 1, d')
  {
    GuardLands(d, s.pos + n, s.chars[n], RunId(s.start, n), e);
    assert RunIds(s.start, n + 1) == RunIds(s.start, n) + [RunId(s.start, n)];
    PutInAfterRun(VisibleIds(s.start.doc), s.pos, RunIds(s.start, n), RunId(s.start, n));
  }

  /** A run that starts in place is in place and in order. */
  lemma {:induction false} TypedInPlace(s: Session, n: nat)
    requires Proper(s) && StartLands(s) && n <= |s.chars|
    ensures RunInPlace(s, n, s.states[n].doc)
  {
    if n > 0 {
      var m := n - 1;
      var r := s.states[m];
      TypedInPlace(s, m);
      TypedIsARun(s, m);
      if m > 0 { NextGoesRight(s, m, r.doc); }
      NextIdIsFresh(s.start, m, r);
      TypedNext(s, m);
      RunInPlaceStep(s, m, r.doc, NextEntry(s, m, r.doc));
    }
  }

  /** It is a chain: each character but the first is the right child of its predecessor. */
  lemma RunIsChained(s: Session, i: nat)
    requires Proper(s) && StartLands(s) && 0 < i < |s.chars|
    ensures s.ops[i] == Insert(RunId(s.start, i), Entry(s.chars[i], RunId(s.start, i - 1), FUGUE_RIGHT))
  {
    TypedIsARun(s, i);
    TypedInPlace(s, i);
    TypedNext(s, i);
    NextGoesRight(s, i, s.states[i].doc);
  }

  // ---------- A run that does not ----------

  /** right hangs below left on a branch that sorts before its right child id. */
  ghost predicate Overtaken(ns: Nodes, left: OpID, right: OpID, id: OpID)
    requires Grounded(ns) && Present(ns, left) && Present(ns, right) && Present(ns, id)
  {
    var p, q := Path(ns, left), Path(ns, right);
    && Path(ns, id) == p + [Step(false, id)]
    && p < q && StepLess(q[|p|], Step(false, id))
  }

  /** A character that misses its place goes behind all that hangs below its left neighbour on
      the branch of its right neighbour, which stays where it was. */
  lemma MissedCharacter(d: Doc, pos: int, c: Rune, id: OpID)
    requires Sound(d) && 0 <= pos <= |VisibleIds(d)| && !Present(d.nodes, id) && !LandingGuard(d, pos, id)
    ensures pos < |VisibleIds(d)|
    ensures var d', left, right := ApplyInsert(d, id, EntryAt(d, pos, c)), LeftNeighbour(d, pos), VisibleIds(d)[pos];
            && Sound(d') && Present(d'.nodes, left) && right in d'.nodes && id in d'.nodes
            && pos + 1 < |VisibleIds(d')| && VisibleIds(d')[pos] == right
            && Overtaken(d'.nodes, left, right, id)
  {
    VisibleIdsListing(d);
    var v, e := VisibleIds(d), EntryAt(d, pos, c);
    var left, right := LeftNeighbour(d, pos), v[pos];
    assert pos > 0 ==> left in v;
    assert right in v;
    NewNodeAgainstNeighbours(d, pos, c, id);
    var m := InsertJoinsVisible(d, id, e);
    MissGoesBehind(d, id, e, pos, m);
    ChildPath(d, id, e);
    StepBelowIsAChild(d.nodes, left, right);
    LessIsTotal(id, Path(d.nodes, right)[|Path(d.nodes, left)|].id);
  }

  lemma MissGoesBehind(d: Doc, id: OpID, e: Entry, pos: nat, m: nat)
    requires Sound(d) && Sound(ApplyInsert(d, id, e)) && pos < |VisibleIds(d)| && m <= |VisibleIds(d)|
    requires VisibleIds(ApplyInsert(d, id, e)) == PutIn(VisibleIds(d), m, id)
    requires var ns := ApplyInsert(d, id, e).nodes;
             id in ns && VisibleIds(d)[pos] in ns && !Precedes(ns, id, VisibleIds(d)[pos])
    ensures m > pos
  {
    var d' := ApplyInsert(d, id, e);
    VisibleIdsListing(d');
    if m <= pos {
      PositionsDecide(d'.nodes, VisibleIds(d'), m, pos + 1);
    }
  }

  lemma BehindOvertaken(ns: Nodes, left: OpID, right: OpID, id: OpID, y: OpID)
    requires Grounded(ns) && Present(ns, left) && Present(ns, right) && id in ns && y in ns
    requires Overtaken(ns, left, right, id) && Path(ns, right) < Path(ns, y)
    ensures Precedes(ns, y, id)
  {
    var p, q, t := Path(ns, left), Path(ns, right), Path(ns, y);
    assert t[|p|] == q[|p|] && t[..|p|] == q[..|p|] == p;
    StepLessIsTotal(q[|p|], Step(false, id));
    PathLessAtFork(t, p + [Step(false, id)], |p|);
  }

  /** The parent of a character typed behind v[pos] is v[pos] or a child of it. */
  lemma ParentIsClose(d: Doc, pos: nat, c: Rune)
    requires Sound(d) && pos + 1 <= |VisibleIds(d)|
    ensures var p, left := EntryAt(d, pos + 1, c).parent, VisibleIds(d)[pos];
            && left in d.nodes && p in d.nodes
            && (p == left || d.nodes[p].parent == left)
  {
    VisibleIdsListing(d);
    assert forall i :: 0 <= i < |VisibleIds(d)| ==> VisibleIds(d)[i] in VisibleIds(d);
  }

  /** The next character, typed behind the right neighbour instead, goes below it. */
  lemma NextGoesBelow(d: Doc, left: OpID, y: OpID, e: Entry)
    requires Sound(d) && !Present(d.nodes, y) && left in d.nodes && e.parent in d.nodes
    requires e.parent == left || d.nodes[e.parent].parent == left
    ensures Grounded(d.nodes[y := e])
    ensures forall x :: Present(d.nodes, x) ==> Path(d.nodes[y := e], x) == Path(d.nodes, x)
    ensures Path(d.nodes[y := e], left) < Path(d.nodes[y := e], y)
  {
    PathEnds(d.nodes, e.parent);
    ChildPath(d, y, e);
  }

  /** When the first character of a run misses its place, the second one already stands before
      it, and not after. */
  lemma MissedRunIsReversed(s: Session)
    requires Proper(s) && !StartLands(s) && |s.chars| >= 2
    ensures var ns := s.states[2].doc.nodes;
            && RunId(s.start, 0) in ns && RunId(s.start, 1) in ns
            && Precedes(ns, RunId(s.start, 1), RunId(s.start, 0))
  {
    FirstTyped(s);
    TypedNext(s, 1);
    MissedCharacter(s.start.doc, s.pos, s.chars[0], RunId(s.start, 0));
    NextBehindOvertaken(s.states[1].doc, s.pos, LeftNeighbour(s.start.doc, s.pos), RunId(s.start, 0),
      RunId(s.start, 1), NextEntry(s, 1, s.states[1].doc));
  }

  lemma FirstTyped(s: Session)
    requires Proper(s)
    ensures !Present(s.start.doc.nodes, RunId(s.start, 0))
    ensures s.states[1].doc == ApplyInsert(s.start.doc, RunId(s.start, 0), EntryAt(s.start.doc, s.pos, s.chars[0]))
  {
    TypedNext(s, 0);
  }

  /** The next character goes below the right neighbour, and so before the one that missed. */
  lemma NextBehindOvertaken(d: Doc, pos: nat, left: OpID, x: OpID, y: OpID, e: Entry)
    requires Sound(d) && pos + 1 < |VisibleIds(d)| && Present(d.nodes, left) && x in d.nodes
    requires VisibleIds(d)[pos] in d.nodes && Overtaken(d.nodes, left, VisibleIds(d)[pos], x)
    requires !Present(d.nodes, y) && e == EntryAt(d, pos + 1, e.value)
    ensures Grounded(d.nodes[y := e]) && Precedes(d.nodes[y := e], y, x)
  {
    var right := VisibleIds(d)[pos];
    ParentIsClose(d, pos, e.value);
    NextGoesBelow(d, right, y, e);
    BehindOvertaken(d.nodes[y := e], left, right, x, y);
  }

  // ---------- Runs typed apart ----------

  /** Replicas with different names, all starting from d. */
  ghost predicate Apart(d: Doc, sessions: seq<Session>) {
    && (forall i :: 0 <= i < |sessions| ==> sessions[i].start.doc == d && Proper(sessions[i]))
    && (forall i, j :: 0 <= i < j < |sessions| ==> sessions[i].start.name != sessions[j].start.name)
  }

  /** Exactly the operations of all the runs. */
  ghost predicate AllRuns(sessions: seq<Session>, ops: set<Op>)
    requires forall i :: 0 <= i < |sessions| ==> Proper(sessions[i])
  {
    forall op :: op in ops <==> exists i :: 0 <= i < |sessions| && op in sessions[i].ops
  }

  lemma RunOpsAre(s: Session, op: Op) returns (j: nat)
    requires Proper(s) && op in s.ops
    ensures j < |s.chars| && op == s.ops[j] && IsRunOp(s.start, j, s.chars[j], op)
  {
    j :| 0 <= j < |s.chars| && s.ops[j] == op;
    TypedNext(s, j);
  }

  lemma SameIdSameRun(d: Doc, sessions: seq<Session>, i: nat, j: nat, a: Op, b: Op)
    requires Apart(d, sessions) && i < |sessions| && j < |sessions|
    requires a in sessions[i].ops && b in sessions[j].ops
    requires a.Insert? && b.Insert? && a.id == b.id
    ensures a.entry == b.entry
  {
    var k := RunOpsAre(sessions[i], a);
    var l := RunOpsAre(sessions[j], b);
    assert sessions[i].start.name == a.id.replica == sessions[j].start.name;
  }

  lemma RunsAreConsistent(d: Doc, sessions: seq<Session>, ops: set<Op>)
    requires Apart(d, sessions) && AllRuns(sessions, ops)
    ensures Consistent(ops)
  {
    forall a, b | a in ops && b in ops && a.Insert? && b.Insert? && a.id == b.id ensures a.entry == b.entry {
      var i :| 0 <= i < |sessions| && a in sessions[i].ops;
      var j :| 0 <= j < |sessions| && b in sessions[j].ops;
      SameIdSameRun(d, sessions, i, j, a, b);
    }
  }

  lemma ExchangeCarriesRun(d: Doc, sessions: seq<Session>, ops: set<Op>, d': Doc, i: nat)
    requires Apart(d, sessions) && AllRuns(sessions, ops) && i < |sessions| && Exactly(d, ops, d')
    ensures Carries(sessions[i], |sessions[i].chars|, d'.nodes)
  {
    var s := sessions[i];
    forall j | 0 <= j < |s.chars|
      ensures s.ops[j].Insert? && RunId(s.start, j) in d'.nodes && d'.nodes[RunId(s.start, j)] == s.ops[j].entry
    {
      var op := s.ops[j];
      TypedNext(s, j);
      assert op in s.ops && op in ops;
      RunIdIsFresh(s.start, j);
    }
  }

  lemma CarriedRunIsAChain(s: Session, ns: Nodes)
    requires Proper(s) && StartLands(s) && Carries(s, |s.chars|, ns)
    ensures RightChain(ns, RunIds(s.start, |s.chars|))
  {
    var ids := RunIds(s.start, |s.chars|);
    forall i | 0 < i < |ids| ensures ns[ids[i]].parent == ids[i - 1] && !ns[ids[i]].OnLeft() {
      RunIsChained(s, i);
    }
  }

  lemma OldIsInNoRun(s: Session, d: Doc, p: OpID)
    requires Proper(s) && s.start.doc == d && Present(d.nodes, p)
    ensures p !in RunIds(s.start, |s.chars|)
  {
  }

  /** An operation of some run whose parent is in the i-th run belongs to the i-th run. */
  lemma OpInRun(d: Doc, sessions: seq<Session>, i: nat, k: nat, op: Op)
    requires Apart(d, sessions) && i < |sessions| && k < |sessions| && op in sessions[k].ops && op.Insert?
    requires op.entry.parent in RunIds(sessions[i].start, |sessions[i].chars|)
    ensures op.id in RunIds(sessions[i].start, |sessions[i].chars|)
  {
    var s, t := sessions[i], sessions[k];
    var l := RunOpsAre(t, op);
    var ids := RunIds(s.start, |s.chars|);
    if Present(d.nodes, op.entry.parent) {
      OldIsInNoRun(s, d, op.entry.parent);
    } else {
      assert op.entry.parent in RunIds(t.start, l);
      assert op.entry.parent.replica == t.start.name;
      assert s.start.name == t.start.name;
      assert ids[l] == op.id;
    }
  }

  lemma ParentInRun(d: Doc, sessions: seq<Session>, ops: set<Op>, d': Doc, i: nat, y: OpID)
    requires Apart(d, sessions) && AllRuns(sessions, ops) && i < |sessions|
    requires Sound(d) && Sound(d') && Exactly(d, ops, d') && y in d'.nodes
    requires d'.nodes[y].parent in RunIds(sessions[i].start, |sessions[i].chars|)
    ensures y in RunIds(sessions[i].start, |sessions[i].chars|)
  {
    var p := d'.nodes[y].parent;
    assert Present(d'.nodes, y) <==> Known(d, ops, y);
    if y in d.nodes {
      ParentIsHigher(d.nodes, y);
      OldIsInNoRun(sessions[i], d, p);
    } else {
      assert Inserts(ops, y) by { assert y != ROOT; }
      var op :| op in ops && op.Insert? && op.id == y;
      var k :| 0 <= k < |sessions| && op in sessions[k].ops;
      OpInRun(d, sessions, i, k, op);
    }
  }

  /** Whatever the other runs do, nothing of theirs hangs off the i-th. */
  lemma RunStaysUndisturbed(d: Doc, sessions: seq<Session>, ops: set<Op>, d': Doc, i: nat)
    requires Apart(d, sessions) && AllRuns(sessions, ops) && i < |sessions|
    requires Sound(d) && Sound(d') && Exactly(d, ops, d')
    ensures Undisturbed(d'.nodes, RunIds(sessions[i].start, |sessions[i].chars|))
  {
    var ids := RunIds(sessions[i].start, |sessions[i].chars|);
    forall y | y in d'.nodes && d'.nodes[y].parent in ids ensures y in ids {
      ParentInRun(d, sessions, ops, d', i, y);
    }
  }

  lemma NoRunDies(d: Doc, sessions: seq<Session>, ops: set<Op>, d': Doc, i: nat)
    requires Sound(d) && Apart(d, sessions) && AllRuns(sessions, ops) && i < |sessions| && Exactly(d, ops, d')
    ensures forall x :: x in RunIds(sessions[i].start, |sessions[i].chars|) ==> x !in d'.dead
  {
    var s := sessions[i];
    var ids := RunIds(s.start, |s.chars|);
    forall x | x in ids ensures x !in d'.dead {
      var j :| 0 <= j < |ids| && ids[j] == x;
      RunIdIsFresh(s.start, j);
      if Deletes(ops, x) {
        var op :| op in ops && op.Delete? && op.target == x;
        var k :| 0 <= k < |sessions| && op in sessions[k].ops;
        var l := RunOpsAre(sessions[k], op);
        assert false;
      }
    }
  }

  // ---------- After the exchange ----------

  /** Runs typed apart from one document converge, whatever the order in which they arrive, as
      long as each order is completed. */
  lemma ExchangesConverge(d: Doc, sessions: seq<Session>, a: seq<Op>, b: seq<Op>)
    requires Sound(d) && Apart(d, sessions)
    requires AllRuns(sessions, OpSet(a)) && Completed(d, a) && AllRuns(sessions, OpSet(b)) && Completed(d, b)
    ensures Run(d, a) == Run(d, b)
  {
    RunsAreConsistent(d, sessions, OpSet(a));
    assert OpSet(a) == OpSet(b);
    Convergence.Convergence(d, a, b);
  }

  lemma ExchangeIsExact(d: Doc, sessions: seq<Session>, delivered: seq<Op>)
    requires Sound(d) && Apart(d, sessions) && AllRuns(sessions, OpSet(delivered)) && Completed(d, delivered)
    ensures Sound(Run(d, delivered)) && Exactly(d, OpSet(delivered), Run(d, delivered))
  {
    RunsAreConsistent(d, sessions, OpSet(delivered));
    ExactIffCompleted(d, delivered);
    RunGrows(d, delivered);
  }

  /** After the exchange a run whose first character landed is one contiguous block, wherever the
      others landed. */
  lemma RunsDoNotInterleave(d: Doc, sessions: seq<Session>, delivered: seq<Op>, i: nat)
    requires Sound(d) && Apart(d, sessions) && i < |sessions| && StartLands(sessions[i])
    requires AllRuns(sessions, OpSet(delivered)) && Completed(d, delivered)
    ensures var d' := Run(d, delivered);
            && Sound(d')
            && HasBlock(Order(d'.nodes), RunIds(sessions[i].start, |sessions[i].chars|))
            && HasBlock(VisibleIds(d'), RunIds(sessions[i].start, |sessions[i].chars|))
            && HasBlock(Text(d'), sessions[i].chars)
  {
    var d', s := Run(d, delivered), sessions[i];
    var ids := RunIds(s.start, |s.chars|);
    ExchangeIsExact(d, sessions, delivered);
    ExchangeCarriesRun(d, sessions, OpSet(delivered), d', i);
    CarriedRunIsAChain(s, d'.nodes);
    RunStaysUndisturbed(d, sessions, OpSet(delivered), d', i);
    ChainIsABlock(d'.nodes, ids);
    NoRunDies(d, sessions, OpSet(delivered), d', i);
    VisibleAll(ids, d'.dead);
    BlockStaysVisible(d', ids);
    CarriedValues(s, d'.nodes);
    BlockReads(d', ids, s.chars);
  }

  lemma CarriedValues(s: Session, ns: Nodes)
    requires Proper(s) && Carries(s, |s.chars|, ns)
    ensures var ids := RunIds(s.start, |s.chars|);
            forall j :: 0 <= j < |ids| ==> ids[j] in ns && ns[ids[j]].value == s.chars[j]
  {
    forall j | 0 <= j < |s.chars| ensures RunId(s.start, j) in ns && ns[RunId(s.start, j)].value == s.chars[j] {
      TypedNext(s, j);
    }
  }

  lemma AgreesWithWhatWasTyped(d: Doc, sessions: seq<Session>, ops: set<Op>, d': Doc, i: nat, n: nat)
    requires Apart(d, sessions) && AllRuns(sessions, ops) && i < |sessions| && Exactly(d, ops, d')
    requires n <= |sessions[i].chars|
    ensures Agree(sessions[i].states[n].doc.nodes, d'.nodes)
  {
    var s := sessions[i];
    TypedIsARun(s, n);
    TypedCarries(s, n);
    ExchangeCarriesRun(d, sessions, ops, d', i);
    CarriersAgree(s, n, s.states[n].doc, d');
  }

  lemma CarriersAgree(s: Session, n: nat, d: Doc, d': Doc)
    requires Proper(s) && n <= |s.chars| && RunNodes(s.start, n, d) && Carries(s, n, d.nodes)
    requires Grows(s.start.doc, d') && Carries(s, |s.chars|, d'.nodes)
    ensures Agree(d.nodes, d'.nodes)
  {
    forall id | id in d.nodes && id in d'.nodes ensures d.nodes[id] == d'.nodes[id] {
      if id !in s.start.doc.nodes {
        var j :| 0 <= j < n && RunIds(s.start, n)[j] == id;
      }
    }
  }

  lemma MissedRunStaysReversed(d: Doc, sessions: seq<Session>, ops: set<Op>, d': Doc, i: nat)
    requires Sound(d) && Sound(d') && Apart(d, sessions) && AllRuns(sessions, ops) && Exactly(d, ops, d')
    requires i < |sessions| && !StartLands(sessions[i]) && |sessions[i].chars| >= 2
    ensures var s := sessions[i];
            && RunId(s.start, 0) in d'.nodes && RunId(s.start, 1) in d'.nodes
            && Precedes(d'.nodes, RunId(s.start, 1), RunId(s.start, 0))
  {
    var s := sessions[i];
    MissedRunIsReversed(s);
    ExchangeCarriesRun(d, sessions, ops, d', i);
    AgreesWithWhatWasTyped(d, sessions, ops, d', i, 2);
    PathsAgree(s.states[2].doc.nodes, d'.nodes, RunId(s.start, 0));
    PathsAgree(s.states[2].doc.nodes, d'.nodes, RunId(s.start, 1));
  }

  lemma BlockIsInOrder(ns: Nodes, v: seq<OpID>, ids: seq<OpID>)
    requires Grounded(ns) && AllIn(ns, v) && InOrder(ns, v) && HasBlock(v, ids) && |ids| >= 2
    ensures ids[0] in ns && ids[1] in ns && Precedes(ns, ids[0], ids[1]) && !Precedes(ns, ids[1], ids[0])
  {
    var i :| 0 <= i <= |v| && ids <= v[i..];
    assert ids[0] == v[i..][0] == v[i] && ids[1] == v[i..][1] == v[i + 1];
    assert v[i] in v && v[i + 1] in v;
    PositionsDecide(ns, v, i, i + 1);
    PositionsDecide(ns, v, i + 1, i);
  }

  /** After the exchange a run of two or more characters is one contiguous block, of the document
      and of what is visible, if and only if its first character landed where it was typed. */
  lemma WholeIffStartLands(d: Doc, sessions: seq<Session>, delivered: seq<Op>, i: nat)
    requires Sound(d) && Apart(d, sessions) && i < |sessions| && |sessions[i].chars| >= 2
    requires AllRuns(sessions, OpSet(delivered)) && Completed(d, delivered)
    ensures var d', s := Run(d, delivered), sessions[i];
            && Sound(d')
            && (HasBlock(Order(d'.nodes), RunIds(s.start, |s.chars|)) <==> StartLands(s))
            && (HasBlock(VisibleIds(d'), RunIds(s.start, |s.chars|)) <==> StartLands(s))
  {
    var d', s := Run(d, delivered), sessions[i];
    var ids := RunIds(s.start, |s.chars|);
    if StartLands(s) {
      RunsDoNotInterleave(d, sessions, delivered, i);
    } else {
      ExchangeIsExact(d, sessions, delivered);
      MissedRunStaysReversed(d, sessions, OpSet(delivered), d', i);
      OrderIsTheListing(d'.nodes);
      VisibleIdsListing(d');
      if HasBlock(Order(d'.nodes), ids) { BlockIsInOrder(d'.nodes, Order(d'.nodes), ids); }
      if HasBlock(VisibleIds(d'), ids) { BlockIsInOrder(d'.nodes, VisibleIds(d'), ids); }
    }
  }

  /** The same in the typist's own document, before anything is exchanged. */
  lemma OwnRunWholeIffStartLands(s: Session)
    requires Proper(s) && |s.chars| >= 2
    ensures var d' := s.states[|s.chars|].doc;
            && (HasBlock(Order(d'.nodes), RunIds(s.start, |s.chars|)) <==> StartLands(s))
            && (HasBlock(VisibleIds(d'), RunIds(s.start, |s.chars|)) <==> StartLands(s))
  {
    OwnDocumentIsReplayed(s);
    CausalIsCompleted(s.start.doc, s.ops);
    assert Apart(s.start.doc, [s]);
    assert AllRuns([s], OpSet(s.ops)) by { assert [s][0].ops == s.ops; }
    WholeIffStartLands(s.start.doc, [s], s.ops, 0);
  }
}
