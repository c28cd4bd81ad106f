/** Strong convergence: which delivery orders build which documents. */
module Convergence {
  import opened OpIds
  import opened Forest
  import opened Traversal
  import opened Docs

  function OpSet(ops: seq<Op>): set<Op> {
    set op | op in ops
  }

  ghost predicate Inserts(ops: set<Op>, id: OpID) {
    exists op :: op in ops && op.Insert? && op.id == id
  }

  ghost predicate Deletes(ops: set<Op>, target: OpID) {
    exists op :: op in ops && op.Delete? && op.target == target
  }

  /** One identifier, one entry. */
  ghost predicate Consistent(ops: set<Op>) {
    forall a, b :: a in ops && b in ops && a.Insert? && b.Insert? && a.id == b.id ==> a.entry == b.entry
  }

  ghost predicate Known(d: Doc, ops: set<Op>, id: OpID) {
    Present(d.nodes, id) || Inserts(ops, id)
  }

  /** Nothing stands in the way of the operation: a known identifier or a present parent
      for an insert, a present target for a delete. */
  predicate Ready(d: Doc, op: Op) {
    match op
    case Insert(id, e) => Present(d.nodes, id) || Present(d.nodes, e.parent)
    case Delete(target, _) => Present(d.nodes, target)
  }

  predicate InEffect(d: Doc, op: Op) {
    match op
    case Insert(id, _) => Present(d.nodes, id)
    case Delete(target, _) => target in d.dead
  }

  /** Read off the delivery order alone: every insert comes after its parent or is a
      duplicate, every delete comes after its target. */
  ghost predicate Precondition(d: Doc, earlier: set<Op>, op: Op) {
    match op
    case Insert(id, e) => Known(d, earlier, id) || Known(d, earlier, e.parent)
    case Delete(target, _) => Known(d, earlier, target)
  }

  ghost predicate Causal(d: Doc, ops: seq<Op>) {
    forall i :: 0 <= i < |ops| ==> Precondition(d, OpSet(ops[..i]), ops[i])
  }

  /** The i-th operation is in effect right after its delivery. */
  ghost predicate TakesEffect(d: Doc, ops: seq<Op>, i: nat)
    requires i < |ops|
  {
    InEffect(Run(d, ops[..i + 1]), ops[i])
  }

  ghost predicate AllTakeEffect(d: Doc, ops: seq<Op>) {
    forall i :: 0 <= i < |ops| ==> TakesEffect(d, ops, i)
  }

  /** d' is d with exactly these operations in effect. */
  ghost predicate Exactly(d: Doc, ops: set<Op>, d': Doc) {
    && Grows(d, d')
    && (forall id :: Present(d'.nodes, id) <==> Known(d, ops, id))
    && (forall op :: op in ops && op.Insert? && !Present(d.nodes, op.id) ==>
          op.id in d'.nodes && d'.nodes[op.id] == op.entry)
    && (forall t :: t in d'.dead <==> t in d.dead || Deletes(ops, t))
  }

  lemma ExactlyIsUnique(d: Doc, ops: set<Op>, d1: Doc, d2: Doc)
    requires ROOT !in d1.nodes && ROOT !in d2.nodes
    requires Exactly(d, ops, d1) && Exactly(d, ops, d2)
    ensures d1 == d2
  {
    forall id ensures id in d1.nodes <==> id in d2.nodes {
      assert Present(d1.nodes, id) <==> Known(d, ops, id);
    }
    forall id | id in d1.nodes ensures d1.nodes[id] == d2.nodes[id] {
      assert Known(d, ops, id);
      if !Present(d.nodes, id) {
        var op :| op in ops && op.Insert? && op.id == id;
      }
    }
    assert d1.nodes == d2.nodes;
    assert d1.dead == d2.dead;
  }

  /** One more operation that is ready and agrees with the earlier ones. */
  lemma ExactlyStep(d: Doc, ops: set<Op>, d': Doc, op: Op)
    requires ROOT !in d'.nodes
    requires Exactly(d, ops, d') && Ready(d', op) && Consistent(ops + {op})
    ensures Exactly(d, ops + {op}, Apply(d', op))
  {
    var ops', d'' := ops + {op}, Apply(d', op);
    assert op in ops';
    forall id ensures Present(d''.nodes, id) <==> Known(d, ops', id) {
      assert Present(d'.nodes, id) <==> Known(d, ops, id);
      if Inserts(ops, id) {
        var o :| o in ops && o.Insert? && o.id == id;
        assert o in ops';
      }
    }
    forall o | o in ops' && o.Insert? && !Present(d.nodes, o.id)
      ensures o.id in d''.nodes && d''.nodes[o.id] == o.entry
    {
      if o in ops {
        assert o.id in d'.nodes && d'.nodes[o.id] == o.entry;
      }
    }
    forall t ensures t in d''.dead <==> t in d.dead || Deletes(ops', t) {
      assert t in d'.dead <==> t in d.dead || Deletes(ops, t);
      if Deletes(ops, t) {
        var o :| o in ops && o.Delete? && o.target == t;
        assert o in ops';
      }
    }
  }

  lemma OpSetSnoc(ops: seq<Op>)
    requires ops != []
    ensures OpSet(ops) == OpSet(ops[..|ops| - 1]) + {ops[|ops| - 1]}
  {
  }

  lemma ReadyMeansPrecondition(d: Doc, ops: set<Op>, d': Doc, op: Op)
    requires Exactly(d, ops, d')
    ensures Ready(d', op) <==> Precondition(d, ops, op)
  {
  }

  lemma ExactlyNothing(d: Doc)
    requires Sound(d)
    ensures Exactly(d, {}, d)
  {
  }

  /** A causal run puts exactly its operations into effect. */
  lemma {:induction false} CausalRunIsExact(d: Doc, ops: seq<Op>)
    requires Sound(d) && Causal(d, ops) && Consistent(OpSet(ops))
    ensures Sound(Run(d, ops)) && Exactly(d, OpSet(ops), Run(d, ops))
  {
    RunGrows(d, ops);
    if ops == [] {
      ExactlyNothing(d);
    } else {
      var n := |ops| - 1;
      OpSetSnoc(ops);
      LastIsCausal(d, ops);
      CausalRunIsExact(d, ops[..n]);
      ReadyMeansPrecondition(d, OpSet(ops[..n]), Run(d, ops[..n]), ops[n]);
      ExactlyStep(d, OpSet(ops[..n]), Run(d, ops[..n]), ops[n]);
    }
  }

  // ---------- Orders that are not causal ----------

  /** Everything in the tree was there before or came with one of the operations. */
  ghost predicate FromOps(d: Doc, ops: set<Op>, d': Doc) {
    && (forall x :: x in d'.nodes ==> (x in d.nodes && d'.nodes[x] == d.nodes[x]) || Insert(x, d'.nodes[x]) in ops)
    && (forall t :: t in d'.dead ==> t in d.dead || Deletes(ops, t))
  }

  /** Nothing comes from nowhere, whatever was delivered in whatever order. */
  lemma {:induction false} RunComesFromOps(d: Doc, ops: seq<Op>)
    ensures FromOps(d, OpSet(ops), Run(d, ops))
  {
    if ops != [] {
      var n := |ops| - 1;
      RunComesFromOps(d, ops[..n]);
      OpSetSnoc(ops);
      FromOpsStep(d, OpSet(ops[..n]), Run(d, ops[..n]), ops[n]);
    }
  }

  lemma FromOpsStep(d: Doc, ops: set<Op>, d': Doc, op: Op)
    requires FromOps(d, ops, d')
    ensures FromOps(d, ops + {op}, Apply(d', op))
  {
    var d'' := Apply(d', op);
    forall t | t in d''.dead ensures t in d.dead || Deletes(ops + {op}, t) {
      if t in d'.dead && t !in d.dead {
        var o :| o in ops && o.Delete? && o.target == t;
        assert o in ops + {op};
      } else if t !in d'.dead {
        assert op in ops + {op};
      }
    }
  }

  /** Two replicas put their common nodes in the same order, tombstones included, even if
      neither received its operations causally, as long as one identifier means one entry. */
  lemma ReplicasShareOneOrder(a: seq<Op>, b: seq<Op>, i: nat, j: nat, k: nat, l: nat)
    requires Consistent(OpSet(a) + OpSet(b))
    requires Sound(Run(EMPTY, a)) && Sound(Run(EMPTY, b))
    requires var s := Order(Run(EMPTY, a).nodes);
             var t := Order(Run(EMPTY, b).nodes);
             && i < |s| && j < |s| && k < |t| && l < |t|
             && s[i] == t[k] && s[j] == t[l]
    ensures i < j <==> k < l
  {
    var ms, ns := Run(EMPTY, a).nodes, Run(EMPTY, b).nodes;
    RunComesFromOps(EMPTY, a);
    RunComesFromOps(EMPTY, b);
    forall x | x in ms && x in ns ensures ms[x] == ns[x] {
      assert Insert(x, ms[x]) in OpSet(a) + OpSet(b) && Insert(x, ns[x]) in OpSet(a) + OpSet(b);
    }
    CommonNodesShareOneOrder(ms, ns, i, j, k, l);
  }

  /** After any operations at all, remote garbage included, the tree is a tree: the walk ends,
      lists every node once, and every node sits in one child list, that of its recorded
      parent on its recorded side. */
  lemma AnyRunBuildsATree(ops: seq<Op>)
    ensures Sound(Run(EMPTY, ops))
    ensures var ns := Run(EMPTY, ops).nodes;
            && (forall x :: x in Order(ns) <==> x in ns)
            && (forall i, j :: 0 <= i < j < |Order(ns)| ==> Order(ns)[i] != Order(ns)[j])
            && (forall x, p, left :: x in ns ==>
                  (x in Children(ns, p, left) <==> p == ns[x].parent && left == (ns[x].side == 0)))
            && (forall x :: x in ns ==> Present(ns, ns[x].parent))
  {
    EmptyIsSound();
    RunGrows(EMPTY, ops);
    var ns := Run(EMPTY, ops).nodes;
    OrderIsTheListing(ns);
    forall x | x in ns ensures Present(ns, ns[x].parent) {
      ParentIsHigher(ns, x);
    }
  }

  // ---------- Causality is exactly what "in any order" lacks ----------

  lemma TakesEffectIffReady(d: Doc, op: Op)
    requires Sound(d)
    ensures InEffect(Apply(d, op), op) <==> Ready(d, op)
  {
  }

  /** Every delivered operation takes effect if and only if the delivery order is causal. */
  lemma {:induction false} AllTakeEffectIffCausal(d: Doc, ops: seq<Op>)
    requires Sound(d) && Consistent(OpSet(ops))
    ensures AllTakeEffect(d, ops) <==> Causal(d, ops)
  {
    if ops != [] {
      var n := |ops| - 1;
      var init := ops[..n];
      OpSetSnoc(ops);
      AllTakeEffectIffCausal(d, init);
      LastTakesEffect(d, ops);
      LastIsCausal(d, ops);
      if Causal(d, init) {
        CausalRunIsExact(d, init);
        TakesEffectIffReady(Run(d, init), ops[n]);
        ReadyMeansPrecondition(d, OpSet(init), Run(d, init), ops[n]);
      }
    }
  }

  lemma LastTakesEffect(d: Doc, ops: seq<Op>)
    requires ops != []
    ensures var n := |ops| - 1;
            AllTakeEffect(d, ops) <==> AllTakeEffect(d, ops[..n]) && InEffect(Run(d, ops), ops[n])
  {
    var n := |ops| - 1;
    assert ops[..n + 1] == ops;
    assert TakesEffect(d, ops, n) <==> InEffect(Run(d, ops), ops[n]);
    forall i | 0 <= i < n ensures TakesEffect(d, ops, i) <==> TakesEffect(d, ops[..n], i) {
      assert ops[..n][..i + 1] == ops[..i + 1];
    }
  }

  lemma LastIsCausal(d: Doc, ops: seq<Op>)
    requires ops != []
    ensures var n := |ops| - 1;
            Causal(d, ops) <==> Causal(d, ops[..n]) && Precondition(d, OpSet(ops[..n]), ops[n])
  {
    var n := |ops| - 1;
    forall i | 0 <= i < n
      ensures Precondition(d, OpSet(ops[..i]), ops[i]) <==> Precondition(d, OpSet(ops[..n][..i]), ops[..n][i])
    {
      assert ops[..n][..i] == ops[..i];
    }
  }

  // ---------- Which orders converge ----------

  /** s is t with some entries left out. */
  ghost predicate Sub(s: seq<Op>, t: seq<Op>) {
    if t == [] then s == []
    else
      var init := t[..|t| - 1];
      Sub(s, init) || (s != [] && s[|s| - 1] == t[|t| - 1] && Sub(s[..|s| - 1], init))
  }

  /** Every identifier inserted and every target deleted by t is so by s, or was before. */
  ghost predicate Covers(d: Doc, s: set<Op>, t: set<Op>) {
    && (forall op :: op in t && op.Insert? ==> Known(d, s, op.id))
    && (forall op :: op in t && op.Delete? ==> op.target in d.dead || Deletes(s, op.target))
  }

  /** Read off the delivery order alone: with some deliveries left out it is causal and still
      does everything; a delivery that came too early is made up for by a later one. */
  ghost predicate Completed(d: Doc, t: seq<Op>) {
    exists s :: Sub(s, t) && Causal(d, s) && Covers(d, OpSet(s), OpSet(t))
  }

  lemma {:induction false} SubIsReflexive(t: seq<Op>)
    ensures Sub(t, t)
  {
    if t != [] { SubIsReflexive(t[..|t| - 1]); }
  }

  lemma {:induction false} SubIsWithin(s: seq<Op>, t: seq<Op>)
    requires Sub(s, t)
    ensures OpSet(s) <= OpSet(t)
  {
    if t != [] {
      var init := t[..|t| - 1];
      OpSetSnoc(t);
      if Sub(s, init) {
        SubIsWithin(s, init);
      } else {
        OpSetSnoc(s);
        SubIsWithin(s[..|s| - 1], init);
      }
    }
  }

  /** Every node and every mark of d is also in d'. */
  ghost predicate Included(d: Doc, d': Doc) {
    (forall id :: Present(d.nodes, id) ==> Present(d'.nodes, id)) && d.dead <= d'.dead
  }

  lemma ApplyIsMonotone(d: Doc, d': Doc, op: Op)
    requires Included(d, d')
    ensures Included(Apply(d, op), Apply(d', op)) && Included(d, Apply(d', op))
  {
    var e, e' := Apply(d, op), Apply(d', op);
    assert forall id :: Present(d'.nodes, id) ==> Present(e'.nodes, id);
    forall id | Present(e.nodes, id) ensures Present(e'.nodes, id) {
      assert Present(d.nodes, id) ==> Present(d'.nodes, id);
    }
  }

  /** Leaving out deliveries never adds anything. */
  lemma {:induction false} SubDoesLess(d: Doc, s: seq<Op>, t: seq<Op>)
    requires Sub(s, t)
    ensures Included(Run(d, s), Run(d, t))
  {
    if t != [] {
      var init, op := t[..|t| - 1], t[|t| - 1];
      if Sub(s, init) {
        SubDoesLess(d, s, init);
        ApplyIsMonotone(Run(d, s), Run(d, init), op);
      } else {
        SubDoesLess(d, s[..|s| - 1], init);
        ApplyIsMonotone(Run(d, s[..|s| - 1]), Run(d, init), op);
      }
    }
  }

  /** The deliveries that found their parent or target. */
  function Effective(d: Doc, t: seq<Op>): seq<Op> {
    if t == [] then []
    else
      var n := |t| - 1;
      Effective(d, t[..n]) + if Ready(Run(d, t[..n]), t[n]) then [t[n]] else []
  }

  lemma {:induction false} EffectiveDoesAll(d: Doc, t: seq<Op>)
    requires Sound(d) && Consistent(OpSet(t))
    ensures var s := Effective(d, t);
            Sub(s, t) && Causal(d, s) && Run(d, s) == Run(d, t)
  {
    if t != [] {
      var n := |t| - 1;
      var s, init := Effective(d, t), Effective(d, t[..n]);
      OpSetSnoc(t);
      EffectiveDoesAll(d, t[..n]);
      if Ready(Run(d, t[..n]), t[n]) {
        assert s == init + [t[n]] && s[..|s| - 1] == init;
        SubIsWithin(init, t[..n]);
        CausalRunIsExact(d, init);
        ReadyMeansPrecondition(d, OpSet(init), Run(d, init), t[n]);
        LastIsCausal(d, s);
      } else {
        assert s == init;
      }
    }
  }

  lemma CoveredIsExact(d: Doc, s: seq<Op>, t: seq<Op>)
    requires Sound(d) && Consistent(OpSet(t))
    requires Sub(s, t) && Causal(d, s) && Covers(d, OpSet(s), OpSet(t))
    ensures Exactly(d, OpSet(t), Run(d, t))
  {
    SubIsWithin(s, t);
    CausalRunIsExact(d, s);
    SubDoesLess(d, s, t);
    RunGrows(d, t);
    RunComesFromOps(d, t);
    ExactlyFromBelow(d, OpSet(s), Run(d, s), OpSet(t), Run(d, t));
  }

  lemma ExactlyFromBelow(d: Doc, s: set<Op>, ds: Doc, t: set<Op>, dt: Doc)
    requires s <= t && Consistent(t) && Covers(d, s, t) && Exactly(d, s, ds)
    requires Included(ds, dt) && Grows(d, dt) && FromOps(d, t, dt)
    ensures Exactly(d, t, dt)
  {
    forall id ensures Present(dt.nodes, id) <==> Known(d, t, id) {
      assert Present(ds.nodes, id) <==> Known(d, s, id);
      if Inserts(t, id) {
        var op :| op in t && op.Insert? && op.id == id;
      }
    }
    forall op | op in t && op.Insert? && !Present(d.nodes, op.id)
      ensures op.id in dt.nodes && dt.nodes[op.id] == op.entry
    {
      assert Known(d, t, op.id);
      assert Insert(op.id, dt.nodes[op.id]) in t;
    }
    forall x ensures x in dt.dead <==> x in d.dead || Deletes(t, x) {
      assert x in ds.dead <==> x in d.dead || Deletes(s, x);
      if Deletes(t, x) {
        var op :| op in t && op.Delete? && op.target == x;
      }
    }
  }

  lemma ExactlyCovers(d: Doc, s: set<Op>, t: set<Op>, d': Doc)
    requires Exactly(d, s, d') && Exactly(d, t, d')
    ensures Covers(d, s, t)
  {
    forall op | op in t && op.Insert? ensures Known(d, s, op.id) {
      assert Known(d, t, op.id);
    }
    forall op | op in t && op.Delete? ensures op.target in d.dead || Deletes(s, op.target) {
      assert Deletes(t, op.target);
    }
  }

  /** A delivery order puts exactly its operations into effect if and only if it is completed. */
  lemma ExactIffCompleted(d: Doc, t: seq<Op>)
    requires Sound(d) && Consistent(OpSet(t))
    ensures Exactly(d, OpSet(t), Run(d, t)) <==> Completed(d, t)
  {
    if Completed(d, t) {
      var s :| Sub(s, t) && Causal(d, s) && Covers(d, OpSet(s), OpSet(t));
      CoveredIsExact(d, s, t);
    }
    if Exactly(d, OpSet(t), Run(d, t)) {
      var s := Effective(d, t);
      EffectiveDoesAll(d, t);
      SubIsWithin(s, t);
      CausalRunIsExact(d, s);
      ExactlyCovers(d, OpSet(s), OpSet(t), Run(d, t));
    }
  }

  lemma CausalIsCompleted(d: Doc, t: seq<Op>)
    requires Causal(d, t)
    ensures Completed(d, t)
  {
    SubIsReflexive(t);
    assert Covers(d, OpSet(t), OpSet(t));
  }

  /** Replicas that received the same operations, in any completed orders and with any
      duplicates, hold the same document. */
  lemma Convergence(d: Doc, a: seq<Op>, b: seq<Op>)
    requires Sound(d) && Completed(d, a) && Completed(d, b)
    requires OpSet(a) == OpSet(b) && Consistent(OpSet(a))
    ensures Run(d, a) == Run(d, b)
    ensures Sound(Run(d, a)) && Text(Run(d, a)) == Text(Run(d, b))
  {
    RunGrows(d, a);
    RunGrows(d, b);
    ExactIffCompleted(d, a);
    ExactIffCompleted(d, b);
    ExactlyIsUnique(d, OpSet(a), Run(d, a), Run(d, b));
  }

  /** Against a replica that received the operations causally, any other order of the same
      operations converges if and only if it is completed. */
  lemma ConvergesIffCompleted(d: Doc, a: seq<Op>, b: seq<Op>)
    requires Sound(d) && Causal(d, b) && OpSet(a) == OpSet(b) && Consistent(OpSet(a))
    ensures Run(d, a) == Run(d, b) <==> Completed(d, a)
  {
    CausalRunIsExact(d, b);
    ExactIffCompleted(d, a);
    CausalIsCompleted(d, b);
    if Completed(d, a) {
      Convergence(d, a, b);
    }
  }

  /** The claim that any delivery order converges fails already for a parent and a child. */
  lemma ChildBeforeParentDiverges(p: OpID, c: OpID, v: Rune, w: Rune)
    requires p != ROOT && c != ROOT && p != c
    ensures var parent := Insert(p, Entry(v, ROOT, FUGUE_RIGHT));
            var child := Insert(c, Entry(w, p, FUGUE_RIGHT));
            && OpSet([parent, child]) == OpSet([child, parent])
            && Run(EMPTY, [parent, child]).nodes.Keys == {p, c}
            && Run(EMPTY, [child, parent]).nodes.Keys == {p}
  {
    var parent := Insert(p, Entry(v, ROOT, FUGUE_RIGHT));
    var child := Insert(c, Entry(w, p, FUGUE_RIGHT));
    assert [parent, child] == [parent] + [child] && [child, parent] == [child] + [parent];
    RunSnoc(EMPTY, [parent], child);
    RunSnoc(EMPTY, [child], parent);
    assert [parent] == [] + [parent] && [child] == [] + [child];
    RunSnoc(EMPTY, [], parent);
    RunSnoc(EMPTY, [], child);
  }

  // ---------- Deletes ----------

  /** A delete commutes with another operation unless that operation is what first brings
      the delete's target into the document. */
  lemma DeleteCommutes(d: Doc, target: OpID, source: OpID, op: Op)
    requires Sound(d)
    ensures Apply(Apply(d, Delete(target, source)), op) == Apply(Apply(d, op), Delete(target, source))
            <==> !(op.Insert? && op.id == target && !Present(d.nodes, target) && Ready(d, op))
  {
  }

  /** A delete leaves the full document alone. */
  lemma DeleteKeepsOrder(d: Doc, target: OpID, source: OpID)
    requires Sound(d)
    ensures Sound(Apply(d, Delete(target, source)))
    ensures Order(Apply(d, Delete(target, source)).nodes) == Order(d.nodes)
  {
  }

  lemma {:induction false} HidingOne(s: seq<OpID>, dead: set<OpID>, pos: nat)
    requires forall i, j :: 0 <= i < j < |s| ==> s[i] != s[j]
    requires pos < |Visible(s, dead)|
    ensures var v := Visible(s, dead);
            Visible(s, dead + {v[pos]}) == v[..pos] + v[pos + 1..]
  {
    var v, n := Visible(s, dead), |s| - 1;
    var init := Visible(s[..n], dead);
    if pos < |init| {
      HidingOne(s[..n], dead, pos);
      assert v[pos] == init[pos];
      assert v[pos] != s[n] by {
        VisibleElements(s[..n], dead);
        assert init[pos] in init;
      }
      assert v[..pos] == init[..pos];
    } else {
      HidingNone(s[..n], dead, s[n]);
      assert v[..pos] + v[pos + 1..] == init;
    }
  }

  lemma {:induction false} HidingNone(s: seq<OpID>, dead: set<OpID>, x: OpID)
    requires x !in s
    ensures Visible(s, dead + {x}) == Visible(s, dead)
  {
    if s != [] {
      assert forall y :: y in s[..|s| - 1] ==> y in s;
      HidingNone(s[..|s| - 1], dead, x);
    }
  }

  lemma ValuesConcat(ns: Nodes, s: seq<OpID>, t: seq<OpID>)
    requires AllIn(ns, s) && AllIn(ns, t)
    ensures AllIn(ns, s + t) && Values(ns, s + t) == Values(ns, s) + Values(ns, t)
  {
  }

  lemma TextWithout(d: Doc, d': Doc, pos: nat)
    requires Sound(d) && Sound(d') && d'.nodes == d.nodes && pos < |VisibleIds(d)|
    requires VisibleIds(d') == VisibleIds(d)[..pos] + VisibleIds(d)[pos + 1..]
    ensures |Text(d)| == |VisibleIds(d)| && Text(d') == Text(d)[..pos] + Text(d)[pos + 1..]
  {
    var v := VisibleIds(d);
    VisibleIdsListing(d);
    VisibleIdsListing(d');
    ValuesConcat(d.nodes, v[..pos], v[pos + 1..]);
  }

  /** DeleteAt(pos) removes exactly index pos from the text. */
  lemma DeleteAtRemovesExactlyPos(r: Replica, pos: int)
    requires Sound(r.doc) && 0 <= pos < |VisibleIds(r.doc)|
    ensures var r' := Local(r, DeleteEdit(pos)).0;
            && Sound(r'.doc) && Order(r'.doc.nodes) == Order(r.doc.nodes)
            && VisibleIds(r'.doc) == VisibleIds(r.doc)[..pos] + VisibleIds(r.doc)[pos + 1..]
            && |Text(r.doc)| == |VisibleIds(r.doc)|
            && Text(r'.doc) == Text(r.doc)[..pos] + Text(r.doc)[pos + 1..]
  {
    var d := r.doc;
    var v := VisibleIds(d);
    ResolveIsReady(r, DeleteEdit(pos));
    DeleteKeepsOrder(d, v[pos], NextId(r));
    OrderIsTheListing(d.nodes);
    HidingOne(Order(d.nodes), d.dead, pos);
    TextWithout(d, Apply(d, Delete(v[pos], NextId(r))), pos);
  }
}
