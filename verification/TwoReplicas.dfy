/** Two replicas that edit, exchange operations in any order and merge: between two, every
    merge is exactly the union. */
module TwoReplicas {
  import opened OpIds
  import opened Forest
  import opened Docs
  import opened Convergence
  import opened Merging

  /** The replicas and every operation either of them ever produced. An operation may be
      delivered any number of times, in any order, and may be dropped. */
  datatype Pair = Pair(a: Replica, b: Replica, sent: set<Op>)

  datatype Step = EditA(e: Edit) | EditB(e: Edit) | DeliverA(op: Op) | DeliverB(op: Op) | MergeIntoA | MergeIntoB

  ghost predicate Next(s: Pair, step: Step, s': Pair)
    requires Sound(s.a.doc) && Sound(s.b.doc)
  {
    match step
    case EditA(e) =>
      var (a', op) := Local(s.a, e);
      s' == Pair(a', s.b, s.sent + if op.None? then {} else {op.value})
    case EditB(e) =>
      var (b', op) := Local(s.b, e);
      s' == Pair(s.a, b', s.sent + if op.None? then {} else {op.value})
    case DeliverA(op) => op in s.sent && s' == s.(a := s.a.(doc := Apply(s.a.doc, op)))
    case DeliverB(op) => op in s.sent && s' == s.(b := s.b.(doc := Apply(s.b.doc, op)))
    case MergeIntoA => Merged(s.a.doc, s.b.doc, s'.a.doc) && s' == s.(a := s.a.(doc := s'.a.doc))
    case MergeIntoB => Merged(s.b.doc, s.a.doc, s'.b.doc) && s' == s.(b := s.b.(doc := s'.b.doc))
  }

  /** The steps do something: an edit in range is applied and sent, a delivery that finds its
      parent or target is in effect afterwards. */
  lemma StepsTakeEffect(s: Pair, step: Step, s': Pair)
    requires Sound(s.a.doc) && Sound(s.b.doc) && Next(s, step, s')
    ensures match step
            case EditA(e) => !OutOfRange(s.a.doc, e) ==>
              exists op :: op in s'.sent && s'.a.doc == Apply(s.a.doc, op) && s'.a.counter == Bump(s.a.counter)
            case EditB(e) => !OutOfRange(s.b.doc, e) ==>
              exists op :: op in s'.sent && s'.b.doc == Apply(s.b.doc, op) && s'.b.counter == Bump(s.b.counter)
            case DeliverA(op) => Ready(s.a.doc, op) ==> InEffect(s'.a.doc, op)
            case DeliverB(op) => Ready(s.b.doc, op) ==> InEffect(s'.b.doc, op)
            case _ => s'.sent == s.sent
  {
    if step.EditA? {
      RefusedIffOutOfRange(s.a, step.e);
    } else if step.EditB? {
      RefusedIffOutOfRange(s.b, step.e);
    } else if step.DeliverA? {
      TakesEffectIffReady(s.a.doc, step.op);
    } else if step.DeliverB? {
      TakesEffectIffReady(s.b.doc, step.op);
    }
  }

  // ---------- The invariant, one replica at a time ----------

  /** Where the nodes come from. */
  ghost predicate FromSent(d: Doc, sent: set<Op>) {
    && (forall x :: x in d.nodes ==> Insert(x, d.nodes[x]) in sent)
    && ROOT !in d.dead
  }

  /** What the replica r, with the other one named `other`, has contributed to `sent`. */
  ghost predicate Contributed(r: Replica, other: string, op: Op) {
    match op
    case Insert(id, e) =>
      id.replica == r.name ==>
        && id in r.doc.nodes && 0 < id.counter <= r.counter
        && (e.parent == ROOT || e.parent.replica == other
            || (e.parent.replica == r.name && e.parent.counter < id.counter))
    case Delete(t, _) => t != ROOT
  }

  ghost predicate Names(a: Replica, b: Replica, op: Op) {
    op.Insert? ==> op.id.replica == a.name || op.id.replica == b.name
  }

  /** steps counts the moves so far; no counter can outrun it. */
  ghost predicate Inv(s: Pair, steps: nat) {
    && s.a.name != s.b.name
    && Sound(s.a.doc) && Sound(s.b.doc)
    && s.a.counter <= steps && s.b.counter <= steps
    && Consistent(s.sent)
    && FromSent(s.a.doc, s.sent) && FromSent(s.b.doc, s.sent)
    && (forall op :: op in s.sent ==>
          Contributed(s.a, s.b.name, op) && Contributed(s.b, s.a.name, op) && Names(s.a, s.b, op))
  }

  function Swap(s: Pair): Pair {
    Pair(s.b, s.a, s.sent)
  }

  lemma InvSwap(s: Pair, steps: nat)
    requires Inv(s, steps)
    ensures Inv(Swap(s), steps)
  {
  }

  lemma InitHolds(nameA: string, nameB: string)
    requires nameA != nameB
    ensures Inv(Pair(Replica(nameA, 0, EMPTY), Replica(nameB, 0, EMPTY), {}), 0)
  {
    EmptyIsSound();
  }

  /** A document that grew inside what was sent keeps the invariant. */
  lemma GrowA(s: Pair, steps: nat, d: Doc)
    requires Inv(s, steps) && Sound(d) && Grows(s.a.doc, d) && FromSent(d, s.sent)
    ensures Inv(s.(a := s.a.(doc := d)), steps + 1)
  {
  }

  lemma DeliverKeeps(s: Pair, steps: nat, op: Op)
    requires Inv(s, steps) && op in s.sent
    ensures Inv(s.(a := s.a.(doc := Apply(s.a.doc, op))), steps + 1)
  {
    ApplyGrows(s.a.doc, op);
    assert Contributed(s.a, s.b.name, op);
    GrowA(s, steps, Apply(s.a.doc, op));
  }

  lemma MergeKeeps(s: Pair, steps: nat, d: Doc)
    requires Inv(s, steps) && Merged(s.a.doc, s.b.doc, d)
    ensures Inv(s.(a := s.a.(doc := d)), steps + 1)
  {
    MergeIsBetween(s.a.doc, s.b.doc, d);
    forall x | x in d.nodes ensures Insert(x, d.nodes[x]) in s.sent {
      assert x in s.a.doc.nodes || x in s.b.doc.nodes;
    }
    assert ROOT !in d.dead by {
      assert ROOT !in s.b.doc.nodes;
    }
    GrowA(s, steps, d);
  }

  /** A local identifier is new to both trees and to everything in flight. */
  lemma NextIdUnused(s: Pair, steps: nat)
    requires Inv(s, steps) && steps < MAX_COUNTER
    ensures !Present(s.a.doc.nodes, NextId(s.a))
    ensures forall op :: op in s.sent && op.Insert? ==> op.id != NextId(s.a)
  {
  }

  lemma InsertKeeps(s: Pair, steps: nat, e: Entry)
    requires Inv(s, steps) && steps < MAX_COUNTER && Present(s.a.doc.nodes, e.parent)
    ensures var op := Insert(NextId(s.a), e);
            Inv(Pair(Replica(s.a.name, Bump(s.a.counter), Apply(s.a.doc, op)), s.b, s.sent + {op}), steps + 1)
  {
    var op := Insert(NextId(s.a), e);
    var a' := Replica(s.a.name, Bump(s.a.counter), Apply(s.a.doc, op));
    NextIdUnused(s, steps);
    ApplyGrows(s.a.doc, op);
    if e.parent != ROOT {
      var p := Insert(e.parent, s.a.doc.nodes[e.parent]);
      assert p in s.sent;
      assert Contributed(s.a, s.b.name, p) && Names(s.a, s.b, p);
    }
    assert Contributed(a', s.b.name, op);
    forall o | o in s.sent
      ensures Contributed(a', s.b.name, o) && Contributed(s.b, a'.name, o) && Names(a', s.b, o)
    {
      assert Contributed(s.a, s.b.name, o);
    }
  }

  lemma DeleteKeeps(s: Pair, steps: nat, target: OpID)
    requires Inv(s, steps) && steps < MAX_COUNTER && target in s.a.doc.nodes
    ensures var op := Delete(target, NextId(s.a));
            Inv(Pair(Replica(s.a.name, Bump(s.a.counter), Apply(s.a.doc, op)), s.b, s.sent + {op}), steps + 1)
  {
  }

  lemma EditKeeps(s: Pair, steps: nat, e: Edit)
    requires Inv(s, steps) && steps < MAX_COUNTER
    ensures var (a', op) := Local(s.a, e);
            Inv(Pair(a', s.b, s.sent + if op.None? then {} else {op.value}), steps + 1)
  {
    if InRange(s.a.doc, e) {
      ResolveIsReady(s.a, e);
      match e
      case InsertEdit(pos, c) => InsertKeeps(s, steps, EntryAt(s.a.doc, pos, c));
      case DeleteEdit(pos) => DeleteKeeps(s, steps, VisibleIds(s.a.doc)[pos]);
    } else {
      assert s.sent + {} == s.sent;
      GrowA(s, steps, s.a.doc);
    }
  }

  lemma NextKeepsInv(s: Pair, steps: nat, step: Step, s': Pair)
    requires Inv(s, steps) && steps < MAX_COUNTER && Next(s, step, s')
    ensures Inv(s', steps + 1)
  {
    InvSwap(s, steps);
    match step
    case EditA(e) => EditKeeps(s, steps, e);
    case EditB(e) => EditKeeps(Swap(s), steps, e); InvSwap(Swap(s'), steps + 1);
    case DeliverA(op) => DeliverKeeps(s, steps, op);
    case DeliverB(op) => DeliverKeeps(Swap(s), steps, op); InvSwap(Swap(s'), steps + 1);
    case MergeIntoA => MergeKeeps(s, steps, s'.a.doc);
    case MergeIntoB => MergeKeeps(Swap(s), steps, s'.b.doc); InvSwap(Swap(s'), steps + 1);
  }

  // ---------- What it gives ----------

  /** Each replica already has whatever of its own the other one holds. */
  lemma InvMakesMergeable(s: Pair, steps: nat)
    requires Inv(s, steps)
    ensures Mergeable(s.a.doc, s.b.doc)
    ensures Agree(s.a.doc.nodes, s.b.doc.nodes)
  {
    forall x | x in s.b.doc.nodes ensures x in s.a.doc.nodes || ArrivesAfterParent(s.a.doc, s.b.doc, x) {
      OwnNodesAreKnown(s, steps, x);
    }
    forall x | x in s.a.doc.nodes && x in s.b.doc.nodes ensures s.a.doc.nodes[x] == s.b.doc.nodes[x] {
      assert Insert(x, s.a.doc.nodes[x]) in s.sent && Insert(x, s.b.doc.nodes[x]) in s.sent;
    }
  }

  lemma OwnNodesAreKnown(s: Pair, steps: nat, x: OpID)
    requires Inv(s, steps) && x in s.b.doc.nodes
    ensures x in s.a.doc.nodes || ArrivesAfterParent(s.a.doc, s.b.doc, x)
  {
    var op := Insert(x, s.b.doc.nodes[x]);
    assert op in s.sent;
    assert Contributed(s.a, s.b.name, op) && Contributed(s.b, s.a.name, op) && Names(s.a, s.b, op);
    var p := s.b.doc.nodes[x].parent;
    ParentIsHigher(s.b.doc.nodes, x);
    if p != ROOT && x !in s.a.doc.nodes {
      var above := Insert(p, s.b.doc.nodes[p]);
      assert above in s.sent;
      assert Contributed(s.a, s.b.name, above);
    }
  }

  /** A run from two empty replicas. */
  ghost predicate IsRun(states: seq<Pair>, steps: seq<Step>) {
    && |states| == |steps| + 1
    && states[0].a.doc == states[0].b.doc == EMPTY && states[0].a.counter == states[0].b.counter == 0
    && states[0].sent == {} && states[0].a.name != states[0].b.name
    && forall i :: 0 <= i < |steps| ==>
         Sound(states[i].a.doc) && Sound(states[i].b.doc) && Next(states[i], steps[i], states[i + 1])
  }

  lemma {:induction false} RunKeepsInv(states: seq<Pair>, steps: seq<Step>, n: nat)
    requires IsRun(states, steps) && n <= |steps| <= MAX_COUNTER
    ensures Inv(states[n], n)
  {
    if n == 0 {
      InitHolds(states[0].a.name, states[0].b.name);
    } else {
      RunKeepsInv(states, steps, n - 1);
      NextKeepsInv(states[n - 1], n - 1, steps[n - 1], states[n]);
    }
  }

  /** Whatever two replicas did before, merging one into the other gives exactly the union,
      for every iteration order and every order of ties; merging back makes them equal. */
  lemma TwoReplicaMerge(states: seq<Pair>, steps: seq<Step>, n: nat, ab: Doc, ba: Doc)
    requires IsRun(states, steps) && n <= |steps| <= MAX_COUNTER
    requires Sound(states[n].a.doc) && Sound(states[n].b.doc)
    requires Merged(states[n].a.doc, states[n].b.doc, ab)
    requires Merged(states[n].b.doc, ab, ba)
    ensures ab == Union(states[n].a.doc, states[n].b.doc)
    ensures ab == ba && Sound(ab) && Text(ab) == Text(ba)
  {
    var s := states[n];
    RunKeepsInv(states, steps, n);
    InvMakesMergeable(s, n);
    MergeIsUnion(s.a.doc, s.b.doc, ab);
    MergeKeeps(s, n, ab);
    var after := Swap(s.(a := s.a.(doc := ab)));
    InvSwap(s.(a := s.a.(doc := ab)), n + 1);
    InvMakesMergeable(after, n + 1);
    MergeIsUnion(s.b.doc, ab, ba);
    UnionTwice(s.a.doc, s.b.doc);
  }

  lemma UnionTwice(a: Doc, b: Doc)
    requires Agree(a.nodes, b.nodes) && ROOT !in a.dead && ROOT !in b.dead
    ensures Union(b, Union(a, b)) == Union(a, b)
  {
  }
}
