/** The tree as the program keeps it: nodes on the heap, child lists and a string-keyed map
    updated in place. Every method is proved against the documents of module Docs. */
module FugueTrees {
  import opened OpIds
  import opened Siblings
  import opened Forest
  import opened Traversal
  import opened Docs
  import opened Merging
  import opened Placement

  class FugueNode {
    const id: OpID
    const value: Rune
    const parentID: OpID
    const side: FugueSide
    var isDeleted: bool
    var leftChildren: seq<FugueNode>
    var rightChildren: seq<FugueNode>

    constructor (id: OpID, value: Rune, parentID: OpID, side: FugueSide)
      ensures this.id == id && this.value == value && this.parentID == parentID && this.side == side
      ensures !isDeleted && leftChildren == [] && rightChildren == []
    {
      this.id, this.value, this.parentID, this.side := id, value, parentID, side;
      isDeleted, leftChildren, rightChildren := false, [], [];
    }

    /** The branch of an insert that picks the side. */
    method AddChild(child: FugueNode)
      requires Ascending(Ids(leftChildren)) && Ascending(Ids(rightChildren))
      modifies this`leftChildren, this`rightChildren
      ensures Grown(old(leftChildren), leftChildren, EntryOf(child).OnLeft(), child)
      ensures Grown(old(rightChildren), rightChildren, !EntryOf(child).OnLeft(), child)
    {
      if child.side == FUGUE_LEFT {
        leftChildren := InsertChild(leftChildren, child);
      } else {
        rightChildren := InsertChild(rightChildren, child);
      }
    }
  }

  function EntryOf(n: FugueNode): Entry {
    Entry(n.value, n.parentID, n.side)
  }

  function Ids(s: seq<FugueNode>): (ids: seq<OpID>)
    ensures |ids| == |s| && forall i :: 0 <= i < |s| ==> ids[i] == s[i].id
  {
    seq(|s|, i requires 0 <= i < |s| => s[i].id)
  }

  lemma IdsConcat(s: seq<FugueNode>, t: seq<FugueNode>)
    ensures Ids(s + t) == Ids(s) + Ids(t)
  {
  }

  /** sort.Search over the child list: the first index whose identifier is not below id. */
  method SearchChild(children: seq<FugueNode>, id: OpID) returns (i: nat)
    requires Ascending(Ids(children))
    ensures i <= |children|
    ensures forall j :: 0 <= j < i ==> Less(children[j].id, id)
    ensures i < |children| ==> !Less(children[i].id, id)
  {
    i := 0;
    var j := |children|;
    ghost var ids := Ids(children);
    while i < j
      invariant 0 <= i <= j <= |children|
      invariant forall k :: 0 <= k < i ==> Less(ids[k], id)
      invariant j < |children| ==> !Less(ids[j], id)
    {
      var h := (i + j) / 2;
      if Compare(children[h].id, id) >= 0 {
        j := h;
      } else {
        forall k | 0 <= k < h ensures Less(ids[k], id) {
          LessIsTransitive(ids[k], ids[h], id);
        }
        i := h + 1;
      }
    }
  }

  /** insertChild: binary search, then a shift by one; an equal identifier is not added. */
  method InsertChild(children: seq<FugueNode>, child: FugueNode) returns (r: seq<FugueNode>)
    requires Ascending(Ids(children))
    ensures Ids(r) == InsertSorted(Ids(children), child.id)
    ensures OnlyAdds(children, r, child)
  {
    var i := SearchChild(children, child.id);
    ghost var ids := Ids(children);
    if i < |children| {
      CompareIsTotal(children[i].id, child.id);
    }
    if i < |children| && Compare(children[i].id, child.id) == 0 {
      InsertSortedDuplicate(ids, child.id, i);
      return children;
    }
    r := children[..i] + [child] + children[i..];
    InsertSortedAt(ids, child.id, i);
  }

  lemma {:induction false} InsertSortedDuplicate(s: seq<OpID>, x: OpID, i: nat)
    requires Ascending(s) && i < |s| && s[i] == x
    ensures InsertSorted(s, x) == s
  {
    LessIsTotal(s[0], x);
    if i > 0 {
      InsertSortedDuplicate(s[1..], x, i - 1);
      assert s == [s[0]] + s[1..];
    }
  }

  lemma ChildrenAfterInsert(ns: Nodes, id: OpID, e: Entry, p: OpID, left: bool)
    requires id !in ns
    ensures Children(ns[id := e], p, left) ==
            if p == e.parent && left == e.OnLeft() then InsertSorted(Children(ns, p, left), id)
            else Children(ns, p, left)
  {
    var kids := Children(ns, p, left);
    if p == e.parent && left == e.OnLeft() {
      InsertSortedElements(kids, id);
      InsertSortedAscending(kids, id);
      AscendingIsUnique(Children(ns[id := e], p, left), InsertSorted(kids, id));
    } else {
      AscendingIsUnique(Children(ns[id := e], p, left), kids);
    }
  }

  lemma AbsentHasNoChildren(ns: Nodes, id: OpID, left: bool)
    requires Grounded(ns) && !Present(ns, id)
    ensures Children(ns, id, left) == []
  {
    var kids := Children(ns, id, left);
    if kids != [] {
      assert kids[0] in kids;
      ParentIsHigher(ns, kids[0]);
      assert false;
    }
  }

  /** The identifiers of a list of inserts or deletes, in its order. */
  function Subjects(ops: seq<Op>): (ids: seq<OpID>)
    ensures |ids| == |ops|
    ensures forall i :: 0 <= i < |ops| ==> ids[i] == if ops[i].Insert? then ops[i].id else ops[i].target
  {
    seq(|ops|, i requires 0 <= i < |ops| => if ops[i].Insert? then ops[i].id else ops[i].target)
  }

  /** The list holds inserts of nodes of ns, each at most once. */
  ghost predicate ListsInserts(ns: Nodes, ops: seq<Op>) {
    && NoRepeats(Subjects(ops)) && AllIn(ns, Subjects(ops))
    && ops == InsertAll(ns, Subjects(ops))
  }

  lemma SubjectsOfAll(ns: Nodes, ids: seq<OpID>)
    requires AllIn(ns, ids)
    ensures Subjects(InsertAll(ns, ids)) == ids
  {
  }

  lemma SubjectsOfDeletes(ids: seq<OpID>)
    ensures Subjects(DeleteAll(ids)) == ids
  {
  }

  /** sort.Slice by counter. The library fixes no order of ties; here ties keep their order of
      arrival, and every order of arrival is possible. */
  method SortByCounter(ops: seq<Op>, ghost ns: Nodes) returns (sorted: seq<Op>)
    requires ListsInserts(ns, ops)
    ensures ListsInserts(ns, sorted) && ByCounter(Subjects(sorted))
    ensures forall id :: id in Subjects(sorted) <==> id in Subjects(ops)
  {
    ghost var ids, order := Subjects(ops), [];
    sorted := [];
    for i := 0 to |ops|
      invariant NoRepeats(order) && ByCounter(order)
      invariant forall id :: id in order <==> id in ids[..i]
      invariant AllIn(ns, order) && sorted == InsertAll(ns, order)
    {
      var j := |sorted|;
      while j > 0 && sorted[j - 1].id.counter > ops[i].id.counter
        invariant 0 <= j <= |sorted|
        invariant forall k :: j <= k < |order| ==> order[k].counter > ids[i].counter
      {
        j := j - 1;
      }
      SortStep(ns, ids, i, order, j);
      assert ids[i] in ids;
      InsertAllPutIn(ns, order, j, ids[i]);
      sorted, order := sorted[..j] + [ops[i]] + sorted[j..], PutIn(order, j, ids[i]);
    }
    assert ids[..|ops|] == ids;
    SubjectsOfAll(ns, order);
  }

  lemma SortStep(ns: Nodes, ids: seq<OpID>, i: nat, order: seq<OpID>, j: nat)
    requires AllIn(ns, ids) && NoRepeats(ids) && i < |ids| && AllIn(ns, order) && j <= |order|
    requires NoRepeats(order) && ByCounter(order) && forall y :: y in order <==> y in ids[..i]
    requires j > 0 ==> order[j - 1].counter <= ids[i].counter
    requires forall k :: j <= k < |order| ==> order[k].counter > ids[i].counter
    ensures var t := PutIn(order, j, ids[i]);
            && NoRepeats(t) && ByCounter(t) && AllIn(ns, t)
            && (forall y :: y in t <==> y in ids[..i + 1])
  {
    assert ids[i] in ids;
    assert ids[i] !in ids[..i];
    assert ids[..i + 1] == ids[..i] + [ids[i]];
    PutInElements(order, j, ids[i]);
    PutInByCounter(order, j, ids[i]);
    PutInNoRepeats(order, j, ids[i]);
  }

  lemma InsertAllPutIn(ns: Nodes, order: seq<OpID>, j: nat, x: OpID)
    requires AllIn(ns, order) && j <= |order| && x in ns
    ensures AllIn(ns, PutIn(order, j, x))
    ensures var ops := InsertAll(ns, order);
            InsertAll(ns, PutIn(order, j, x)) == ops[..j] + [InsertOf(ns, x)] + ops[j..]
  {
  }

  lemma PutInElements(s: seq<OpID>, k: nat, x: OpID)
    requires k <= |s|
    ensures forall y :: y in PutIn(s, k, x) <==> y == x || y in s
  {
  }

  lemma PutInByCounter(s: seq<OpID>, k: nat, x: OpID)
    requires ByCounter(s) && k <= |s|
    requires k > 0 ==> s[k - 1].counter <= x.counter
    requires forall i :: k <= i < |s| ==> s[i].counter > x.counter
    ensures ByCounter(PutIn(s, k, x))
  {
  }

  lemma PutInNoRepeats(s: seq<OpID>, k: nat, x: OpID)
    requires NoRepeats(s) && k <= |s| && x !in s
    ensures NoRepeats(PutIn(s, k, x))
  {
  }

  /** A child list before and after, with or without one new child. */
  ghost predicate Grown(s: seq<FugueNode>, t: seq<FugueNode>, grows: bool, child: FugueNode) {
    if grows then Ids(t) == InsertSorted(Ids(s), child.id) && OnlyAdds(s, t, child)
    else t == s
  }

  ghost predicate OnlyAdds(s: seq<FugueNode>, t: seq<FugueNode>, child: FugueNode) {
    forall i :: 0 <= i < |t| ==> t[i] == child || t[i] in s
  }

  /** The node is stored under its own key. */
  ghost predicate Stored(m: map<string, FugueNode>, n: FugueNode) {
    Key(n.id) in m && m[Key(n.id)] == n
  }

  ghost predicate AllStored(m: map<string, FugueNode>, s: seq<FugueNode>) {
    forall i :: 0 <= i < |s| ==> Stored(m, s[i])
  }

  lemma AllStoredAfterInsert(m: map<string, FugueNode>, key: string, child: FugueNode, s: seq<FugueNode>,
                             t: seq<FugueNode>)
    requires AllStored(m, s) && key !in m && Key(child.id) == key
    requires t == s || OnlyAdds(s, t, child)
    ensures AllStored(m[key := child], t)
  {
  }

  /** What a heap node must hold to stand for id in document d. */
  ghost predicate Faithful(d: Doc, id: OpID, e: Entry, deleted: bool, ls: seq<OpID>, rs: seq<OpID>) {
    && Present(d.nodes, id)
    && (id != ROOT ==> d.nodes[id] == e)
    && (deleted <==> id in d.dead)
    && ls == Children(d.nodes, id, true)
    && rs == Children(d.nodes, id, false)
  }

  lemma FaithfulAfterInsert(d: Doc, x: OpID, xe: Entry, deleted: bool, ls: seq<OpID>, rs: seq<OpID>, id: OpID, e: Entry)
    requires Faithful(d, x, xe, deleted, ls, rs)
    requires !Present(d.nodes, id) && Present(d.nodes, e.parent)
    ensures Faithful(Docs.ApplyInsert(d, id, e), x, xe, deleted,
                     if x == e.parent && e.OnLeft() then InsertSorted(ls, id) else ls,
                     if x == e.parent && !e.OnLeft() then InsertSorted(rs, id) else rs)
  {
    ChildrenAfterInsert(d.nodes, id, e, x, true);
    ChildrenAfterInsert(d.nodes, id, e, x, false);
  }

  lemma FaithfulFresh(d: Doc, id: OpID, e: Entry)
    requires Sound(d) && !Present(d.nodes, id) && Present(d.nodes, e.parent)
    ensures Faithful(Docs.ApplyInsert(d, id, e), id, e, false, [], [])
  {
    ChildrenAfterInsert(d.nodes, id, e, id, true);
    ChildrenAfterInsert(d.nodes, id, e, id, false);
    AbsentHasNoChildren(d.nodes, id, true);
    AbsentHasNoChildren(d.nodes, id, false);
  }

  class FugueTree {
    const root: FugueNode
    var nodes: map<string, FugueNode>
    const replicaID: string
    var counter: uint64
    ghost var doc: Doc

    ghost predicate Has(n: FugueNode)
      reads this`nodes
    {
      Stored(nodes, n)
    }

    ghost predicate HasAll(s: seq<FugueNode>)
      reads this`nodes
    {
      AllStored(nodes, s)
    }

    /** Map keys match node identifiers, nodes carry the document's entries and marks, and
        each child list is the ascending listing of the node's children on that side. */
    ghost predicate Valid()
      reads this`nodes, this`doc, nodes.Values
    {
      && Sound(doc)
      && root.id == ROOT && Has(root)
      && (forall id :: Present(doc.nodes, id) ==> Key(id) in nodes)
      && (forall k {:trigger Mirrors(nodes[k], k)} :: k in nodes ==> Mirrors(nodes[k], k))
    }

    ghost predicate Mirrors(n: FugueNode, k: string)
      reads this`nodes, this`doc, n
    {
      && Key(n.id) == k
      && Faithful(doc, n.id, EntryOf(n), n.isDeleted,
                  Ids(n.leftChildren), Ids(n.rightChildren))
      && HasAll(n.leftChildren) && HasAll(n.rightChildren)
    }

    ghost function View(): Replica
      reads this
    {
      Replica(replicaID, counter, doc)
    }

    constructor (replicaID: string)
      ensures Valid() && fresh(nodes.Values)
      ensures View() == Replica(replicaID, 0, EMPTY) && root.id == OpID("__root__", 0)
    {
      var r := new FugueNode(ROOT, 0, OpID("", 0), FUGUE_LEFT);
      root := r;
      nodes := map[Key(ROOT) := r];
      this.replicaID := replicaID;
      counter := 0;
      doc := EMPTY;
      GroundedEmpty();
      assert Children(map[], ROOT, true) == [] && Children(map[], ROOT, false) == [] by {
        AscendingIsUnique(Children(map[], ROOT, true), []);
        AscendingIsUnique(Children(map[], ROOT, false), []);
      }
    }

    lemma KeyFound(id: OpID)
      requires Valid()
      ensures Key(id) in nodes <==> Present(doc.nodes, id)
      ensures Key(id) in nodes ==> nodes[Key(id)].id == id && nodes[Key(id)] in nodes.Values
    {
      if Key(id) in nodes {
        assert Mirrors(nodes[Key(id)], Key(id));
        KeyIsInjective(nodes[Key(id)].id, id);
      }
    }

    method GetNode(id: OpID) returns (n: FugueNode?)
      requires Valid()
      ensures n == null <==> !Present(doc.nodes, id)
      ensures n != null ==> Has(n) && n.id == id && n in nodes.Values
    {
      KeyFound(id);
      if Key(id) in nodes {
        n := nodes[Key(id)];
      } else {
        n := null;
      }
    }

    method NextID() returns (id: OpID)
      requires Valid()
      modifies this`counter
      ensures Valid()
      ensures id == NextId(old(View())) && counter == Bump(old(counter))
      ensures id == OpID(replicaID, (old(counter) + 1) % 0x1_0000_0000_0000_0000)
    {
      counter := if counter == MAX_COUNTER then 0 else counter + 1;
      id := OpID(replicaID, counter);
    }

    method ApplyInsert(id: OpID, e: Entry)
      requires Valid()
      modifies this, nodes.Values
      ensures Valid() && fresh(nodes.Values - old(nodes.Values))
      ensures View() == old(View()).(doc := Docs.ApplyInsert(old(doc), id, e))
    {
      var key := Key(id);
      KeyFound(id);
      if key in nodes {
        return;
      }
      var parent := GetNode(e.parent);
      if parent == null {
        return;
      }
      var node := new FugueNode(id, e.value, e.parent, e.side);
      Attach(parent, node);
    }

    /** The last step of an insert: the new node joins its parent's list and the map. */
    method Attach(parent: FugueNode, node: FugueNode)
      requires Valid() && Has(parent) && parent.id == node.parentID && node !in nodes.Values
      requires !Present(doc.nodes, node.id)
      requires !node.isDeleted && node.leftChildren == [] && node.rightChildren == []
      modifies this, parent
      ensures Valid() && nodes.Values <= old(nodes.Values) + {node}
      ensures View() == old(View()).(doc := Docs.ApplyInsert(old(doc), node.id, EntryOf(node)))
    {
      assert Mirrors(parent, Key(parent.id));
      KeyFound(node.id);
      parent.AddChild(node);
      nodes := nodes[Key(node.id) := node];
      doc := Docs.ApplyInsert(doc, node.id, EntryOf(node));
      forall k | k in old(nodes) ensures Extended(k, Key(node.id)) {
        assert old(Mirrors(nodes[k], k));
        KeyIsInjective(nodes[k].id, parent.id);
      }
      Linked(Key(node.id));
    }

    /** Hanging a fresh node, now stored under key, under a present parent keeps the tree valid. */
    twostate lemma Linked(key: string)
      requires old(Valid()) && key in nodes && Key(nodes[key].id) == key
      requires var child := nodes[key];
               && key !in old(nodes) && nodes == old(nodes)[key := child]
               && !Present(old(doc).nodes, child.id) && Present(old(doc).nodes, child.parentID)
               && doc == Docs.ApplyInsert(old(doc), child.id, EntryOf(child))
               && !child.isDeleted && child.leftChildren == [] && child.rightChildren == []
      requires forall k :: k in old(nodes) ==> k in nodes && nodes[k] == old(nodes)[k] && Extended(k, key)
      ensures Valid()
    {
      var child := nodes[key];
      ApplyGrows(old(doc), Insert(child.id, EntryOf(child)));
      FaithfulFresh(old(doc), child.id, EntryOf(child));
      forall k | k in nodes ensures Mirrors(nodes[k], k) {
        if k in old(nodes) {
          var n := nodes[k];
          assert old(Mirrors(n, k));
          assert Extended(k, key);
          FaithfulAfterInsert(old(doc), n.id, EntryOf(n), n.isDeleted,
                              old(Ids(n.leftChildren)), old(Ids(n.rightChildren)), child.id, EntryOf(child));
          AllStoredAfterInsert(old(nodes), key, child, old(n.leftChildren), n.leftChildren);
          AllStoredAfterInsert(old(nodes), key, child, old(n.rightChildren), n.rightChildren);
        }
      }
    }

    /** An older node gains the node under key on one side if it is its parent, else nothing. */
    twostate predicate Extended(k: string, key: string)
      requires k in old(nodes) && k in nodes && nodes[k] == old(nodes)[k] && key in nodes
      reads this, nodes.Values
    {
      var n, child := nodes[k], nodes[key];
      && n.isDeleted == old(n.isDeleted)
      && Grown(old(n.leftChildren), n.leftChildren, n.id == child.parentID && EntryOf(child).OnLeft(), child)
      && Grown(old(n.rightChildren), n.rightChildren, n.id == child.parentID && !EntryOf(child).OnLeft(), child)
    }

    method ApplyDelete(target: OpID)
      requires Valid()
      modifies this, nodes.Values
      ensures Valid() && nodes == old(nodes)
      ensures View() == old(View()).(doc := Docs.ApplyDelete(old(doc), target))
    {
      var n := GetNode(target);
      if n != null {
        n.isDeleted := true;
        doc := Docs.ApplyDelete(doc, target);
        Marked(Key(target));
      }
    }

    /** Marking the node under key deleted keeps the tree valid. */
    twostate lemma Marked(key: string)
      requires old(Valid()) && nodes == old(nodes) && key in nodes && nodes[key].isDeleted
      requires Present(old(doc).nodes, nodes[key].id) && doc == Docs.ApplyDelete(old(doc), nodes[key].id)
      requires forall m :: m in nodes.Values ==>
                 && m.leftChildren == old(m.leftChildren) && m.rightChildren == old(m.rightChildren)
                 && (m != nodes[key] ==> m.isDeleted == old(m.isDeleted))
      ensures Valid()
    {
      assert old(Mirrors(nodes[key], key));
      forall k | k in nodes ensures Mirrors(nodes[k], k) {
        assert nodes[k] in nodes.Values;
        assert old(Mirrors(nodes[k], k));
      }
    }

    /** ApplyOperation, and the two remote entry points it dispatches to. */
    method ApplyOperation(op: Op)
      requires Valid()
      modifies this, nodes.Values
      ensures Valid() && fresh(nodes.Values - old(nodes.Values))
      ensures View() == old(View()).(doc := Apply(old(doc), op))
    {
      match op
      case Insert(id, e) => ApplyInsert(id, e);
      case Delete(target, _) => ApplyDelete(target);
    }

    /** The child lists of a stored node are those of the document. */
    lemma ListsOf(node: FugueNode)
      requires Valid() && Has(node)
      ensures HasAll(node.leftChildren) && HasAll(node.rightChildren)
      ensures Ids(node.leftChildren) == Children(doc.nodes, node.id, true)
      ensures Ids(node.rightChildren) == Children(doc.nodes, node.id, false)
    {
      assert Mirrors(node, Key(node.id));
    }

    /** Appends the in-order walk below node to result. */
    method TraverseNode(node: FugueNode, result: seq<FugueNode>) returns (r: seq<FugueNode>)
      requires Valid() && Has(node) && Present(doc.nodes, node.id) && HasAll(result)
      ensures Ids(r) == Ids(result) + Walk(doc.nodes, node.id)
      ensures HasAll(r)
      decreases |doc.nodes| - Level(doc.nodes, node.id), 1
    {
      ListsOf(node);
      r := TraverseChildren(node, node.leftChildren, result);
      ghost var s := Ids(r);
      CompareIsTotal(node.id, ROOT);
      if Compare(node.id, ROOT) != 0 {
        IdsConcat(r, [node]);
        r := r + [node];
      }
      ghost var t := Ids(r);
      r := TraverseChildren(node, node.rightChildren, r);
      WalkInStages(doc.nodes, node.id, Ids(result), s, t, Ids(r));
    }

    /** One of the two loops of traverseNode. */
    method TraverseChildren(node: FugueNode, kids: seq<FugueNode>, result: seq<FugueNode>) returns (r: seq<FugueNode>)
      requires Valid() && Present(doc.nodes, node.id) && HasAll(kids) && HasAll(result)
      requires forall k :: k in Ids(kids) ==> k in doc.nodes && doc.nodes[k].parent == node.id
      ensures Ids(r) == Ids(result) + WalkAll(doc.nodes, node.id, Ids(kids))
      ensures HasAll(r)
      decreases |doc.nodes| - Level(doc.nodes, node.id), 0
    {
      r := result;
      ghost var ids, base := Ids(kids), Ids(result);
      assert ids[..0] == [] && base + [] == base;
      for i := 0 to |kids|
        invariant forall k :: k in ids[..i] ==> k in ids
        invariant Ids(r) == base + WalkAll(doc.nodes, node.id, ids[..i])
        invariant HasAll(r)
      {
        assert ids[i] in ids;
        ParentIsHigher(doc.nodes, ids[i]);
        ghost var s := Ids(r);
        r := TraverseNode(kids[i], r);
        WalkAllNext(doc.nodes, node.id, ids, i, base, s, Ids(r));
      }
      assert ids[..|kids|] == ids;
    }

    method Traverse() returns (r: seq<FugueNode>)
      requires Valid()
      ensures Ids(r) == Order(doc.nodes) && HasAll(r)
    {
      r := TraverseNode(root, []);
    }

    method VisibleNodes() returns (visible: seq<FugueNode>)
      requires Valid()
      ensures Ids(visible) == VisibleIds(doc) && HasAll(visible)
    {
      var all := Traverse();
      visible := [];
      ghost var ids := Ids(all);
      assert ids[..0] == [];
      for i := 0 to |all|
        invariant Ids(visible) == Visible(ids[..i], doc.dead)
        invariant HasAll(visible)
      {
        assert Has(all[i]) && Mirrors(all[i], Key(all[i].id));
        VisibleNext(ids, i, doc.dead);
        if !all[i].isDeleted {
          IdsConcat(visible, [all[i]]);
          visible := visible + [all[i]];
        }
      }
      assert ids[..|all|] == ids;
    }

    /** The parent rule on heap nodes. */
    method ChooseParent(left: FugueNode, right: FugueNode?) returns (parent: OpID, side: FugueSide)
      requires Valid() && Has(left) && (right != null ==> Has(right) && right.id in doc.nodes)
      ensures (parent, side) ==
              SelectParent(doc.nodes, left.id, if right == null then None else Some(right.id))
    {
      if right != null {
        assert Mirrors(right, Key(right.id));
        CompareIsTotal(right.parentID, left.id);
        if Compare(right.parentID, left.id) == 0 {
          return right.id, FUGUE_LEFT;
        }
      }
      return left.id, FUGUE_RIGHT;
    }

    /** Inserts a character at a visible position; None is the out-of-range error. */
    method InsertAt(pos: int, value: Rune) returns (op: Option<Op>)
      requires Valid()
      modifies this, nodes.Values
      ensures Valid() && fresh(nodes.Values - old(nodes.Values))
      ensures (View(), op) == Local(old(View()), InsertEdit(pos, value))
      ensures op.None? <==> pos < 0 || pos > old(|Text(doc)|)
      ensures op.None? ==> View() == old(View())
      ensures op.Some? ==> op.value.Insert? && op.value.id.replica == replicaID && op.value.entry.value == value
    {
      RefusedIffOutOfRange(View(), InsertEdit(pos, value));
      var visible := VisibleNodes();
      if pos < 0 || pos > |visible| {
        return None;
      }
      LocalInsert(View(), pos, value);
      var left := if pos == 0 then root else visible[pos - 1];
      var right: FugueNode? := null;
      if pos < |visible| {
        VisibleIsPresent(doc, pos);
        right := visible[pos];
      }
      var parent, side := ChooseParent(left, right);
      var id := NextID();
      var e := Entry(value, parent, side);
      assert e == EntryAt(doc, pos, value);
      ApplyInsert(id, e);
      op := Some(Insert(id, e));
    }

    /** Marks the character at a visible position deleted. */
    method DeleteAt(pos: int) returns (op: Option<Op>)
      requires Valid()
      modifies this, nodes.Values
      ensures Valid() && nodes == old(nodes)
      ensures (View(), op) == Local(old(View()), DeleteEdit(pos))
      ensures op.None? <==> pos < 0 || pos >= old(|Text(doc)|)
      ensures op.None? ==> View() == old(View())
      ensures op.Some? ==> op.value.Delete? && op.value.target == old(VisibleIds(doc))[pos]
    {
      RefusedIffOutOfRange(View(), DeleteEdit(pos));
      var visible := VisibleNodes();
      if pos < 0 || pos >= |visible| {
        return None;
      }
      var target := visible[pos].id;
      assert target == VisibleIds(doc)[pos];
      var source := NextID();
      ApplyDelete(target);
      op := Some(Delete(target, source));
    }

    /** ToString as a sequence of runes. */
    method ToString() returns (text: seq<Rune>)
      requires Valid()
      ensures text == Text(doc)
    {
      var visible := VisibleNodes();
      VisibleIdsListing(doc);
      ghost var ids := Ids(visible);
      text := [];
      for i := 0 to |visible|
        invariant |text| == i
        invariant forall j :: 0 <= j < i ==> ids[j] in doc.nodes && text[j] == doc.nodes[ids[j]].value
      {
        assert ids[i] in VisibleIds(doc);
        assert Has(visible[i]) && Mirrors(visible[i], Key(visible[i].id));
        text := text + [visible[i].value];
      }
    }

    method Len() returns (n: nat)
      requires Valid()
      ensures n == |Text(doc)|
    {
      var visible := VisibleNodes();
      n := |visible|;
    }

    /** The snapshot a merge takes of its source: an insert for each node and a delete for each
        deleted one, in an arbitrary order, the sentinel left out. */
    method Snapshot() returns (ops: seq<Op>, dels: seq<Op>)
      requires Valid()
      ensures ListsInserts(doc.nodes, ops) && forall id :: id in Subjects(ops) <==> id in doc.nodes
      ensures DeadOrder(doc, Subjects(dels)) && dels == DeleteAll(Subjects(dels))
      ensures forall op :: op in dels ==> op.Delete? && op.source == OpID("", 0)
    {
      ops, dels := [], [];
      ghost var ids: seq<OpID>, dead: seq<OpID> := [], [];
      var keys := nodes.Keys;
      while keys != {}
        invariant keys <= nodes.Keys
        invariant NoRepeats(ids)
        invariant forall id :: id in ids <==> id in doc.nodes && Key(id) !in keys
        invariant forall id :: id in dead <==> id in doc.nodes && Key(id) !in keys && id in doc.dead
        invariant ops == InsertAll(doc.nodes, ids) && dels == DeleteAll(dead)
        decreases keys
      {
        var k :| k in keys;
        keys := keys - {k};
        var n := nodes[k];
        assert Mirrors(n, k);
        CompareIsTotal(n.id, ROOT);
        forall id | Key(id) == k ensures id == n.id {
          KeyIsInjective(id, n.id);
        }
        if Compare(n.id, ROOT) != 0 {
          InsertAllSnoc(doc.nodes, ids, n.id);
          ids := ids + [n.id];
          ops := ops + [Insert(n.id, Entry(n.value, n.parentID, n.side))];
          if n.isDeleted {
            DeleteAllSnoc(dead, n.id);
            dead := dead + [n.id];
            dels := dels + [Delete(n.id, NO_SOURCE)];
          }
        }
      }
      forall id | id in doc.nodes ensures id in ids {
        KeyFound(id);
      }
      SubjectsOfAll(doc.nodes, ids);
      SubjectsOfDeletes(dead);
    }

    /** The loops at the end of a merge. */
    method ApplyEach(ops: seq<Op>)
      requires Valid()
      modifies this, nodes.Values
      ensures Valid() && fresh(nodes.Values - old(nodes.Values))
      ensures View() == old(View()).(doc := Run(old(doc), ops))
    {
      assert ops[..0] == [];
      for i := 0 to |ops|
        invariant Valid() && fresh(nodes.Values - old(nodes.Values)) && counter == old(counter)
        invariant doc == Run(old(doc), ops[..i])
      {
        RunSnoc(old(doc), ops[..i], ops[i]);
        assert ops[..i + 1] == ops[..i] + [ops[i]];
        ApplyOperation(ops[i]);
      }
      assert ops[..|ops|] == ops;
    }

    /** Merges another tree, or this one, into this one. */
    method Merge(other: FugueTree)
      requires Valid() && other.Valid()
      requires other == this || nodes.Values !! other.nodes.Values
      modifies this, nodes.Values
      ensures Valid() && fresh(nodes.Values - old(nodes.Values)) && counter == old(counter)
      ensures Merged(old(doc), old(other.doc), doc)
      ensures Mergeable(old(doc), old(other.doc)) ==> doc == Union(old(doc), old(other.doc))
    {
      var ops, dels := other.Snapshot();
      ghost var a, b := doc, other.doc;
      ops := SortByCounter(ops, b.nodes);
      ApplyEach(ops);
      ghost var mid := nodes.Values;
      assert fresh(mid - old(nodes.Values));
      ApplyEach(dels);
      assert nodes.Values - old(nodes.Values) <= (nodes.Values - mid) + (mid - old(nodes.Values));
      MergeOutcome(a, b, Subjects(ops), Subjects(dels), doc);
    }
  }
}
