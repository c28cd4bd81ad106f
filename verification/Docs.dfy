/** Documents, operations on them, and replicas that edit them. */
module Docs {
  import opened OpIds
  import opened Forest
  import opened Traversal

  datatype Option<T> = None | Some(value: T)

  /** The nodes of a tree and the identifiers marked deleted (possibly the sentinel's). */
  datatype Doc = Doc(nodes: Nodes, dead: set<OpID>)

  datatype Op = Insert(id: OpID, entry: Entry) | Delete(target: OpID, source: OpID)

  const EMPTY: Doc := Doc(map[], {})

  ghost predicate Sound(d: Doc) {
    Grounded(d.nodes) && forall id :: id in d.dead ==> Present(d.nodes, id)
  }

  /** A known identifier or an absent parent makes an insert a no-op. */
  function ApplyInsert(d: Doc, id: OpID, e: Entry): Doc {
    if Present(d.nodes, id) || !Present(d.nodes, e.parent) then d
    else Doc(d.nodes[id := e], d.dead)
  }

  /** An absent target makes a delete a no-op. */
  function ApplyDelete(d: Doc, target: OpID): Doc {
    if Present(d.nodes, target) then Doc(d.nodes, d.dead + {target}) else d
  }

  function Apply(d: Doc, op: Op): Doc {
    match op
    case Insert(id, e) => ApplyInsert(d, id, e)
    case Delete(target, _) => ApplyDelete(d, target)
  }

  function Run(d: Doc, ops: seq<Op>): Doc {
    if ops == [] then d else Apply(Run(d, ops[..|ops| - 1]), ops[|ops| - 1])
  }

  lemma RunSnoc(d: Doc, ops: seq<Op>, op: Op)
    ensures Run(d, ops + [op]) == Apply(Run(d, ops), op)
  {
  }

  lemma {:induction false} RunConcat(d: Doc, ops: seq<Op>, more: seq<Op>)
    ensures Run(d, ops + more) == Run(Run(d, ops), more)
  {
    if more == [] {
      assert ops + more == ops;
    } else {
      var n := |more| - 1;
      RunConcat(d, ops, more[..n]);
      assert ops + more == (ops + more[..n]) + [more[n]];
      RunSnoc(d, ops + more[..n], more[n]);
    }
  }

  // ---------- Growth ----------

  ghost predicate Grows(d: Doc, d': Doc) {
    && (forall id :: id in d.nodes ==> id in d'.nodes && d'.nodes[id] == d.nodes[id])
    && d.dead <= d'.dead
  }

  lemma ApplyGrows(d: Doc, op: Op)
    requires Sound(d)
    ensures Sound(Apply(d, op)) && Grows(d, Apply(d, op))
  {
    if op.Insert? && !Present(d.nodes, op.id) && Present(d.nodes, op.entry.parent) {
      GroundedInsert(d.nodes, op.id, op.entry);
    }
  }

  /** Any run of operations, remote garbage included, keeps parent chains grounded, never
      loses or rewrites a node and never undoes a tombstone. */
  lemma {:induction false} RunGrows(d: Doc, ops: seq<Op>)
    requires Sound(d)
    ensures Sound(Run(d, ops)) && Grows(d, Run(d, ops))
  {
    if ops != [] {
      RunGrows(d, ops[..|ops| - 1]);
      ApplyGrows(Run(d, ops[..|ops| - 1]), ops[|ops| - 1]);
    }
  }

  lemma EmptyIsSound()
    ensures Sound(EMPTY)
  {
    GroundedEmpty();
  }

  // ---------- One global order ----------

  lemma SkipOneElements(ns: Nodes, s: seq<OpID>, k: nat)
    requires Grounded(ns) && AllIn(ns, s) && InOrder(ns, s) && k < |s|
    ensures forall y :: y in s[..k] + s[k + 1..] <==> y in s && y != s[k]
  {
    var u := s[..k] + s[k + 1..];
    assert forall i :: 0 <= i < |u| ==> u[i] == s[if i < k then i else i + 1];
    forall y ensures y in u <==> y in s && y != s[k] {
      if y in u {
        var i :| 0 <= i < |u| && u[i] == y;
        if y == s[k] { InOrderHasNoRepeats(ns, s, if i < k then i else i + 1, k); }
      }
      assert s == s[..k] + [s[k]] + s[k + 1..];
    }
  }

  lemma SkipOne(ns: Nodes, s: seq<OpID>, k: nat)
    requires Grounded(ns) && AllIn(ns, s) && InOrder(ns, s) && k < |s|
    ensures AllIn(ns, s[..k] + s[k + 1..]) && InOrder(ns, s[..k] + s[k + 1..])
    ensures forall y :: y in s[..k] + s[k + 1..] <==> y in s && y != s[k]
  {
    var u := s[..k] + s[k + 1..];
    SkipOneElements(ns, s, k);
    assert forall i :: 0 <= i < |u| ==> u[i] == s[if i < k then i else i + 1];
  }

  lemma InOrderElsewhere(ms: Nodes, ns: Nodes, s: seq<OpID>)
    requires Grounded(ms) && Grounded(ns) && Agree(ms, ns)
    requires AllIn(ms, s) && AllIn(ns, s) && InOrder(ms, s)
    ensures InOrder(ns, s)
  {
    forall i, j | 0 <= i < j < |s| ensures Precedes(ns, s[i], s[j]) {
      PathsAgree(ms, ns, s[i]);
      PathsAgree(ms, ns, s[j]);
    }
  }

  /** t is s with x put in at some place. */
  ghost predicate Spliced(s: seq<OpID>, t: seq<OpID>, x: OpID) {
    exists k :: 0 <= k <= |s| && t == s[..k] + [x] + s[k..]
  }

  lemma SplicedFromSkip(s: seq<OpID>, t: seq<OpID>, k: nat)
    requires k < |t| && s == t[..k] + t[k + 1..]
    ensures Spliced(s, t, t[k])
  {
    assert s[..k] == t[..k] && s[k..] == t[k + 1..];
    assert t == t[..k] + [t[k]] + t[k + 1..];
  }

  lemma OrderWithoutOne(ns: Nodes, ns': Nodes, k: nat)
    requires Grounded(ns) && Grounded(ns') && Agree(ns', ns) && k < |Order(ns')|
    requires forall y :: y in ns <==> y in ns' && y != Order(ns')[k]
    ensures Order(ns) == Order(ns')[..k] + Order(ns')[k + 1..]
  {
    var s := Order(ns');
    var u := s[..k] + s[k + 1..];
    OrderIsTheListing(ns');
    SkipOne(ns', s, k);
    assert forall y :: y in u <==> y in ns;
    InOrderElsewhere(ns', ns, u);
    OrderIsTheListing(ns);
    InOrderIsUnique(ns, u, Order(ns));
  }

  /** A fresh insert splices one node into the document and moves nothing else. */
  lemma InsertSplices(ns: Nodes, id: OpID, e: Entry)
    requires Grounded(ns) && !Present(ns, id) && Present(ns, e.parent)
    ensures Grounded(ns[id := e])
    ensures Spliced(Order(ns), Order(ns[id := e]), id)
  {
    GroundedInsert(ns, id, e);
    var ns' := ns[id := e];
    OrderIsTheListing(ns');
    assert id in Order(ns');
    var k :| 0 <= k < |Order(ns')| && Order(ns')[k] == id;
    OrderWithoutOne(ns, ns', k);
    SplicedFromSkip(Order(ns), Order(ns'), k);
  }

  /** Trees that agree on the entries they share put all their common nodes in the same
      order, tombstones included. */
  lemma CommonNodesShareOneOrder(ms: Nodes, ns: Nodes, i: nat, j: nat, k: nat, l: nat)
    requires Grounded(ms) && Grounded(ns) && Agree(ms, ns)
    requires i < |Order(ms)| && j < |Order(ms)| && k < |Order(ns)| && l < |Order(ns)|
    requires Order(ms)[i] == Order(ns)[k] && Order(ms)[j] == Order(ns)[l]
    ensures i < j <==> k < l
  {
    OrderIsTheListing(ms);
    OrderIsTheListing(ns);
    PathsAgree(ms, ns, Order(ms)[i]);
    PathsAgree(ms, ns, Order(ms)[j]);
    PositionsDecide(ms, Order(ms), i, j);
    PositionsDecide(ns, Order(ns), k, l);
  }

  // ---------- Visible text ----------

  function Visible(s: seq<OpID>, dead: set<OpID>): seq<OpID> {
    if s == [] then []
    else
      var init := Visible(s[..|s| - 1], dead);
      if s[|s| - 1] in dead then init else init + [s[|s| - 1]]
  }

  /** One iteration of the loop over the walk. */
  lemma VisibleNext(s: seq<OpID>, i: nat, dead: set<OpID>)
    requires i < |s|
    ensures Visible(s[..i + 1], dead) == Visible(s[..i], dead) + if s[i] in dead then [] else [s[i]]
  {
    assert s[..i + 1][..i] == s[..i];
  }

  lemma {:induction false} VisibleElements(s: seq<OpID>, dead: set<OpID>)
    ensures forall y :: y in Visible(s, dead) <==> y in s && y !in dead
  {
    if s != [] {
      VisibleElements(s[..|s| - 1], dead);
      assert s == s[..|s| - 1] + [s[|s| - 1]];
    }
  }

  lemma {:induction false} VisibleConcat(s: seq<OpID>, t: seq<OpID>, dead: set<OpID>)
    ensures Visible(s + t, dead) == Visible(s, dead) + Visible(t, dead)
  {
    if t == [] {
      assert s + t == s;
    } else {
      var t' := t[..|t| - 1];
      assert (s + t)[..|s + t| - 1] == s + t';
      VisibleConcat(s, t', dead);
    }
  }

  lemma VisibleSingle(x: OpID, dead: set<OpID>)
    ensures Visible([x], dead) == if x in dead then [] else [x]
  {
  }

  lemma {:induction false} VisibleInOrder(ns: Nodes, s: seq<OpID>, dead: set<OpID>)
    requires Grounded(ns) && AllIn(ns, s) && InOrder(ns, s)
    ensures AllIn(ns, Visible(s, dead)) && InOrder(ns, Visible(s, dead))
  {
    VisibleElements(s, dead);
    if s != [] {
      var n := |s| - 1;
      var init := s[..n];
      assert forall y :: y in init ==> y in s;
      VisibleInOrder(ns, init, dead);
      VisibleElements(init, dead);
      if s[n] !in dead {
        forall a, b | a in Visible(init, dead) && b in [s[n]] ensures Precedes(ns, a, b) {
          var i :| 0 <= i < n && s[i] == a;
        }
        InOrderConcat(ns, Visible(init, dead), [s[n]]);
      }
    }
  }

  ghost function VisibleIds(d: Doc): seq<OpID>
    requires Sound(d)
  {
    Visible(Order(d.nodes), d.dead)
  }

  lemma VisibleIdsListing(d: Doc)
    requires Sound(d)
    ensures forall y :: y in VisibleIds(d) <==> y in d.nodes && y !in d.dead
    ensures AllIn(d.nodes, VisibleIds(d)) && InOrder(d.nodes, VisibleIds(d))
  {
    OrderIsTheListing(d.nodes);
    VisibleElements(Order(d.nodes), d.dead);
    VisibleInOrder(d.nodes, Order(d.nodes), d.dead);
  }

  lemma VisibleIsPresent(d: Doc, pos: nat)
    requires Sound(d) && pos < |VisibleIds(d)|
    ensures VisibleIds(d)[pos] in d.nodes
  {
    VisibleIdsListing(d);
    assert VisibleIds(d)[pos] in VisibleIds(d);
  }

  function Values(ns: Nodes, s: seq<OpID>): seq<Rune>
    requires AllIn(ns, s)
  {
    seq(|s|, i requires 0 <= i < |s| => assert s[i] in s; ns[s[i]].value)
  }

  ghost function Text(d: Doc): seq<Rune>
    requires Sound(d)
  {
    VisibleIdsListing(d);
    Values(d.nodes, VisibleIds(d))
  }

  // ---------- Local edits ----------

  /** A replica: its name, its counter and its document. */
  datatype Replica = Replica(name: string, counter: uint64, doc: Doc)

  /** The counter wraps around like every uint64. */
  function Bump(counter: uint64): uint64 {
    if counter == MAX_COUNTER then 0 else counter + 1
  }

  function NextId(r: Replica): OpID {
    OpID(r.name, Bump(r.counter))
  }

  /** The parent and side of a node typed between two neighbours. */
  function SelectParent(ns: Nodes, left: OpID, right: Option<OpID>): (OpID, FugueSide)
    requires right.Some? ==> right.value in ns
  {
    if right.Some? && ns[right.value].parent == left then (right.value, FUGUE_LEFT)
    else (left, FUGUE_RIGHT)
  }

  ghost function LeftNeighbour(d: Doc, pos: int): OpID
    requires Sound(d) && 0 <= pos <= |VisibleIds(d)|
  {
    if pos == 0 then ROOT else VisibleIds(d)[pos - 1]
  }

  ghost function RightNeighbour(d: Doc, pos: int): (right: Option<OpID>)
    requires Sound(d) && 0 <= pos <= |VisibleIds(d)|
  {
    if pos == |VisibleIds(d)| then None else Some(VisibleIds(d)[pos])
  }

  ghost function EntryAt(d: Doc, pos: int, c: Rune): Entry
    requires Sound(d) && 0 <= pos <= |VisibleIds(d)|
  {
    VisibleIdsListing(d);
    var (parent, side) := SelectParent(d.nodes, LeftNeighbour(d, pos), RightNeighbour(d, pos));
    Entry(c, parent, side)
  }

  datatype Edit = InsertEdit(pos: int, value: Rune) | DeleteEdit(pos: int)

  ghost predicate InRange(d: Doc, e: Edit)
    requires Sound(d)
  {
    match e
    case InsertEdit(pos, _) => 0 <= pos <= |VisibleIds(d)|
    case DeleteEdit(pos) => 0 <= pos < |VisibleIds(d)|
  }

  /** The operation an edit in range produces. */
  ghost function Resolve(r: Replica, e: Edit): Op
    requires Sound(r.doc) && InRange(r.doc, e)
  {
    match e
    case InsertEdit(pos, c) => Insert(NextId(r), EntryAt(r.doc, pos, c))
    case DeleteEdit(pos) => Delete(VisibleIds(r.doc)[pos], NextId(r))
  }

  /** InsertAt and DeleteAt: out of range nothing changes, not even the counter. */
  ghost function Local(r: Replica, e: Edit): (Replica, Option<Op>)
    requires Sound(r.doc)
  {
    if !InRange(r.doc, e) then (r, None)
    else
      var op := Resolve(r, e);
      (Replica(r.name, Bump(r.counter), Apply(r.doc, op)), Some(op))
  }

  /** Read off the text alone: the positions InsertAt and DeleteAt refuse. */
  ghost predicate OutOfRange(d: Doc, e: Edit)
    requires Sound(d)
  {
    match e
    case InsertEdit(pos, _) => pos < 0 || pos > |Text(d)|
    case DeleteEdit(pos) => pos < 0 || pos >= |Text(d)|
  }

  /** Out of range an edit is refused and changes nothing, in range it never is refused: it yields
      one operation under the next identifier, which it applies. */
  lemma RefusedIffOutOfRange(r: Replica, e: Edit)
    requires Sound(r.doc)
    ensures OutOfRange(r.doc, e) ==> Local(r, e) == (r, None)
    ensures !OutOfRange(r.doc, e) ==>
              var (r', op) := Local(r, e);
              var id := OpID(r.name, (r.counter + 1) % 0x1_0000_0000_0000_0000);
              && op.Some? && r' == Replica(r.name, id.counter, Apply(r.doc, op.value))
              && match e
                 case InsertEdit(_, c) => op.value.Insert? && op.value.id == id && op.value.entry.value == c
                 case DeleteEdit(pos) => op.value == Delete(VisibleIds(r.doc)[pos], id)
  {
    VisibleIdsListing(r.doc);
  }

  /** The side on the wire is 0 for a left child of the right neighbour and 1 for a right child of
      the left one. */
  lemma TypedSide(d: Doc, pos: int, c: Rune)
    requires Sound(d) && 0 <= pos <= |VisibleIds(d)|
    ensures pos < |VisibleIds(d)| ==> VisibleIds(d)[pos] in d.nodes
    ensures var left := if pos == 0 then ROOT else VisibleIds(d)[pos - 1];
            EntryAt(d, pos, c) ==
              if pos < |VisibleIds(d)| && d.nodes[VisibleIds(d)[pos]].parent == left
              then Entry(c, VisibleIds(d)[pos], 0)
              else Entry(c, left, 1)
  {
    VisibleIdsListing(d);
    if pos < |VisibleIds(d)| { VisibleIsPresent(d, pos); }
  }

  lemma LocalInsert(r: Replica, pos: int, c: Rune)
    requires Sound(r.doc) && 0 <= pos <= |VisibleIds(r.doc)|
    ensures var e := EntryAt(r.doc, pos, c);
            Local(r, InsertEdit(pos, c)) ==
            (Replica(r.name, Bump(r.counter), ApplyInsert(r.doc, NextId(r), e)), Some(Insert(NextId(r), e)))
  {
  }

  lemma LocalGrows(r: Replica, e: Edit)
    requires Sound(r.doc)
    ensures Sound(Local(r, e).0.doc) && Grows(r.doc, Local(r, e).0.doc)
  {
    if InRange(r.doc, e) {
      ApplyGrows(r.doc, Resolve(r, e));
    }
  }

  /** The parent, or the target, of a locally produced operation is present. */
  lemma ResolveIsReady(r: Replica, e: Edit)
    requires Sound(r.doc) && InRange(r.doc, e)
    ensures var op := Resolve(r, e);
            && (op.Insert? ==> Present(r.doc.nodes, op.entry.parent))
            && (op.Delete? ==> op.target in r.doc.nodes && op.target !in r.doc.dead)
  {
    VisibleIdsListing(r.doc);
    if e.InsertEdit? {
      assert e.pos > 0 ==> VisibleIds(r.doc)[e.pos - 1] in VisibleIds(r.doc);
    }
  }
}
