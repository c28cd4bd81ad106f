/** Any number of replicas typing and deleting anywhere while each other's operations keep
    arriving, in any order and even with losses: when a run, typed behind its own last character
    each time, is one block of a replica's document. */
module LiveTyping {
  import opened OpIds
  import opened Forest
  import opened Traversal
  import opened Docs
  import opened Convergence
  import opened Blocks

  /** The runs begun so far, and the place of each of their characters: which run, which index. */
  datatype Runs = Runs(ids: seq<seq<OpID>>, place: map<OpID, (nat, nat)>)

  /** The replicas, the runs and every operation sent so far. */
  datatype World = World(replicas: seq<Replica>, runs: Runs, sent: set<Op>)

  /** Type: a character anywhere in the text.
      Remove: any visible character is deleted.
      Receive: something sent arrives, too early or twice perhaps. */
  datatype Move = Type(pos: int, c: Rune) | Remove(pos: int) | Receive(op: Op)

  function Last(ids: seq<OpID>): OpID
    requires ids != []
  {
    ids[|ids| - 1]
  }

  ghost predicate Enabled(w: World, i: nat, move: Move)
    requires i < |w.replicas|
  {
    var r := w.replicas[i];
    && Sound(r.doc)
    && match move
       case Type(pos, c) => r.counter < MAX_COUNTER && InRange(r.doc, InsertEdit(pos, c))
       case Remove(pos) => r.counter < MAX_COUNTER && InRange(r.doc, DeleteEdit(pos))
       case Receive(op) => op in w.sent
  }

  /** The entry is a right child of the last character of run k. */
  predicate Continues(rs: Runs, k: nat, e: Entry) {
    k < |rs.ids| && rs.ids[k] != [] && e.parent == Last(rs.ids[k]) && !e.OnLeft()
  }

  /** The run a new character of the named replica belongs to: the one of that replica whose last
      character it is put behind, else a new one. */
  function RunFor(rs: Runs, name: string, e: Entry): nat {
    if e.parent in rs.place && e.parent.replica == name && Continues(rs, rs.place[e.parent].0, e)
    then rs.place[e.parent].0
    else |rs.ids|
  }

  /** One more character at the end of run k, or of a new run. */
  function Extend(rs: Runs, k: nat, id: OpID): Runs
    requires k <= |rs.ids|
  {
    if k < |rs.ids| then Runs(rs.ids[k := rs.ids[k] + [id]], rs.place[id := (k, |rs.ids[k]|)])
    else Runs(rs.ids + [[id]], rs.place[id := (k, 0)])
  }

  function Sent(op: Option<Op>): set<Op> {
    if op.None? then {} else {op.value}
  }

  ghost function Moved(w: World, i: nat, move: Move): World
    requires i < |w.replicas| && Enabled(w, i, move)
  {
    var r := w.replicas[i];
    match move
    case Type(pos, c) =>
      var typed := Local(r, InsertEdit(pos, c));
      var k := RunFor(w.runs, r.name, EntryAt(r.doc, pos, c));
      World(w.replicas[i := typed.0], Extend(w.runs, k, NextId(r)), w.sent + Sent(typed.1))
    case Remove(pos) =>
      var removed := Local(r, DeleteEdit(pos));
      w.(replicas := w.replicas[i := removed.0], sent := w.sent + Sent(removed.1))
    case Receive(op) => w.(replicas := w.replicas[i := r.(doc := Apply(r.doc, op))])
  }

  /** The moves do something: what is typed or deleted is applied and sent, and a delivery that
      finds its parent or target is in effect afterwards. */
  lemma MovesTakeEffect(w: World, i: nat, move: Move)
    requires i < |w.replicas| && Enabled(w, i, move)
    ensures var d, w' := w.replicas[i].doc, Moved(w, i, move);
            |w'.replicas| == |w.replicas| &&
            match move
            case Receive(op) => Ready(d, op) ==> InEffect(w'.replicas[i].doc, op)
            case _ => exists op :: op in w'.sent && w'.replicas[i].doc == Apply(d, op)
  {
    if move.Receive? {
      TakesEffectIffReady(w.replicas[i].doc, move.op);
    }
  }

  // ---------- What every move keeps ----------

  predicate At(rs: Runs, k: nat, j: nat) {
    k < |rs.ids| && j < |rs.ids[k]| && rs.ids[k][j] in rs.place && rs.place[rs.ids[k][j]] == (k, j)
  }

  predicate InPlace(rs: Runs, id: OpID)
    requires id in rs.place
  {
    var (k, j) := rs.place[id];
    k < |rs.ids| && j < |rs.ids[k]| && rs.ids[k][j] == id
  }

  /** Runs and places are two views of the same thing. */
  ghost predicate PlacesOk(rs: Runs) {
    && (forall k, j {:trigger At(rs, k, j)} :: 0 <= k < |rs.ids| && 0 <= j < |rs.ids[k]| ==> At(rs, k, j))
    && (forall id {:trigger InPlace(rs, id)} :: id in rs.place ==> InPlace(rs, id))
    && (forall k :: 0 <= k < |rs.ids| ==> rs.ids[k] != [])
  }

  /** Nobody's identifiers run ahead of its counter. */
  ghost predicate Minted(replicas: seq<Replica>, ids: set<OpID>) {
    forall id, i :: id in ids && 0 <= i < |replicas| && replicas[i].name == id.replica ==>
      id.counter <= replicas[i].counter
  }

  /** Every character of a run but the first is the right child of its predecessor. */
  predicate Links(rs: Runs, id: OpID, e: Entry) {
    && id in rs.place
    && var (k, j) := rs.place[id];
       j == 0 || (k < |rs.ids| && j <= |rs.ids[k]| && e.parent == rs.ids[k][j - 1] && !e.OnLeft())
  }

  ghost predicate AllLink(rs: Runs, sent: set<Op>) {
    forall op :: op in sent && op.Insert? ==> Links(rs, op.id, op.entry)
  }

  /** Characters of runs are new. */
  ghost predicate NewRuns(base: Doc, rs: Runs) {
    PlacesOk(rs) && forall id :: id in rs.place ==> !Present(base.nodes, id)
  }

  /** The common document and some of what was sent. */
  ghost predicate Holds(base: Doc, sent: set<Op>, d: Doc) {
    && Sound(d) && Grows(base, d)
    && (forall id :: id in d.nodes ==> id in base.nodes || Insert(id, d.nodes[id]) in sent)
  }

  ghost predicate Named(w: World) {
    forall i, j :: 0 <= i < j < |w.replicas| ==> w.replicas[i].name != w.replicas[j].name
  }

  /** A replica holds the ends of its own runs. */
  ghost predicate HoldsEnds(rs: Runs, r: Replica) {
    forall k :: 0 <= k < |rs.ids| && rs.ids[k] != [] && Last(rs.ids[k]).replica == r.name ==>
      Last(rs.ids[k]) in r.doc.nodes
  }

  ghost predicate Inv(base: Doc, w: World) {
    && Sound(base) && Named(w) && NewRuns(base, w.runs) && AllLink(w.runs, w.sent)
    && Minted(w.replicas, w.runs.place.Keys) && Minted(w.replicas, base.nodes.Keys)
    && (forall r :: r in w.replicas ==> Holds(base, w.sent, r.doc) && HoldsEnds(w.runs, r))
  }

  /** Typing behind the last character of an own run goes on with that run, unless the character
      that stands behind it already hangs off it. */
  lemma GoesOnIff(rs: Runs, r: Replica, k: nat, pos: int, c: Rune)
    requires PlacesOk(rs) && k < |rs.ids| && Last(rs.ids[k]).replica == r.name
    requires Sound(r.doc) && 0 < pos <= |VisibleIds(r.doc)| && LeftNeighbour(r.doc, pos) == Last(rs.ids[k])
    ensures pos < |VisibleIds(r.doc)| ==> VisibleIds(r.doc)[pos] in r.doc.nodes
    ensures RunFor(rs, r.name, EntryAt(r.doc, pos, c)) == k <==>
            !(pos < |VisibleIds(r.doc)| && r.doc.nodes[VisibleIds(r.doc)[pos]].parent == Last(rs.ids[k]))
  {
    assert At(rs, k, |rs.ids[k]| - 1);
    if pos < |VisibleIds(r.doc)| { VisibleIsPresent(r.doc, pos); }
  }

  lemma HoldsMore(base: Doc, sent: set<Op>, more: set<Op>, d: Doc)
    requires Holds(base, sent, d) && sent <= more
    ensures Holds(base, more, d)
  {
  }

  lemma HoldsReceived(base: Doc, sent: set<Op>, d: Doc, op: Op)
    requires Holds(base, sent, d) && op in sent
    ensures Holds(base, sent, Apply(d, op))
  {
    ApplyGrows(d, op);
  }

  /** One replica moves on, something may be sent; everybody still holds what was sent. */
  lemma AllHold(base: Doc, w: World, i: nat, r': Replica, sent: set<Op>)
    requires forall r :: r in w.replicas ==> Holds(base, w.sent, r.doc)
    requires i < |w.replicas| && w.sent <= sent && Holds(base, sent, r'.doc)
    ensures forall r :: r in w.replicas[i := r'] ==> Holds(base, sent, r.doc)
  {
    forall r | r in w.replicas[i := r'] ensures Holds(base, sent, r.doc) {
      if r in w.replicas { HoldsMore(base, w.sent, sent, r.doc); }
    }
  }

  lemma ExtendKeepsPlaces(rs: Runs, k: nat, id: OpID)
    requires PlacesOk(rs) && k <= |rs.ids| && id !in rs.place
    ensures PlacesOk(Extend(rs, k, id))
  {
    var rs' := Extend(rs, k, id);
    forall l, j | 0 <= l < |rs'.ids| && 0 <= j < |rs'.ids[l]| ensures At(rs', l, j) {
      if l < |rs.ids| && j < |rs.ids[l]| { assert At(rs, l, j); }
    }
    forall x | x in rs'.place ensures InPlace(rs', x) {
      if x != id {
        assert InPlace(rs, x);
        assert rs'.place[x] == rs.place[x];
        var (l, j) := rs.place[x];
        assert rs'.ids[l][j] == rs.ids[l][j];
      } else {
        assert rs'.ids[k][if k < |rs.ids| then |rs.ids[k]| else 0] == id;
      }
    }
  }

  /** What was linked stays linked when a run grows. */
  lemma ExtendKeepsLinks(rs: Runs, k: nat, id: OpID, x: OpID, e: Entry)
    requires PlacesOk(rs) && k <= |rs.ids| && id !in rs.place && Links(rs, x, e)
    ensures Links(Extend(rs, k, id), x, e)
  {
    assert InPlace(rs, x);
    var rs' := Extend(rs, k, id);
    assert rs'.place[x] == rs.place[x];
    var (l, j) := rs.place[x];
    assert j > 0 ==> rs'.ids[l][j - 1] == rs.ids[l][j - 1];
  }

  lemma NextIdIsNew(w: World, i: nat, ids: set<OpID>)
    requires Minted(w.replicas, ids) && i < |w.replicas| && w.replicas[i].counter < MAX_COUNTER
    ensures NextId(w.replicas[i]) !in ids && NextId(w.replicas[i]) != ROOT
  {
  }

  lemma BumpKeepsMinted(w: World, i: nat, r': Replica, ids: set<OpID>)
    requires Named(w) && Minted(w.replicas, ids) && i < |w.replicas|
    requires r'.name == w.replicas[i].name && r'.counter >= w.replicas[i].counter
    ensures Named(w.(replicas := w.replicas[i := r'])) && Minted(w.replicas[i := r'], ids)
  {
  }

  lemma NextIsMinted(w: World, i: nat, r': Replica, ids: set<OpID>)
    requires Named(w) && Minted(w.replicas, ids) && i < |w.replicas| && w.replicas[i].counter < MAX_COUNTER
    requires r'.name == w.replicas[i].name && r'.counter == w.replicas[i].counter + 1
    ensures Minted(w.replicas[i := r'], ids + {NextId(w.replicas[i])})
  {
    BumpKeepsMinted(w, i, r', ids);
  }

  /** A replica that does not forget its own ends, and has the new one if it is its own. */
  lemma EndsStay(rs: Runs, k: nat, id: OpID, r: Replica, r': Replica)
    requires k <= |rs.ids| && HoldsEnds(rs, r) && r'.name == r.name && Grows(r.doc, r'.doc)
    requires id.replica == r.name ==> id in r'.doc.nodes
    ensures HoldsEnds(Extend(rs, k, id), r')
  {
  }

  lemma AllHoldEnds(w: World, i: nat, r': Replica, k: nat, id: OpID)
    requires Named(w) && i < |w.replicas| && k <= |w.runs.ids| && id.replica == w.replicas[i].name
    requires forall r :: r in w.replicas ==> HoldsEnds(w.runs, r)
    requires r'.name == w.replicas[i].name && Grows(w.replicas[i].doc, r'.doc) && id in r'.doc.nodes
    ensures forall r :: r in w.replicas[i := r'] ==> HoldsEnds(Extend(w.runs, k, id), r)
  {
    EndsStay(w.runs, k, id, w.replicas[i], r');
    forall m | 0 <= m < |w.replicas| && m != i ensures HoldsEnds(Extend(w.runs, k, id), w.replicas[m]) {
      EndsStay(w.runs, k, id, w.replicas[m], w.replicas[m]);
    }
  }

  lemma SameEnds(w: World, i: nat, r': Replica)
    requires i < |w.replicas| && forall r :: r in w.replicas ==> HoldsEnds(w.runs, r)
    requires r'.name == w.replicas[i].name && Grows(w.replicas[i].doc, r'.doc)
    ensures forall r :: r in w.replicas[i := r'] ==> HoldsEnds(w.runs, r)
  {
    assert HoldsEnds(w.runs, w.replicas[i]);
    assert HoldsEnds(w.runs, r');
  }

  lemma TypingKeepsInv(base: Doc, w: World, i: nat, pos: int, c: Rune)
    requires Inv(base, w) && i < |w.replicas| && Enabled(w, i, Type(pos, c))
    ensures Inv(base, Moved(w, i, Type(pos, c)))
  {
    var r, w' := w.replicas[i], Moved(w, i, Type(pos, c));
    var id, e := NextId(r), EntryAt(r.doc, pos, c);
    var op, r', k := Insert(id, e), w'.replicas[i], RunFor(w.runs, r.name, e);
    LocalInsert(r, pos, c);
    NextIdIsNew(w, i, w.runs.place.Keys);
    NextIdIsNew(w, i, base.nodes.Keys);
    ExtendKeepsPlaces(w.runs, k, id);
    BumpKeepsMinted(w, i, r', base.nodes.Keys);
    NextIsMinted(w, i, r', w.runs.place.Keys);
    assert w'.runs.place.Keys == w.runs.place.Keys + {id};
    HoldsMore(base, w.sent, w'.sent, r.doc);
    HoldsReceived(base, w'.sent, r.doc, op);
    AllHold(base, w, i, r', w'.sent);
    ResolveIsReady(r, InsertEdit(pos, c));
    LocalGrows(r, InsertEdit(pos, c));
    AllHoldEnds(w, i, r', k, id);
    AllStillLink(w.runs, w.sent, k, op);
  }

  lemma AllStillLink(rs: Runs, sent: set<Op>, k: nat, op: Op)
    requires PlacesOk(rs) && AllLink(rs, sent) && k <= |rs.ids| && op.Insert? && op.id !in rs.place
    requires k < |rs.ids| ==> Continues(rs, k, op.entry)
    ensures AllLink(Extend(rs, k, op.id), sent + {op})
  {
    forall o | o in sent + {op} && o.Insert? ensures Links(Extend(rs, k, op.id), o.id, o.entry) {
      if o in sent { ExtendKeepsLinks(rs, k, op.id, o.id, o.entry); }
    }
  }

  lemma RemovingKeepsInv(base: Doc, w: World, i: nat, pos: int)
    requires Inv(base, w) && i < |w.replicas| && w.replicas[i].counter < MAX_COUNTER
    requires InRange(w.replicas[i].doc, DeleteEdit(pos))
    ensures Inv(base, Moved(w, i, Remove(pos)))
  {
    var r, w' := w.replicas[i], Moved(w, i, Remove(pos));
    HoldsMore(base, w.sent, w'.sent, r.doc);
    HoldsReceived(base, w'.sent, r.doc, Resolve(r, DeleteEdit(pos)));
    BumpKeepsMinted(w, i, w'.replicas[i], base.nodes.Keys);
    BumpKeepsMinted(w, i, w'.replicas[i], w.runs.place.Keys);
    AllHold(base, w, i, w'.replicas[i], w'.sent);
    LocalGrows(r, DeleteEdit(pos));
    SameEnds(w, i, w'.replicas[i]);
  }

  lemma ReceivingKeepsInv(base: Doc, w: World, i: nat, op: Op)
    requires Inv(base, w) && i < |w.replicas| && op in w.sent
    ensures Inv(base, Moved(w, i, Receive(op)))
  {
    var r' := Moved(w, i, Receive(op)).replicas[i];
    HoldsReceived(base, w.sent, w.replicas[i].doc, op);
    BumpKeepsMinted(w, i, r', base.nodes.Keys);
    BumpKeepsMinted(w, i, r', w.runs.place.Keys);
    AllHold(base, w, i, r', w.sent);
    ApplyGrows(w.replicas[i].doc, op);
    SameEnds(w, i, r');
  }

  /** Whatever is typed, deleted or delivered, each run stays linked wherever it has arrived. */
  lemma MoveKeepsInv(base: Doc, w: World, i: nat, move: Move)
    requires Inv(base, w) && i < |w.replicas| && Enabled(w, i, move)
    ensures Inv(base, Moved(w, i, move))
  {
    match move {
      case Type(pos, c) => TypingKeepsInv(base, w, i, pos, c);
      case Remove(pos) => RemovingKeepsInv(base, w, i, pos);
      case Receive(op) => ReceivingKeepsInv(base, w, i, op);
    }
  }

  // ---------- Runs of the system ----------

  ghost predicate Initial(base: Doc, w: World) {
    && Sound(base) && Named(w) && w.runs == Runs([], map[]) && w.sent == {}
    && (forall i :: 0 <= i < |w.replicas| ==> w.replicas[i].doc == base)
    && Minted(w.replicas, base.nodes.Keys)
  }

  /** One entry of a schedule; what is not enabled is skipped. */
  ghost function Tick(w: World, i: nat, move: Move): World {
    if i < |w.replicas| && Enabled(w, i, move) then Moved(w, i, move) else w
  }

  lemma TickKeepsInv(base: Doc, w: World, i: nat, move: Move)
    requires Inv(base, w)
    ensures Inv(base, Tick(w, i, move))
  {
    if i < |w.replicas| && Enabled(w, i, move) {
      MoveKeepsInv(base, w, i, move);
    }
  }

  /** The world after the first n entries of a schedule. */
  ghost function After(w: World, schedule: seq<(nat, Move)>, n: nat): World
    requires n <= |schedule|
  {
    if n == 0 then w
    else Tick(After(w, schedule, n - 1), schedule[n - 1].0, schedule[n - 1].1)
  }

  lemma {:induction false} AfterHolds(base: Doc, w: World, schedule: seq<(nat, Move)>, n: nat)
    requires Initial(base, w) && n <= |schedule|
    ensures Inv(base, After(w, schedule, n))
  {
    if n > 0 {
      AfterHolds(base, w, schedule, n - 1);
      TickKeepsInv(base, After(w, schedule, n - 1), schedule[n - 1].0, schedule[n - 1].1);
    }
  }

  /** A replica finds the last character of its own run in its text, unless that is deleted. */
  lemma EndIsVisible(base: Doc, w: World, i: nat, k: nat) returns (pos: nat)
    requires Inv(base, w) && i < |w.replicas| && k < |w.runs.ids|
    requires w.runs.ids[k] != [] ==> Last(w.runs.ids[k]).replica == w.replicas[i].name
    requires w.runs.ids[k] != [] ==> Last(w.runs.ids[k]) !in w.replicas[i].doc.dead
    ensures w.runs.ids[k] != [] && Sound(w.replicas[i].doc) && 0 < pos <= |VisibleIds(w.replicas[i].doc)|
    ensures LeftNeighbour(w.replicas[i].doc, pos) == Last(w.runs.ids[k])
  {
    var r, last := w.replicas[i], Last(w.runs.ids[k]);
    assert Holds(base, w.sent, r.doc) && HoldsEnds(w.runs, r);
    pos := PlaceInText(r.doc, last);
  }

  lemma PlaceInText(d: Doc, id: OpID) returns (pos: nat)
    requires Sound(d) && id in d.nodes && id !in d.dead
    ensures 0 < pos <= |VisibleIds(d)| && LeftNeighbour(d, pos) == id
  {
    VisibleIdsListing(d);
    var i := PlaceOf(VisibleIds(d), id);
    pos := i + 1;
  }

  // ---------- The arrived part of a run ----------

  lemma RunNodeLinks(base: Doc, rs: Runs, sent: set<Op>, d: Doc, k: nat, j: nat)
    requires NewRuns(base, rs) && AllLink(rs, sent) && Holds(base, sent, d)
    requires k < |rs.ids| && j < |rs.ids[k]| && rs.ids[k][j] in d.nodes
    ensures var e := d.nodes[rs.ids[k][j]];
            j > 0 ==> e.parent == rs.ids[k][j - 1] && !e.OnLeft()
  {
    var y := rs.ids[k][j];
    assert At(rs, k, j);
    var op := Insert(y, d.nodes[y]);
    assert op in sent && Links(rs, op.id, op.entry);
  }

  /** What a replica holds of a run is a prefix of it: a tree never holds a character without its
      predecessor. */
  lemma {:induction false} ArrivedIsAPrefix(base: Doc, rs: Runs, sent: set<Op>, d: Doc, k: nat, m: nat) returns (n: nat)
    requires NewRuns(base, rs) && AllLink(rs, sent) && Holds(base, sent, d)
    requires k < |rs.ids| && m <= |rs.ids[k]|
    ensures n <= m && forall j :: 0 <= j < m ==> (rs.ids[k][j] in d.nodes <==> j < n)
  {
    if m == 0 {
      n := 0;
    } else {
      n := ArrivedIsAPrefix(base, rs, sent, d, k, m - 1);
      var id := rs.ids[k][m - 1];
      if id in d.nodes {
        RunNodeLinks(base, rs, sent, d, k, m - 1);
        ParentIsHigher(d.nodes, id);
        assert m > 1 ==> At(rs, k, m - 2);
        n := m;
      }
    }
  }

  lemma ArrivedPartIsAChain(base: Doc, rs: Runs, sent: set<Op>, d: Doc, k: nat, n: nat)
    requires NewRuns(base, rs) && AllLink(rs, sent) && Holds(base, sent, d)
    requires k < |rs.ids| && n <= |rs.ids[k]|
    requires forall j :: 0 <= j < |rs.ids[k]| ==> (rs.ids[k][j] in d.nodes <==> j < n)
    ensures RightChain(d.nodes, rs.ids[k][..n])
  {
    var ids := rs.ids[k][..n];
    forall j | 0 < j < n ensures d.nodes[ids[j]].parent == ids[j - 1] && !d.nodes[ids[j]].OnLeft() {
      RunNodeLinks(base, rs, sent, d, k, j);
    }
  }

  /** The characters of the run that are in the document are its first n. */
  predicate Arrived(run: seq<OpID>, d: Doc, n: nat) {
    n <= |run| && forall j :: 0 <= j < |run| ==> (run[j] in d.nodes <==> j < n)
  }

  /** One block of the document; so is, in the text, what of it is visible. */
  ghost predicate Whole(ids: seq<OpID>, d: Doc)
    requires Sound(d)
  {
    HasBlock(Order(d.nodes), ids) && HasBlock(VisibleIds(d), Visible(ids, d.dead))
  }

  lemma WholeIffClear(base: Doc, rs: Runs, sent: set<Op>, d: Doc, k: nat) returns (n: nat)
    requires NewRuns(base, rs) && AllLink(rs, sent) && Holds(base, sent, d) && k < |rs.ids|
    ensures Arrived(rs.ids[k], d, n)
    ensures Whole(rs.ids[k][..n], d) <==> Clear(d.nodes, rs.ids[k][..n])
  {
    n := ArrivedIsAPrefix(base, rs, sent, d, k, |rs.ids[k]|);
    var ids := rs.ids[k][..n];
    if n == 0 {
      BlockIntro(Order(d.nodes), [], [], Order(d.nodes));
    } else {
      ArrivedPartIsAChain(base, rs, sent, d, k, n);
      ChainIsABlockIff(d.nodes, ids);
    }
    if HasBlock(Order(d.nodes), ids) { BlockStaysVisible(d, ids); }
  }

  /** At every moment, on every replica, whatever was typed where, deleted, delivered, repeated or
      lost in between: what has arrived of a run is its first n characters, and they are one block
      if and only if nothing foreign hangs inside them. */
  lemma LiveRunWholeIff(base: Doc, w: World, schedule: seq<(nat, Move)>, i: nat, k: nat) returns (n: nat)
    requires Initial(base, w)
    requires var v := After(w, schedule, |schedule|);
             i < |v.replicas| && k < |v.runs.ids|
    ensures var v := After(w, schedule, |schedule|);
            var run, d := v.runs.ids[k], v.replicas[i].doc;
            Sound(d) && Arrived(run, d, n) && (Whole(run[..n], d) <==> Clear(d.nodes, run[..n]))
  {
    AfterHolds(base, w, schedule, |schedule|);
    var v := After(w, schedule, |schedule|);
    assert Holds(base, v.sent, v.replicas[i].doc);
    n := WholeIffClear(base, v.runs, v.sent, v.replicas[i].doc, k);
  }

  // ---------- Runs nobody typed into ----------

  /** Nobody typed inside the run. */
  ghost predicate NothingInside(run: seq<OpID>, sent: set<Op>) {
    forall op :: op in sent && op.Insert? && op.id !in run ==> SentOutside(run, op.id, op.entry)
  }

  ghost predicate SentOutside(run: seq<OpID>, id: OpID, e: Entry) {
    forall j :: 0 <= j < |run| && run[j] == e.parent ==>
      (e.OnLeft() ==> j == 0) && (!e.OnLeft() && j + 1 < |run| ==> Less(run[j + 1], id))
  }

  /** A node of the document outside the run that hangs off the run was sent. */
  lemma ForeignWasSent(base: Doc, rs: Runs, sent: set<Op>, d: Doc, k: nat, n: nat, j: nat, y: OpID)
    requires Sound(base) && NewRuns(base, rs) && Holds(base, sent, d) && k < |rs.ids|
    requires Arrived(rs.ids[k], d, n) && y in d.nodes && y !in rs.ids[k][..n]
    requires j < n && rs.ids[k][j] == d.nodes[y].parent
    ensures Insert(y, d.nodes[y]) in sent && y !in rs.ids[k]
  {
    var run := rs.ids[k];
    assert At(rs, k, j);
    if y in base.nodes { ParentIsHigher(base.nodes, y); }
    assert forall m :: 0 <= m < n ==> run[m] == run[..n][m] && run[m] in run[..n];
  }

  lemma PrefixHangsOutside(run: seq<OpID>, ids: seq<OpID>, ns: Nodes, y: OpID)
    requires ids <= run && y in ns && SentOutside(run, y, ns[y])
    ensures HangsOutside(ns, ids, y)
  {
    forall j | 0 <= j < |ids| && ids[j] == ns[y].parent
      ensures (ns[y].OnLeft() ==> j == 0) && (!ns[y].OnLeft() && j + 1 < |ids| ==> Less(ids[j + 1], y))
    {
      assert run[j] == ids[j] == ns[y].parent;
      assert j + 1 < |ids| ==> ids[j + 1] == run[j + 1];
    }
  }

  lemma NothingInsideIsClear(base: Doc, rs: Runs, sent: set<Op>, d: Doc, k: nat, n: nat)
    requires Sound(base) && NewRuns(base, rs) && Holds(base, sent, d) && k < |rs.ids|
    requires NothingInside(rs.ids[k], sent) && Arrived(rs.ids[k], d, n)
    ensures Clear(d.nodes, rs.ids[k][..n])
  {
    var run := rs.ids[k];
    forall y | y in d.nodes && y !in run[..n] ensures HangsOutside(d.nodes, run[..n], y) {
      if exists j :: 0 <= j < n && run[j] == d.nodes[y].parent {
        var j :| 0 <= j < n && run[j] == d.nodes[y].parent;
        ForeignWasSent(base, rs, sent, d, k, n, j, y);
        var op := Insert(y, d.nodes[y]);
        assert SentOutside(run, op.id, op.entry);
        PrefixHangsOutside(run, run[..n], d.nodes, y);
      }
    }
  }

  /** A run nobody typed into is whole at every moment on every replica, wherever it began. */
  lemma LiveRunsStayWhole(base: Doc, w: World, schedule: seq<(nat, Move)>, i: nat, k: nat) returns (n: nat)
    requires Initial(base, w)
    requires var v := After(w, schedule, |schedule|);
             i < |v.replicas| && k < |v.runs.ids| && NothingInside(v.runs.ids[k], v.sent)
    ensures var v := After(w, schedule, |schedule|);
            var run, d := v.runs.ids[k], v.replicas[i].doc;
            Sound(d) && Arrived(run, d, n) && Whole(run[..n], d)
  {
    AfterHolds(base, w, schedule, |schedule|);
    var v := After(w, schedule, |schedule|);
    n := LiveRunWholeIff(base, w, schedule, i, k);
    assert Holds(base, v.sent, v.replicas[i].doc);
    NothingInsideIsClear(base, v.runs, v.sent, v.replicas[i].doc, k, n);
  }
}
