/** Nodes that resolve intents on their own tree and exchange operations over one shared,
    totally ordered log. */
module Protocol {
  import opened OpIds
  import opened Forest
  import opened Docs
  import opened Convergence

  /** A published delta: the operation and the node it came from. */
  datatype Frame = Frame(origin: string, op: Op)

  /** One node: its tree and counter under its own name, how far it has read the log, and the
      operation it has applied locally but not yet published. */
  datatype Node = Node(replica: Replica, cursor: nat, pending: Option<Op>)

  datatype System = System(nodes: seq<Node>, log: seq<Frame>)

  /** Resolve: a client intent becomes an operation on the local tree.
      Handle: the local delta is applied again and published.
      Consume: the next frame of the log is read, also between the two halves of an intent; own
      frames are skipped. */
  datatype Step = Resolve(e: Edit) | Handle | Consume

  ghost predicate Enabled(s: System, i: nat, step: Step)
    requires i < |s.nodes|
  {
    match step
    case Resolve(_) => s.nodes[i].pending.None?
    case Handle => s.nodes[i].pending.Some?
    case Consume => s.nodes[i].cursor < |s.log|
  }

  ghost function Move(s: System, i: nat, step: Step): System
    requires i < |s.nodes| && Enabled(s, i, step) && Sound(s.nodes[i].replica.doc)
  {
    var n := s.nodes[i];
    match step
    case Resolve(e) =>
      var (r, op) := Local(n.replica, e);
      System(s.nodes[i := Node(r, n.cursor, op)], s.log)
    case Handle =>
      var r := n.replica.(doc := Apply(n.replica.doc, n.pending.value));
      System(s.nodes[i := Node(r, n.cursor, None)], s.log + [Frame(n.replica.name, n.pending.value)])
    case Consume =>
      var f := s.log[n.cursor];
      var r := if f.origin == n.replica.name then n.replica
               else n.replica.(doc := Apply(n.replica.doc, f.op));
      System(s.nodes[i := Node(r, n.cursor + 1, n.pending)], s.log)
  }

  // ---------- Invariant ----------

  function Ops(log: seq<Frame>): (ops: seq<Op>)
    ensures |ops| == |log| && forall j :: 0 <= j < |log| ==> ops[j] == log[j].op
  {
    seq(|log|, j requires 0 <= j < |log| => log[j].op)
  }

  function Waiting(n: Node): set<Op> {
    if n.pending.Some? then {n.pending.value} else {}
  }

  /** What a node has seen of the log: the prefix it has read and its own frames. */
  function SeenLog(n: Node, log: seq<Frame>): set<Op> {
    set j | 0 <= j < |log| && (j < n.cursor || log[j].origin == n.replica.name) :: log[j].op
  }

  function SeenBy(n: Node, log: seq<Frame>): set<Op> {
    SeenLog(n, log) + Waiting(n)
  }

  /** The identifier minted for the operation. */
  function Stamp(op: Op): OpID {
    match op
    case Insert(id, _) => id
    case Delete(_, source) => source
  }

  /** The stamp was minted by no node, or by this one in the past. */
  predicate Minted(n: Node, op: Op) {
    Stamp(op).replica == n.replica.name ==> 0 < Stamp(op).counter <= n.replica.counter
  }

  /** The operation is stamped by the node it is said to come from. */
  predicate StampedBy(name: string, op: Op) {
    Stamp(op).replica == name && Stamp(op) != ROOT
  }

  ghost predicate NodeOk(n: Node, log: seq<Frame>, steps: nat) {
    && Sound(n.replica.doc)
    && n.cursor <= |log| && n.replica.counter <= steps
    && Exactly(EMPTY, SeenBy(n, log), n.replica.doc)
    && (n.pending.Some? ==>
          && Precondition(EMPTY, OpSet(Ops(log)), n.pending.value)
          && StampedBy(n.replica.name, n.pending.value)
          && Minted(n, n.pending.value))
  }

  ghost predicate LogOk(log: seq<Frame>) {
    && Causal(EMPTY, Ops(log))
    && (forall j :: 0 <= j < |log| ==> StampedBy(log[j].origin, log[j].op))
    && (forall j, k :: 0 <= j < k < |log| ==> Stamp(log[j].op) != Stamp(log[k].op))
  }

  ghost predicate NodeAgainstLog(n: Node, log: seq<Frame>) {
    && (forall j :: 0 <= j < |log| ==> Minted(n, log[j].op))
    && (n.pending.Some? ==> forall j :: 0 <= j < |log| ==> Stamp(log[j].op) != Stamp(n.pending.value))
  }

  ghost predicate Inv(s: System, steps: nat) {
    && (forall i, j :: 0 <= i < j < |s.nodes| ==> s.nodes[i].replica.name != s.nodes[j].replica.name)
    && LogOk(s.log)
    && (forall i :: 0 <= i < |s.nodes| ==> NodeOk(s.nodes[i], s.log, steps) && NodeAgainstLog(s.nodes[i], s.log))
  }

  // ---------- Facts about what a node has seen ----------

  /** Operations with different stamps never contradict each other. */
  lemma SeenIsConsistent(n: Node, log: seq<Frame>)
    requires LogOk(log) && NodeAgainstLog(n, log)
    ensures Consistent(SeenBy(n, log))
  {
  }

  lemma SeenIsLogged(n: Node, log: seq<Frame>)
    ensures SeenLog(n, log) <= OpSet(Ops(log))
  {
  }

  lemma PrefixIsSeen(n: Node, log: seq<Frame>)
    requires n.cursor <= |log|
    ensures OpSet(Ops(log)[..n.cursor]) <= SeenLog(n, log)
  {
  }

  lemma KnownGrows(d: Doc, ops: set<Op>, more: set<Op>, op: Op)
    requires ops <= more && Precondition(d, ops, op)
    ensures Precondition(d, more, op)
  {
  }

  // ---------- Resolve ----------

  /** nextID collides with nothing the node or the log holds. */
  lemma NextIdIsFresh(n: Node, log: seq<Frame>, steps: nat)
    requires LogOk(log) && NodeOk(n, log, steps) && NodeAgainstLog(n, log) && steps < MAX_COUNTER
    ensures forall op :: op in OpSet(Ops(log)) + SeenBy(n, log) ==> Stamp(op) != NextId(n.replica)
    ensures !Present(n.replica.doc.nodes, NextId(n.replica))
  {
  }

  /** One operation more, waiting to be published. */
  lemma ResolvedIsSeen(n: Node, n': Node, log: seq<Frame>, op: Op)
    requires n.pending.None? && n'.pending == Some(op) && n'.cursor == n.cursor && n'.replica.name == n.replica.name
    ensures SeenBy(n', log) == SeenBy(n, log) + {op}
  {
    assert SeenLog(n', log) == SeenLog(n, log);
  }

  lemma ResolvedIsReady(n: Node, log: seq<Frame>, op: Op)
    requires Exactly(EMPTY, SeenBy(n, log), n.replica.doc) && Ready(n.replica.doc, op) && n.pending.None?
    ensures Precondition(EMPTY, OpSet(Ops(log)), op)
  {
    ReadyMeansPrecondition(EMPTY, SeenBy(n, log), n.replica.doc, op);
    SeenIsLogged(n, log);
    KnownGrows(EMPTY, SeenBy(n, log), OpSet(Ops(log)), op);
  }

  lemma ResolveKeeps(n: Node, log: seq<Frame>, steps: nat, e: Edit)
    requires LogOk(log) && NodeOk(n, log, steps) && NodeAgainstLog(n, log)
    requires steps < MAX_COUNTER && n.pending.None?
    ensures var (r, op) := Local(n.replica, e);
            var n' := Node(r, n.cursor, op);
            NodeOk(n', log, steps + 1) && NodeAgainstLog(n', log) && r.name == n.replica.name
  {
    if InRange(n.replica.doc, e) {
      var op := Docs.Resolve(n.replica, e);
      var (r, _) := Local(n.replica, e);
      var n' := Node(r, n.cursor, Some(op));
      ResolveIsReady(n.replica, e);
      NextIdIsFresh(n, log, steps);
      assert Stamp(op) == NextId(n.replica);
      LocalGrows(n.replica, e);
      ResolvedIsSeen(n, n', log, op);
      ResolvedIsExact(n, log, op);
      ResolvedIsReady(n, log, op);
      MintedAfterBump(n, n', log);
      assert forall j :: 0 <= j < |log| ==> log[j].op == Ops(log)[j] && Ops(log)[j] in Ops(log);
    }
  }

  lemma ResolvedIsExact(n: Node, log: seq<Frame>, op: Op)
    requires LogOk(log) && NodeAgainstLog(n, log) && Sound(n.replica.doc)
    requires Exactly(EMPTY, SeenBy(n, log), n.replica.doc) && Ready(n.replica.doc, op)
    requires forall o :: o in SeenBy(n, log) ==> Stamp(o) != Stamp(op)
    ensures Exactly(EMPTY, SeenBy(n, log) + {op}, Apply(n.replica.doc, op))
  {
    SeenIsConsistent(n, log);
    ExactlyStep(EMPTY, SeenBy(n, log), n.replica.doc, op);
  }

  lemma MintedAfterBump(n: Node, n': Node, log: seq<Frame>)
    requires forall j :: 0 <= j < |log| ==> Minted(n, log[j].op)
    requires n'.replica.name == n.replica.name && n.replica.counter <= n'.replica.counter
    ensures forall j :: 0 <= j < |log| ==> Minted(n', log[j].op)
  {
  }

  // ---------- Handle ----------

  /** An operation in effect is not applied twice. */
  lemma ReplayChangesNothing(d: Doc, op: Op)
    requires Sound(d) && InEffect(d, op)
    ensures Apply(d, op) == d
  {
  }

  lemma PendingIsInEffect(n: Node, log: seq<Frame>, steps: nat)
    requires NodeOk(n, log, steps) && n.pending.Some?
    ensures InEffect(n.replica.doc, n.pending.value)
  {
  }

  lemma SeenAfterPublish(n: Node, log: seq<Frame>, f: Frame)
    ensures SeenLog(n, log + [f]) ==
            SeenLog(n, log) + if |log| < n.cursor || f.origin == n.replica.name then {f.op} else {}
  {
    var log' := log + [f];
    assert log'[|log|] == f;
    forall op | op in SeenLog(n, log) ensures op in SeenLog(n, log') {
      var j :| 0 <= j < |log| && (j < n.cursor || log[j].origin == n.replica.name) && log[j].op == op;
      assert log'[j] == log[j];
    }
  }

  lemma PublishKeepsLog(n: Node, log: seq<Frame>, steps: nat)
    requires LogOk(log) && NodeOk(n, log, steps) && NodeAgainstLog(n, log) && n.pending.Some?
    ensures LogOk(log + [Frame(n.replica.name, n.pending.value)])
  {
    var f := Frame(n.replica.name, n.pending.value);
    assert Ops(log + [f]) == Ops(log) + [f.op];
    LastIsCausal(EMPTY, Ops(log) + [f.op]);
    assert (Ops(log) + [f.op])[..|log|] == Ops(log);
  }

  lemma LogGrows(log: seq<Frame>, f: Frame)
    ensures OpSet(Ops(log)) <= OpSet(Ops(log + [f]))
  {
    assert Ops(log + [f]) == Ops(log) + [f.op];
  }

  /** What publishing does to a node that did not publish. */
  lemma BystanderKeeps(n: Node, log: seq<Frame>, steps: nat, f: Frame)
    requires NodeOk(n, log, steps) && NodeAgainstLog(n, log)
    requires f.origin != n.replica.name && StampedBy(f.origin, f.op)
    ensures NodeOk(n, log + [f], steps + 1) && NodeAgainstLog(n, log + [f])
  {
    SeenAfterPublish(n, log, f);
    assert SeenBy(n, log + [f]) == SeenBy(n, log);
    LogGrows(log, f);
    if n.pending.Some? {
      KnownGrows(EMPTY, OpSet(Ops(log)), OpSet(Ops(log + [f])), n.pending.value);
    }
  }

  /** The publisher's document does not change; its operation moves from pending to the log. */
  lemma PublisherKeeps(n: Node, log: seq<Frame>, steps: nat)
    requires NodeOk(n, log, steps) && NodeAgainstLog(n, log) && n.pending.Some?
    ensures var op := n.pending.value;
            var f := Frame(n.replica.name, op);
            && Apply(n.replica.doc, op) == n.replica.doc
            && NodeOk(Node(n.replica, n.cursor, None), log + [f], steps + 1)
            && NodeAgainstLog(Node(n.replica, n.cursor, None), log + [f])
  {
    var op := n.pending.value;
    var f, n' := Frame(n.replica.name, op), Node(n.replica, n.cursor, None);
    PendingIsInEffect(n, log, steps);
    ReplayChangesNothing(n.replica.doc, op);
    SeenAfterPublish(n', log, f);
    assert SeenLog(n', log) == SeenLog(n, log);
    assert SeenBy(n', log + [f]) == SeenBy(n, log);
    assert Minted(n', op);
    forall j | 0 <= j < |log + [f]| ensures Minted(n', (log + [f])[j].op) {
      if j < |log| { assert Minted(n, log[j].op); }
    }
  }

  // ---------- Consume ----------

  /** The parent or target of the next frame is present: no consumed operation is dropped. */
  lemma NextFrameIsReady(n: Node, log: seq<Frame>, steps: nat)
    requires LogOk(log) && NodeOk(n, log, steps) && n.cursor < |log|
    ensures Ready(n.replica.doc, log[n.cursor].op)
  {
  }

  lemma SeenAfterRead(n: Node, log: seq<Frame>)
    requires n.cursor < |log|
    ensures SeenLog(n.(cursor := n.cursor + 1), log) == SeenLog(n, log) + {log[n.cursor].op}
  {
  }

  lemma ConsumeKeeps(n: Node, log: seq<Frame>, steps: nat)
    requires LogOk(log) && NodeOk(n, log, steps) && NodeAgainstLog(n, log)
    requires n.cursor < |log|
    ensures var f := log[n.cursor];
            var r := if f.origin == n.replica.name then n.replica
                     else n.replica.(doc := Apply(n.replica.doc, f.op));
            var n' := Node(r, n.cursor + 1, n.pending);
            && NodeOk(n', log, steps + 1) && NodeAgainstLog(n', log)
            && InEffect(r.doc, f.op)
  {
    var f := log[n.cursor];
    var read := n.(cursor := n.cursor + 1);
    SeenAfterRead(n, log);
    SeenIsConsistent(read, log);
    NextFrameIsReady(n, log, steps);
    TakesEffectIffReady(n.replica.doc, f.op);
    if f.origin == n.replica.name {
      assert f.op in SeenLog(n, log);
      assert SeenBy(read, log) == SeenBy(n, log);
      OwnFrameIsInEffect(n, log, f.op);
      assert NodeOk(read, log, steps + 1);
    } else {
      var n' := Node(n.replica.(doc := Apply(n.replica.doc, f.op)), n.cursor + 1, n.pending);
      assert SeenLog(n', log) == SeenLog(read, log);
      assert SeenBy(n', log) == SeenBy(n, log) + {f.op};
      ExactlyStep(EMPTY, SeenBy(n, log), n.replica.doc, f.op);
      ApplyGrows(n.replica.doc, f.op);
      MintedAfterBump(n, n', log);
    }
  }

  lemma OwnFrameIsInEffect(n: Node, log: seq<Frame>, op: Op)
    requires Exactly(EMPTY, SeenBy(n, log), n.replica.doc) && op in SeenLog(n, log)
    ensures InEffect(n.replica.doc, op)
  {
  }

  // ---------- Runs ----------

  lemma Later(n: Node, log: seq<Frame>, steps: nat)
    requires NodeOk(n, log, steps)
    ensures NodeOk(n, log, steps + 1)
  {
  }

  /** The node that moves, and the log. */
  lemma MoverKeeps(s: System, i: nat, step: Step, steps: nat)
    requires i < |s.nodes| && Inv(s, steps) && steps < MAX_COUNTER && Enabled(s, i, step)
    ensures var s' := Move(s, i, step);
            && |s'.nodes| == |s.nodes| && s'.nodes[i].replica.name == s.nodes[i].replica.name
            && LogOk(s'.log) && NodeOk(s'.nodes[i], s'.log, steps + 1) && NodeAgainstLog(s'.nodes[i], s'.log)
  {
    var n := s.nodes[i];
    assert NodeOk(n, s.log, steps);
    match step {
      case Resolve(e) => ResolveKeeps(n, s.log, steps, e);
      case Handle =>
        PublishKeepsLog(n, s.log, steps);
        PublisherKeeps(n, s.log, steps);
      case Consume => ConsumeKeeps(n, s.log, steps);
    }
  }

  /** Every other node. */
  lemma OthersKeep(s: System, i: nat, step: Step, steps: nat, k: nat)
    requires i < |s.nodes| && Inv(s, steps) && Enabled(s, i, step) && Sound(s.nodes[i].replica.doc)
    requires k < |s.nodes| && k != i
    ensures var s' := Move(s, i, step);
            && |s'.nodes| == |s.nodes| && s'.nodes[k] == s.nodes[k]
            && NodeOk(s'.nodes[k], s'.log, steps + 1) && NodeAgainstLog(s'.nodes[k], s'.log)
  {
    assert NodeOk(s.nodes[k], s.log, steps) && NodeOk(s.nodes[i], s.log, steps);
    if step.Handle? {
      BystanderKeeps(s.nodes[k], s.log, steps, Frame(s.nodes[i].replica.name, s.nodes[i].pending.value));
    } else {
      Later(s.nodes[k], s.log, steps);
    }
  }

  lemma MoveKeepsInv(s: System, i: nat, step: Step, steps: nat)
    requires i < |s.nodes| && Inv(s, steps) && steps < MAX_COUNTER && Enabled(s, i, step)
    ensures Inv(Move(s, i, step), steps + 1)
    ensures |Move(s, i, step).nodes| == |s.nodes|
  {
    var s' := Move(s, i, step);
    MoverKeeps(s, i, step, steps);
    forall k | 0 <= k < |s'.nodes|
      ensures s'.nodes[k].replica.name == s.nodes[k].replica.name
      ensures NodeOk(s'.nodes[k], s'.log, steps + 1) && NodeAgainstLog(s'.nodes[k], s'.log)
    {
      if k != i { OthersKeep(s, i, step, steps, k); }
    }
  }

  predicate Initial(s: System) {
    && s.log == []
    && (forall i :: 0 <= i < |s.nodes| ==>
          s.nodes[i] == Node(Replica(s.nodes[i].replica.name, 0, EMPTY), 0, None))
    && (forall i, j :: 0 <= i < j < |s.nodes| ==> s.nodes[i].replica.name != s.nodes[j].replica.name)
  }

  lemma InitialHolds(s: System)
    requires Initial(s)
    ensures Inv(s, 0)
  {
    EmptyIsSound();
    ExactlyNothing(EMPTY);
    forall i | 0 <= i < |s.nodes| ensures NodeOk(s.nodes[i], s.log, 0) {
      assert SeenBy(s.nodes[i], s.log) == {};
    }
  }

  /** The state after the first n moves of a schedule; a move that is not enabled is skipped. */
  ghost function After(s: System, schedule: seq<(nat, Step)>, n: nat): (s': System)
    requires Initial(s) && n <= |schedule| <= MAX_COUNTER
    ensures |s'.nodes| == |s.nodes| && Inv(s', n)
  {
    if n == 0 then
      InitialHolds(s);
      s
    else
      var before := After(s, schedule, n - 1);
      var (i, step) := schedule[n - 1];
      if i < |before.nodes| && Enabled(before, i, step) then
        assert NodeOk(before.nodes[i], before.log, n - 1);
        MoveKeepsInv(before, i, step, n - 1);
        Move(before, i, step)
      else
        IdleKeepsInv(before, n - 1);
        before
  }

  lemma IdleKeepsInv(s: System, steps: nat)
    requires Inv(s, steps)
    ensures Inv(s, steps + 1)
  {
  }

  /** Every node's tree is exactly its own operations plus the log prefix it has read. */
  lemma NodeHoldsWhatItSaw(s: System, schedule: seq<(nat, Step)>, n: nat, i: nat)
    requires Initial(s) && n <= |schedule| <= MAX_COUNTER && i < |s.nodes|
    ensures var t := After(s, schedule, n);
            && Sound(t.nodes[i].replica.doc)
            && Exactly(EMPTY, SeenBy(t.nodes[i], t.log), t.nodes[i].replica.doc)
  {
    var t := After(s, schedule, n);
    assert NodeOk(t.nodes[i], t.log, n);
  }

  /** The parent or target of every logged operation is the sentinel or earlier in the log, and
      no operation is published twice. */
  lemma LogIsCausalAndOnce(s: System, schedule: seq<(nat, Step)>, n: nat)
    requires Initial(s) && n <= |schedule| <= MAX_COUNTER
    ensures var t := After(s, schedule, n);
            && Causal(EMPTY, Ops(t.log))
            && forall j, k :: 0 <= j < k < |t.log| ==> t.log[j].op != t.log[k].op
  {
  }

  /** No consumed operation is dropped, and no foreign one is republished. */
  lemma ConsumedOpsTakeEffect(s: System, schedule: seq<(nat, Step)>, n: nat, i: nat)
    requires Initial(s) && n <= |schedule| <= MAX_COUNTER && i < |s.nodes|
    requires Enabled(After(s, schedule, n), i, Consume)
    ensures var t := After(s, schedule, n);
            && Sound(t.nodes[i].replica.doc)
            && var t' := Move(t, i, Consume);
               && InEffect(t'.nodes[i].replica.doc, t.log[t.nodes[i].cursor].op)
               && t'.log == t.log
  {
    var t := After(s, schedule, n);
    assert NodeOk(t.nodes[i], t.log, n);
    ConsumeKeeps(t.nodes[i], t.log, n);
  }

  /** A node that has read everything and published everything holds the log's document. */
  lemma CaughtUpNodeHoldsTheLog(n: Node, log: seq<Frame>, steps: nat)
    requires LogOk(log) && NodeOk(n, log, steps) && NodeAgainstLog(n, log)
    requires n.cursor == |log| && n.pending.None?
    ensures n.replica.doc == Run(EMPTY, Ops(log))
  {
    PrefixIsSeen(n, log);
    SeenIsLogged(n, log);
    assert Ops(log)[..|log|] == Ops(log);
    assert SeenBy(n, log) == OpSet(Ops(log));
    SeenIsConsistent(n, log);
    EmptyIsSound();
    CausalRunIsExact(EMPTY, Ops(log));
    ExactlyIsUnique(EMPTY, OpSet(Ops(log)), n.replica.doc, Run(EMPTY, Ops(log)));
  }

  /** Reading one frame. */
  lemma ReadsOne(s: System, i: nat, steps: nat)
    requires i < |s.nodes| && Inv(s, steps) && steps < MAX_COUNTER && s.nodes[i].cursor < |s.log|
    ensures Enabled(s, i, Consume) && Sound(s.nodes[i].replica.doc)
    ensures var s' := Move(s, i, Consume);
            && Inv(s', steps + 1) && |s'.nodes| == |s.nodes| && s'.log == s.log
            && s'.nodes[i].cursor == s.nodes[i].cursor + 1 && s'.nodes[i].pending == s.nodes[i].pending
  {
    assert NodeOk(s.nodes[i], s.log, steps);
    MoveKeepsInv(s, i, Consume, steps);
  }

  /** The state after node i has read the rest of the log. */
  ghost function ReadAll(s: System, i: nat, steps: nat): System
    requires i < |s.nodes| && Inv(s, steps) && steps + |s.log| - s.nodes[i].cursor <= MAX_COUNTER
    decreases |s.log| - s.nodes[i].cursor
  {
    if s.nodes[i].cursor >= |s.log| then s
    else
      ReadsOne(s, i, steps);
      ReadAll(Move(s, i, Consume), i, steps + 1)
  }

  lemma NothingLeftToRead(s: System, i: nat, steps: nat)
    requires i < |s.nodes| && Inv(s, steps) && s.nodes[i].cursor >= |s.log|
    ensures s.nodes[i].cursor == |s.log|
    ensures s.nodes[i].pending.None? ==> s.nodes[i].replica.doc == Run(EMPTY, Ops(s.log))
  {
    assert NodeOk(s.nodes[i], s.log, steps);
    if s.nodes[i].pending.None? { CaughtUpNodeHoldsTheLog(s.nodes[i], s.log, steps); }
  }

  /** Nothing keeps a node from reading on, and when it has read all, with nothing pending, it holds
      the log's document. */
  lemma {:induction false} ReadingOnCatchesUp(s: System, i: nat, steps: nat)
    requires i < |s.nodes| && Inv(s, steps) && steps + |s.log| - s.nodes[i].cursor <= MAX_COUNTER
    ensures var s' := ReadAll(s, i, steps);
            && |s'.nodes| == |s.nodes| && s'.log == s.log && s'.nodes[i].cursor == |s.log|
            && s'.nodes[i].pending == s.nodes[i].pending
            && (s.nodes[i].pending.None? ==> s'.nodes[i].replica.doc == Run(EMPTY, Ops(s.log)))
    decreases |s.log| - s.nodes[i].cursor
  {
    if s.nodes[i].cursor >= |s.log| {
      NothingLeftToRead(s, i, steps);
    } else {
      ReadsOne(s, i, steps);
      ReadingOnCatchesUp(Move(s, i, Consume), i, steps + 1);
    }
  }

  /** Nothing keeps a node from publishing what is pending: it goes to the end of the log, once. */
  lemma PendingIsPublished(s: System, i: nat, steps: nat)
    requires i < |s.nodes| && Inv(s, steps) && s.nodes[i].pending.Some?
    ensures Enabled(s, i, Handle) && Sound(s.nodes[i].replica.doc)
    ensures var s' := Move(s, i, Handle);
            && s'.log == s.log + [Frame(s.nodes[i].replica.name, s.nodes[i].pending.value)]
            && s'.nodes[i].pending.None? && s'.nodes[i].replica == s.nodes[i].replica
  {
    assert NodeOk(s.nodes[i], s.log, steps);
    PublisherKeeps(s.nodes[i], s.log, steps);
  }

  lemma LogIsConsistent(log: seq<Frame>)
    requires LogOk(log)
    ensures Consistent(OpSet(Ops(log)))
  {
  }

  /** A worker pool may hand a node the operations of the log in another order, repeated or not:
      the node ends with the log's document if and only if that order is completed. */
  lemma OutOfOrderAgreesIff(s: System, schedule: seq<(nat, Step)>, n: nat, order: seq<Op>)
    requires Initial(s) && n <= |schedule| <= MAX_COUNTER
    requires OpSet(order) == OpSet(Ops(After(s, schedule, n).log))
    ensures var log := After(s, schedule, n).log;
            Run(EMPTY, order) == Run(EMPTY, Ops(log)) <==> Completed(EMPTY, order)
  {
    var log := After(s, schedule, n).log;
    LogIsConsistent(log);
    EmptyIsSound();
    ConvergesIffCompleted(EMPTY, order, Ops(log));
  }

  /** Nodes that have caught up agree, whatever the schedule that led there. */
  lemma CaughtUpNodesAgree(s: System, schedule: seq<(nat, Step)>, n: nat, i: nat, j: nat)
    requires Initial(s) && n <= |schedule| <= MAX_COUNTER && i < |s.nodes| && j < |s.nodes|
    requires var t := After(s, schedule, n);
             && t.nodes[i].cursor == t.nodes[j].cursor == |t.log|
             && t.nodes[i].pending.None? && t.nodes[j].pending.None?
    ensures var t := After(s, schedule, n);
            var a, b := t.nodes[i].replica.doc, t.nodes[j].replica.doc;
            a == b == Run(EMPTY, Ops(t.log)) && Sound(a) && Text(a) == Text(b)
  {
    var t := After(s, schedule, n);
    assert NodeOk(t.nodes[i], t.log, n) && NodeOk(t.nodes[j], t.log, n);
    CaughtUpNodeHoldsTheLog(t.nodes[i], t.log, n);
    CaughtUpNodeHoldsTheLog(t.nodes[j], t.log, n);
  }

  /** Resolving an insert adds exactly one node under a new identifier; handling the delta it
      became then changes nothing but the log. */
  lemma InsertAddsOneNodeThenReplaysIdly(s: System, schedule: seq<(nat, Step)>, n: nat, i: nat, pos: int, c: Rune)
    requires Initial(s) && n < |schedule| <= MAX_COUNTER && i < |s.nodes|
    requires var t := After(s, schedule, n);
             && t.nodes[i].pending.None? && Sound(t.nodes[i].replica.doc)
             && 0 <= pos <= |VisibleIds(t.nodes[i].replica.doc)|
    ensures var t := After(s, schedule, n);
            var id := NextId(t.nodes[i].replica);
            && !Present(t.nodes[i].replica.doc.nodes, id)
            && (forall f :: f in t.log ==> Stamp(f.op) != id)
            && var t1 := Move(t, i, Resolve(InsertEdit(pos, c)));
               && t1.nodes[i].replica.doc.nodes.Keys == t.nodes[i].replica.doc.nodes.Keys + {id}
               && Sound(t1.nodes[i].replica.doc) && Enabled(t1, i, Handle)
               && Move(t1, i, Handle).nodes[i].replica == t1.nodes[i].replica
  {
    var t := After(s, schedule, n);
    var nd := t.nodes[i];
    assert NodeOk(nd, t.log, n);
    NextIdIsFresh(nd, t.log, n);
    forall f | f in t.log ensures Stamp(f.op) != NextId(nd.replica) {
      var j :| 0 <= j < |t.log| && t.log[j] == f;
      assert Ops(t.log)[j] == f.op;
    }
    ResolveIsReady(nd.replica, InsertEdit(pos, c));
    LocalInsert(nd.replica, pos, c);
    MoveKeepsInv(t, i, Resolve(InsertEdit(pos, c)), n);
    var t1 := Move(t, i, Resolve(InsertEdit(pos, c)));
    assert NodeOk(t1.nodes[i], t1.log, n + 1);
    PublisherKeeps(t1.nodes[i], t1.log, n + 1);
  }
}
