/** One node at work on one document: deltas, client messages and frames from the other
    nodes, applied to the document's tree, fanned out and published. */
module SyncUseCases {
  import opened OpIds
  import opened Forest
  import opened Docs
  import opened FugueTrees
  import Protocol

  datatype Origin = OriginLocal | OriginRemote

  const FUGUE_INSERT := "fugue_insert"
  const FUGUE_DELETE := "fugue_delete"
  const INSERT_INTENT := "insert_intent"
  const DELETE_INTENT := "delete_intent"

  datatype InsertFields = InsertFields(id: OpID, entry: Entry)

  datatype DeleteFields = DeleteFields(target: OpID, source: OpID)

  /** What decoding a payload as each of the four message shapes gives; None is a failure, an
      insert intent without a character among them. */
  datatype Payload = Payload(
    insert: Option<InsertFields>,
    delete: Option<DeleteFields>,
    insertIntent: Option<(int, Rune)>,
    deleteIntent: Option<int>)

  const NO_PAYLOAD := Payload(None, None, None, None)

  datatype Delta = Delta(documentID: string, kind: string, payload: Payload, senderID: string, origin: Origin)

  datatype Error = EmptyDocumentID | DecodeFailed | PublishFailed | OutOfRange | UnknownMessage

  /** A delta for the clients of this node, all but the excluded sender. */
  datatype Fanout = Fanout(op: Op, excluded: string)

  /** The operation a delta or a raw client message carries. */
  function DecodeOp(kind: string, p: Payload): Option<Op> {
    if kind == FUGUE_INSERT && p.insert.Some? then Some(Insert(p.insert.value.id, p.insert.value.entry))
    else if kind == FUGUE_DELETE && p.delete.Some? then Some(Delete(p.delete.value.target, p.delete.value.source))
    else None
  }

  function DecodeIntent(kind: string, p: Payload): Option<Edit> {
    if kind == INSERT_INTENT && p.insertIntent.Some? then
      Some(InsertEdit(p.insertIntent.value.0, p.insertIntent.value.1))
    else if kind == DELETE_INTENT && p.deleteIntent.Some? then Some(DeleteEdit(p.deleteIntent.value))
    else None
  }

  /** The payload of a locally produced delta has only the field of its kind. */
  function Encode(op: Op): (p: Payload)
    ensures DecodeOp(if op.Insert? then "fugue_insert" else "fugue_delete", p) == Some(op)
  {
    match op
    case Insert(id, e) => NO_PAYLOAD.(insert := Some(InsertFields(id, e)))
    case Delete(target, source) => NO_PAYLOAD.(delete := Some(DeleteFields(target, source)))
  }

  predicate IsRaw(kind: string) {
    kind == FUGUE_INSERT || kind == FUGUE_DELETE
  }

  /** What a client message asks for. */
  datatype Meaning = Intent(e: Edit) | Raw(op: Op) | Undecodable | Unknown

  function MeaningOf(kind: string, p: Payload): Meaning {
    if IsRaw(kind) then (if DecodeOp(kind, p).None? then Undecodable else Raw(DecodeOp(kind, p).value))
    else if kind == INSERT_INTENT || kind == DELETE_INTENT then
      (if DecodeIntent(kind, p).None? then Undecodable else Intent(DecodeIntent(kind, p).value))
    else Unknown
  }

  /** How a decodable local delta can fail. */
  function DeltaError(documentID: string, publishFails: bool): Option<Error> {
    if documentID == "" then Some(EmptyDocumentID)
    else if publishFails then Some(PublishFailed)
    else None
  }

  class DocumentNode {
    const nodeID: string
    /** The document's tree, as the repository hands it out. */
    const tree: FugueTree
    const hasBroadcaster: bool
    const hasPublisher: bool
    /** Everything handed to the two ports so far. */
    var fanouts: seq<Fanout>
    var published: seq<Protocol.Frame>

    ghost predicate Valid()
      reads tree, tree.nodes.Values
    {
      tree.Valid() && tree.replicaID == nodeID
    }

    constructor (nodeID: string, hasBroadcaster: bool, hasPublisher: bool)
      ensures Valid() && fresh(tree) && fresh(tree.nodes.Values)
      ensures tree.View() == Replica(nodeID, 0, EMPTY) && fanouts == [] && published == []
      ensures this.nodeID == nodeID && this.hasBroadcaster == hasBroadcaster && this.hasPublisher == hasPublisher
    {
      this.nodeID, this.hasBroadcaster, this.hasPublisher := nodeID, hasBroadcaster, hasPublisher;
      tree := new FugueTree(nodeID);
      fanouts, published := [], [];
    }

    /** HandleDelta: decode, apply, fan out always, publish only what is local. A failed publish
        is reported after the tree and the clients already have the operation. */
    method HandleDelta(d: Delta, publishOk: bool) returns (err: Option<Error>)
      requires Valid()
      modifies this, tree, tree.nodes.Values
      ensures Valid()
      ensures err == (if d.documentID == "" then Some(EmptyDocumentID)
                      else if DecodeOp(d.kind, d.payload).None? then Some(DecodeFailed)
                      else if d.origin.OriginLocal? && hasPublisher && !publishOk then Some(PublishFailed)
                      else None)
      ensures d.documentID == "" || DecodeOp(d.kind, d.payload).None? ==>
                tree.View() == old(tree.View()) && fanouts == old(fanouts) && published == old(published)
      ensures d.documentID != "" && DecodeOp(d.kind, d.payload).Some? ==>
                var op := DecodeOp(d.kind, d.payload).value;
                && tree.View() == old(tree.View()).(doc := Apply(old(tree.doc), op))
                && fanouts == old(fanouts) + (if hasBroadcaster then [Fanout(op, d.senderID)] else [])
                && published == old(published) +
                     (if d.origin.OriginLocal? && hasPublisher && publishOk then [Protocol.Frame(nodeID, op)] else [])
      ensures d.documentID != "" && d.kind == "fugue_insert" && d.payload.insert.Some? ==>
                var i := d.payload.insert.value;
                tree.doc == Apply(old(tree.doc), Insert(i.id, i.entry))
      ensures d.documentID != "" && d.kind == "fugue_delete" && d.payload.delete.Some? ==>
                var i := d.payload.delete.value;
                tree.doc == Apply(old(tree.doc), Delete(i.target, i.source))
      ensures err == Some(DecodeFailed) <==>
                d.documentID != "" && !(d.kind == "fugue_insert" && d.payload.insert.Some?)
                                   && !(d.kind == "fugue_delete" && d.payload.delete.Some?)
    {
      if d.documentID == "" {
        return Some(EmptyDocumentID);
      }
      var decoded := DecodeOp(d.kind, d.payload);
      if decoded.None? {
        return Some(DecodeFailed);
      }
      var op := decoded.value;
      tree.ApplyOperation(op);
      if hasBroadcaster {
        fanouts := fanouts + [Fanout(op, d.senderID)];
      }
      if d.origin.OriginLocal? && hasPublisher {
        if !publishOk {
          return Some(PublishFailed);
        }
        published := published + [Protocol.Frame(nodeID, op)];
      }
      return None;
    }

    /** runRedis: a frame of this node is an echo and is skipped; any other one is handled as
        remote, so that it reaches the clients but never the log again. A frame that names no
        document or does not decode is an error and changes nothing. */
    method HandleFrame(documentID: string, kind: string, payload: Payload, originNodeID: string)
      requires Valid()
      modifies this, tree, tree.nodes.Values
      ensures Valid() && published == old(published)
      ensures var op := DecodeOp(kind, payload);
              var handled := originNodeID != nodeID && documentID != "" && op.Some?;
              && tree.View() == (if handled then old(tree.View()).(doc := Apply(old(tree.doc), op.value))
                                 else old(tree.View()))
              && fanouts == old(fanouts) + (if handled && hasBroadcaster then [Fanout(op.value, "")] else [])
      ensures originNodeID != nodeID && documentID != "" && kind == "fugue_insert" && payload.insert.Some? ==>
                var i := payload.insert.value;
                tree.doc == Apply(old(tree.doc), Insert(i.id, i.entry))
      ensures originNodeID != nodeID && documentID != "" && kind == "fugue_delete" && payload.delete.Some? ==>
                var i := payload.delete.value;
                tree.doc == Apply(old(tree.doc), Delete(i.target, i.source))
    {
      if originNodeID == nodeID {
        return;
      }
      var _ := HandleDelta(Delta(documentID, kind, payload, "", OriginRemote), true);
    }

    /** handleClientMsg: an intent is resolved on the local tree and its operation handled as a
        local delta, a raw operation is handled as a local delta, anything else is an error.
        An intent for the empty document name is applied before it is refused. */
    method HandleClientMsg(documentID: string, kind: string, payload: Payload, senderID: string, publishOk: bool)
      returns (err: Option<Error>)
      requires Valid()
      modifies this, tree, tree.nodes.Values
      ensures Valid()
      ensures err == (match MeaningOf(kind, payload)
                      case Unknown => Some(UnknownMessage)
                      case Undecodable =>
                        Some(if documentID == "" && IsRaw(kind) then EmptyDocumentID else DecodeFailed)
                      case Intent(e) =>
                        if Local(old(tree.View()), e).1.None? then Some(OutOfRange)
                        else DeltaError(documentID, hasPublisher && !publishOk)
                      case Raw(op) => DeltaError(documentID, hasPublisher && !publishOk))
      ensures var m := MeaningOf(kind, payload);
              var op := match m
                        case Intent(e) => Local(old(tree.View()), e).1
                        case Raw(op) => Some(op)
                        case _ => None;
              var sent := op.Some? && documentID != "";
              && tree.View() == (match m
                                 case Intent(e) => Local(old(tree.View()), e).0
                                 case Raw(op) => if sent then old(tree.View()).(doc := Apply(old(tree.doc), op))
                                                 else old(tree.View())
                                 case _ => old(tree.View()))
              && fanouts == old(fanouts) + (if sent && hasBroadcaster then [Fanout(op.value, senderID)] else [])
              && published == old(published) +
                   (if sent && hasPublisher && publishOk then [Protocol.Frame(nodeID, op.value)] else [])
      ensures kind == "insert_intent" && payload.insertIntent.Some? ==>
                var (pos, c) := payload.insertIntent.value;
                tree.View() == Local(old(tree.View()), InsertEdit(pos, c)).0
      ensures kind == "delete_intent" && payload.deleteIntent.Some? ==>
                tree.View() == Local(old(tree.View()), DeleteEdit(payload.deleteIntent.value)).0
      ensures documentID != "" && kind == "fugue_insert" && payload.insert.Some? ==>
                var i := payload.insert.value;
                tree.doc == Apply(old(tree.doc), Insert(i.id, i.entry))
      ensures documentID != "" && kind == "fugue_delete" && payload.delete.Some? ==>
                var i := payload.delete.value;
                tree.doc == Apply(old(tree.doc), Delete(i.target, i.source))
      ensures err == Some(UnknownMessage) <==>
                kind !in {"insert_intent", "delete_intent", "fugue_insert", "fugue_delete"}
      ensures kind == "insert_intent" && payload.insertIntent.None? ==>
                err == Some(DecodeFailed) && tree.View() == old(tree.View())
      ensures kind == "delete_intent" && payload.deleteIntent.None? ==>
                err == Some(DecodeFailed) && tree.View() == old(tree.View())
    {
      if IsRaw(kind) {
        err := HandleDelta(Delta(documentID, kind, payload, senderID, OriginLocal), publishOk);
        return;
      }
      if kind != INSERT_INTENT && kind != DELETE_INTENT {
        return Some(UnknownMessage);
      }
      var intent := DecodeIntent(kind, payload);
      if intent.None? {
        return Some(DecodeFailed);
      }
      err := HandleIntent(documentID, intent.value, senderID, publishOk);
    }

    /** The two intent branches. */
    method HandleIntent(documentID: string, e: Edit, senderID: string, publishOk: bool) returns (err: Option<Error>)
      requires Valid()
      modifies this, tree, tree.nodes.Values
      ensures Valid()
      ensures var (r, op) := Local(old(tree.View()), e);
              var sent := op.Some? && documentID != "";
              && tree.View() == r
              && err == (if op.None? then Some(OutOfRange)
                         else DeltaError(documentID, hasPublisher && !publishOk))
              && fanouts == old(fanouts) + (if sent && hasBroadcaster then [Fanout(op.value, senderID)] else [])
              && published == old(published) +
                   (if sent && hasPublisher && publishOk then [Protocol.Frame(nodeID, op.value)] else [])
    {
      var op: Option<Op>;
      match e {
        case InsertEdit(pos, c) => op := tree.InsertAt(pos, c);
        case DeleteEdit(pos) => op := tree.DeleteAt(pos);
      }
      if op.None? {
        return Some(OutOfRange);
      }
      ApplyTwiceIsApplyOnce(old(tree.doc), op.value);
      var kind := if op.value.Insert? then FUGUE_INSERT else FUGUE_DELETE;
      err := HandleDelta(Delta(documentID, kind, Encode(op.value), senderID, OriginLocal), publishOk);
    }
  }

  /** The delta a local edit becomes is applied a second time without effect. */
  lemma ApplyTwiceIsApplyOnce(d: Doc, op: Op)
    ensures Apply(Apply(d, op), op) == Apply(d, op)
  {
  }

  /** An intent handled in one piece is a Resolve followed by a Handle of the protocol. */
  lemma IntentIsResolveThenHandle(s: Protocol.System, i: nat, e: Edit)
    requires i < |s.nodes| && s.nodes[i].pending.None? && Sound(s.nodes[i].replica.doc)
    requires InRange(s.nodes[i].replica.doc, e)
    ensures var (r, op) := Local(s.nodes[i].replica, e);
            var s1 := Protocol.Move(s, i, Protocol.Resolve(e));
            && op.Some? && Protocol.Enabled(s1, i, Protocol.Handle) && Sound(s1.nodes[i].replica.doc)
            && Protocol.Move(s1, i, Protocol.Handle) ==
                 Protocol.System(s.nodes[i := Protocol.Node(r, s.nodes[i].cursor, None)],
                                 s.log + [Protocol.Frame(s.nodes[i].replica.name, op.value)])
  {
    LocalGrows(s.nodes[i].replica, e);
    ApplyTwiceIsApplyOnce(s.nodes[i].replica.doc, Docs.Resolve(s.nodes[i].replica, e));
  }
}
