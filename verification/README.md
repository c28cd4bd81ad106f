# Verified model of CRDT-Engine

A Dafny 4.11 model of the collaborative text engine: the Fugue sequence CRDT
(`pkg/crdt/fugue.go`, identifiers from `pkg/crdt/engine.go`), the protocol by which
nodes exchange operations over a shared log (`internal/usecase/sync.go`, the dispatcher
of `cmd/demo-app/main.go`), the worker pool, the hub's client lifecycle and the vector
clock. `dafny verify dfyconfig.toml` checks everything.

## How it is built

| file | content |
|---|---|
| `OpIds.dfy` | identifiers, their order, their string keys |
| `Siblings.dfy` | sibling lists as ascending sequences |
| `Forest.dfy` | the tree as a map from identifier to entry; paths; document order on paths |
| `Traversal.dfy` | the in-order walk and the proof that it is the one listing in document order |
| `Docs.dfy` | documents, operations, visible text, local edits |
| `FugueTree.dfy` | the heap: `FugueNode` and `FugueTree` objects updated in place, proved against the above |
| `Convergence.dfy` | delivery orders, convergence, deletes |
| `Merging.dfy` | state-based merge |
| `Regrouping.dfy` | associativity of merge, for all receivers |
| `Outcomes.dfy` | the least and the greatest outcome of a merge; associativity of three given documents |
| `TwoReplicas.dfy` | runs of two replicas that edit, deliver and merge |
| `Placement.dfy` | where a typed character lands |
| `Blocks.dfy` | contiguous blocks, and when a chain of right children is one |
| `Typing.dfy` | runs of characters and non-interleaving |
| `LiveTyping.dfy` | typing and deleting anywhere while the others' operations keep arriving |
| `Prepending.dfy` | backward typing |
| `Interleaving.dfy` | a small run in which backward typing is interleaved |
| `Witnesses.dfy` | small runs that show why the conditions are needed |
| `Protocol.dfy` | the multi-node protocol as steps over a shared log |
| `SyncUseCase.dfy` | one node's delta handling, message handling and echo filter |
| `WorkerPool.dfy` | the pool as interleaved atomic steps |
| `HubLifecycle.dfy` | the hub as interleaved atomic steps |
| `HubPanics.dfy` | when the hub can still panic |
| `HubRegistry.dfy` | which closed clients the registry holds |
| `HubService.dfy` | whom a broadcast serves; leaving and shutting down |
| `Unused.dfy` | fresh numbers and names |
| `VectorClock.dfy` | vector clocks |

The central device is the path of a node: the turns taken from the sentinel down to it.
Two paths are ordered at the step where they part (left before self before right, siblings
by identifier). `Traversal.OrderIsTheListing` shows that the recursive walk over sorted
child lists lists every node exactly once in this order, and a listing in this order is
unique, so statements about documents become statements about paths: an insert moves
nothing else, replicas share one order, a chain of right children is a block.

The class `FugueTrees.FugueTree` holds what the program holds: a root, a map from string
keys to nodes, child lists, deletion marks and a wrapping 64-bit counter. Each of its methods
states its whole effect through `View()`, the replica value of module `Docs`.

## What the program promises and what it keeps

The documentation states several properties without conditions. The model keeps the code
and proves when they hold.

- "In any order, with any duplicates" (`pkg/crdt/doc.go:21-23`). An insert whose parent is absent
  and a delete whose target is absent are dropped silently, and
  `Convergence.ChildBeforeParentDiverges` is the smallest failure. The exact condition is that the
  delivery order is completed: some of its deliveries alone are in causal order and insert and
  delete all that the whole does, so that what came too early came again later.
  `Convergence.ExactIffCompleted`: exactly the operations are in effect if and only if the order is
  completed. `Convergence.ConvergesIffCompleted`: against a replica served causally, an order
  converges if and only if it is completed. `Convergence.AllTakeEffectIffCausal`: each single
  delivery takes effect if and only if the order is causal.
- "The character lands at pos". `Placement.LandsIffGuard` gives the exact guard on the two
  neighbours. It speaks of visible identifiers: with repeated characters the text can look right
  although the node is elsewhere. `Witnesses.ThirdPrependMisses`: the third of three prepends goes
  to the end.
- "Merge is commutative, associative, idempotent" (`pkg/crdt/doc.go:15-19`). Merge sorts by
  counter alone, and counters do not advance on remote operations, so a child can come before a
  foreign parent and be dropped.
  - One merge is the union for all iteration and tie orders if and only if each source node is
    known, or its parent is known to the receiver or has a smaller counter
    (`Merging.AlwaysUnionIffMergeable`). Repeating it repairs it (`Merging.RepeatedMergeRepairs`).
  - It commutes if and only if the documents agree on shared entries and each is mergeable in this
    sense into the other (`Merging.MergeCommutesIff`); `Witnesses.ThirdReplicaLosesTheReply` is a
    failure among three replicas, and between two there is none (`TwoReplicas.TwoReplicaMerge`).
  - Merging b and then c ends like merging b and c as one, for every receiver, if and only if every
    parent in c has a smaller counter and no parent in b an equal one
    (`Regrouping.AssociatesIff`). For three given documents it is enough that each of the four
    merges finds its source mergeable (`Merging.MergeIsAssociative`), and exact that sorting every
    tie one way in all four merges, or the other way, gives one document
    (`Outcomes.AssociatesHereIff`).
  - It is idempotent without a condition (`Merging.MergeIsIdempotent`).
- The sentinel's own deletion mark, which only a remote delete can set, is not transferred by a
  merge and is not visible; commutativity is stated up to it.
- "No interleaving" (`pkg/crdt/doc.go:4-7`).
  - Forward: a run of two or more characters is one block, in the typist's own document and after
    every exchange, if and only if its first character landed where it was typed
    (`Typing.OwnRunWholeIffStartLands`, `Typing.WholeIffStartLands`); otherwise its second character
    already stands before its first. `Witnesses.RunSplitsWhenItsStartMisses` is such a run.
  - Forward, with operations of others arriving in between in any order, repeated or lost, and
    everybody typing and deleting anywhere: what has arrived of a run is one block if and only if
    nothing foreign hangs inside it (`LiveTyping.LiveRunWholeIff`), so a run nobody types into is
    whole wherever it began (`LiveTyping.LiveRunsStayWhole`).
  - Backward: two characters typed at one position are one block of every exchange if and only if
    the first landed as a right child of its left neighbour
    (`Prepending.WholeInEveryExchangeIff`). If it became a left child, two replicas that do this at
    one place are interleaved character by character (`Prepending.LeftPairsInterleave`;
    `Interleaving.PrependedPairsInterleave` is a run over a one-character text). A third character
    typed there after a right pair goes behind the first one (`Prepending.ThirdGoesBehind`), so three
    or more are never one block where another replica typed too (`Prepending.ThreeAreNeverWhole`).
- "Submit after Stop returns ErrPoolStopped" (`internal/worker/pool.go:6-8`). A submitter between
  the stopped check and the send panics when the queue is closed. `WorkerPool.CanCrashIff`: a pool
  can still panic, in some continuation, if and only if it is not yet marked stopped or somebody
  stands between check and send. A broadcast has the same window; `HubPanics.CanCrashIff`: a hub
  can still panic if and only if its loop still registers clients, or some broadcast is at its send
  or has an open client still to serve.
- `ClientCount` "returns the number of active clients" (`internal/websocket/hub.go:157-162`).
  `HubRegistry.ClosedAndRegisteredIff` says exactly which closed clients the registry holds: those
  whose notice is still outstanding, was given up because of a shutdown, or was taken before the
  registration. The last kind stays for good (`HubRegistry.LeftBehindIffOvertaken`,
  `HubRegistry.ClosedClientCanStayRegistered`). An open client is missing exactly while its
  registration waits or once the loop has left its select (`HubRegistry.OpenAndMissingIff`).
- Merging vector clocks commutes up to `CausalEqual`, and on the maps themselves if and only if
  neither holds an explicit zero where the other holds nothing
  (`VectorClocks.JoinCommutesOnMapsIff`).

## Assumptions

- Each method that holds the tree's lock is one atomic step; `Merge` works on a snapshot.
- Replica names (node identifiers) are distinct.
- The counter is a 64-bit integer that wraps; results about fresh identifiers are for runs of
  fewer than 2^64 steps.
- In the protocol each node handles one client message at a time and reads its frames in order, a
  frame possibly between the two halves of a message, and the log is reliable and totally ordered,
  as in `internal/integration/two_nodes_test.go:68-132`. The demo's pool of eight workers
  (`cmd/demo-app/main.go:52`) does not guarantee that order: a node served in another one ends with
  the log's document if and only if that order is completed (`Protocol.OutOfOrderAgreesIff`).
- A Go string is a byte sequence; a `char` of a replica name stands for one byte. A rune is an
  integer.
- Map iteration, ties in the unstable sort, schedules, publish failures and decoded payloads are
  arbitrary inputs.

## Model

| member | source | states |
|---|---|---|
| OpIds.CompareIsTotal | pkg/crdt/engine.go:20-34 | the comparison is antisymmetric and gives 0 only for equal identifiers |
| OpIds.LessIsTransitive | pkg/crdt/engine.go:20-34 | the sibling order is transitive |
| OpIds.LessIsLexicographic | pkg/crdt/engine.go:20-34 | replica names decide first, counters only between identifiers of one replica |
| OpIds.StringLessAtFirstDifference | pkg/crdt/engine.go:21-26 | names compare at their first differing byte, a proper prefix is smaller |
| OpIds.DecimalReadsBack | pkg/crdt/engine.go:40-42 | the decimal rendering of a counter reads back as that counter |
| OpIds.KeyReads | pkg/crdt/engine.go:40-42 | the key is the name, one colon and the counter in its shortest decimal form |
| OpIds.KeyIsInjective | pkg/crdt/engine.go:40-42 | two identifiers share a string key only if they are equal, whatever colons the replica names hold |
| Siblings.AscendingIsUnique | pkg/crdt/fugue.go:97-109 | a sorted sibling list is determined by its set of identifiers |
| Siblings.SortedIdsAdd | pkg/crdt/fugue.go:97-109 | sorted insertion into the listing of a set is the listing of the larger set |
| FugueTrees.SearchChild | pkg/crdt/fugue.go:99-101 | the binary search finds the first sibling that is not smaller |
| FugueTrees.InsertChild | pkg/crdt/fugue.go:97-109 | search and shift give mathematical sorted-set insertion; a duplicate identifier changes nothing |
| FugueTrees.FugueTree.constructor | pkg/crdt/fugue.go:77-86 | a new tree is valid, empty and at counter 0 |
| FugueTrees.FugueTree.KeyFound | pkg/crdt/fugue.go:93-95 | in a valid tree the string-keyed map holds exactly the present identifiers, each under its own key |
| FugueTrees.FugueTree.GetNode | pkg/crdt/fugue.go:93-95 | a lookup finds the node of the identifier, or nothing when it is absent |
| FugueTrees.FugueTree.NextID | pkg/crdt/fugue.go:88-91 | the counter advances by one, wrapping, and names the new identifier |
| FugueTrees.FugueTree.ApplyInsert | pkg/crdt/fugue.go:208-229 | the heap update is the insert on documents: no-op on a known identifier or absent parent, otherwise one new entry; validity is kept |
| FugueTrees.FugueTree.Attach | pkg/crdt/fugue.go:217-228 | hanging a fresh node under a present parent keeps every child list the sorted listing of its children |
| FugueTrees.FugueTree.ApplyDelete | pkg/crdt/fugue.go:231-235 | the mark is the delete on documents; no node is added or moved |
| FugueTrees.FugueTree.ApplyOperation | pkg/crdt/fugue.go:259-270 | any remote operation keeps the tree valid and has exactly its effect on the document |
| FugueTrees.FugueTree.TraverseNode | pkg/crdt/fugue.go:118-128 | the recursion over the heap ends and appends exactly the walk below the node |
| FugueTrees.FugueTree.VisibleNodes | pkg/crdt/fugue.go:130-139 | the nodes returned are the undeleted ones in document order |
| FugueTrees.FugueTree.ChooseParent | pkg/crdt/fugue.go:200-206 | the comparison on heap nodes is the parent rule on the document |
| FugueTrees.FugueTree.InsertAt | pkg/crdt/fugue.go:143-167 | an error exactly when the position is negative or beyond the length of the text, and then nothing changes, not even the counter; otherwise the replica becomes the one the local edit describes and the operation is returned |
| FugueTrees.FugueTree.DeleteAt | pkg/crdt/fugue.go:171-184 | an error exactly when no visible character is at the position, and then nothing changes; otherwise that character is the target; the map of nodes is untouched |
| FugueTrees.FugueTree.ToString | pkg/crdt/fugue.go:238-248 | the text is the values of the visible nodes in document order |
| FugueTrees.FugueTree.Len | pkg/crdt/fugue.go:251-255 | the length of the text |
| FugueTrees.FugueTree.Snapshot | pkg/crdt/fugue.go:280-295 | the loop over the map collects every node but the sentinel once, and every deleted one, in any order |
| FugueTrees.SortByCounter | pkg/crdt/fugue.go:298-301 | the operations, each once, in ascending counter order |
| FugueTrees.FugueTree.Merge | pkg/crdt/fugue.go:273-312 | the outcome is one of the possible merge outcomes, also when merging a tree into itself; the union when the source is mergeable |
| Forest.AncestorPath | pkg/crdt/fugue.go:208-229 | every prefix of a node's path is the path of an ancestor |
| Forest.PathsAgree | pkg/crdt/fugue.go:208-229 | a node's path never changes and is the same in all trees that agree on shared entries |
| Traversal.OrderIsTheListing | pkg/crdt/fugue.go:111-128 | the walk lists every node exactly once, in document order |
| Traversal.InOrderIsUnique | pkg/crdt/fugue.go:111-128 | there is only one listing of a set of nodes in document order |
| Docs.RunGrows | pkg/crdt/fugue.go:208-235 | any run of operations keeps parent chains grounded, loses and rewrites no node, undoes no tombstone |
| Docs.InsertSplices | pkg/crdt/fugue.go:208-229 | a fresh insert puts one node into the document and moves nothing else |
| Docs.CommonNodesShareOneOrder | pkg/crdt/fugue.go:118-128 | trees that agree on shared entries order all common nodes alike, tombstones included |
| Docs.RefusedIffOutOfRange | pkg/crdt/fugue.go:148-184 | an edit outside the text is refused and changes nothing; any other yields and applies one operation of its kind under the next identifier, the counter modulo 2^64 |
| Docs.TypedSide | pkg/crdt/fugue.go:28-31 | a typed character carries side 0 under its right neighbour if that is a child of the left one, else side 1 under the left one |
| Docs.ResolveIsReady | pkg/crdt/fugue.go:143-184 | the parent of a local insert is present, the target of a local delete is present and visible |
| Convergence.AnyRunBuildsATree | pkg/crdt/fugue.go:77-128 | after arbitrary remote operations the walk lists each node once and each node sits in exactly the child list of its recorded parent and side |
| Convergence.ReplicasShareOneOrder | pkg/crdt/fugue.go:208-229 | replicas order common nodes alike even after deliveries that were not causal |
| Convergence.CausalRunIsExact | pkg/crdt/fugue.go:208-235 | a causal run puts exactly its operations into effect |
| Convergence.ExactIffCompleted | pkg/crdt/fugue.go:208-235 | a delivery order puts exactly its operations into effect if and only if it is completed: causal and still doing everything once some deliveries are left out |
| Convergence.Convergence | pkg/crdt/doc.go:21-23 | the same operations in any completed orders, with any duplicates and redeliveries, build the same document and text |
| Convergence.ConvergesIffCompleted | pkg/crdt/doc.go:21-23 | against a causally served replica, any other order of the same operations converges if and only if it is completed |
| Convergence.AllTakeEffectIffCausal | pkg/crdt/fugue.go:213-216 | every delivered operation takes effect if and only if each comes after its parent or target |
| Convergence.ChildBeforeParentDiverges | pkg/crdt/fugue.go:213-216 | two orders of a parent and a child that end in different documents |
| Convergence.DeleteCommutes | pkg/crdt/fugue.go:231-235 | a delete commutes with another operation unless that one first brings in its target |
| Convergence.DeleteAtRemovesExactlyPos | pkg/crdt/fugue.go:171-184 | deleting at pos removes exactly index pos from the text and leaves the full document unchanged |
| Placement.InsertJoinsVisible | pkg/crdt/fugue.go:143-167 | wherever a fresh character lands, the visible sequence gains it at one place only |
| Placement.LandsIffGuard | pkg/crdt/fugue.go:143-206 | the new character is at pos if and only if the right neighbour is absent, a child of the left one, not below it, or below a right child of it with a larger identifier |
| Placement.GuardedInsertReadsInPlace | pkg/crdt/fugue.go:143-206 | under that guard the text reads with the character at pos |
| Placement.InsertAddsOneCharacter | pkg/crdt/fugue.go:143-167 | without any guard the text gains exactly the one character |
| Placement.AppendLands | pkg/crdt/fugue.go:143-206 | appending always lands |
| Blocks.SubtreeIsABlock | pkg/crdt/fugue.go:118-128 | the nodes below any node stand together in the document |
| Blocks.BlockIffOthersOutside | pkg/crdt/fugue.go:118-128 | nodes in document order are one block if and only if every other node stands before the first or behind the last |
| Blocks.ChainIsABlockIff | pkg/crdt/fugue.go:118-128 | a chain of right children is one block if and only if nothing foreign hangs inside it: on the left of a later link, or on the right before the next one |
| Blocks.ChainIsABlock | pkg/crdt/fugue.go:118-128 | a chain of right children nobody else hangs off is one block in chain order |
| Typing.TypedIsARun | pkg/crdt/fugue.go:143-167 | characters typed at consecutive positions add exactly the replica's next identifiers, wherever they go |
| Typing.CanBeTyped | pkg/crdt/fugue.go:143-167 | every run that starts inside the text and fits the counter can be typed |
| Typing.OwnDocumentIsReplayed | pkg/crdt/fugue.go:143-167 | the operations a run returns are in causal order and build the typist's own document |
| Typing.TypedInPlace | pkg/crdt/fugue.go:143-206 | a run whose first character lands is in place and in order |
| Typing.RunIsChained | pkg/crdt/fugue.go:200-206 | in such a run each further character is the right child of its predecessor |
| Typing.MissedRunIsReversed | pkg/crdt/fugue.go:200-206 | when the first character misses its place the second one stands before it |
| Typing.ExchangesConverge | pkg/crdt/doc.go:21-23 | replicas that exchange runs typed from one document end with the same document, for any completed delivery orders |
| Typing.RunsDoNotInterleave | pkg/crdt/doc.go:4-7 | after the exchange a run whose first character landed is contiguous in the document, the visible sequence and the text, wherever the other runs landed |
| Typing.WholeIffStartLands | pkg/crdt/doc.go:4-7 | after the exchange a run of two or more characters is contiguous, in the document and in what is visible, if and only if its first character landed |
| Typing.OwnRunWholeIffStartLands | pkg/crdt/fugue.go:143-206 | the same for the typist's own document |
| LiveTyping.GoesOnIff | pkg/crdt/fugue.go:143-206 | a character typed behind the last one of an own run goes on with that run unless the character behind it already hangs off that last one |
| LiveTyping.MovesTakeEffect | pkg/crdt/fugue.go:143-235 | what is typed or deleted is applied and sent, a delivery that finds its parent or target is in effect afterwards |
| LiveTyping.MoveKeepsInv | pkg/crdt/fugue.go:143-235 | whatever is typed anywhere, deleted or delivered, in whatever order, each run stays linked wherever it has arrived |
| LiveTyping.AfterHolds | pkg/crdt/fugue.go:143-235 | every interleaving keeps that invariant |
| LiveTyping.EndIsVisible | pkg/crdt/fugue.go:130-167 | a replica finds the last character of its own run in its text unless that is deleted |
| LiveTyping.ArrivedIsAPrefix | pkg/crdt/fugue.go:213-216 | what a replica holds of a run is always its first n characters |
| LiveTyping.LiveRunWholeIff | pkg/crdt/doc.go:4-7 | at every moment on every replica the arrived part of every run is one block of the document, and what of it is visible one block of the text, if and only if nothing foreign hangs inside it |
| LiveTyping.LiveRunsStayWhole | pkg/crdt/doc.go:4-7 | a run nobody typed into is whole at every moment on every replica, wherever it began |
| Prepending.PairIsTyped | pkg/crdt/fugue.go:143-167 | the operations of the pair are those two edits at one position return |
| Prepending.RightPairStaysWhole | pkg/crdt/fugue.go:200-206 | when the first of two prepended characters landed as a right child the pair is one block of every exchange, and what of it is visible one block of the text |
| Prepending.WholeInEveryExchangeIff | pkg/crdt/doc.go:4-7 | with a rival whose next identifier sorts first, the pair is one block of every exchange if and only if the first one landed as a right child |
| Prepending.LeftPairsInterleave | pkg/crdt/fugue.go:200-206 | two pairs prepended at one place, in place on their own replicas, the first ones as left children, are interleaved character by character |
| Prepending.ThirdGoesBehind | pkg/crdt/fugue.go:200-206 | a third character typed at the position of a right pair goes behind the first one |
| Prepending.ThreeAreNeverWhole | pkg/crdt/fugue.go:200-206 | three characters typed backwards are not one block of any document that has a rival's character typed at their position, whatever else it has |
| Interleaving.PrependedPairsInterleave | pkg/crdt/fugue.go:200-206 | two replicas each type two characters at the front of a one-character text, in place; the exchange reads second, second, first, first |
| Merging.MergeIsBetween | pkg/crdt/fugue.go:273-312 | every merge loses nothing, invents nothing and marks every arrived node the source has deleted |
| Merging.MergeIsUnion | pkg/crdt/fugue.go:273-312 | a mergeable source gives the union of nodes and tombstones for every iteration and tie order |
| Merging.AlwaysUnionIffMergeable | pkg/crdt/fugue.go:298-301 | all orders give the union if and only if each source node is known, or its parent is known or has a smaller counter |
| Merging.SomeMergeExists | pkg/crdt/fugue.go:273-312 | every pair of documents has a merge outcome |
| Merging.MergeIsCommutative | pkg/crdt/doc.go:17 | merging two agreeing, mutually mergeable documents either way gives the same nodes, visible marks and text |
| Merging.MergeCommutesIff | pkg/crdt/doc.go:17 | merging either way always shows the same if and only if the documents agree and each is mergeable into the other |
| Merging.MergeIsAssociative | pkg/crdt/doc.go:18 | merging is associative when each of the four merges finds its source mergeable |
| Outcomes.OutcomeIsMerged | pkg/crdt/fugue.go:298-311 | sorting every tie for the child, or every tie against it, is an outcome of some merge |
| Outcomes.MergedIsBounded | pkg/crdt/fugue.go:298-311 | every outcome of a merge lies between these two |
| Outcomes.AssociatesHereIff | pkg/crdt/doc.go:18 | two groupings of three given documents always end alike if and only if the four merges with all ties sorted one way and with all ties sorted the other way give one document |
| Regrouping.ArrivalIsDecided | pkg/crdt/fugue.go:298-311 | without a tie a new node arrives if and only if its parent is in the receiver, or arrives and has the smaller counter |
| Regrouping.LadderedAssociates | pkg/crdt/doc.go:18 | for any receiver the groupings agree when all parents in the second source have smaller counters and none in the first an equal one |
| Regrouping.AssociatesIff | pkg/crdt/doc.go:18 | the groupings agree for all receivers and all orders if and only if that holds |
| Merging.MergeIsIdempotent | pkg/crdt/doc.go:19 | merging a document into itself changes nothing, with no condition |
| Merging.MergeAbsorbs | pkg/crdt/doc.go:19 | repeating a merge that was the union changes nothing |
| Merging.MergeKeepsLadders | pkg/crdt/fugue.go:298-301 | the condition that parents have smaller counters survives merging |
| Merging.RepeatedMergeRepairs | pkg/crdt/fugue.go:273-312 | as many merges as the longest parent chain give the union with no assumption on counters |
| Merging.LargerParentCounterLosesTheChild | pkg/crdt/fugue.go:298-301 | a node whose absent parent has the larger counter is lost in every order |
| TwoReplicas.StepsTakeEffect | pkg/crdt/fugue.go:143-235 | an edit in range is applied and sent, a delivery that finds its parent or target is in effect afterwards |
| TwoReplicas.NextKeepsInv | pkg/crdt/fugue.go:88-91 | edits, deliveries and merges keep that each replica holds all its own nodes and that same-replica parents are older |
| TwoReplicas.NextIdUnused | pkg/crdt/fugue.go:88-91 | a local identifier occurs in no tree and no operation in flight |
| TwoReplicas.TwoReplicaMerge | pkg/crdt/fugue.go:272-312 | after any run of two replicas one merge is exactly the union and merging back makes the documents identical |
| Witnesses.ThirdPrependMisses | pkg/crdt/fugue.go:201-206 | three edits at position 0 give the third character at the end |
| Witnesses.RunSplitsWhenItsStartMisses | pkg/crdt/fugue.go:201-206 | two characters typed in a row at the front end up apart and reversed |
| Witnesses.SomeFirstText | pkg/crdt/fugue.go:143-167 | there are such texts, so the next row speaks of something |
| Witnesses.ThirdReplicaLosesTheReply | pkg/crdt/fugue.go:298-301 | a reply to a text of two or more characters is lost by a third replica's merge, while the merge the other way keeps it |
| Protocol.ResolveKeeps | cmd/demo-app/main.go:227-240 | resolving an intent keeps the node equal to what it has seen, with a causally ready operation waiting |
| Protocol.NextIdIsFresh | pkg/crdt/fugue.go:88-91 | a node's next identifier differs from every identifier in its tree and in the log |
| Protocol.PublisherKeeps | internal/usecase/sync.go:101-113 | handling the local delta changes no document and moves the operation to the log |
| Protocol.ConsumeKeeps | cmd/demo-app/main.go:186-205 | reading the next frame, echo or foreign, between messages or in the middle of one, leaves its operation in effect |
| Protocol.NextFrameIsReady | cmd/demo-app/main.go:186-205 | the parent or target of the next frame is present at the reader |
| Protocol.MoveKeepsInv | cmd/demo-app/main.go:186-266 | every step of every node keeps the invariant of the system |
| Protocol.NodeHoldsWhatItSaw | internal/usecase/sync.go:86-116 | in every reachable state a node's document is exactly its own operations plus the log prefix it has read |
| Protocol.LogIsCausalAndOnce | internal/usecase/sync.go:109-113 | in every reachable log each parent or target comes earlier and no operation occurs twice |
| Protocol.ConsumedOpsTakeEffect | cmd/demo-app/main.go:186-205 | no consumed operation is dropped and consuming publishes nothing |
| Protocol.ReadingOnCatchesUp | cmd/demo-app/main.go:186-205 | nothing keeps a node from reading the rest of the log, and then, with nothing pending, it holds the log's document |
| Protocol.PendingIsPublished | internal/usecase/sync.go:109-113 | nothing keeps a node from publishing what is pending: it goes once to the end of the log |
| Protocol.CaughtUpNodesAgree | internal/integration/two_nodes_test.go:196-249 | nodes that have read and published everything hold the same document and text, that of the log |
| Protocol.OutOfOrderAgreesIff | cmd/demo-app/main.go:186-205 | a node that is served the operations of a reachable log in another order, repeated or not, ends with the log's document if and only if that order is completed |
| Protocol.InsertAddsOneNodeThenReplaysIdly | cmd/demo-app/main.go:237-248 | an insert intent adds exactly one node under a new identifier and its second application changes nothing |
| SyncUseCases.DocumentNode.HandleDelta | internal/usecase/sync.go:86-141 | which field of the payload each kind reads, error cases, application, fan-out to all but the sender, publication only of local deltas, and what a failed publish leaves behind |
| SyncUseCases.DocumentNode.HandleFrame | cmd/demo-app/main.go:186-205 | echoes, undecodable frames and frames that name no document change nothing, other foreign frames are applied and fanned out but never published |
| SyncUseCases.DocumentNode.HandleIntent | cmd/demo-app/main.go:228-266 | an intent has the effect of the local edit once, although its delta is applied again, and is published once |
| SyncUseCases.DocumentNode.HandleClientMsg | cmd/demo-app/main.go:221-281 | which field each kind reads, error, tree, fan-out and publication for every kind of message, decodable or not; an intent for the empty document name is applied and then refused |
| SyncUseCases.ApplyTwiceIsApplyOnce | pkg/crdt/fugue.go:208-235 | applying an operation twice in a row is applying it once |
| SyncUseCases.IntentIsResolveThenHandle | cmd/demo-app/main.go:221-266 | handling an intent in one piece is two steps of the protocol |
| WorkerPool.DoKeepsInv | internal/worker/pool.go:64-129 | every atomic step of submitters, workers and stoppers keeps conservation and the order of stopping |
| WorkerPool.NoJobIsLostOrRunTwice | internal/worker/pool.go:64-98 | in every interleaving each accepted job is exactly once queued, running or finished, others nowhere, and jobs start in order of acceptance |
| WorkerPool.RefusedOnlyIf | internal/worker/pool.go:75-98 | a submission is refused only when the pool is marked stopped, or when it is a try and the queue has no room |
| WorkerPool.EverySubmissionCanGetIn | internal/worker/pool.go:75-98 | before a stop every fresh submission, blocking or trying, can still be accepted, with room in three steps |
| WorkerPool.StoppedMeansFinished | internal/worker/pool.go:107-129 | once a call of Stop has returned, in time or late, all accepted jobs have finished exactly once, the jobs' context is cancelled and none can be accepted |
| WorkerPool.LateStopSignals | internal/worker/pool.go:123-127 | a call of Stop whose context has ended has cancelled the jobs' context |
| WorkerPool.TimelyIffNoTimeout | internal/worker/pool.go:119-128 | Stop answers without an error if and only if its context did not end while it waited |
| WorkerPool.StopCanReturn | internal/worker/pool.go:107-129 | in every reachable state without a panic every call of Stop can still return: nothing deadlocks |
| WorkerPool.CanCrashIff | internal/worker/pool.go:75-111 | a pool that has not panicked can still do so in some continuation if and only if it is not marked stopped or a submitter is between check and send |
| WorkerPool.ShutPoolNeverCrashes | internal/worker/pool.go:75-111 | marked stopped with nobody in that window, the pool never panics afterwards |
| WorkerPool.OpenPoolIsSafe | internal/worker/pool.go:75-98 | before the queue is closed no run panics |
| HubLifecycle.DoKeepsInv | internal/websocket/hub.go:51-155 | every atomic step of the loop and of unregistering parties keeps one winner per closed client and the registry's books |
| HubLifecycle.ExactlyOneWinner | internal/websocket/hub.go:113-122 | a closed client has exactly one party that closed or still has to close its channel; no channel is closed twice or while its client is open |
| HubLifecycle.ReturnedMeansAllClosed | internal/websocket/hub.go:139-155 | when the loop has returned the registry is empty and every client it ever registered is marked closed |
| HubLifecycle.ClosedChannelFailsTheCheck | internal/websocket/client.go:91-102 | a broadcast that checks after the channel was closed unregisters instead of sending |
| HubLifecycle.TargetsAreTheOthersOfTheDocument | internal/websocket/hub.go:78-95 | the targets every broadcast step serves are exactly the registered clients of its document other than the sender |
| HubService.BroadcastServesAll | internal/websocket/hub.go:78-99 | when a broadcast is done it has looked exactly once at every client selected when it began and at nobody else; each got the message once or is marked closed |
| HubService.OpenClientCanBeSent | internal/websocket/client.go:91-102 | a broadcast that comes to an open client can send to it in its next two steps |
| HubService.OpenClientCanLeave | internal/websocket/hub.go:113-136 | an open client of a running hub can be taken out of the registry by an unregister call |
| HubService.ShutdownCanReturn | internal/websocket/hub.go:103-106 | from every state without a panic a shutdown lets the loop return |
| HubPanics.CanCrashIff | internal/websocket/client.go:91-102 | a hub that has not panicked can still do so in some continuation if and only if its loop registers clients, or a broadcast is at its send or has an open client still to serve |
| HubPanics.SafeHubNeverCrashes | internal/websocket/hub.go:139-155 | after the registry is emptied, with no broadcast so exposed, the hub never panics |
| HubRegistry.DoKeepsNotices | internal/websocket/hub.go:57-136 | every step keeps that a client is registered once and its notice sent once, and that the registry is those registered minus those taken out in time |
| HubRegistry.ClosedAndRegisteredIff | internal/websocket/hub.go:57-136 | in every reachable state the registry holds a closed client if and only if the loop has not shut down, it was registered, and its notice is outstanding, was given up or was taken before the registration |
| HubRegistry.OpenAndMissingIff | internal/websocket/hub.go:57-66 | a connected open client is missing from the registry if and only if its registration waits or the loop has left its select |
| HubRegistry.LeftBehindIffOvertaken | internal/websocket/hub.go:57-69 | before a shutdown, its notice dealt with, a closed client stays in the registry if and only if it was registered after its notice was taken |
| HubRegistry.TakenInTimeNeverReturns | internal/websocket/hub.go:124-136 | a client registered before its notice was taken never returns to the registry |
| HubRegistry.ClosedClientCanStayRegistered | internal/websocket/hub.go:57-69 | a run in which a closed client is left in the registry with no notice about it left |
| VectorClocks.LeqIsAPartialOrder | pkg/crdt/vclock.go:57-95 | the causal order is reflexive, transitive and antisymmetric up to equal components |
| VectorClocks.DecidedByComponents | pkg/crdt/vclock.go:84-94 | each of the four answers by components: all equal; none larger and some smaller; none smaller and some larger; some larger and some smaller |
| VectorClocks.JoinIsLeastUpperBound | pkg/crdt/vclock.go:39-55 | the merged clock is above both and below every clock that is above both |
| VectorClocks.JoinLaws | pkg/crdt/vclock.go:39-55 | merging is commutative and associative up to equal components, idempotent on the map itself |
| VectorClocks.JoinCommutesOnMapsIff | pkg/crdt/vclock.go:50-54 | on the maps merging commutes if and only if neither holds an explicit zero where the other holds nothing |
| VectorClocks.JoinIsNotCommutativeOnMaps | pkg/crdt/vclock.go:50-54 | explicit zeros survive on one side only |
| VectorClocks.VectorClock.Increment | pkg/crdt/vclock.go:21-25 | one component grows by one, wrapping; without wrapping the old clock is strictly before the new one |
| VectorClocks.VectorClock.Set | pkg/crdt/vclock.go:33-37 | one component is replaced; the clock moves up, down or not at all in the causal order as the value says |
| VectorClocks.VectorClock.Merge | pkg/crdt/vclock.go:39-55 | the loop in any order leaves the join of the two clocks |
| VectorClocks.VectorClock.Compare | pkg/crdt/vclock.go:57-95 | the two flags decide before, after, equal or concurrent exactly, absent entries reading as zero |
| VectorClocks.VectorClock.Copy | pkg/crdt/vclock.go:97-105 | the copy is a new clock with the same components |

## Left out

- ToString: the text is a sequence of runes; their UTF-8 encoding and the replacement of invalid
  runes are not modelled.
- Protocol.MoveKeepsInv: covers intents; raw `fugue_insert` and `fugue_delete` client messages, whose
  operations no tree of the system produced, are handled by `HandleClientMsg` but are not steps of
  the protocol.
- HandleDelta: the tree is the one the repository hands out; the repository itself, several documents
  on one node and the creation of a document by an undecodable delta are not modelled.
- StopCanReturn: some continuation returns the call; that it does return needs jobs that end and a
  fair scheduler, which the model does not assume.
- TargetsAreTheOthersOfTheDocument: a client stands for its identifier; two clients that drew the
  same random identifier are not modelled.
- The grow-only set, the two-phase set and the last-writer-wins register: plain unions and maxima.
- HTTP, WebSocket pumps, Redis client calls, JSON, Docker, CI and the HTML client: input, output and
  library plumbing; payloads arrive decoded.
- Message loss, late subscription, reconnects: the log is assumed reliable.
- The tree's and the clock's locks: each locked body is one step.
- Rendering a vector clock as a string: its order of components is unspecified.
- Epoch garbage collection, run-length blocks, B-trees, PostgreSQL: planned, not present in the code.
