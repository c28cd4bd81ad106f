/** The hub's client lifecycle as interleaved atomic steps: the dispatcher loop, any number of
    parties that broadcast or unregister clients, and shutdown. */
module HubLifecycle {

  type Client = nat
  type Party = nat

  /** The capacity of the two administrative channels. */
  const ROOM := 16

  /** What a party does to one client. A broadcast checks whether the client is closed and then
      tries to send; a closed or slow client it unregisters. A read pump that ends unregisters at
      once. Unregistering is a swap, for the winner the closing of the send channel, a notice. */
  datatype Stage = Checking | Sending | AtSwap | Won | ChannelClosed | Finished

  /** The client a party is at, and the selected ones its broadcast has still to serve. */
  datatype Task = Task(client: Client, stage: Stage, todo: seq<Client>)

  /** The dispatcher: in its select, closing the clients of its snapshot, or returned. The
      client whose swap it won last still has its channel to be closed. */
  datatype Dispatcher = Selecting | ClosingAll(rest: seq<Client>, won: seq<Client>) | Returned

  datatype Hub = Hub(
    documentOf: map<Client, string>,
    clients: map<string, set<Client>>,
    registering: seq<Client>,
    unregistering: seq<Client>,
    cancelled: bool,
    run: Dispatcher,
    closed: set<Client>,
    parties: map<Party, Task>,
    closings: seq<Client>,
    everRegistered: set<Client>,
    /** History: whose notice was taken, whose before its registration, whose was given up. */
    taken: set<Client>,
    overtaken: set<Client>,
    dropped: set<Client>,
    crashed: bool)

  datatype Step =
    | Connect(c: Client, documentID: string)
    | CallUnregister(p: Party, c: Client)
    | Broadcast(p: Party, documentID: string, sender: Client, order: seq<Client>)
    | Next(p: Party)
    | Check(p: Party)
    | Send(p: Party)
    | FindSlow(p: Party)
    | SendOnClosed(p: Party)
    | Swap(p: Party)
    | CloseChannel(p: Party)
    | Notify(p: Party)
    | GiveUp(p: Party)
    | TakeRegister
    | TakeUnregister
    | Shutdown
    | SeeShutdown(order: seq<Client>)
    | CloseNext
    | CloseWon
    | Return

  predicate PartyAt(s: Hub, p: Party, stage: Stage) {
    p in s.parties && s.parties[p].stage == stage
  }

  predicate ChannelIsClosed(s: Hub, c: Client) {
    c in s.closings
  }

  function Registered(s: Hub): set<Client> {
    set d, c | d in s.clients && c in s.clients[d] :: c
  }

  /** The clients a broadcast selects. */
  function Targets(s: Hub, documentID: string, sender: Client): set<Client> {
    if documentID in s.clients then s.clients[documentID] - {sender} else {}
  }

  ghost predicate NoRepeats(cs: seq<Client>) {
    forall i, j :: 0 <= i < j < |cs| ==> cs[i] != cs[j]
  }

  /** Lists exactly these clients, each once: a map iteration in any order. */
  ghost predicate Lists(cs: seq<Client>, clients: set<Client>) {
    NoRepeats(cs) && forall c :: c in cs <==> c in clients
  }

  /** Both queues hold ROOM clients at most; a blocked sender is a step that is not enabled.
      Whether a client's own buffer is full is left open; a send on a closed channel panics. */
  ghost predicate Enabled(s: Hub, step: Step) {
    !s.crashed &&
    match step
    case Connect(c, _) => c !in s.documentOf && |s.registering| < ROOM
    case CallUnregister(p, c) => p !in s.parties && c in s.documentOf
    case Broadcast(p, d, sender, order) => p !in s.parties && order != [] && Lists(order, Targets(s, d, sender))
    case Next(p) => PartyAt(s, p, Finished) && s.parties[p].todo != []
    case Check(p) => PartyAt(s, p, Checking)
    case Send(p) => PartyAt(s, p, Sending) && !ChannelIsClosed(s, s.parties[p].client)
    case FindSlow(p) => PartyAt(s, p, Sending) && !ChannelIsClosed(s, s.parties[p].client)
    case SendOnClosed(p) => PartyAt(s, p, Sending) && ChannelIsClosed(s, s.parties[p].client)
    case Swap(p) => PartyAt(s, p, AtSwap)
    case CloseChannel(p) => PartyAt(s, p, Won)
    case Notify(p) => PartyAt(s, p, ChannelClosed) && |s.unregistering| < ROOM
    case GiveUp(p) => PartyAt(s, p, ChannelClosed) && s.cancelled
    case TakeRegister => s.run.Selecting? && s.registering != [] && s.registering[0] in s.documentOf
    case TakeUnregister => s.run.Selecting? && s.unregistering != [] && s.unregistering[0] in s.documentOf
    case Shutdown => true
    case SeeShutdown(order) => s.run.Selecting? && s.cancelled && Lists(order, Registered(s))
    case CloseNext => s.run.ClosingAll? && s.run.rest != [] && s.run.won == []
    case CloseWon => s.run.ClosingAll? && s.run.won != []
    case Return => s.run.ClosingAll? && s.run.rest == [] && s.run.won == []
  }

  function AddClient(clients: map<string, set<Client>>, d: string, c: Client): map<string, set<Client>> {
    clients[d := (if d in clients then clients[d] else {}) + {c}]
  }

  /** removeClient: an unknown document is left alone, an emptied one is dropped. */
  function RemoveClient(clients: map<string, set<Client>>, d: string, c: Client): map<string, set<Client>> {
    if d !in clients then clients
    else if clients[d] - {c} == {} then clients - {d}
    else clients[d := clients[d] - {c}]
  }

  function At(s: Hub, p: Party, stage: Stage): Hub
    requires p in s.parties
  {
    s.(parties := s.parties[p := s.parties[p].(stage := stage)])
  }

  ghost function Do(s: Hub, step: Step): Hub
    requires Enabled(s, step)
  {
    match step
    case Connect(c, d) => s.(documentOf := s.documentOf[c := d], registering := s.registering + [c])
    case CallUnregister(p, c) => s.(parties := s.parties[p := Task(c, AtSwap, [])])
    case Broadcast(p, _, _, order) => s.(parties := s.parties[p := Task(order[0], Checking, order[1..])])
    case Next(p) =>
      var todo := s.parties[p].todo;
      s.(parties := s.parties[p := Task(todo[0], Checking, todo[1..])])
    case Check(p) => At(s, p, if s.parties[p].client in s.closed then AtSwap else Sending)
    case Send(p) => At(s, p, Finished)
    case FindSlow(p) => At(s, p, AtSwap)
    case SendOnClosed(p) => s.(crashed := true)
    case Swap(p) =>
      var c := s.parties[p].client;
      At(s, p, if c in s.closed then Finished else Won).(closed := s.closed + {c})
    case CloseChannel(p) => At(s, p, ChannelClosed).(closings := s.closings + [s.parties[p].client])
    case Notify(p) => At(s, p, Finished).(unregistering := s.unregistering + [s.parties[p].client])
    case GiveUp(p) => At(s, p, Finished).(dropped := s.dropped + {s.parties[p].client})
    case TakeRegister =>
      var c := s.registering[0];
      s.(registering := s.registering[1..],
         clients := AddClient(s.clients, s.documentOf[c], c),
         everRegistered := s.everRegistered + {c})
    case TakeUnregister =>
      var c := s.unregistering[0];
      s.(unregistering := s.unregistering[1..],
         clients := RemoveClient(s.clients, s.documentOf[c], c),
         taken := s.taken + {c},
         overtaken := s.overtaken + if c in s.everRegistered then {} else {c})
    case Shutdown => s.(cancelled := true)
    case SeeShutdown(order) => s.(run := ClosingAll(order, []), clients := map[])
    case CloseNext =>
      var c := s.run.rest[0];
      s.(run := ClosingAll(s.run.rest[1..], if c in s.closed then [] else [c]), closed := s.closed + {c})
    case CloseWon => s.(run := ClosingAll(s.run.rest, []), closings := s.closings + s.run.won)
    case Return => s.(run := Returned)
  }

  // ---------- Who may close a channel ----------

  predicate WonBy(t: Task, c: Client) {
    t.client == c && t.stage.Won?
  }

  function Winners(parties: map<Party, Task>, c: Client): set<Party> {
    set p | p in parties && WonBy(parties[p], c)
  }

  /** The parties that won the swap of c and have not closed its channel yet. */
  function Pending(s: Hub, c: Client): set<Party> {
    Winners(s.parties, c)
  }

  function DispatcherOwes(s: Hub, c: Client): nat {
    if s.run.ClosingAll? && s.run.won == [c] then 1 else 0
  }

  function Closings(s: Hub, c: Client): nat {
    multiset(s.closings)[c]
  }

  /** A closed client has one winner: someone who still has to close its channel or the one
      who did. An open client has none. */
  ghost predicate OneWinner(s: Hub) {
    forall c :: Closings(s, c) + |Pending(s, c)| + DispatcherOwes(s, c) == if c in s.closed then 1 else 0
  }

  ghost predicate Bookkeeping(s: Hub) {
    PartyBooks(s) && RegistryBooks(s)
  }

  /** A client that was ever registered is in the registry, waits to be closed, or is closed. */
  ghost predicate Covered(s: Hub) {
    forall c :: c in s.everRegistered ==>
      c in Registered(s) || c in s.closed || (s.run.ClosingAll? && c in s.run.rest)
  }

  ghost predicate Inv(s: Hub) {
    OneWinner(s) && Bookkeeping(s) && Covered(s)
  }

  // ---------- Steps keep one winner ----------

  lemma TimesSnoc(s: seq<Client>, x: Client, c: Client)
    ensures multiset(s + [x])[c] == multiset(s)[c] + if x == c then 1 else 0
  {
  }

  lemma WinnersElsewhere(parties: map<Party, Task>, p: Party, t: Task, c: Client)
    ensures Winners(parties[p := t], c) - {p} == Winners(parties, c) - {p}
    ensures p in Winners(parties[p := t], c) <==> WonBy(t, c)
  {
    var after := parties[p := t];
    assert forall q :: q != p && q in parties ==> after[q] == parties[q];
  }

  /** Moving one party into or out of the winner's stage. */
  lemma TaskMoves(parties: map<Party, Task>, p: Party, t: Task, c: Client)
    ensures |Winners(parties[p := t], c)| + (if p in parties && WonBy(parties[p], c) then 1 else 0)
            == |Winners(parties, c)| + (if WonBy(t, c) then 1 else 0)
  {
    WinnersElsewhere(parties, p, t, c);
    SizeWithout(Winners(parties, c), p);
    SizeWithout(Winners(parties[p := t], c), p);
  }

  lemma SizeWithout(ps: set<Party>, p: Party)
    ensures |ps| == |ps - {p}| + if p in ps then 1 else 0
  {
  }

  lemma SwapKeepsOneWinner(s: Hub, p: Party)
    requires Inv(s) && Enabled(s, Swap(p))
    ensures OneWinner(Do(s, Swap(p)))
  {
    var s' := Do(s, Swap(p));
    forall c ensures Closings(s', c) + |Pending(s', c)| + DispatcherOwes(s', c) == if c in s'.closed then 1 else 0 {
      TaskMoves(s.parties, p, s'.parties[p], c);
    }
  }

  lemma CloseChannelKeepsOneWinner(s: Hub, p: Party)
    requires Inv(s) && Enabled(s, CloseChannel(p))
    ensures OneWinner(Do(s, CloseChannel(p)))
  {
    var s' := Do(s, CloseChannel(p));
    forall c ensures Closings(s', c) + |Pending(s', c)| + DispatcherOwes(s', c) == if c in s'.closed then 1 else 0 {
      TaskMoves(s.parties, p, s'.parties[p], c);
      TimesSnoc(s.closings, s.parties[p].client, c);
    }
  }

  /** Stages other than the winner's do not matter. */
  lemma PassingKeepsOneWinner(s: Hub, p: Party, t: Task, s': Hub)
    requires Inv(s) && (p in s.parties ==> !s.parties[p].stage.Won?) && !t.stage.Won?
    requires s'.parties == s.parties[p := t] && s'.closed == s.closed
    requires s'.closings == s.closings && s'.run == s.run
    ensures OneWinner(s')
  {
    forall c ensures Closings(s', c) + |Pending(s', c)| + DispatcherOwes(s', c) == if c in s'.closed then 1 else 0 {
      TaskMoves(s.parties, p, t, c);
    }
  }

  lemma CloseWonKeepsOneWinner(s: Hub, c: Client, s': Hub)
    requires Inv(s) && s'.parties == s.parties && s'.closed == s.closed && s'.closings == s.closings + [c]
    requires s.run.ClosingAll? && s.run.won == [c] && s'.run == ClosingAll(s.run.rest, [])
    ensures OneWinner(s')
  {
    forall i ensures Closings(s', i) + |Pending(s', i)| + DispatcherOwes(s', i) == if i in s'.closed then 1 else 0 {
      assert Pending(s', i) == Pending(s, i);
      TimesSnoc(s.closings, c, i);
    }
  }

  /** The dispatcher's swaps; everything else leaves the winners alone. */
  lemma DispatcherKeepsOneWinner(s: Hub, s': Hub)
    requires Inv(s) && s'.parties == s.parties && s'.closings == s.closings
    requires forall c :: DispatcherOwes(s', c) + (if c in s.closed then 1 else 0)
                      == DispatcherOwes(s, c) + (if c in s'.closed then 1 else 0)
    ensures OneWinner(s')
  {
    forall c ensures Closings(s', c) + |Pending(s', c)| + DispatcherOwes(s', c) == if c in s'.closed then 1 else 0 {
      assert Pending(s', c) == Pending(s, c);
    }
  }

  predicate IsPartyStep(step: Step) {
    || step.CallUnregister? || step.Broadcast? || step.Next? || step.Swap? || step.CloseChannel?
    || step.Check? || step.Send? || step.FindSlow? || step.Notify? || step.GiveUp?
  }

  lemma PartyStepKeepsOneWinner(s: Hub, step: Step)
    requires Inv(s) && Enabled(s, step) && IsPartyStep(step)
    ensures OneWinner(Do(s, step))
  {
    if step.Swap? {
      SwapKeepsOneWinner(s, step.p);
    } else if step.CloseChannel? {
      CloseChannelKeepsOneWinner(s, step.p);
    } else {
      PassingKeepsOneWinner(s, step.p, Do(s, step).parties[step.p], Do(s, step));
    }
  }

  lemma DoKeepsOneWinner(s: Hub, step: Step)
    requires Inv(s) && Enabled(s, step)
    ensures OneWinner(Do(s, step))
  {
    if IsPartyStep(step) {
      PartyStepKeepsOneWinner(s, step);
    } else if step.CloseWon? {
      assert s.run.won == [s.run.won[0]];
      CloseWonKeepsOneWinner(s, s.run.won[0], Do(s, step));
    } else {
      DispatcherKeepsOneWinner(s, Do(s, step));
    }
  }

  // ---------- Steps keep the books ----------

  ghost predicate TaskOk(s: Hub, t: Task) {
    && t.client in s.documentOf && (forall c :: c in t.todo ==> c in s.documentOf)
    && t.client !in t.todo && NoRepeats(t.todo)
    && (t.stage.Won? || t.stage.ChannelClosed? ==> t.client in s.closed)
  }

  ghost predicate PartyBooks(s: Hub) {
    && (forall p :: p in s.parties ==> TaskOk(s, s.parties[p]))
    && (forall c :: c in s.registering ==> c in s.documentOf)
    && (forall c :: c in s.unregistering ==> c in s.closed && c in s.documentOf)
    && (forall c :: c in s.closed ==> c in s.documentOf)
    && (s.run.ClosingAll? ==> forall c :: c in s.run.rest ==> c in s.documentOf)
  }

  ghost predicate RegistryBooks(s: Hub) {
    && (forall d, c :: d in s.clients && c in s.clients[d] ==> c in s.documentOf && s.documentOf[c] == d)
    && (forall d :: d in s.clients ==> s.clients[d] != {})
    && (!s.run.Selecting? ==> s.clients == map[])
    && (s.run.ClosingAll? ==> |s.run.won| <= 1)
  }

  lemma TasksStayOk(s: Hub, s': Hub, p: Party)
    requires forall q :: q in s.parties ==> TaskOk(s, s.parties[q])
    requires s.closed <= s'.closed && s.documentOf.Keys <= s'.documentOf.Keys
    requires forall q :: q in s'.parties && q != p ==> q in s.parties && s'.parties[q] == s.parties[q]
    requires p in s'.parties ==> TaskOk(s', s'.parties[p])
    ensures forall q :: q in s'.parties ==> TaskOk(s', s'.parties[q])
  {
  }

  /** A broadcast serves registered clients, each once. */
  lemma BroadcastIsOk(s: Hub, step: Step)
    requires Bookkeeping(s) && Enabled(s, step) && step.Broadcast?
    ensures TaskOk(Do(s, step), Do(s, step).parties[step.p])
  {
    var order := step.order;
    assert order == [order[0]] + order[1..];
    assert forall c :: c in order ==> c in s.documentOf;
  }

  lemma NextIsOk(s: Hub, p: Party)
    requires Bookkeeping(s) && Enabled(s, Next(p))
    ensures TaskOk(Do(s, Next(p)), Do(s, Next(p)).parties[p])
  {
    var todo := s.parties[p].todo;
    assert todo == [todo[0]] + todo[1..];
  }

  lemma PartyStepKeepsTasks(s: Hub, step: Step)
    requires Bookkeeping(s) && Enabled(s, step) && IsPartyStep(step)
    ensures var s' := Do(s, step); forall q :: q in s'.parties ==> TaskOk(s', s'.parties[q])
  {
    var s' := Do(s, step);
    if step.Broadcast? {
      BroadcastIsOk(s, step);
    } else if step.Next? {
      NextIsOk(s, step.p);
    }
    TasksStayOk(s, s', step.p);
  }

  lemma PartyStepKeepsPartyBooks(s: Hub, step: Step)
    requires Bookkeeping(s) && Enabled(s, step) && IsPartyStep(step)
    ensures PartyBooks(Do(s, step))
  {
    PartyStepKeepsTasks(s, step);
    assert step.p in s.parties ==> TaskOk(s, s.parties[step.p]);
  }

  lemma DispatcherKeepsPartyBooks(s: Hub, step: Step)
    requires Bookkeeping(s) && Enabled(s, step) && !IsPartyStep(step)
    ensures PartyBooks(Do(s, step))
  {
    var s' := Do(s, step);
    forall q | q in s'.parties ensures TaskOk(s', s'.parties[q]) {
      assert TaskOk(s, s.parties[q]);
    }
  }

  lemma DoKeepsPartyBooks(s: Hub, step: Step)
    requires Bookkeeping(s) && Enabled(s, step)
    ensures PartyBooks(Do(s, step))
  {
    if IsPartyStep(step) {
      PartyStepKeepsPartyBooks(s, step);
    } else {
      DispatcherKeepsPartyBooks(s, step);
    }
  }

  lemma DoKeepsRegistryBooks(s: Hub, step: Step)
    requires RegistryBooks(s) && Enabled(s, step)
    ensures RegistryBooks(Do(s, step))
  {
  }

  lemma DoKeepsBookkeeping(s: Hub, step: Step)
    requires Inv(s) && Enabled(s, step)
    ensures Bookkeeping(Do(s, step))
  {
    DoKeepsPartyBooks(s, step);
    DoKeepsRegistryBooks(s, step);
  }

  lemma AddingKeepsOthers(clients: map<string, set<Client>>, d: string, x: Client, c: Client, e: string)
    requires e in clients && c in clients[e]
    ensures var after := AddClient(clients, d, x); e in after && c in after[e]
  {
  }

  lemma RemovingKeepsOthers(clients: map<string, set<Client>>, d: string, x: Client, c: Client, e: string)
    requires e in clients && c in clients[e] && c != x
    ensures var after := RemoveClient(clients, d, x); e in after && c in after[e]
  {
    assert c in clients[e] - {x};
  }

  /** Taking a registration or a notice. */
  lemma TakingKeepsCovered(s: Hub, step: Step)
    requires Inv(s) && Enabled(s, step) && (step.TakeRegister? || step.TakeUnregister?)
    ensures Covered(Do(s, step))
  {
    var s' := Do(s, step);
    var x := if step.TakeRegister? then s.registering[0] else s.unregistering[0];
    var d := s.documentOf[x];
    if step.TakeRegister? { assert d in s'.clients && x in s'.clients[d]; }
    forall c | c in Registered(s) && c != x ensures c in Registered(s') {
      var e :| e in s.clients && c in s.clients[e];
      if step.TakeRegister? {
        AddingKeepsOthers(s.clients, d, x, c, e);
      } else {
        RemovingKeepsOthers(s.clients, d, x, c, e);
      }
    }
  }

  lemma DoKeepsCovered(s: Hub, step: Step)
    requires Inv(s) && Enabled(s, step)
    ensures Covered(Do(s, step))
  {
    if step.TakeRegister? || step.TakeUnregister? {
      TakingKeepsCovered(s, step);
    } else if step.CloseNext? {
      assert s.run.rest == [s.run.rest[0]] + s.run.rest[1..];
    }
  }

  lemma DoKeepsInv(s: Hub, step: Step)
    requires Inv(s) && Enabled(s, step)
    ensures Inv(Do(s, step))
  {
    DoKeepsOneWinner(s, step);
    DoKeepsBookkeeping(s, step);
    DoKeepsCovered(s, step);
  }

  function New(): Hub {
    Hub(map[], map[], [], [], false, Selecting, {}, map[], [], {}, {}, {}, {}, false)
  }

  lemma NewHolds()
    ensures Inv(New())
  {
  }

  // ---------- Runs ----------

  ghost function Tick(s: Hub, step: Step): Hub {
    if Enabled(s, step) then Do(s, step) else s
  }

  /** The state after the first n steps of a schedule; a step that is not enabled is skipped. */
  ghost function After(schedule: seq<Step>, n: nat): Hub
    requires n <= |schedule|
  {
    if n == 0 then New() else Tick(After(schedule, n - 1), schedule[n - 1])
  }

  lemma {:induction false} AfterHolds(schedule: seq<Step>, n: nat)
    requires n <= |schedule|
    ensures Inv(After(schedule, n))
  {
    if n == 0 {
      NewHolds();
    } else {
      AfterHolds(schedule, n - 1);
      TickKeepsInv(After(schedule, n - 1), schedule[n - 1]);
    }
  }

  lemma TickKeepsInv(s: Hub, step: Step)
    requires Inv(s)
    ensures Inv(Tick(s, step))
  {
    if Enabled(s, step) {
      DoKeepsInv(s, step);
    }
  }

  /** Over every interleaving of unregister calls, evictions and shutdown, a client marked
      closed has exactly one winner, who has closed its channel or still will; no channel is
      closed twice, and no open client's channel is closed. */
  lemma ExactlyOneWinner(schedule: seq<Step>, n: nat, c: Client)
    requires n <= |schedule|
    ensures var s := After(schedule, n);
            && Closings(s, c) <= 1
            && (c in s.closed <==> Closings(s, c) == 1 || |Pending(s, c)| == 1 || DispatcherOwes(s, c) == 1)
            && (Pending(s, c) == {} && DispatcherOwes(s, c) == 0 ==> (c in s.closed <==> Closings(s, c) == 1))
  {
    AfterHolds(schedule, n);
    var s := After(schedule, n);
    assert Closings(s, c) + |Pending(s, c)| + DispatcherOwes(s, c) == if c in s.closed then 1 else 0;
  }

  /** When Run has returned, the registry is empty and every client it ever registered is
      marked closed, its channel closed by now or owed by one unregister call. */
  lemma ReturnedMeansAllClosed(schedule: seq<Step>, n: nat)
    requires n <= |schedule| && After(schedule, n).run.Returned?
    ensures var s := After(schedule, n);
            && s.clients == map[]
            && forall c :: c in s.everRegistered ==> c in s.closed && Closings(s, c) + |Pending(s, c)| == 1
  {
    AfterHolds(schedule, n);
    var s := After(schedule, n);
    forall c | c in s.everRegistered ensures c in s.closed && Closings(s, c) + |Pending(s, c)| == 1 {
      assert Registered(s) == {};
      ExactlyOneWinner(schedule, n, c);
    }
  }

  // ---------- Fan-out ----------

  /** A broadcast that checks a client whose channel is closed never sends to it. */
  lemma ClosedChannelFailsTheCheck(schedule: seq<Step>, n: nat, p: Party)
    requires n <= |schedule| && Enabled(After(schedule, n), Check(p))
    requires var s := After(schedule, n); ChannelIsClosed(s, s.parties[p].client)
    ensures PartyAt(Do(After(schedule, n), Check(p)), p, AtSwap)
  {
    AfterHolds(schedule, n);
    var s := After(schedule, n);
    var c := s.parties[p].client;
    assert Closings(s, c) + |Pending(s, c)| + DispatcherOwes(s, c) == if c in s.closed then 1 else 0;
  }

  lemma RegisteredUnderItsDocument(s: Hub, c: Client, documentID: string)
    requires RegistryBooks(s) && c in Registered(s)
    ensures c in s.documentOf
    ensures documentID in s.clients && c in s.clients[documentID] <==> s.documentOf[c] == documentID
  {
    var d :| d in s.clients && c in s.clients[d];
  }

  /** A broadcast selects exactly the registered clients of its document but the sender. */
  lemma TargetsAreTheOthersOfTheDocument(schedule: seq<Step>, n: nat, documentID: string, sender: Client)
    requires n <= |schedule|
    ensures var s := After(schedule, n);
            forall c :: c in Targets(s, documentID, sender) <==>
              c in Registered(s) && c != sender && c in s.documentOf && s.documentOf[c] == documentID
  {
    AfterHolds(schedule, n);
    var s := After(schedule, n);
    forall c ensures c in Targets(s, documentID, sender) <==>
              c in Registered(s) && c != sender && c in s.documentOf && s.documentOf[c] == documentID
    {
      if c in Registered(s) { RegisteredUnderItsDocument(s, c, documentID); }
    }
  }
}
