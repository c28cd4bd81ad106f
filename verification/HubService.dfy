/** What a broadcast does to the clients it selected: it serves each of them once, and nobody
    else. And the loop can always be shut down. */
module HubService {
  import opened HubLifecycle
  import opened HubPanics
  import opened Unused

  // ---------- Counting what a party did ----------

  /** The step is the party's look at whether c is closed. */
  ghost predicate LooksAt(s: Hub, step: Step, p: Party, c: Client) {
    Enabled(s, step) && step == Check(p) && s.parties[p].client == c
  }

  /** The step puts the message into the channel of c. */
  ghost predicate SendsTo(s: Hub, step: Step, p: Party, c: Client) {
    Enabled(s, step) && step == Send(p) && s.parties[p].client == c
  }

  /** How often the party looked at c from step m on and before step n. */
  ghost function Looks(schedule: seq<Step>, m: nat, n: nat, p: Party, c: Client): nat
    requires n <= |schedule|
  {
    if n <= m then 0
    else
      Looks(schedule, m, n - 1, p, c) +
      if LooksAt(After(schedule, n - 1), schedule[n - 1], p, c) then 1 else 0
  }

  /** How often it sent to c. */
  ghost function Sends(schedule: seq<Step>, m: nat, n: nat, p: Party, c: Client): nat
    requires n <= |schedule|
  {
    if n <= m then 0
    else
      Sends(schedule, m, n - 1, p, c) +
      if SendsTo(After(schedule, n - 1), schedule[n - 1], p, c) then 1 else 0
  }

  // ---------- Service ----------

  /** The party is still busy sending to its client, or unregistering it. */
  predicate Undecided(t: Task) {
    t.stage.Sending? || t.stage.AtSwap?
  }

  /** c was looked at once, unless it is still to come, and then got the message or was closed. */
  ghost predicate Served(s: Hub, p: Party, targets: set<Client>, c: Client, looks: nat, sends: nat) {
    && p in s.parties
    && var t := s.parties[p];
    && sends <= looks <= 1
    && (c !in targets ==> looks == 0 && t.client != c && c !in t.todo)
    && (c in targets ==> (looks == 0 <==> c in t.todo || (t.client == c && t.stage.Checking?)))
    && (looks == 1 && sends == 0 && !(t.client == c && Undecided(t)) ==> c in s.closed)
    && (sends == 1 ==> !(t.client == c && Undecided(t)))
  }

  lemma BroadcastStarts(s: Hub, p: Party, d: string, sender: Client, order: seq<Client>, c: Client)
    requires Enabled(s, Broadcast(p, d, sender, order))
    ensures Served(Do(s, Broadcast(p, d, sender, order)), p, Targets(s, d, sender), c, 0, 0)
  {
    assert order == [order[0]] + order[1..];
  }

  lemma NextServesOn(s: Hub, p: Party, targets: set<Client>, c: Client, looks: nat, sends: nat)
    requires Bookkeeping(s) && Served(s, p, targets, c, looks, sends) && Enabled(s, Next(p))
    ensures Served(Do(s, Next(p)), p, targets, c, looks, sends)
  {
    NextServes(s, p);
    assert TaskOk(s, s.parties[p]);
  }

  lemma OthersLeaveTheParty(s: Hub, step: Step, p: Party)
    requires Enabled(s, step) && p in s.parties && (IsPartyStep(step) ==> step.p != p)
    ensures p in Do(s, step).parties && Do(s, step).parties[p] == s.parties[p] && s.closed <= Do(s, step).closed
  {
  }

  lemma LookServesOn(s: Hub, p: Party, targets: set<Client>, c: Client, looks: nat, sends: nat)
    requires Bookkeeping(s) && Served(s, p, targets, c, looks, sends) && Enabled(s, Check(p))
    ensures Served(Do(s, Check(p)), p, targets, c, looks + (if LooksAt(s, Check(p), p, c) then 1 else 0), sends)
  {
    assert TaskOk(s, s.parties[p]);
  }

  lemma PartyServesOn(s: Hub, step: Step, p: Party, targets: set<Client>, c: Client, looks: nat, sends: nat)
    requires Bookkeeping(s) && Served(s, p, targets, c, looks, sends) && Enabled(s, step)
    requires IsPartyStep(step) && step.p == p && !step.Next?
    ensures Served(Do(s, step), p, targets, c,
                   looks + (if LooksAt(s, step, p, c) then 1 else 0), sends + (if SendsTo(s, step, p, c) then 1 else 0))
  {
    if step.Check? {
      LookServesOn(s, p, targets, c, looks, sends);
    } else {
      assert TaskOk(s, s.parties[p]);
    }
  }

  lemma OthersServeOn(s: Hub, step: Step, p: Party, targets: set<Client>, c: Client, looks: nat, sends: nat)
    requires Served(s, p, targets, c, looks, sends) && Enabled(s, step) && (IsPartyStep(step) ==> step.p != p)
    ensures Served(Do(s, step), p, targets, c, looks, sends)
    ensures !LooksAt(s, step, p, c) && !SendsTo(s, step, p, c)
  {
    OthersLeaveTheParty(s, step, p);
  }

  lemma TickServesOn(s: Hub, step: Step, p: Party, targets: set<Client>, c: Client, looks: nat, sends: nat)
    requires Bookkeeping(s) && Served(s, p, targets, c, looks, sends)
    ensures Served(Tick(s, step), p, targets, c,
                   looks + (if LooksAt(s, step, p, c) then 1 else 0), sends + (if SendsTo(s, step, p, c) then 1 else 0))
  {
    if Enabled(s, step) {
      if IsPartyStep(step) && step.p == p {
        if step.Next? {
          NextServesOn(s, p, targets, c, looks, sends);
        } else {
          PartyServesOn(s, step, p, targets, c, looks, sends);
        }
      } else {
        OthersServeOn(s, step, p, targets, c, looks, sends);
      }
    }
  }

  lemma {:induction false} ServedAfter(schedule: seq<Step>, m: nat, n: nat, p: Party, targets: set<Client>, c: Client)
    requires m <= n <= |schedule| && Served(After(schedule, m), p, targets, c, 0, 0)
    ensures Served(After(schedule, n), p, targets, c, Looks(schedule, m, n, p, c), Sends(schedule, m, n, p, c))
  {
    if m < n {
      ServedAfter(schedule, m, n - 1, p, targets, c);
      AfterHolds(schedule, n - 1);
      TickServesOn(After(schedule, n - 1), schedule[n - 1], p, targets, c,
        Looks(schedule, m, n - 1, p, c), Sends(schedule, m, n - 1, p, c));
    }
  }

  /** The m-th step is a broadcast by p. */
  ghost predicate BroadcastsAt(schedule: seq<Step>, m: nat, p: Party, d: string, sender: Client) {
    && m < |schedule| && schedule[m].Broadcast? && Enabled(After(schedule, m), schedule[m])
    && schedule[m].p == p && schedule[m].documentID == d && schedule[m].sender == sender
  }

  lemma AfterNext(schedule: seq<Step>, m: nat)
    requires m < |schedule| && Enabled(After(schedule, m), schedule[m])
    ensures After(schedule, m + 1) == Do(After(schedule, m), schedule[m])
  {
  }

  lemma BroadcastStartsAt(schedule: seq<Step>, m: nat, p: Party, d: string, sender: Client, c: Client)
    requires BroadcastsAt(schedule, m, p, d, sender)
    ensures Served(After(schedule, m + 1), p, Targets(After(schedule, m), d, sender), c, 0, 0)
  {
    AfterNext(schedule, m);
    BroadcastStarts(After(schedule, m), p, d, sender, schedule[m].order, c);
  }

  lemma ServedAtTheEnd(s: Hub, p: Party, targets: set<Client>, c: Client, looks: nat, sends: nat)
    requires Served(s, p, targets, c, looks, sends) && PartyAt(s, p, Finished) && s.parties[p].todo == []
    ensures looks == (if c in targets then 1 else 0) && sends <= looks
    ensures c in targets && sends == 0 ==> c in s.closed
  {
  }

  /** Once the party of a broadcast has nothing left to do it has looked exactly once at every
      client that was selected when it began, and at nobody else; each of these it sent the message
      once, or the client, closed or slow, is marked closed. */
  lemma BroadcastServesAll(schedule: seq<Step>, m: nat, n: nat, p: Party, d: string, sender: Client, c: Client)
    requires BroadcastsAt(schedule, m, p, d, sender) && m < n <= |schedule|
    requires PartyAt(After(schedule, n), p, Finished) && After(schedule, n).parties[p].todo == []
    ensures var selected := c in Targets(After(schedule, m), d, sender);
            && Looks(schedule, m + 1, n, p, c) == (if selected then 1 else 0)
            && Sends(schedule, m + 1, n, p, c) <= Looks(schedule, m + 1, n, p, c)
            && (selected && Sends(schedule, m + 1, n, p, c) == 0 ==> c in After(schedule, n).closed)
  {
    var targets := Targets(After(schedule, m), d, sender);
    BroadcastStartsAt(schedule, m, p, d, sender, c);
    ServedAfter(schedule, m + 1, n, p, targets, c);
    ServedAtTheEnd(After(schedule, n), p, targets, c,
      Looks(schedule, m + 1, n, p, c), Sends(schedule, m + 1, n, p, c));
  }

  /** A broadcast that comes to a client that is open can send to it in its next two steps. */
  lemma OpenClientCanBeSent(s: Hub, p: Party)
    requires Inv(s) && !s.crashed && PartyAt(s, p, Checking) && s.parties[p].client !in s.closed
    ensures Enabled(s, Check(p))
    ensures var s' := Do(s, Check(p)); SendsTo(s', Send(p), p, s.parties[p].client)
  {
    var c := s.parties[p].client;
    assert Closings(s, c) + |Pending(s, c)| + DispatcherOwes(s, c) == 0;
  }

  // ---------- Leaving ----------

  /** From s some continuation without a shutdown takes c out of the registry. */
  ghost predicate CanLeave(s: Hub, c: Client) {
    exists schedule :: HasLeft(Ticks(s, schedule), c)
  }

  ghost predicate HasLeft(s: Hub, c: Client) {
    !s.crashed && s.run.Selecting? && c in s.closed && c !in Registered(s)
  }

  lemma LeaveFirst(s: Hub, step: Step, c: Client)
    requires Enabled(s, step) && CanLeave(Do(s, step), c)
    ensures CanLeave(s, c)
  {
    var schedule :| HasLeft(Ticks(Do(s, step), schedule), c);
    assert ([step] + schedule)[1..] == schedule;
    assert HasLeft(Ticks(s, [step] + schedule), c);
  }

  lemma LastNoticeTakesOut(s: Hub, c: Client)
    requires Inv(s) && !s.crashed && s.run.Selecting? && s.unregistering == [c]
    ensures CanLeave(s, c)
  {
    assert c in s.unregistering;
    var s' := Do(s, TakeUnregister);
    forall d | d in s'.clients ensures c !in s'.clients[d] {
      assert d in s.clients && c in s.clients[d] ==> s.documentOf[c] == d;
    }
    assert Ticks(s', []) == s';
    assert HasLeft(Ticks(s', []), c);
    LeaveFirst(s, TakeUnregister, c);
  }

  /** The party of c stands at this stage of unregistering it, with the queue of notices empty. */
  ghost predicate Unregisters(s: Hub, p: Party, c: Client, stage: Stage) {
    && Inv(s) && !s.crashed && s.run.Selecting? && s.unregistering == []
    && PartyAt(s, p, stage) && s.parties[p].client == c
  }

  lemma NoticeTakesOut(s: Hub, p: Party, c: Client)
    requires Unregisters(s, p, c, ChannelClosed)
    ensures CanLeave(s, c)
  {
    DoKeepsInv(s, Notify(p));
    LastNoticeTakesOut(Do(s, Notify(p)), c);
    LeaveFirst(s, Notify(p), c);
  }

  lemma ClosingTakesOut(s: Hub, p: Party, c: Client)
    requires Unregisters(s, p, c, Won)
    ensures CanLeave(s, c)
  {
    DoKeepsInv(s, CloseChannel(p));
    NoticeTakesOut(Do(s, CloseChannel(p)), p, c);
    LeaveFirst(s, CloseChannel(p), c);
  }

  lemma SwapTakesOut(s: Hub, p: Party, c: Client)
    requires Unregisters(s, p, c, AtSwap) && c !in s.closed
    ensures CanLeave(s, c)
  {
    DoKeepsInv(s, Swap(p));
    ClosingTakesOut(Do(s, Swap(p)), p, c);
    LeaveFirst(s, Swap(p), c);
  }

  /** The read pump of c ends, with the queue of notices empty. */
  lemma UnregisterTakesOut(s: Hub, c: Client, p: Party)
    requires Inv(s) && !s.crashed && s.run.Selecting? && s.unregistering == []
    requires c in s.documentOf && c !in s.closed && p !in s.parties
    ensures CanLeave(s, c)
  {
    DoKeepsInv(s, CallUnregister(p, c));
    SwapTakesOut(Do(s, CallUnregister(p, c)), p, c);
    LeaveFirst(s, CallUnregister(p, c), c);
  }

  /** An open client of a hub that is running can always be taken out of the registry by an
      unregister call. */
  lemma {:induction false} OpenClientCanLeave(s: Hub, c: Client)
    requires Inv(s) && !s.crashed && s.run.Selecting? && c in s.documentOf && c !in s.closed
    ensures CanLeave(s, c)
    decreases |s.unregistering|
  {
    if s.unregistering == [] {
      var p := SomeUnused(s.parties.Keys);
      UnregisterTakesOut(s, c, p);
    } else {
      assert s.unregistering[0] in s.unregistering;
      DoKeepsInv(s, TakeUnregister);
      OpenClientCanLeave(Do(s, TakeUnregister), c);
      LeaveFirst(s, TakeUnregister, c);
    }
  }

  // ---------- Shutdown ----------

  ghost predicate CanReturn(s: Hub) {
    exists schedule :: HasReturned(Ticks(s, schedule))
  }

  predicate HasReturned(s: Hub) {
    !s.crashed && s.run.Returned?
  }

  lemma ReturnFirst(s: Hub, step: Step)
    requires Enabled(s, step) && CanReturn(Do(s, step))
    ensures CanReturn(s)
  {
    var schedule :| HasReturned(Ticks(Do(s, step), schedule));
    assert ([step] + schedule)[1..] == schedule;
    assert HasReturned(Ticks(s, [step] + schedule));
  }

  lemma {:induction false} SomeListing(clients: set<Client>) returns (order: seq<Client>)
    ensures Lists(order, clients)
    decreases |clients|
  {
    if clients == {} {
      order := [];
    } else {
      var c :| c in clients;
      var rest := SomeListing(clients - {c});
      order := [c] + rest;
      forall x ensures x in order <==> x in clients {
        assert x in rest <==> x in clients - {c};
      }
    }
  }

  /** The step of a loop that is closing its clients. */
  function ClosingStep(s: Hub): Step {
    if s.run.ClosingAll? && s.run.won != [] then CloseWon
    else if s.run.ClosingAll? && s.run.rest != [] then CloseNext
    else Return
  }

  lemma {:induction false} ClosingCanReturn(s: Hub)
    requires !s.crashed && s.run.ClosingAll?
    ensures CanReturn(s)
    decreases |s.run.rest|, |s.run.won|
  {
    var s' := Do(s, ClosingStep(s));
    if ClosingStep(s).Return? {
      assert Ticks(s', []) == s';
      assert HasReturned(Ticks(s', []));
    } else {
      ClosingCanReturn(s');
    }
    ReturnFirst(s, ClosingStep(s));
  }

  lemma CancelledCanReturn(s: Hub)
    requires !s.crashed && s.cancelled
    ensures CanReturn(s)
  {
    if s.run.Selecting? {
      var order := SomeListing(Registered(s));
      ClosingCanReturn(Do(s, SeeShutdown(order)));
      ReturnFirst(s, SeeShutdown(order));
    } else if s.run.ClosingAll? {
      ClosingCanReturn(s);
    } else {
      assert Ticks(s, []) == s;
      assert HasReturned(Ticks(s, []));
    }
  }

  /** From every state without a panic a call of Shutdown lets the loop return. */
  lemma ShutdownCanReturn(s: Hub)
    requires !s.crashed
    ensures Enabled(s, Shutdown) && CanReturn(Do(s, Shutdown))
  {
    CancelledCanReturn(Do(s, Shutdown));
  }
}
