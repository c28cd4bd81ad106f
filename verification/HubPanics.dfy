/** When the hub can still panic: a broadcast that sends on a channel closed since its check. */
module HubPanics {
  import opened HubLifecycle
  import opened Unused

  /** The state after all steps of a schedule, from any state. */
  ghost function Ticks(s: Hub, schedule: seq<Step>): Hub
    decreases |schedule|
  {
    if schedule == [] then s else Ticks(Tick(s, schedule[0]), schedule[1..])
  }

  ghost predicate CanCrash(s: Hub) {
    exists schedule :: Ticks(s, schedule).crashed
  }

  /** Some client the party has still to serve, or is about to send to, was not closed when it
      looked. */
  predicate AtRisk(s: Hub, t: Task) {
    t.stage.Sending? || (t.stage.Checking? && t.client !in s.closed) || exists c :: c in t.todo && c !in s.closed
  }

  ghost predicate Exposed(s: Hub) {
    exists p :: p in s.parties && AtRisk(s, s.parties[p])
  }

  // ---------- Ways to a panic ----------

  lemma CanCrashFirst(s: Hub, step: Step)
    requires Enabled(s, step) && CanCrash(Do(s, step))
    ensures CanCrash(s)
  {
    var schedule :| Ticks(Do(s, step), schedule).crashed;
    assert ([step] + schedule)[1..] == schedule;
    assert Ticks(s, [step] + schedule).crashed;
  }

  lemma ClosedCanCrash(s: Hub, p: Party)
    requires !s.crashed && PartyAt(s, p, Sending) && ChannelIsClosed(s, s.parties[p].client)
    ensures CanCrash(s)
  {
    var s' := Do(s, SendOnClosed(p));
    assert Ticks(s', []) == s';
    CanCrashFirst(s, SendOnClosed(p));
  }

  /** Somebody has won the right to close the channel. */
  lemma WonCanCrash(s: Hub, p: Party, q: Party)
    requires !s.crashed && PartyAt(s, p, Sending) && PartyAt(s, q, Won) && s.parties[q].client == s.parties[p].client
    ensures CanCrash(s)
  {
    ClosedCanCrash(Do(s, CloseChannel(q)), p);
    CanCrashFirst(s, CloseChannel(q));
  }

  lemma OwedCanCrash(s: Hub, p: Party)
    requires !s.crashed && PartyAt(s, p, Sending) && DispatcherOwes(s, s.parties[p].client) == 1
    ensures CanCrash(s)
  {
    ClosedCanCrash(Do(s, CloseWon), p);
    CanCrashFirst(s, CloseWon);
  }

  /** The read pump of an open client ends. */
  lemma OpenCanCrash(s: Hub, p: Party)
    requires Inv(s) && !s.crashed && PartyAt(s, p, Sending) && s.parties[p].client !in s.closed
    ensures CanCrash(s)
  {
    var c := s.parties[p].client;
    var q := SomeUnused(s.parties.Keys);
    assert TaskOk(s, s.parties[p]);
    var s1 := Do(s, CallUnregister(q, c));
    WonCanCrash(Do(s1, Swap(q)), p, q);
    CanCrashFirst(s1, Swap(q));
    CanCrashFirst(s, CallUnregister(q, c));
  }

  lemma SendingCanCrash(s: Hub, p: Party)
    requires Inv(s) && !s.crashed && PartyAt(s, p, Sending)
    ensures CanCrash(s)
  {
    var c := s.parties[p].client;
    if c !in s.closed {
      OpenCanCrash(s, p);
    } else {
      assert Closings(s, c) + |Pending(s, c)| + DispatcherOwes(s, c) == 1;
      if Closings(s, c) == 1 {
        ClosedCanCrash(s, p);
      } else if DispatcherOwes(s, c) == 1 {
        OwedCanCrash(s, p);
      } else {
        assert Pending(s, c) != {};
        var q :| q in Pending(s, c);
        WonCanCrash(s, p, q);
      }
    }
  }

  lemma CheckingCanCrash(s: Hub, p: Party)
    requires Inv(s) && !s.crashed && PartyAt(s, p, Checking) && s.parties[p].client !in s.closed
    ensures CanCrash(s)
  {
    DoKeepsInv(s, Check(p));
    SendingCanCrash(Do(s, Check(p)), p);
    CanCrashFirst(s, Check(p));
  }

  /** How far a party is from having served its client. */
  function Distance(s: Hub, t: Task): nat {
    match t.stage
    case Checking => 6
    case Sending => 5
    case AtSwap => 4
    case Won => 3
    case ChannelClosed => if s.cancelled then 1 else 2
    case Finished => 0
  }

  /** A step that brings a party on without closing any other client. */
  function OnwardStep(s: Hub, p: Party): Step
    requires p in s.parties
  {
    match s.parties[p].stage
    case Checking => Check(p)
    case Sending => Send(p)
    case AtSwap => Swap(p)
    case Won => CloseChannel(p)
    case ChannelClosed => if s.cancelled then GiveUp(p) else Shutdown
    case Finished => Next(p)
  }

  predicate MustMoveOn(s: Hub, p: Party) {
    && p in s.parties && !s.parties[p].stage.Sending? && !s.parties[p].stage.Finished?
    && (s.parties[p].stage.Checking? ==> s.parties[p].client in s.closed)
  }

  lemma OnwardIsEnabled(s: Hub, p: Party)
    requires !s.crashed && MustMoveOn(s, p)
    ensures Enabled(s, OnwardStep(s, p))
  {
  }

  lemma Onward(s: Hub, p: Party)
    requires MustMoveOn(s, p) && Enabled(s, OnwardStep(s, p))
    ensures var s' := Do(s, OnwardStep(s, p));
            && !s'.crashed && p in s'.parties && s'.parties[p].todo == s.parties[p].todo
            && s'.closed <= s.closed + {s.parties[p].client} && Distance(s', s'.parties[p]) < Distance(s, s.parties[p])
  {
    var stage := s.parties[p].stage;
    if stage.Checking? {
      assert OnwardStep(s, p) == Check(p);
    } else if stage.AtSwap? {
      assert OnwardStep(s, p) == Swap(p);
    } else if stage.Won? {
      assert OnwardStep(s, p) == CloseChannel(p);
    } else {
      assert stage.ChannelClosed?;
    }
  }

  /** A broadcast with an open client still to serve gets there. */
  lemma {:induction false} TodoCanCrash(s: Hub, p: Party, c: Client)
    requires Inv(s) && !s.crashed && p in s.parties && c in s.parties[p].todo && c !in s.closed
    ensures CanCrash(s)
    decreases |s.parties[p].todo|, Distance(s, s.parties[p])
  {
    var t := s.parties[p];
    assert TaskOk(s, t);
    if t.stage.Sending? {
      SendingCanCrash(s, p);
    } else if t.stage.Checking? && t.client !in s.closed {
      CheckingCanCrash(s, p);
    } else {
      var step := OnwardStep(s, p);
      if t.stage.Finished? {
        NextServes(s, p);
      } else {
        OnwardIsEnabled(s, p);
        Onward(s, p);
      }
      var s' := Do(s, step);
      DoKeepsInv(s, step);
      if t.stage.Finished? && c == t.todo[0] {
        CheckingCanCrash(s', p);
      } else {
        TodoCanCrash(s', p, c);
      }
      CanCrashFirst(s, step);
    }
  }

  lemma NextServes(s: Hub, p: Party)
    requires !s.crashed && PartyAt(s, p, Finished) && s.parties[p].todo != []
    ensures Enabled(s, Next(p))
    ensures var s', todo := Do(s, Next(p)), s.parties[p].todo;
            && s'.parties[p] == Task(todo[0], Checking, todo[1..]) && s'.closed == s.closed && !s'.crashed
            && forall c :: c in todo ==> c == todo[0] || c in todo[1..]
  {
    var todo := s.parties[p].todo;
    assert todo == [todo[0]] + todo[1..];
  }

  lemma ExposedCanCrash(s: Hub)
    requires Inv(s) && !s.crashed && Exposed(s)
    ensures CanCrash(s)
  {
    var p :| p in s.parties && AtRisk(s, s.parties[p]);
    if s.parties[p].stage.Sending? {
      SendingCanCrash(s, p);
    } else if s.parties[p].stage.Checking? && s.parties[p].client !in s.closed {
      CheckingCanCrash(s, p);
    } else {
      var c :| c in s.parties[p].todo && c !in s.closed;
      TodoCanCrash(s, p, c);
    }
  }

  /** While the loop still registers clients, a new one can be broadcast to. */
  lemma {:induction false} SelectingCanCrash(s: Hub)
    requires Inv(s) && !s.crashed && s.run.Selecting?
    ensures CanCrash(s)
    decreases |s.registering|
  {
    if s.registering != [] {
      assert s.registering[0] in s.registering;
      DoKeepsInv(s, TakeRegister);
      SelectingCanCrash(Do(s, TakeRegister));
      CanCrashFirst(s, TakeRegister);
    } else {
      var c := SomeUnused(s.documentOf.Keys);
      var d := SomeUnusedName(s.clients.Keys);
      var s1 := Do(s, Connect(c, d));
      DoKeepsInv(s, Connect(c, d));
      ConnectedCanCrash(s1, c, d);
      CanCrashFirst(s, Connect(c, d));
    }
  }

  lemma ConnectedCanCrash(s: Hub, c: Client, d: string)
    requires Inv(s) && !s.crashed && s.run.Selecting? && s.registering == [c] && c !in s.closed
    requires c in s.documentOf && s.documentOf[c] == d && d !in s.clients
    ensures CanCrash(s)
  {
    DoKeepsInv(s, TakeRegister);
    NewClientCanCrash(Do(s, TakeRegister), c, d);
    CanCrashFirst(s, TakeRegister);
  }

  lemma NewClientCanCrash(s: Hub, c: Client, d: string)
    requires Inv(s) && !s.crashed && d in s.clients && s.clients[d] == {c} && c !in s.closed
    ensures CanCrash(s)
  {
    var p := SomeUnused(s.parties.Keys);
    var step := Broadcast(p, d, c + 1, [c]);
    assert Targets(s, d, c + 1) == {c};
    DoKeepsInv(s, step);
    CheckingCanCrash(Do(s, step), p);
    CanCrashFirst(s, step);
  }

  // ---------- No other way ----------

  ghost predicate Safe(s: Hub) {
    !s.crashed && !s.run.Selecting? && !Exposed(s)
  }

  lemma TickKeepsSafe(s: Hub, step: Step)
    requires Inv(s) && Safe(s)
    ensures Safe(Tick(s, step))
  {
    if Enabled(s, step) {
      var s' := Do(s, step);
      forall p | p in s'.parties ensures !AtRisk(s', s'.parties[p]) {
        StaysSafe(s, step, p);
      }
    }
  }

  /** Without a registry there is nobody to select. */
  lemma NoBroadcast(s: Hub, step: Step)
    requires RegistryBooks(s) && !s.run.Selecting?
    ensures Enabled(s, step) ==> !step.Broadcast?
  {
    if step.Broadcast? && step.order != [] {
      assert step.order[0] in step.order;
    }
  }

  lemma ClosedGrows(s: Hub, step: Step)
    requires Enabled(s, step)
    ensures s.closed <= Do(s, step).closed
  {
  }

  lemma RiskShrinks(s: Hub, s': Hub, t: Task)
    requires s.closed <= s'.closed && AtRisk(s', t)
    ensures AtRisk(s, t)
  {
  }

  /** A party's task changes only for the party that moves, and then to a harmless stage. */
  lemma TaskAfter(s: Hub, step: Step, p: Party)
    requires Enabled(s, step) && !step.Broadcast? && step != Next(p) && p in Do(s, step).parties
    requires step == Check(p) ==> s.parties[p].client in s.closed
    ensures var t := Do(s, step).parties[p];
            || (p in s.parties && s.parties[p] == t)
            || (!t.stage.Sending? && !t.stage.Checking? &&
                (t.todo == [] || (p in s.parties && s.parties[p].todo == t.todo)))
  {
  }

  lemma StaysSafe(s: Hub, step: Step, p: Party)
    requires Inv(s) && Safe(s) && Enabled(s, step) && p in Do(s, step).parties
    ensures !AtRisk(Do(s, step), Do(s, step).parties[p])
  {
    NoBroadcast(s, step);
    ClosedGrows(s, step);
    assert p in s.parties ==> !AtRisk(s, s.parties[p]);
    if step == Next(p) {
      NextServes(s, p);
      assert s.parties[p].todo[0] in s.parties[p].todo;
    } else {
      TaskAfter(s, step, p);
      if p in s.parties && AtRisk(Do(s, step), s.parties[p]) {
        RiskShrinks(s, Do(s, step), s.parties[p]);
      }
    }
  }

  lemma {:induction false} SafeHubNeverCrashes(s: Hub, schedule: seq<Step>)
    requires Inv(s) && Safe(s)
    ensures !Ticks(s, schedule).crashed
    decreases |schedule|
  {
    if schedule != [] {
      TickKeepsInv(s, schedule[0]);
      TickKeepsSafe(s, schedule[0]);
      SafeHubNeverCrashes(Tick(s, schedule[0]), schedule[1..]);
    }
  }

  /** A hub that has not crashed can still do so, in some continuation, if and only if its loop
      still registers clients, or a broadcast is at its send or has an open client to serve. */
  lemma CanCrashIff(schedule: seq<Step>, n: nat)
    requires n <= |schedule| && !After(schedule, n).crashed
    ensures var s := After(schedule, n);
            CanCrash(s) <==> s.run.Selecting? || Exposed(s)
  {
    var s := After(schedule, n);
    AfterHolds(schedule, n);
    if s.run.Selecting? {
      SelectingCanCrash(s);
    } else if Exposed(s) {
      ExposedCanCrash(s);
    } else {
      forall more ensures !Ticks(s, more).crashed {
        SafeHubNeverCrashes(s, more);
      }
    }
  }
}
