/** Which closed clients the registry still holds. */
module HubRegistry {
  import opened HubLifecycle

  /** The party has won the swap of c and has not sent the notice yet. */
  predicate Holder(s: Hub, p: Party, c: Client) {
    p in s.parties && s.parties[p].client == c && (s.parties[p].stage.Won? || s.parties[p].stage.ChannelClosed?)
  }

  /** The notice about c is still to be sent, or queued. */
  ghost predicate Outstanding(s: Hub, c: Client) {
    c in s.unregistering || exists p :: Holder(s, p, c)
  }

  // ---------- A client has one notice ----------

  ghost predicate OneHolder(s: Hub) {
    && (forall p, q, c :: Holder(s, p, c) && Holder(s, q, c) ==> p == q)
    && (forall p, c :: Holder(s, p, c) ==> c in s.closed && c !in s.unregistering && c !in s.taken && c !in s.dropped)
  }

  ghost predicate OneNotice(s: Hub) {
    && NoRepeats(s.unregistering)
    && (forall c :: c in s.unregistering ==> c in s.closed && c !in s.taken && c !in s.dropped)
    && (forall c :: c in s.taken ==> c in s.closed && c !in s.dropped)
    && s.dropped <= s.closed && s.overtaken <= s.taken
  }

  /** While the loop selects, every closed client's notice is somewhere. */
  ghost predicate Accounted(s: Hub) {
    s.run.Selecting? ==> forall c :: c in s.closed ==> Outstanding(s, c) || c in s.taken || c in s.dropped
  }

  // ---------- A client is registered once ----------

  ghost predicate OneRegistration(s: Hub) {
    && NoRepeats(s.registering)
    && (forall c :: c in s.registering ==> c !in s.everRegistered && c in s.documentOf)
    && (forall c :: c in s.documentOf <==> c in s.registering || c in s.everRegistered)
    && (forall c :: c in s.taken && c !in s.overtaken ==> c in s.everRegistered)
  }

  /** The notice of c was taken when c was in the registry. */
  predicate TakenInTime(s: Hub, c: Client) {
    c in s.taken && c !in s.overtaken
  }

  ghost predicate RegistryIs(s: Hub) {
    s.run.Selecting? ==> forall c :: c in Registered(s) <==> c in s.everRegistered && !TakenInTime(s, c)
  }

  ghost predicate Notices(s: Hub) {
    OneHolder(s) && OneNotice(s) && Accounted(s) && OneRegistration(s) && RegistryIs(s)
  }

  // ---------- Steps keep the notices ----------

  lemma TailHasNoRepeats(cs: seq<Client>)
    requires cs != [] && NoRepeats(cs)
    ensures NoRepeats(cs[1..]) && cs[0] !in cs[1..]
    ensures forall c :: c in cs <==> c == cs[0] || c in cs[1..]
  {
    assert cs == [cs[0]] + cs[1..];
  }

  /** Only a swap makes a holder, of a client that was open. */
  lemma HolderBefore(s: Hub, step: Step, p: Party, c: Client)
    requires Enabled(s, step) && Holder(Do(s, step), p, c)
    ensures Holder(s, p, c) || (step == Swap(p) && c !in s.closed && Do(s, step).closed == s.closed + {c})
    ensures step != Notify(p) && step != GiveUp(p)
  {
  }

  lemma HoldersStayUnique(s: Hub, step: Step, p: Party, q: Party, c: Client)
    requires OneHolder(s) && Enabled(s, step) && Holder(Do(s, step), p, c) && Holder(Do(s, step), q, c)
    ensures p == q
  {
    HolderBefore(s, step, p, c);
    HolderBefore(s, step, q, c);
  }

  lemma HoldersStayEarly(s: Hub, step: Step, p: Party, c: Client)
    requires OneHolder(s) && OneNotice(s) && Enabled(s, step) && Holder(Do(s, step), p, c)
    ensures var s' := Do(s, step); c in s'.closed && c !in s'.unregistering && c !in s'.taken && c !in s'.dropped
  {
    HolderBefore(s, step, p, c);
    if step.TakeUnregister? {
      TailHasNoRepeats(s.unregistering);
    } else if step.Notify? || step.GiveUp? {
      assert Holder(s, step.p, s.parties[step.p].client);
    }
  }

  lemma DoKeepsOneHolder(s: Hub, step: Step)
    requires OneHolder(s) && OneNotice(s) && Enabled(s, step)
    ensures OneHolder(Do(s, step))
  {
    var s' := Do(s, step);
    forall p, c | Holder(s', p, c)
      ensures c in s'.closed && c !in s'.unregistering && c !in s'.taken && c !in s'.dropped
    {
      HoldersStayEarly(s, step, p, c);
    }
    forall p, q, c | Holder(s', p, c) && Holder(s', q, c) ensures p == q {
      HoldersStayUnique(s, step, p, q, c);
    }
  }

  lemma DoKeepsOneNotice(s: Hub, step: Step)
    requires OneHolder(s) && OneNotice(s) && Enabled(s, step)
    ensures OneNotice(Do(s, step))
  {
    if step.TakeUnregister? {
      TailHasNoRepeats(s.unregistering);
    } else if step.Notify? || step.GiveUp? {
      assert Holder(s, step.p, s.parties[step.p].client);
    }
  }

  lemma DoKeepsAccounted(s: Hub, step: Step)
    requires Accounted(s) && OneNotice(s) && Enabled(s, step)
    ensures Accounted(Do(s, step))
  {
    var s' := Do(s, step);
    if step.TakeUnregister? { TailHasNoRepeats(s.unregistering); }
    forall c | s'.run.Selecting? && c in s'.closed ensures Outstanding(s', c) || c in s'.taken || c in s'.dropped {
      if step.Swap? && c == s.parties[step.p].client && c !in s.closed {
        assert Holder(s', step.p, c);
      } else if exists p :: Holder(s, p, c) {
        var p :| Holder(s, p, c);
        assert Holder(s', p, c) || step == Notify(p) || step == GiveUp(p);
      }
    }
  }

  lemma DoKeepsOneRegistration(s: Hub, step: Step)
    requires OneRegistration(s) && Enabled(s, step)
    ensures OneRegistration(Do(s, step))
  {
    if step.TakeRegister? { TailHasNoRepeats(s.registering); }
  }

  lemma AddedIsRegistered(clients: map<string, set<Client>>, d: string, x: Client, c: Client)
    ensures (exists e :: e in AddClient(clients, d, x) && c in AddClient(clients, d, x)[e])
            <==> c == x || exists e :: e in clients && c in clients[e]
  {
    var after := AddClient(clients, d, x);
    if c == x { assert d in after && c in after[d]; }
    if e :| e in clients && c in clients[e] { assert e in after && c in after[e]; }
  }

  lemma RemovedIsNotRegistered(clients: map<string, set<Client>>, d: string, x: Client, c: Client)
    requires forall e :: e in clients && x in clients[e] ==> e == d
    ensures (exists e :: e in RemoveClient(clients, d, x) && c in RemoveClient(clients, d, x)[e])
            <==> c != x && exists e :: e in clients && c in clients[e]
  {
    var after := RemoveClient(clients, d, x);
    if e :| e in clients && c in clients[e] && c != x {
      assert c in clients[e] - {x};
      assert e in after && c in after[e];
    }
  }

  lemma TakeRegisterKeepsRegistry(s: Hub)
    requires Inv(s) && OneRegistration(s) && OneNotice(s) && RegistryIs(s) && Enabled(s, TakeRegister)
    ensures RegistryIs(Do(s, TakeRegister))
  {
    var s' := Do(s, TakeRegister);
    var x := s.registering[0];
    assert x in s.registering;
    forall c ensures c in Registered(s') <==> c in s'.everRegistered && !TakenInTime(s', c) {
      AddedIsRegistered(s.clients, s.documentOf[x], x, c);
      assert c in Registered(s) <==> exists e :: e in s.clients && c in s.clients[e];
      assert c in Registered(s') <==> exists e :: e in s'.clients && c in s'.clients[e];
    }
  }

  lemma TakeUnregisterKeepsRegistry(s: Hub)
    requires Inv(s) && OneRegistration(s) && OneNotice(s) && RegistryIs(s) && Enabled(s, TakeUnregister)
    ensures RegistryIs(Do(s, TakeUnregister))
  {
    var s' := Do(s, TakeUnregister);
    var x := s.unregistering[0];
    assert x in s.unregistering;
    forall c ensures c in Registered(s') <==> c in s'.everRegistered && !TakenInTime(s', c) {
      RemovedIsNotRegistered(s.clients, s.documentOf[x], x, c);
      assert c in Registered(s) <==> exists e :: e in s.clients && c in s.clients[e];
      assert c in Registered(s') <==> exists e :: e in s'.clients && c in s'.clients[e];
    }
  }

  lemma DoKeepsRegistry(s: Hub, step: Step)
    requires Inv(s) && OneRegistration(s) && OneNotice(s) && RegistryIs(s) && Enabled(s, step)
    ensures RegistryIs(Do(s, step))
  {
    if step.TakeRegister? {
      TakeRegisterKeepsRegistry(s);
    } else if step.TakeUnregister? {
      TakeUnregisterKeepsRegistry(s);
    } else if !step.SeeShutdown? {
      assert Registered(Do(s, step)) == Registered(s);
    }
  }

  lemma DoKeepsNotices(s: Hub, step: Step)
    requires Inv(s) && Notices(s) && Enabled(s, step)
    ensures Notices(Do(s, step))
  {
    DoKeepsOneHolder(s, step);
    DoKeepsOneNotice(s, step);
    DoKeepsAccounted(s, step);
    DoKeepsOneRegistration(s, step);
    DoKeepsRegistry(s, step);
  }

  lemma TickKeepsNotices(s: Hub, step: Step)
    requires Inv(s) && Notices(s)
    ensures Notices(Tick(s, step))
  {
    if Enabled(s, step) { DoKeepsNotices(s, step); }
  }

  lemma NewHasNotices()
    ensures Notices(New())
  {
  }

  lemma {:induction false} AfterHasNotices(schedule: seq<Step>, n: nat)
    requires n <= |schedule|
    ensures Notices(After(schedule, n))
  {
    if n == 0 {
      NewHasNotices();
    } else {
      AfterHasNotices(schedule, n - 1);
      AfterHolds(schedule, n - 1);
      TickKeepsNotices(After(schedule, n - 1), schedule[n - 1]);
    }
  }

  // ---------- Closed clients in the registry ----------

  /** In every reachable state the registry holds a closed client if and only if the loop has not
      shut down, the client was registered, and its notice is still outstanding, was given up
      because of a shutdown, or was taken before the registration. */
  lemma ClosedAndRegisteredIff(schedule: seq<Step>, n: nat, c: Client)
    requires n <= |schedule|
    ensures var s := After(schedule, n);
            c in Registered(s) && c in s.closed <==>
              s.run.Selecting? && c in s.everRegistered && (Outstanding(s, c) || c in s.dropped || c in s.overtaken)
  {
    AfterHolds(schedule, n);
    AfterHasNotices(schedule, n);
    var s := After(schedule, n);
    if !s.run.Selecting? {
      assert Registered(s) == {};
    }
  }

  /** The other half: a connected open client is missing from the registry exactly while its
      registration waits, or once the loop has left its select. */
  lemma OpenAndMissingIff(schedule: seq<Step>, n: nat, c: Client)
    requires n <= |schedule|
    requires var s := After(schedule, n); c in s.documentOf && c !in s.closed
    ensures var s := After(schedule, n);
            c !in Registered(s) <==> c in s.registering || !s.run.Selecting?
  {
    AfterHolds(schedule, n);
    AfterHasNotices(schedule, n);
    var s := After(schedule, n);
    if !s.run.Selecting? {
      assert Registered(s) == {};
    }
  }

  lemma DropsNeedShutdown(s: Hub, step: Step)
    requires s.dropped == {} || s.cancelled
    ensures var s' := Tick(s, step); s'.dropped == {} || s'.cancelled
  {
  }

  lemma {:induction false} NothingDroppedBeforeShutdown(schedule: seq<Step>, n: nat)
    requires n <= |schedule|
    ensures var s := After(schedule, n); s.dropped == {} || s.cancelled
  {
    if n > 0 {
      NothingDroppedBeforeShutdown(schedule, n - 1);
      DropsNeedShutdown(After(schedule, n - 1), schedule[n - 1]);
    }
  }

  /** Before any shutdown, once its notice has been dealt with, a closed client is left behind in
      the registry if and only if it was registered after its notice was taken. */
  lemma LeftBehindIffOvertaken(schedule: seq<Step>, n: nat, c: Client)
    requires n <= |schedule|
    requires var s := After(schedule, n); !s.cancelled && !Outstanding(s, c)
    ensures var s := After(schedule, n);
            c in Registered(s) && c in s.closed <==> c in s.everRegistered && c in s.overtaken
  {
    ClosedAndRegisteredIff(schedule, n, c);
    NothingDroppedBeforeShutdown(schedule, n);
    AfterHasNotices(schedule, n);
    StillSelecting(schedule, n);
  }

  lemma {:induction false} StillSelecting(schedule: seq<Step>, n: nat)
    requires n <= |schedule| && !After(schedule, n).cancelled
    ensures After(schedule, n).run.Selecting?
  {
    if n > 0 {
      LeavingNeedsShutdown(After(schedule, n - 1), schedule[n - 1]);
      if !After(schedule, n - 1).cancelled { StillSelecting(schedule, n - 1); }
    }
  }

  lemma LeavingNeedsShutdown(s: Hub, step: Step)
    ensures var s' := Tick(s, step);
            && (s.cancelled ==> s'.cancelled)
            && (s.run.Selecting? && !s.cancelled ==> s'.run.Selecting?)
  {
  }

  lemma GoneStaysGone(s: Hub, step: Step, c: Client)
    requires OneNotice(s) && TakenInTime(s, c)
    ensures TakenInTime(Tick(s, step), c)
  {
    if step.TakeUnregister? && s.unregistering != [] {
      assert s.unregistering[0] in s.unregistering;
    }
  }

  lemma GoneIsNotRegistered(s: Hub, c: Client)
    requires RegistryIs(s) && RegistryBooks(s) && TakenInTime(s, c)
    ensures c !in Registered(s)
  {
  }

  lemma {:induction false} TakenInTimeLasts(schedule: seq<Step>, m: nat, n: nat, c: Client)
    requires m <= n <= |schedule| && TakenInTime(After(schedule, m), c)
    ensures TakenInTime(After(schedule, n), c)
  {
    if m < n {
      TakenInTimeLasts(schedule, m, n - 1, c);
      AfterHasNotices(schedule, n - 1);
      GoneStaysGone(After(schedule, n - 1), schedule[n - 1], c);
    }
  }

  /** A client that was registered before its notice was taken never returns to the registry. */
  lemma TakenInTimeNeverReturns(schedule: seq<Step>, m: nat, n: nat, c: Client)
    requires m <= n <= |schedule| && TakenInTime(After(schedule, m), c)
    ensures c !in Registered(After(schedule, n))
  {
    TakenInTimeLasts(schedule, m, n, c);
    AfterHasNotices(schedule, n);
    AfterHolds(schedule, n);
    GoneIsNotRegistered(After(schedule, n), c);
  }

  // ---------- A registration can outlive its client ----------

  function StaleSchedule(): seq<Step> {
    [Connect(0, "doc"), CallUnregister(0, 0), Swap(0), CloseChannel(0), Notify(0), TakeUnregister, TakeRegister]
  }

  /** The states the schedule goes through. */
  ghost function StaleState(n: nat): Hub {
    var connected := New().(documentOf := map[0 := "doc"], registering := [0]);
    if n == 0 then New()
    else if n == 1 then connected
    else if n == 2 then connected.(parties := map[0 := Task(0, AtSwap, [])])
    else if n == 3 then connected.(parties := map[0 := Task(0, Won, [])], closed := {0})
    else
      var shut := connected.(closed := {0}, closings := [0]);
      if n == 4 then shut.(parties := map[0 := Task(0, ChannelClosed, [])])
      else
        var noticed := shut.(parties := map[0 := Task(0, Finished, [])]);
        if n == 5 then noticed.(unregistering := [0])
        else
          var overtaken := noticed.(taken := {0}, overtaken := {0});
          if n == 6 then overtaken
          else overtaken.(registering := [], clients := map["doc" := {0}], everRegistered := {0})
  }

  lemma StaleStep(n: nat)
    requires n < 7
    ensures Tick(StaleState(n), StaleSchedule()[n]) == StaleState(n + 1)
  {
    if n <= 2 {
      StaleStart(n);
    } else if n <= 5 {
      StaleEnd(n);
    } else {
      StaleLast();
    }
  }

  lemma StaleStart(n: nat)
    requires n <= 2
    ensures Enabled(StaleState(n), StaleSchedule()[n]) && Do(StaleState(n), StaleSchedule()[n]) == StaleState(n + 1)
  {
  }

  lemma StaleEnd(n: nat)
    requires 2 < n <= 5
    ensures Enabled(StaleState(n), StaleSchedule()[n]) && Do(StaleState(n), StaleSchedule()[n]) == StaleState(n + 1)
  {
    if n == 3 {
      assert Do(StaleState(3), StaleSchedule()[3]) == StaleState(4);
    } else if n == 4 {
      assert Do(StaleState(4), StaleSchedule()[4]) == StaleState(5);
    }
  }

  lemma StaleLast()
    ensures Enabled(StaleState(6), StaleSchedule()[6]) && Do(StaleState(6), StaleSchedule()[6]) == StaleState(7)
  {
    var none: set<Client> := {};
    assert none + {0} == {0};
    assert StaleState(6).registering[1..] == [];
    assert AddClient(map[], "doc", 0) == map["doc" := {0}];
  }

  lemma {:induction false} StaleAfter(n: nat)
    requires n <= 7
    ensures After(StaleSchedule(), n) == StaleState(n)
  {
    if n > 0 {
      StaleAfter(n - 1);
      StaleStep(n - 1);
    }
  }

  /** A closed client is in the registry and no notice about it is left. */
  ghost predicate LeftBehind(s: Hub, c: Client) {
    c in Registered(s) && c in s.closed && !Outstanding(s, c)
  }

  lemma LastStaleState()
    ensures LeftBehind(StaleState(7), 0)
  {
    assert "doc" in StaleState(7).clients && 0 in StaleState(7).clients["doc"];
  }

  /** The loop may take a client's unregister notice before its registration: the closed client
      then stays in the registry although no notice about it is left. */
  lemma ClosedClientCanStayRegistered()
    ensures LeftBehind(After(StaleSchedule(), |StaleSchedule()|), 0)
  {
    StaleAfter(|StaleSchedule()|);
    LastStaleState();
  }
}
