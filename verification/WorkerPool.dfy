/** The worker pool as interleaved atomic steps: submitters, workers and stoppers over one
    bounded channel, an atomic flag and a once. */
module WorkerPool {
  import opened Unused

  type Job = nat

  /** A submitter: before the stopped check, between the check and the select, or done. */
  datatype Phase = Checking | Sending | Accepted | Refused

  datatype Submitter = Submitter(try: bool, phase: Phase)

  datatype Worker = Idle | Busy(job: Job) | Exited

  /** A caller of Stop: before the once, waiting, waiting after its context ended, returned. */
  datatype Stopper = AtOnce | Waiting | TimedOut | Returned(timely: bool)

  datatype Once = NotBegun | Begun(caller: nat) | Done

  datatype Pool = Pool(
    capacity: nat,
    queue: seq<Job>,
    closed: bool,
    stopped: bool,
    cancelled: bool,
    once: Once,
    workers: seq<Worker>,
    submitters: map<Job, Submitter>,
    stoppers: map<nat, Stopper>,
    accepted: seq<Job>,
    started: seq<Job>,
    finished: seq<Job>,
    crashed: bool)

  datatype Step =
    | Submit(j: Job, try: bool)
    | Check(j: Job)
    | Send(j: Job)
    | HandOver(j: Job, w: nat)
    | SeeCancel(j: Job)
    | FindFull(j: Job)
    | SendOnClosed(j: Job)
    | Receive(w: nat)
    | Finish(w: nat)
    | Exit(w: nat)
    | Stop(k: nat)
    | MarkStopped(k: nat)
    | CloseJobs(k: nat)
    | PassOnce(k: nat)
    | SeeDone(k: nat)
    | SeeTimeout(k: nat)
    | ReturnLate(k: nat)

  predicate IsAt(s: Pool, j: Job, phase: Phase) {
    j in s.submitters && s.submitters[j].phase == phase
  }

  predicate WorkerIs(s: Pool, w: nat, state: Worker) {
    w < |s.workers| && s.workers[w] == state
  }

  predicate StopperIs(s: Pool, k: nat, state: Stopper) {
    k in s.stoppers && s.stoppers[k] == state
  }

  predicate AllExited(s: Pool) {
    forall w :: 0 <= w < |s.workers| ==> s.workers[w].Exited?
  }

  /** A send on a channel needs room in the buffer or a receiver on an empty one; a send on a
      closed channel is always ready, and panics. */
  predicate Enabled(s: Pool, step: Step) {
    !s.crashed &&
    match step
    case Submit(j, _) => j !in s.submitters
    case Check(j) => IsAt(s, j, Checking)
    case Send(j) => IsAt(s, j, Sending) && !s.closed && |s.queue| < s.capacity
    case HandOver(j, w) => IsAt(s, j, Sending) && !s.closed && s.queue == [] && WorkerIs(s, w, Idle)
    case SeeCancel(j) => IsAt(s, j, Sending) && !s.submitters[j].try && s.cancelled
    case FindFull(j) => IsAt(s, j, Sending) && s.submitters[j].try && !s.closed && |s.queue| >= s.capacity
    case SendOnClosed(j) => IsAt(s, j, Sending) && s.closed
    case Receive(w) => WorkerIs(s, w, Idle) && s.queue != []
    case Finish(w) => w < |s.workers| && s.workers[w].Busy?
    case Exit(w) => WorkerIs(s, w, Idle) && s.closed && s.queue == []
    case Stop(k) => k !in s.stoppers
    case MarkStopped(k) => StopperIs(s, k, AtOnce) && s.once == NotBegun
    case CloseJobs(k) => StopperIs(s, k, AtOnce) && s.once == Begun(k)
    case PassOnce(k) => StopperIs(s, k, AtOnce) && s.once == Done
    case SeeDone(k) => StopperIs(s, k, Waiting) && AllExited(s)
    case SeeTimeout(k) => StopperIs(s, k, Waiting)
    case ReturnLate(k) => StopperIs(s, k, TimedOut) && AllExited(s)
  }

  function Moved(s: Pool, j: Job, phase: Phase): Pool
    requires j in s.submitters
  {
    s.(submitters := s.submitters[j := s.submitters[j].(phase := phase)])
  }

  function Do(s: Pool, step: Step): Pool
    requires Enabled(s, step)
  {
    match step
    case Submit(j, try) => s.(submitters := s.submitters[j := Submitter(try, Checking)])
    case Check(j) => Moved(s, j, if s.stopped then Refused else Sending)
    case Send(j) => Moved(s, j, Accepted).(queue := s.queue + [j], accepted := s.accepted + [j])
    case HandOver(j, w) =>
      Moved(s, j, Accepted).(
        workers := s.workers[w := Busy(j)], accepted := s.accepted + [j], started := s.started + [j])
    case SeeCancel(j) => Moved(s, j, Refused)
    case FindFull(j) => Moved(s, j, Refused)
    case SendOnClosed(j) => s.(crashed := true)
    case Receive(w) =>
      s.(workers := s.workers[w := Busy(s.queue[0])], queue := s.queue[1..], started := s.started + [s.queue[0]])
    case Finish(w) => s.(workers := s.workers[w := Idle], finished := s.finished + [s.workers[w].job])
    case Exit(w) => s.(workers := s.workers[w := Exited])
    case Stop(k) => s.(stoppers := s.stoppers[k := AtOnce])
    case MarkStopped(k) => s.(stopped := true, once := Begun(k))
    case CloseJobs(k) => s.(closed := true, once := Done, stoppers := s.stoppers[k := Waiting])
    case PassOnce(k) => s.(stoppers := s.stoppers[k := Waiting])
    case SeeDone(k) => s.(cancelled := true, stoppers := s.stoppers[k := Returned(true)])
    case SeeTimeout(k) => s.(cancelled := true, stoppers := s.stoppers[k := TimedOut])
    case ReturnLate(k) => s.(stoppers := s.stoppers[k := Returned(false)])
  }

  // ---------- Jobs in the hands of workers ----------

  /** 1 if the worker runs the job, else 0. */
  function Holds(w: Worker, j: Job): nat {
    if w == Busy(j) then 1 else 0
  }

  /** How many workers run the job. */
  function Running(workers: seq<Worker>, j: Job): nat {
    if workers == [] then 0 else Holds(workers[0], j) + Running(workers[1..], j)
  }

  lemma {:induction false} RunningUpdate(workers: seq<Worker>, w: nat, state: Worker, j: Job)
    requires w < |workers|
    ensures Running(workers[w := state], j) + Holds(workers[w], j) == Running(workers, j) + Holds(state, j)
  {
    var workers' := workers[w := state];
    if w == 0 {
      assert workers'[1..] == workers[1..];
    } else {
      RunningUpdate(workers[1..], w - 1, state, j);
      assert workers'[1..] == workers[1..][w - 1 := state];
    }
  }

  lemma {:induction false} NobodyRuns(workers: seq<Worker>, j: Job)
    requires forall w :: 0 <= w < |workers| ==> !workers[w].Busy?
    ensures Running(workers, j) == 0
  {
    if workers != [] {
      NobodyRuns(workers[1..], j);
    }
  }

  // ---------- Invariant ----------

  function Times(s: seq<Job>, j: Job): nat {
    multiset(s)[j]
  }

  lemma TimesSnoc(s: seq<Job>, x: Job, j: Job)
    ensures Times(s + [x], j) == Times(s, j) + if x == j then 1 else 0
  {
  }

  /** Accepted jobs leave the queue in the order they were accepted, every started job is
      running or finished, and no job is accepted twice. */
  ghost predicate Conserved(s: Pool) {
    && s.accepted == s.started + s.queue
    && (forall j :: Times(s.started, j) == Running(s.workers, j) + Times(s.finished, j))
    && (forall j :: Times(s.accepted, j) == if IsAt(s, j, Accepted) then 1 else 0)
  }

  ghost predicate StopOrder(s: Pool) {
    && (s.stopped <==> s.once != NotBegun)
    && (s.closed <==> s.once == Done)
    && (s.once.Begun? ==> StopperIs(s, s.once.caller, AtOnce))
    && (s.cancelled ==> s.closed)
    && (forall k :: k in s.stoppers && (s.stoppers[k].TimedOut? || s.stoppers[k].Returned?) ==> s.cancelled)
    && (forall w :: 0 <= w < |s.workers| && s.workers[w].Exited? ==> s.closed && s.queue == [])
    && (forall k :: k in s.stoppers && !s.stoppers[k].AtOnce? ==> s.closed)
    && (forall k :: k in s.stoppers && s.stoppers[k].Returned? ==> AllExited(s))
  }

  ghost predicate Inv(s: Pool) {
    |s.queue| <= s.capacity && |s.workers| > 0 && Conserved(s) && StopOrder(s)
  }

  /** Accepting j adds it once to the log of accepted jobs. */
  lemma AcceptOne(s: Pool, j: Job, s': Pool)
    requires Conserved(s) && IsAt(s, j, Sending)
    requires s'.accepted == s.accepted + [j] && s'.submitters == Moved(s, j, Accepted).submitters
    ensures forall i :: Times(s'.accepted, i) == if IsAt(s', i, Accepted) then 1 else 0
  {
    forall i ensures Times(s'.accepted, i) == if IsAt(s', i, Accepted) then 1 else 0 {
      TimesSnoc(s.accepted, j, i);
    }
  }

  /** Starting j puts it into the hands of one worker. */
  lemma StartOne(s: Pool, j: Job, w: nat, s': Pool)
    requires Conserved(s) && WorkerIs(s, w, Idle)
    requires s'.started == s.started + [j] && s'.workers == s.workers[w := Busy(j)] && s'.finished == s.finished
    ensures forall i :: Times(s'.started, i) == Running(s'.workers, i) + Times(s'.finished, i)
  {
    forall i ensures Times(s'.started, i) == Running(s'.workers, i) + Times(s'.finished, i) {
      TimesSnoc(s.started, j, i);
      RunningUpdate(s.workers, w, Busy(j), i);
    }
  }

  lemma SendConserves(s: Pool, j: Job)
    requires Inv(s) && Enabled(s, Send(j))
    ensures Conserved(Do(s, Send(j)))
  {
    AcceptOne(s, j, Do(s, Send(j)));
    assert s.accepted + [j] == s.started + (s.queue + [j]);
  }

  lemma HandOverConserves(s: Pool, j: Job, w: nat)
    requires Inv(s) && Enabled(s, HandOver(j, w))
    ensures Conserved(Do(s, HandOver(j, w)))
  {
    AcceptOne(s, j, Do(s, HandOver(j, w)));
    StartOne(s, j, w, Do(s, HandOver(j, w)));
    assert s.accepted + [j] == s.started + [j] + s.queue;
  }

  lemma ReceiveConserves(s: Pool, w: nat)
    requires Inv(s) && Enabled(s, Receive(w))
    ensures Conserved(Do(s, Receive(w)))
  {
    StartOne(s, s.queue[0], w, Do(s, Receive(w)));
    assert s.queue == [s.queue[0]] + s.queue[1..];
    assert s.started + s.queue == s.started + [s.queue[0]] + s.queue[1..];
    SameSubmitters(s, Do(s, Receive(w)));
  }

  lemma FinishConserves(s: Pool, w: nat)
    requires Inv(s) && Enabled(s, Finish(w))
    ensures Conserved(Do(s, Finish(w)))
  {
    var s' := Do(s, Finish(w));
    forall i ensures Times(s'.started, i) == Running(s'.workers, i) + Times(s'.finished, i) {
      TimesSnoc(s.finished, s.workers[w].job, i);
      RunningUpdate(s.workers, w, Idle, i);
    }
    SameSubmitters(s, s');
  }

  lemma SameSubmitters(s: Pool, s': Pool)
    requires Conserved(s) && s'.accepted == s.accepted
    requires forall j :: IsAt(s', j, Accepted) <==> IsAt(s, j, Accepted)
    ensures forall j :: Times(s'.accepted, j) == if IsAt(s', j, Accepted) then 1 else 0
  {
  }

  lemma OtherwiseConserves(s: Pool, step: Step)
    requires Inv(s) && Enabled(s, step)
    requires !step.Send? && !step.HandOver? && !step.Receive? && !step.Finish?
    ensures Conserved(Do(s, step))
  {
    var s' := Do(s, step);
    SameSubmitters(s, s');
    forall i ensures Running(s'.workers, i) == Running(s.workers, i) {
      if step.Exit? { RunningUpdate(s.workers, step.w, Exited, i); }
    }
  }

  lemma DoConserves(s: Pool, step: Step)
    requires Inv(s) && Enabled(s, step)
    ensures Conserved(Do(s, step))
  {
    match step {
      case Send(j) => SendConserves(s, j);
      case HandOver(j, w) => HandOverConserves(s, j, w);
      case Receive(w) => ReceiveConserves(s, w);
      case Finish(w) => FinishConserves(s, w);
      case _ => OtherwiseConserves(s, step);
    }
  }

  lemma DoKeepsStopOrder(s: Pool, step: Step)
    requires Inv(s) && Enabled(s, step)
    ensures StopOrder(Do(s, step))
  {
  }

  lemma DoKeepsInv(s: Pool, step: Step)
    requires Inv(s) && Enabled(s, step)
    ensures Inv(Do(s, step))
  {
    DoConserves(s, step);
    DoKeepsStopOrder(s, step);
  }

  function New(size: nat, capacity: nat): Pool
  {
    Pool(capacity, [], false, false, false, NotBegun, seq(size, _ => Idle), map[], map[], [], [], [], false)
  }

  lemma NewHolds(size: nat, capacity: nat)
    requires size > 0
    ensures Inv(New(size, capacity))
  {
    forall j ensures Running(New(size, capacity).workers, j) == 0 {
      NobodyRuns(New(size, capacity).workers, j);
    }
  }

  // ---------- Runs ----------

  /** One entry of a schedule; a step that is not enabled is skipped. */
  function Tick(s: Pool, step: Step): Pool {
    if Enabled(s, step) then Do(s, step) else s
  }

  lemma TickKeepsInv(s: Pool, step: Step)
    requires Inv(s)
    ensures Inv(Tick(s, step))
  {
    if Enabled(s, step) {
      DoKeepsInv(s, step);
    }
  }

  /** The state after the first n steps of a schedule. */
  function After(size: nat, capacity: nat, schedule: seq<Step>, n: nat): Pool
    requires n <= |schedule|
  {
    if n == 0 then New(size, capacity)
    else Tick(After(size, capacity, schedule, n - 1), schedule[n - 1])
  }

  lemma {:induction false} AfterHolds(size: nat, capacity: nat, schedule: seq<Step>, n: nat)
    requires size > 0 && n <= |schedule|
    ensures Inv(After(size, capacity, schedule, n))
  {
    if n == 0 {
      NewHolds(size, capacity);
    } else {
      AfterHolds(size, capacity, schedule, n - 1);
      TickKeepsInv(After(size, capacity, schedule, n - 1), schedule[n - 1]);
    }
  }

  /** In every interleaving each accepted job is in exactly one place, queued, running or
      finished, and exactly once; any other job is nowhere. Jobs start in the order in which
      they were accepted. */
  lemma NoJobIsLostOrRunTwice(size: nat, capacity: nat, schedule: seq<Step>, n: nat, j: Job)
    requires size > 0 && n <= |schedule|
    ensures var s := After(size, capacity, schedule, n);
            && Times(s.queue, j) + Running(s.workers, j) + Times(s.finished, j)
               == (if IsAt(s, j, Accepted) then 1 else 0)
            && s.started <= s.accepted
  {
    AfterHolds(size, capacity, schedule, n);
    EachJobOnce(After(size, capacity, schedule, n), j);
  }

  lemma EachJobOnce(s: Pool, j: Job)
    requires Conserved(s)
    ensures Times(s.queue, j) + Running(s.workers, j) + Times(s.finished, j)
            == (if IsAt(s, j, Accepted) then 1 else 0)
  {
    assert Times(s.accepted, j) == Times(s.started, j) + Times(s.queue, j);
  }

  lemma ReturnedMeansDrained(s: Pool, k: nat, j: Job)
    requires Inv(s) && k in s.stoppers && s.stoppers[k].Returned?
    ensures s.queue == [] && s.closed && Running(s.workers, j) == 0
  {
    NobodyRuns(s.workers, j);
    assert s.workers[0].Exited?;
  }

  /** When some call of Stop has returned, in time or late, every accepted job has finished,
      exactly once, and nothing can be accepted any more. */
  lemma StoppedMeansFinished(size: nat, capacity: nat, schedule: seq<Step>, n: nat, k: nat, j: Job)
    requires size > 0 && n <= |schedule|
    requires var s := After(size, capacity, schedule, n); k in s.stoppers && s.stoppers[k].Returned?
    ensures var s := After(size, capacity, schedule, n);
            && Times(s.finished, j) == (if IsAt(s, j, Accepted) then 1 else 0)
            && s.queue == [] && s.cancelled
            && forall step :: Enabled(s, step) ==> !step.Send? && !step.HandOver?
  {
    AfterHolds(size, capacity, schedule, n);
    EachJobOnce(After(size, capacity, schedule, n), j);
    ReturnedMeansDrained(After(size, capacity, schedule, n), k, j);
  }

  /** A call of Stop whose context has ended has told the jobs so. */
  lemma LateStopSignals(size: nat, capacity: nat, schedule: seq<Step>, n: nat, k: nat)
    requires size > 0 && n <= |schedule| && StopperIs(After(size, capacity, schedule, n), k, TimedOut)
    ensures After(size, capacity, schedule, n).cancelled
  {
    AfterHolds(size, capacity, schedule, n);
  }

  /** The state after all steps of a schedule, from any state. */
  function Ticks(s: Pool, schedule: seq<Step>): Pool
    decreases |schedule|
  {
    if schedule == [] then s else Ticks(Tick(s, schedule[0]), schedule[1..])
  }

  // ---------- Who is refused, and who gets in ----------

  lemma RefusedByStep(s: Pool, step: Step, j: Job)
    requires Inv(s) && !IsAt(s, j, Refused) && IsAt(Tick(s, step), j, Refused)
    ensures j in s.submitters && (s.stopped || (s.submitters[j].try && |s.queue| >= s.capacity))
  {
  }

  /** In every run a submission is refused only when the pool is marked stopped, or when it is a
      try and the queue has no room at that moment. */
  lemma RefusedOnlyIf(size: nat, capacity: nat, schedule: seq<Step>, n: nat, j: Job)
    requires size > 0 && n < |schedule|
    requires !IsAt(After(size, capacity, schedule, n), j, Refused)
    requires IsAt(After(size, capacity, schedule, n + 1), j, Refused)
    ensures var s := After(size, capacity, schedule, n);
            j in s.submitters && (s.stopped || (s.submitters[j].try && |s.queue| >= s.capacity))
  {
    AfterHolds(size, capacity, schedule, n);
    RefusedByStep(After(size, capacity, schedule, n), schedule[n], j);
  }

  lemma ThreeTicks(s: Pool, a: Step, b: Step, c: Step)
    ensures Ticks(s, [a, b, c]) == Tick(Tick(Tick(s, a), b), c)
  {
    assert [a, b, c][1..] == [b, c] && [b, c][1..] == [c] && [c][1..] == [];
    assert Ticks(Tick(Tick(Tick(s, a), b), c), []) == Tick(Tick(Tick(s, a), b), c);
    assert Ticks(Tick(Tick(s, a), b), [c]) == Tick(Tick(Tick(s, a), b), c);
  }

  /** A pool that is neither stopped nor crashed and has room accepts a fresh submission of either
      kind in its next three steps. */
  lemma RoomIsGiven(s: Pool, j: Job, try: bool)
    requires Inv(s) && !s.crashed && !s.stopped && |s.queue| < s.capacity && j !in s.submitters
    ensures var t := Ticks(s, [Submit(j, try), Check(j), Send(j)]);
            IsAt(t, j, Accepted) && t.queue == s.queue + [j] && t.accepted == s.accepted + [j]
  {
    ThreeTicks(s, Submit(j, try), Check(j), Send(j));
  }

  /** From s some continuation accepts the job. */
  ghost predicate CanBeAccepted(s: Pool, j: Job) {
    exists schedule :: IsAt(Ticks(s, schedule), j, Accepted)
  }

  lemma AcceptedFirst(s: Pool, step: Step, j: Job)
    requires Enabled(s, step) && CanBeAccepted(Do(s, step), j)
    ensures CanBeAccepted(s, j)
  {
    var schedule :| IsAt(Ticks(Do(s, step), schedule), j, Accepted);
    assert ([step] + schedule)[1..] == schedule;
    assert IsAt(Ticks(s, [step] + schedule), j, Accepted);
  }

  lemma AcceptedAtOnce(s: Pool, step: Step, j: Job)
    requires Enabled(s, step) && IsAt(Do(s, step), j, Accepted)
    ensures CanBeAccepted(s, j)
  {
    assert Ticks(Do(s, step), []) == Do(s, step);
    assert IsAt(Ticks(Do(s, step), []), j, Accepted);
    AcceptedFirst(s, step, j);
  }

  lemma RoomSendsOn(s: Pool, j: Job)
    requires !s.crashed && !s.closed && IsAt(s, j, Sending) && |s.queue| < s.capacity
    ensures CanBeAccepted(s, j)
  {
    AcceptedAtOnce(s, Send(j), j);
  }

  /** A worker that idles makes room, by taking a job or, in an unbuffered pool, this one. */
  lemma IdleMakesRoom(s: Pool, j: Job)
    requires Inv(s) && !s.crashed && !s.closed && IsAt(s, j, Sending) && WorkerIs(s, 0, Idle)
    ensures CanBeAccepted(s, j)
  {
    if |s.queue| < s.capacity {
      RoomSendsOn(s, j);
    } else if s.queue == [] {
      AcceptedAtOnce(s, HandOver(j, 0), j);
    } else {
      RoomSendsOn(Do(s, Receive(0)), j);
      AcceptedFirst(s, Receive(0), j);
    }
  }

  /** Whoever has passed the stopped check of a pool that is still open can get in, full or not. */
  lemma SenderCanGetIn(s: Pool, j: Job)
    requires Inv(s) && !s.crashed && !s.closed && IsAt(s, j, Sending)
    ensures CanBeAccepted(s, j)
  {
    if WorkerIs(s, 0, Idle) {
      IdleMakesRoom(s, j);
    } else {
      assert !s.workers[0].Exited?;
      DoKeepsInv(s, Finish(0));
      IdleMakesRoom(Do(s, Finish(0)), j);
      AcceptedFirst(s, Finish(0), j);
    }
  }

  /** In every reachable state before a stop every fresh submission, blocking or trying, can still
      be accepted. */
  lemma EverySubmissionCanGetIn(size: nat, capacity: nat, schedule: seq<Step>, n: nat, j: Job, try: bool)
    requires size > 0 && n <= |schedule|
    requires var s := After(size, capacity, schedule, n); !s.crashed && !s.stopped && j !in s.submitters
    ensures var s := After(size, capacity, schedule, n);
            && CanBeAccepted(Do(s, Submit(j, try)), j)
            && (|s.queue| < s.capacity ==> IsAt(Ticks(s, [Submit(j, try), Check(j), Send(j)]), j, Accepted))
  {
    var s := After(size, capacity, schedule, n);
    AfterHolds(size, capacity, schedule, n);
    if |s.queue| < s.capacity { RoomIsGiven(s, j, try); }
    var s1 := Do(s, Submit(j, try));
    DoKeepsInv(s, Submit(j, try));
    DoKeepsInv(s1, Check(j));
    SenderCanGetIn(Do(s1, Check(j)), j);
    AcceptedFirst(s1, Check(j), j);
  }

  // ---------- In time or late ----------

  /** The call saw its context end at some point. */
  ghost predicate TimedOutBy(size: nat, capacity: nat, schedule: seq<Step>, n: nat, k: nat)
    requires n <= |schedule|
  {
    exists m :: 0 <= m <= n && StopperIs(After(size, capacity, schedule, m), k, TimedOut)
  }

  ghost predicate TimelyOk(s: Pool, k: nat, late: bool) {
    if k !in s.stoppers then !late
    else
      match s.stoppers[k]
      case AtOnce => !late
      case Waiting => !late
      case TimedOut => late
      case Returned(timely) => timely == !late
  }

  lemma TickKeepsTimely(s: Pool, step: Step, k: nat, late: bool)
    requires TimelyOk(s, k, late)
    ensures TimelyOk(Tick(s, step), k, late || StopperIs(Tick(s, step), k, TimedOut))
  {
  }

  lemma {:induction false} TimelyHolds(size: nat, capacity: nat, schedule: seq<Step>, n: nat, k: nat)
    requires n <= |schedule|
    ensures TimelyOk(After(size, capacity, schedule, n), k, TimedOutBy(size, capacity, schedule, n, k))
  {
    if n > 0 {
      TimelyHolds(size, capacity, schedule, n - 1, k);
      TickKeepsTimely(After(size, capacity, schedule, n - 1), schedule[n - 1], k,
        TimedOutBy(size, capacity, schedule, n - 1, k));
      TimedOutNext(size, capacity, schedule, n, k);
    }
  }

  lemma TimedOutNext(size: nat, capacity: nat, schedule: seq<Step>, n: nat, k: nat)
    requires 0 < n <= |schedule|
    ensures TimedOutBy(size, capacity, schedule, n, k) <==>
              || TimedOutBy(size, capacity, schedule, n - 1, k)
              || StopperIs(After(size, capacity, schedule, n), k, TimedOut)
  {
    if TimedOutBy(size, capacity, schedule, n, k) {
      var m :| 0 <= m <= n && StopperIs(After(size, capacity, schedule, m), k, TimedOut);
    }
    if TimedOutBy(size, capacity, schedule, n - 1, k) {
      var m :| 0 <= m <= n - 1 && StopperIs(After(size, capacity, schedule, m), k, TimedOut);
    }
  }

  /** Stop answers without an error if and only if its context did not end while it waited. */
  lemma TimelyIffNoTimeout(size: nat, capacity: nat, schedule: seq<Step>, n: nat, k: nat, timely: bool)
    requires n <= |schedule| && StopperIs(After(size, capacity, schedule, n), k, Returned(timely))
    ensures timely <==> !TimedOutBy(size, capacity, schedule, n, k)
  {
    TimelyHolds(size, capacity, schedule, n, k);
  }

  // ---------- Stop can return ----------

  /** From s some continuation without a panic leads to a state in which the call has returned. */
  ghost predicate CanReturn(s: Pool, k: nat) {
    exists schedule :: HasReturned(Ticks(s, schedule), k)
  }

  predicate HasReturned(s: Pool, k: nat) {
    !s.crashed && k in s.stoppers && s.stoppers[k].Returned?
  }

  lemma CanReturnFirst(s: Pool, step: Step, k: nat)
    requires Enabled(s, step) && CanReturn(Do(s, step), k)
    ensures CanReturn(s, k)
  {
    var schedule :| HasReturned(Ticks(Do(s, step), schedule), k);
    assert ([step] + schedule)[1..] == schedule;
    assert HasReturned(Ticks(s, [step] + schedule), k);
  }

  lemma ReturnsAtOnce(s: Pool, k: nat)
    requires HasReturned(s, k)
    ensures CanReturn(s, k)
  {
    assert Ticks(s, []) == s;
  }

  function Effort(w: Worker): nat {
    match w
    case Busy(_) => 2
    case Idle => 1
    case Exited => 0
  }

  /** What the workers still have to do. */
  function Work(workers: seq<Worker>): nat {
    if workers == [] then 0 else Effort(workers[0]) + Work(workers[1..])
  }

  lemma {:induction false} WorkUpdate(workers: seq<Worker>, w: nat, state: Worker)
    requires w < |workers|
    ensures Work(workers[w := state]) + Effort(workers[w]) == Work(workers) + Effort(state)
  {
    var workers' := workers[w := state];
    if w == 0 {
      assert workers'[1..] == workers[1..];
    } else {
      WorkUpdate(workers[1..], w - 1, state);
      assert workers'[1..] == workers[1..][w - 1 := state];
    }
  }

  /** The next step of a worker that has not exited. */
  function WorkerStep(s: Pool, w: nat): Step
    requires w < |s.workers|
  {
    if s.workers[w].Busy? then Finish(w) else if s.queue != [] then Receive(w) else Exit(w)
  }

  lemma WorkerGoesOn(s: Pool, w: nat)
    requires !s.crashed && s.closed && w < |s.workers| && !s.workers[w].Exited?
    ensures Enabled(s, WorkerStep(s, w))
    ensures var s' := Do(s, WorkerStep(s, w));
            && !s'.crashed && s'.closed && s'.stoppers == s.stoppers
            && 2 * |s'.queue| + Work(s'.workers) < 2 * |s.queue| + Work(s.workers)
  {
    WorkUpdate(s.workers, w, Do(s, WorkerStep(s, w)).workers[w]);
  }

  /** A waiting call returns once the workers have drained the queue. */
  lemma {:induction false} ClosedCanReturn(s: Pool, k: nat)
    requires Inv(s) && !s.crashed && s.closed && k in s.stoppers && !s.stoppers[k].AtOnce?
    ensures CanReturn(s, k)
    decreases 2 * |s.queue| + Work(s.workers)
  {
    if s.stoppers[k].Returned? {
      ReturnsAtOnce(s, k);
    } else if AllExited(s) {
      var step := if s.stoppers[k].Waiting? then SeeDone(k) else ReturnLate(k);
      ReturnsAtOnce(Do(s, step), k);
      CanReturnFirst(s, step, k);
    } else {
      var w :| 0 <= w < |s.workers| && !s.workers[w].Exited?;
      WorkerGoesOn(s, w);
      DoKeepsInv(s, WorkerStep(s, w));
      ClosedCanReturn(Do(s, WorkerStep(s, w)), k);
      CanReturnFirst(s, WorkerStep(s, w), k);
    }
  }

  lemma DoneCanReturn(s: Pool, k: nat)
    requires Inv(s) && !s.crashed && s.once == Done && k in s.stoppers
    ensures CanReturn(s, k)
  {
    if s.stoppers[k].AtOnce? {
      DoKeepsInv(s, PassOnce(k));
      ClosedCanReturn(Do(s, PassOnce(k)), k);
      CanReturnFirst(s, PassOnce(k), k);
    } else {
      ClosedCanReturn(s, k);
    }
  }

  lemma BegunCanReturn(s: Pool, k: nat)
    requires Inv(s) && !s.crashed && s.once.Begun? && k in s.stoppers
    ensures CanReturn(s, k)
  {
    var step := CloseJobs(s.once.caller);
    DoKeepsInv(s, step);
    DoneCanReturn(Do(s, step), k);
    CanReturnFirst(s, step, k);
  }

  /** In every reachable state without a panic every call of Stop can still return: nothing
      deadlocks, whatever the submitters and the other callers have done. */
  lemma StopCanReturn(size: nat, capacity: nat, schedule: seq<Step>, n: nat, k: nat)
    requires size > 0 && n <= |schedule|
    requires var s := After(size, capacity, schedule, n); !s.crashed && k in s.stoppers
    ensures CanReturn(After(size, capacity, schedule, n), k)
  {
    var s := After(size, capacity, schedule, n);
    AfterHolds(size, capacity, schedule, n);
    if s.once.Done? {
      DoneCanReturn(s, k);
    } else if s.once.Begun? {
      BegunCanReturn(s, k);
    } else {
      DoKeepsInv(s, MarkStopped(k));
      BegunCanReturn(Do(s, MarkStopped(k)), k);
      CanReturnFirst(s, MarkStopped(k), k);
    }
  }

  // ---------- The window between the check and the send ----------

  ghost predicate InWindow(s: Pool) {
    exists j :: IsAt(s, j, Sending)
  }

  ghost predicate CanCrash(s: Pool) {
    exists schedule :: Ticks(s, schedule).crashed
  }

  lemma CanCrashFirst(s: Pool, step: Step)
    requires Enabled(s, step) && CanCrash(Do(s, step))
    ensures CanCrash(s)
  {
    var schedule :| Ticks(Do(s, step), schedule).crashed;
    assert ([step] + schedule)[1..] == schedule;
    assert Ticks(s, [step] + schedule).crashed;
  }

  lemma ClosedCanCrash(s: Pool, j: Job)
    requires !s.crashed && s.closed && IsAt(s, j, Sending)
    ensures CanCrash(s)
  {
    var s' := Do(s, SendOnClosed(j));
    assert Ticks(s', []) == s';
    CanCrashFirst(s, SendOnClosed(j));
  }

  lemma BegunCanCrash(s: Pool, j: Job, k: nat)
    requires !s.crashed && s.once == Begun(k) && StopperIs(s, k, AtOnce) && IsAt(s, j, Sending)
    ensures CanCrash(s)
  {
    ClosedCanCrash(Do(s, CloseJobs(k)), j);
    CanCrashFirst(s, CloseJobs(k));
  }

  lemma StoppingCanCrash(s: Pool, j: Job, k: nat)
    requires !s.crashed && s.once == NotBegun && k !in s.stoppers && IsAt(s, j, Sending)
    ensures CanCrash(s)
  {
    var s1 := Do(s, Stop(k));
    BegunCanCrash(Do(s1, MarkStopped(k)), j, k);
    CanCrashFirst(s1, MarkStopped(k));
    CanCrashFirst(s, Stop(k));
  }

  lemma RunningCanCrash(s: Pool, j: Job, k: nat)
    requires !s.crashed && !s.stopped && s.once == NotBegun && j !in s.submitters && k !in s.stoppers
    ensures CanCrash(s)
  {
    var s1 := Do(s, Submit(j, false));
    StoppingCanCrash(Do(s1, Check(j)), j, k);
    CanCrashFirst(s1, Check(j));
    CanCrashFirst(s, Submit(j, false));
  }

  /** Stopped, not crashed, nobody in the window. */
  ghost predicate Shut(s: Pool) {
    s.stopped && !s.crashed && !InWindow(s)
  }

  lemma TickKeepsShut(s: Pool, step: Step)
    requires Shut(s)
    ensures Shut(Tick(s, step))
  {
    var s' := Tick(s, step);
    forall j ensures !IsAt(s', j, Sending) {
      assert !IsAt(s, j, Sending);
    }
  }

  /** If nobody is in the window once the pool is marked stopped, no continuation crashes. */
  lemma {:induction false} ShutPoolNeverCrashes(s: Pool, schedule: seq<Step>)
    requires Shut(s)
    ensures !Ticks(s, schedule).crashed
    decreases |schedule|
  {
    if schedule != [] {
      TickKeepsShut(s, schedule[0]);
      ShutPoolNeverCrashes(Tick(s, schedule[0]), schedule[1..]);
    }
  }

  lemma WindowCanCrash(s: Pool)
    requires Inv(s) && !s.crashed && (!s.stopped || InWindow(s))
    ensures CanCrash(s)
  {
    if !s.stopped {
      var j := SomeUnused(s.submitters.Keys);
      var k := SomeUnused(s.stoppers.Keys);
      RunningCanCrash(s, j, k);
    } else {
      var j :| IsAt(s, j, Sending);
      if s.closed {
        ClosedCanCrash(s, j);
      } else {
        BegunCanCrash(s, j, s.once.caller);
      }
    }
  }

  /** A pool that has not crashed can still do so, in some continuation, if and only if it is not
      yet marked stopped or a submitter stands between its stopped check and its send. */
  lemma CanCrashIff(size: nat, capacity: nat, schedule: seq<Step>, n: nat)
    requires size > 0 && n <= |schedule| && !After(size, capacity, schedule, n).crashed
    ensures var s := After(size, capacity, schedule, n);
            CanCrash(s) <==> !s.stopped || InWindow(s)
  {
    var s := After(size, capacity, schedule, n);
    AfterHolds(size, capacity, schedule, n);
    if !s.stopped || InWindow(s) {
      WindowCanCrash(s);
    } else {
      forall more ensures !Ticks(s, more).crashed {
        ShutPoolNeverCrashes(s, more);
      }
    }
  }

  lemma TickCrashesClosed(s: Pool, step: Step)
    requires s.crashed ==> s.closed
    ensures Tick(s, step).crashed ==> Tick(s, step).closed
  {
  }

  /** An open pool never crashes. */
  lemma {:induction false} OpenPoolIsSafe(size: nat, capacity: nat, schedule: seq<Step>, n: nat)
    requires size > 0 && n <= |schedule|
    ensures After(size, capacity, schedule, n).crashed ==> After(size, capacity, schedule, n).closed
  {
    if n > 0 {
      OpenPoolIsSafe(size, capacity, schedule, n - 1);
      TickCrashesClosed(After(size, capacity, schedule, n - 1), schedule[n - 1]);
    }
  }
}
