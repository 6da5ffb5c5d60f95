/** What every run of the first pass achieves: no deadlock, no lost wakeup,
    termination, and delivery of every item exactly once, in order. */
module FirstPassRuns {
  import opened Prelude
  import opened BatchCore
  import opened Threads
  import opened BatchThreads
  import opened FirstPass

  ghost predicate AllDone<T>(s: Sys<T>) {
    (forall i :: 0 <= i < |s.prod| ==> s.prod[i] == Gone) && (forall c :: 0 <= c < |s.cons| ==> s.cons[c] == Gone)
  }

  /** No thread can make a move on its own. */
  ghost predicate Stuck<T>(cfg: Config<T>, s: Sys<T>) {
    WellFormed(cfg, s) && forall a :: Enabled(cfg, s, a) ==> Spurious(a)
  }

  /** Sleeping producers sleep where the end of a batch wakes them, and are ahead
      of the current batch; consumers sleep where pushes wake them, and when they
      do, notified ones cover everything that can be read, and more may come. */
  lemma NoLostWakeup<T>(cfg: Config<T>, s: Sys<T>)
    requires PassInv(cfg, s)
    ensures SleepOn(s.prod, BusyCV) && SleepOn(s.cons, EmptyCV)
    ensures forall i :: 0 <= i < |s.prod| && s.prod[i].Asleep? ==> s.k[i] / s.q.batchSize > s.q.batch
    ensures Asleep(EmptyCV) in s.cons ==> s.q.items <= Number(s.cons, Woken)
    ensures Asleep(EmptyCV) in s.cons ==> exists i :: 0 <= i < |s.prod| && s.prod[i] != Gone
  {
    hide InvBase, InOrder, Ordered, Shared;
    if Asleep(EmptyCV) in s.cons {
      var i := SomeActive(s.q, cfg.src, s.k, Out(s));
      assert s.prod[i] != Gone;
    }
  }

  /** Deadlock freedom: when no thread can move, all of them are done. */
  lemma DeadlockFree<T>(cfg: Config<T>, s: Sys<T>)
    requires PassInv(cfg, s) && |s.cons| > 0
    ensures Stuck(cfg, s) ==> AllDone(s)
  {
    hide InvBase, InOrder, Ordered, Shared, By;
    if c :| 0 <= c < |s.cons| && CanRun(s.cons[c]) {
      assert Enabled(cfg, s, Pop(c));
    } else if Asleep(EmptyCV) in s.cons {
      NumberZero(s.cons, Woken);
      var i := SomeProducerFree(s.q, cfg.src, s.k, Out(s));
      BatchOf(s.k[i], s.q.batchSize, s.q.batch);
      assert CanRun(s.prod[i]);
      var wake := ChoiceExists(s.cons, EmptyCV);
      assert Enabled(cfg, s, if s.k[i] < |cfg.src[i]| then Push(i, wake) else Delete(i));
    } else {
      assert s.cons[0] == Gone;
      NoneActive(s.q, cfg.src, s.k, Out(s));
    }
  }

  /** Pop throws only when every producer is deleted and every item that was
      pushed has been delivered, each producer's items in order. */
  lemma PopThrowsAtTheEnd<T>(cfg: Config<T>, s: Sys<T>)
    requires PassInv(cfg, s) && PopSection(s.q).outcome.Thrown?
    ensures PopSection(s.q).outcome.message == "Queue is empty"
    ensures forall i :: 0 <= i < |s.prod| ==> s.prod[i] == Gone
    ensures s.out == s.log
    ensures forall i :: 0 <= i < |cfg.src| ==> By(s.out, s.q.number, i) == cfg.src[i]
  {
    hide InvBase, InOrder, Shared;
    NoneActive(s.q, cfg.src, s.k, Out(s));
    assert s.q.fifo == [];
    forall i | 0 <= i < |cfg.src| ensures By(s.out, s.q.number, i) == cfg.src[i] {
      var p := Counts(s.q.slots)[i];
      assert By(s.q.fifo, s.q.number, i) == [];
      assert |cfg.src[i][s.k[i] - p..s.k[i]]| == p;
    }
  }

  // ------------------------------------------------------------------
  // Termination
  // ------------------------------------------------------------------

  /** Work left: a push turns two units into one, a delivery, a deletion and a
      consumer's exit each use up one. */
  ghost function Work<T>(cfg: Config<T>, s: Sys<T>): int
    requires WellFormed(cfg, s)
  {
    2 * Sum(Unpushed(cfg.src, s.k)) + s.q.items + s.q.activeProducers + Present(s.cons)
  }

  ghost function Measure<T>(cfg: Config<T>, s: Sys<T>): int
    requires WellFormed(cfg, s)
  {
    Work(cfg, s) * (|s.prod| + |s.cons| + 1) + Awake(s.prod) + Awake(s.cons)
  }

  /** A step either does work, or puts its thread to sleep and changes nothing else. */
  ghost predicate Progress<T>(cfg: Config<T>, s: Sys<T>, s': Sys<T>)
    requires WellFormed(cfg, s) && WellFormed(cfg, s')
  {
    && |s'.prod| == |s.prod| && |s'.cons| == |s.cons|
    && (|| Work(cfg, s') < Work(cfg, s)
        || (Work(cfg, s') == Work(cfg, s) && Awake(s'.prod) + Awake(s'.cons) < Awake(s.prod) + Awake(s.cons)))
  }

  lemma PushProgress<T>(cfg: Config<T>, s: Sys<T>, i: nat, wake: nat)
    requires WellFormed(cfg, s) && Enabled(cfg, s, Push(i, wake))
    requires WellFormed(cfg, Apply(cfg, s, Push(i, wake)))
    ensures Progress(cfg, s, Apply(cfg, s, Push(i, wake)))
  {
    hide Sum, ValidConfig;
    AwakeOne(s.prod, i, Asleep(BusyCV));
    UnpushedOne(cfg.src, s.k, i);
    if wake < |s.cons| {
      NumberOne(s.cons, wake, Woken, Gone);
    }
  }

  lemma DeleteProgress<T>(cfg: Config<T>, s: Sys<T>, i: nat)
    requires WellFormed(cfg, s) && Enabled(cfg, s, Delete(i))
    requires WellFormed(cfg, Apply(cfg, s, Delete(i)))
    ensures Progress(cfg, s, Apply(cfg, s, Delete(i)))
  {
    hide Sum, ValidConfig;
    WakeAllPresent(s.cons, EmptyCV);
  }

  lemma PopProgress<T>(cfg: Config<T>, s: Sys<T>, c: nat)
    requires WellFormed(cfg, s) && Enabled(cfg, s, Pop(c))
    requires WellFormed(cfg, Apply(cfg, s, Pop(c)))
    ensures Progress(cfg, s, Apply(cfg, s, Pop(c)))
  {
    hide Sum, ValidConfig, Number, Awake, BatchFinished;
    AwakeOne(s.cons, c, Asleep(EmptyCV));
    NumberOne(s.cons, c, Asleep(EmptyCV), Gone);
    NumberOne(s.cons, c, Gone, Gone);
    NumberOne(s.cons, c, Running, Gone);
  }

  lemma MoveDecreases<T>(cfg: Config<T>, s: Sys<T>, s': Sys<T>)
    requires PassInv(cfg, s) && Move(cfg, s, s')
    ensures PassInv(cfg, s') && 0 <= Measure(cfg, s') < Measure(cfg, s)
  {
    hide Apply, InvBase, InOrder, Ordered, Shared, ProducersWait, ConsumersWait, Sum, Enabled;
    var a :| Enabled(cfg, s, a) && !Spurious(a) && s' == Apply(cfg, s, a);
    NextKeeps(cfg, s, s');
    match a {
      case Push(i, wake) => PushProgress(cfg, s, i, wake);
      case Delete(i) => DeleteProgress(cfg, s, i);
      case Pop(c) => PopProgress(cfg, s, c);
    }
    MeasureFollows(cfg, s, s');
  }

  lemma MeasureFollows<T>(cfg: Config<T>, s: Sys<T>, s': Sys<T>)
    requires PassInv(cfg, s) && PassInv(cfg, s') && Progress(cfg, s, s')
    ensures 0 <= Measure(cfg, s') < Measure(cfg, s)
  {
    hide InvBase, InOrder, Ordered, Shared, ProducersWait, ConsumersWait, ValidConfig, Work, Awake;
    AwakeBound(s.prod);
    AwakeBound(s.cons);
    AwakeBound(s'.prod);
    AwakeBound(s'.cons);
    WorkFloor(cfg, s');
    MeasureDrop(Work(cfg, s), Work(cfg, s'), |s.prod| + |s.cons|,
                Awake(s.prod) + Awake(s.cons), Awake(s'.prod) + Awake(s'.cons));
  }

  lemma WorkFloor<T>(cfg: Config<T>, s: Sys<T>)
    requires PassInv(cfg, s)
    ensures Work(cfg, s) >= 0
  {
    hide InOrder, Ordered, Shared, ProducersWait, ConsumersWait, Sum, Genuine, SlotsHold, ReadBalance, TakenExactly,
        Positions, Sourced;
    AwakeBound(s.cons);
  }

  /** A spurious wakeup does no work; it only wakes a thread. */
  lemma OtherwiseOneMore<T>(cfg: Config<T>, s: Sys<T>, s': Sys<T>)
    requires PassInv(cfg, s) && Next(cfg, s, s') && !Move(cfg, s, s')
    ensures PassInv(cfg, s') && Measure(cfg, s') == Measure(cfg, s) + 1
  {
    hide PassInv, Apply, Measure;
    NextKeeps(cfg, s, s');
    var a :| Enabled(cfg, s, a) && s' == Apply(cfg, s, a);
    assert Spurious(a);
    SpuriousMeasure(cfg, s, a);
  }

  lemma SpuriousMeasure<T>(cfg: Config<T>, s: Sys<T>, a: Action)
    requires WellFormed(cfg, s) && Enabled(cfg, s, a) && Spurious(a)
    ensures WellFormed(cfg, Apply(cfg, s, a)) && Measure(cfg, Apply(cfg, s, a)) == Measure(cfg, s) + 1
  {
    hide Sum, ValidConfig;
    match a {
      case SpuriousProducer(i) => AwakeOne(s.prod, i, Woken);
      case SpuriousConsumer(c) =>
        AwakeOne(s.cons, c, Woken);
        NumberOne(s.cons, c, Woken, Gone);
    }
  }

  /** The steps of a run that are nothing but spurious wakeups. */
  ghost function Idle<T>(cfg: Config<T>, ss: seq<Sys<T>>): nat {
    if |ss| < 2 then 0
    else
      var n := |ss| - 1;
      Idle(cfg, ss[..n]) + (if Move(cfg, ss[n - 1], ss[n]) then 0 else 1)
  }

  /** Termination: a run has at most Measure(start) steps, and two more for each
      spurious wakeup. */
  lemma {:induction false} RunTerminates<T>(cfg: Config<T>, consumers: nat, ss: seq<Sys<T>>)
    requires ValidConfig(cfg) && |ss| > 0 && ss[0] == Start(cfg, consumers) && Run(cfg, ss)
    ensures PassInv(cfg, ss[|ss| - 1]) && PassInv(cfg, ss[0]) && Measure(cfg, ss[|ss| - 1]) >= 0
    ensures |ss| - 1 + Measure(cfg, ss[|ss| - 1]) <= Measure(cfg, ss[0]) + 2 * Idle(cfg, ss)
  {
    hide Measure, Move, Next, InvBase, InOrder, Ordered, Shared, ProducersWait, ConsumersWait, Start;
    StartInv(cfg, consumers);
    var n := |ss| - 1;
    if n == 0 {
      MeasureFloor(cfg, ss[0]);
    } else {
      RunTerminates(cfg, consumers, ss[..n]);
      assert Next(cfg, ss[n - 1], ss[n]);
      if Move(cfg, ss[n - 1], ss[n]) {
        MoveDecreases(cfg, ss[n - 1], ss[n]);
      } else {
        OtherwiseOneMore(cfg, ss[n - 1], ss[n]);
      }
    }
  }

  lemma MeasureFloor<T>(cfg: Config<T>, s: Sys<T>)
    requires PassInv(cfg, s)
    ensures Measure(cfg, s) >= 0
  {
    hide InvBase, InOrder, Ordered, Shared, ProducersWait, ConsumersWait, ValidConfig, Work, Awake;
    AwakeBound(s.prod);
    AwakeBound(s.cons);
    WorkFloor(cfg, s);
    assert Work(cfg, s) * (|s.prod| + |s.cons| + 1) >= 0;
  }

  // ------------------------------------------------------------------
  // Delivery
  // ------------------------------------------------------------------

  /** A run of the first pass that cannot go on is complete: the queue has
      delivered every producer's items, in order, and nothing else, and the
      consumers' lists share them out. */
  lemma Completes<T>(cfg: Config<T>, consumers: nat, ss: seq<Sys<T>>)
    requires ValidConfig(cfg) && consumers > 0
    requires |ss| > 0 && ss[0] == Start(cfg, consumers) && Run(cfg, ss) && Stuck(cfg, ss[|ss| - 1])
    ensures var s := ss[|ss| - 1];
            && AllDone(s)
            && (forall x :: x in s.out ==> x.part in cfg.ids)
            && (forall i :: 0 <= i < |cfg.src| ==> By(s.out, NumberOf(cfg.ids), i) == cfg.src[i])
            && Replay(cfg, s.recvd)
  {
    hide InvBase, InOrder, Ordered, Shared, By, Start;
    var s := ss[|ss| - 1];
    RunInv(cfg, consumers, ss, |ss| - 1);
    RunShape(cfg, consumers, ss, |ss| - 1);
    DeadlockFree(cfg, s);
    assert s.cons[0] == Gone;
    PopThrowsAtTheEnd(cfg, s);
    EndReplay(cfg, s);
    OutSourced(cfg, s);
  }

  lemma OutSourced<T>(cfg: Config<T>, s: Sys<T>)
    requires PassInv(cfg, s)
    ensures forall x :: x in s.out ==> x.part in cfg.ids
  {
    hide InOrder, Ordered, Shared, By, ProducersWait, ConsumersWait, SlotsHold, ReadBalance, TakenExactly;
    forall x | x in s.out ensures x.part in cfg.ids {
      assert x in Out(s);
      assert FromSource(cfg.src, x);
    }
  }

  /** A consumer that has the queue to itself receives the deliveries as they are made. */
  lemma {:induction false} SoleConsumer<T>(cfg: Config<T>, ss: seq<Sys<T>>, n: nat)
    requires ValidConfig(cfg) && Run(cfg, ss) && n < |ss| && ss[0] == Start(cfg, 1)
    ensures ss[n].recvd == [ss[n].out]
  {
    if n > 0 {
      SoleConsumer(cfg, ss, n - 1);
      assert Next(cfg, ss[n - 1], ss[n]);
    }
  }

  /** The partition numbering and the number of consumers never change. */
  lemma {:induction false} RunShape<T>(cfg: Config<T>, consumers: nat, ss: seq<Sys<T>>, n: nat)
    requires ValidConfig(cfg) && Run(cfg, ss) && n < |ss| && ss[0] == Start(cfg, consumers)
    ensures ss[n].q.number == NumberOf(cfg.ids) && |ss[n].cons| == consumers
  {
    if n > 0 {
      RunShape(cfg, consumers, ss, n - 1);
      assert Next(cfg, ss[n - 1], ss[n]);
      NextShape(cfg, ss[n - 1], ss[n]);
    }
  }

  lemma NextShape<T>(cfg: Config<T>, s: Sys<T>, s': Sys<T>)
    requires Next(cfg, s, s')
    ensures s'.q.number == s.q.number && |s'.cons| == |s.cons|
  {
  }

  lemma EndReplay<T>(cfg: Config<T>, s: Sys<T>)
    requires PassInv(cfg, s) && s.q.activeProducers == 0 && s.q.items == 0
    ensures Replay(cfg, s.recvd)
  {
    hide InOrder, Ordered, By, ProducersWait, ConsumersWait, SlotsHold, ReadBalance;
    NoneActive(s.q, cfg.src, s.k, Out(s));
    NoItems(s.q);
    forall i, m | 0 <= i < |cfg.src| && 0 <= m < |cfg.src[i]| ensures Received(s.recvd, cfg.src[i][m]) {
      assert cfg.src[i][m] in Out(s);
    }
  }

  // ------------------------------------------------------------------
  // Every state of every run
  // ------------------------------------------------------------------

  /** Safety over whole runs, barging and spurious wakeups included: what has
      been delivered and what is queued is what was pushed, in that order; no
      sleeper has missed a wakeup; nobody is stuck before all are done; and Pop
      throws only at the very end. */
  lemma EveryStateSafe<T>(cfg: Config<T>, consumers: nat, ss: seq<Sys<T>>, n: nat)
    requires ValidConfig(cfg) && Run(cfg, ss) && n < |ss| && ss[0] == Start(cfg, consumers) && consumers > 0
    ensures var s := ss[n];
            && WellFormed(cfg, s)
            && s.log == s.out + s.q.fifo
            && SleepOn(s.prod, BusyCV) && SleepOn(s.cons, EmptyCV)
            && (forall i :: 0 <= i < |s.prod| && s.prod[i].Asleep? ==> s.k[i] / s.q.batchSize > s.q.batch)
            && (Asleep(EmptyCV) in s.cons ==>
                  s.q.items <= Number(s.cons, Woken) && exists i :: 0 <= i < |s.prod| && s.prod[i] != Gone)
            && (Stuck(cfg, s) ==> AllDone(s))
            && (s.q.items == 0 && s.q.activeProducers == 0 ==>
                  s.out == s.log && forall i :: 0 <= i < |s.prod| ==> s.prod[i] == Gone)
  {
    hide InvBase, InOrder, Ordered, Shared, ProducersWait, ConsumersWait, Start, Run, Stuck, AllDone;
    RunInv(cfg, consumers, ss, n);
    RunShape(cfg, consumers, ss, n);
    NoLostWakeup(cfg, ss[n]);
    DeadlockFree(cfg, ss[n]);
    if ss[n].q.items == 0 && ss[n].q.activeProducers == 0 {
      PopThrowsAtTheEnd(cfg, ss[n]);
    }
  }

  /** The counters and the slots over whole runs: a set slot (i, j) holds
      producer i's item of that place in the current batch; as many slots are
      set as there are items to read and items queued; read and set make up what
      an active producer has pushed of the batch; and two active producers are
      at most one batch apart. */
  ghost predicate Represented<T>(cfg: Config<T>, s: Sys<T>)
    requires WellFormed(cfg, s)
  {
    && (forall i, j :: 0 <= i < |s.q.slots| && 0 <= j < |s.q.slots[i]| && s.q.slots[i][j].Some? ==>
          Base(s.q) + j < |cfg.src[i]| && s.q.slots[i][j].value == cfg.src[i][Base(s.q) + j])
    && s.q.items == Sum(Counts(s.q.slots)) == |s.q.fifo|
    && (forall i :: 0 <= i < |s.q.active| && s.q.active[i] ==>
        s.k[i] == Base(s.q) + s.q.read[i] + SetCount(s.q.slots[i]))
    && (forall a, b :: 0 <= a < |s.q.active| && 0 <= b < |s.q.active| && s.q.active[a] && s.q.active[b] ==>
          s.k[a] <= s.k[b] + s.q.batchSize)
  }

  /** The assertion in Push holds, and ReadValue finds what the queue names. */
  ghost predicate AssertionsHold<T>(cfg: Config<T>, s: Sys<T>)
    requires WellFormed(cfg, s)
  {
    && (forall i :: 0 <= i < |s.prod| && CanRun(s.prod[i]) && s.k[i] < |cfg.src[i]| ==>
          s.k[i] / s.q.batchSize <= s.q.batch ==> s.q.slots[i][s.k[i] % s.q.batchSize].None?)
    && (s.q.items > 0 ==>
          var f := s.q.fifo[0];
          f.part in s.q.number && s.q.slots[s.q.number[f.part]][f.id % s.q.batchSize] == Some(f))
  }

  lemma EveryStateRepresented<T>(cfg: Config<T>, consumers: nat, ss: seq<Sys<T>>, n: nat)
    requires ValidConfig(cfg) && Run(cfg, ss) && n < |ss| && ss[0] == Start(cfg, consumers)
    ensures WellFormed(cfg, ss[n]) && Represented(cfg, ss[n]) && AssertionsHold(cfg, ss[n])
  {
    hide PassInv, Start, Run, Represented, AssertionsHold;
    RunInv(cfg, consumers, ss, n);
    RepresentedByInv(cfg, ss[n]);
    AssertionsByInv(cfg, ss[n]);
  }

  lemma RepresentedByInv<T>(cfg: Config<T>, s: Sys<T>)
    requires PassInv(cfg, s)
    ensures WellFormed(cfg, s) && Represented(cfg, s)
  {
    hide InOrder, Ordered, Shared, ProducersWait, ConsumersWait, TakenExactly, Sourced, Genuine, SetCount, Sum, Counts;
  }

  lemma AssertionsByInv<T>(cfg: Config<T>, s: Sys<T>)
    requires PassInv(cfg, s)
    ensures WellFormed(cfg, s) && AssertionsHold(cfg, s)
  {
    hide InvBase, InOrder, Ordered, Shared, ConsumersWait;
    forall i | 0 <= i < |s.prod| && CanRun(s.prod[i]) && s.k[i] < |cfg.src[i]| && s.k[i] / s.q.batchSize <= s.q.batch
      ensures s.q.slots[i][s.k[i] % s.q.batchSize].None?
    {
      PushFindsFree(s.q, cfg.src, s.k, Out(s), i);
    }
    if s.q.items > 0 {
      HeadInSlot(cfg, s);
    }
  }
}
