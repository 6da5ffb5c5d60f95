/** What every run of a later pass achieves when its lists come from a complete
    first pass, and what goes wrong when they do not. */
module SecondPassRuns {
  import opened Prelude
  import opened BatchCore
  import opened Threads
  import opened BatchThreads
  import opened SecondPass
  import FirstPass
  import FirstPassRuns

  /** No thread can make a move on its own. */
  ghost predicate Stuck<T>(cfg: Config<T>, lists: seq<seq<Item<T>>>, s: Sys<T>) {
    WellFormed(cfg, lists, s) && forall a :: Enabled(cfg, lists, s, a) ==> Spurious(a)
  }

  ghost predicate AllDone<T>(lists: seq<seq<Item<T>>>, s: Sys<T>) {
    && |s.pos| == |lists| == |s.got|
    && (forall i :: 0 <= i < |s.prod| ==> s.prod[i] == Gone)
    && (forall c :: 0 <= c < |lists| ==> s.pos[c] == |lists[c]| && s.got[c] == lists[c])
  }

  /** A run from the start, and one that cannot go on. */
  ghost predicate Ran<T>(cfg: Config<T>, lists: seq<seq<Item<T>>>, ss: seq<Sys<T>>)
    requires Distinct(cfg.ids)
  {
    |ss| > 0 && ss[0] == Start(cfg, lists) && Run(cfg, lists, ss)
  }

  // ------------------------------------------------------------------
  // Termination, whatever is asked for
  // ------------------------------------------------------------------

  ghost function Work<T>(cfg: Config<T>, lists: seq<seq<Item<T>>>, s: Sys<T>): int
    requires WellFormed(cfg, lists, s)
  {
    2 * Sum(Unpushed(cfg.src, s.k)) + s.q.items + s.q.activeProducers + Present(s.cons)
  }

  ghost function Measure<T>(cfg: Config<T>, lists: seq<seq<Item<T>>>, s: Sys<T>): int
    requires WellFormed(cfg, lists, s)
  {
    Work(cfg, lists, s) * (|s.prod| + |s.cons| + 1) + Awake(s.prod) + Awake(s.cons)
  }

  ghost predicate Progress<T>(cfg: Config<T>, lists: seq<seq<Item<T>>>, s: Sys<T>, s': Sys<T>)
    requires WellFormed(cfg, lists, s) && WellFormed(cfg, lists, s')
  {
    && |s'.prod| == |s.prod| && |s'.cons| == |s.cons|
    && (|| Work(cfg, lists, s') < Work(cfg, lists, s)
        || (Work(cfg, lists, s') == Work(cfg, lists, s)
            && Awake(s'.prod) + Awake(s'.cons) < Awake(s.prod) + Awake(s.cons)))
  }

  lemma WakeDataPresent(cons: seq<Thread>, audience: Audience)
    ensures |WakeData(cons, audience)| == |cons| && Present(WakeData(cons, audience)) == Present(cons)
  {
    SameGone(WakeData(cons, audience), cons);
  }

  lemma PushProgress<T>(cfg: Config<T>, lists: seq<seq<Item<T>>>, s: Sys<T>, i: nat)
    requires WellFormed(cfg, lists, s) && Enabled(cfg, lists, s, Push(i))
    requires WellFormed(cfg, lists, Apply(cfg, lists, s, Push(i)))
    ensures Progress(cfg, lists, s, Apply(cfg, lists, s, Push(i)))
  {
    hide Sum, NothingSet, WakeData;
    AwakeOne(s.prod, i, Asleep(BusyCV));
    UnpushedOne(cfg.src, s.k, i);
    WakeDataPresent(s.cons, PushSection(s.q, cfg.src[i][s.k[i]]).signals.data);
  }

  lemma DeleteProgress<T>(cfg: Config<T>, lists: seq<seq<Item<T>>>, s: Sys<T>, i: nat)
    requires WellFormed(cfg, lists, s) && Enabled(cfg, lists, s, Delete(i))
    requires WellFormed(cfg, lists, Apply(cfg, lists, s, Delete(i)))
    ensures Progress(cfg, lists, s, Apply(cfg, lists, s, Delete(i)))
  {
    hide Sum, NothingSet, WakeData;
    WakeDataPresent(s.cons, DeleteSection(s.q, cfg.ids[i]).signals.data);
  }

  lemma GetProgress<T>(cfg: Config<T>, lists: seq<seq<Item<T>>>, s: Sys<T>, c: nat)
    requires WellFormed(cfg, lists, s) && Enabled(cfg, lists, s, Get(c))
    requires WellFormed(cfg, lists, Apply(cfg, lists, s, Get(c)))
    ensures Progress(cfg, lists, s, Apply(cfg, lists, s, Get(c)))
  {
    hide Sum, ValidConfig, NothingSet, WakeData, BatchFinished;
    if GetRuns(cfg, lists, s, c).outcome.Delivered? {
      GetWorks(cfg, lists, s, c);
    } else {
      var asleep := Asleep(DataCV(s.q.number[lists[c][s.pos[c]].part]));
      AwakeOne(s.cons, c, asleep);
      NumberOne(s.cons, c, asleep, Gone);
      NumberOne(s.cons, c, Gone, Gone);
    }
  }

  lemma GetWorks<T>(cfg: Config<T>, lists: seq<seq<Item<T>>>, s: Sys<T>, c: nat)
    requires WellFormed(cfg, lists, s) && Enabled(cfg, lists, s, Get(c))
    requires WellFormed(cfg, lists, Apply(cfg, lists, s, Get(c)))
    requires GetRuns(cfg, lists, s, c).outcome.Delivered?
    ensures var s' := Apply(cfg, lists, s, Get(c));
            |s'.prod| == |s.prod| && |s'.cons| == |s.cons| && Work(cfg, lists, s') == Work(cfg, lists, s) - 1
  {
    hide Sum, ValidConfig, NothingSet, WakeData, BatchFinished, Present;
    var sec := GetRuns(cfg, lists, s, c);
    SameGone(s.cons[c := Running], s.cons);
    WakeDataPresent(s.cons[c := Running], sec.signals.data);
  }

  lemma WorkFloor<T>(cfg: Config<T>, lists: seq<seq<Item<T>>>, s: Sys<T>)
    requires SafeInv(cfg, lists, s)
    ensures Work(cfg, lists, s) >= 0
  {
    hide InvBase, ProducersWait, Shared, Sum, Counts;
    InvFacts(s.q, cfg.src, s.k, s.taken);
    AwakeBound(s.cons);
  }

  lemma MoveDecreases<T>(cfg: Config<T>, lists: seq<seq<Item<T>>>, s: Sys<T>, s': Sys<T>)
    requires SafeInv(cfg, lists, s) && Move(cfg, lists, s, s')
    ensures SafeInv(cfg, lists, s') && 0 <= Measure(cfg, lists, s') < Measure(cfg, lists, s)
  {
    hide Apply, InvBase, ProducersWait, Shared, Enabled, Work, Awake, ValidConfig, NothingSet;
    var a :| Enabled(cfg, lists, s, a) && !Spurious(a) && s' == Apply(cfg, lists, s, a);
    SafeStep(cfg, lists, s, a);
    match a {
      case Push(i) => PushProgress(cfg, lists, s, i);
      case Delete(i) => DeleteProgress(cfg, lists, s, i);
      case Get(c) => GetProgress(cfg, lists, s, c);
    }
    AwakeBound(s.prod);
    AwakeBound(s.cons);
    AwakeBound(s'.prod);
    AwakeBound(s'.cons);
    WorkFloor(cfg, lists, s');
    MeasureDrop(Work(cfg, lists, s), Work(cfg, lists, s'), |s.prod| + |s.cons|,
                Awake(s.prod) + Awake(s.cons), Awake(s'.prod) + Awake(s'.cons));
  }

  /** A spurious wakeup does no work; it only wakes a thread. */
  lemma OtherwiseOneMore<T>(cfg: Config<T>, lists: seq<seq<Item<T>>>, s: Sys<T>, s': Sys<T>)
    requires SafeInv(cfg, lists, s) && Next(cfg, lists, s, s') && !Move(cfg, lists, s, s')
    ensures SafeInv(cfg, lists, s') && Measure(cfg, lists, s') == Measure(cfg, lists, s) + 1
  {
    hide SafeInv, Apply, Measure;
    var a :| Enabled(cfg, lists, s, a) && s' == Apply(cfg, lists, s, a);
    SafeStep(cfg, lists, s, a);
    assert Spurious(a);
    SpuriousMeasure(cfg, lists, s, a);
  }

  lemma SpuriousMeasure<T>(cfg: Config<T>, lists: seq<seq<Item<T>>>, s: Sys<T>, a: Action)
    requires WellFormed(cfg, lists, s) && Enabled(cfg, lists, s, a) && Spurious(a)
    ensures WellFormed(cfg, lists, Apply(cfg, lists, s, a))
    ensures Measure(cfg, lists, Apply(cfg, lists, s, a)) == Measure(cfg, lists, s) + 1
  {
    hide ValidConfig, NothingSet, Sum;
    match a {
      case SpuriousProducer(i) => AwakeOne(s.prod, i, Woken);
      case SpuriousConsumer(c) =>
        AwakeOne(s.cons, c, Woken);
        NumberOne(s.cons, c, Woken, Gone);
    }
  }

  lemma MeasureFloor<T>(cfg: Config<T>, lists: seq<seq<Item<T>>>, s: Sys<T>)
    requires SafeInv(cfg, lists, s)
    ensures Measure(cfg, lists, s) >= 0
  {
    hide InvBase, ProducersWait, Shared, ValidConfig, Work, Awake, NothingSet;
    AwakeBound(s.prod);
    AwakeBound(s.cons);
    WorkFloor(cfg, lists, s);
    assert Work(cfg, lists, s) * (|s.prod| + |s.cons| + 1) >= 0;
  }

  /** The steps of a run that are nothing but spurious wakeups. */
  ghost function Idle<T>(cfg: Config<T>, lists: seq<seq<Item<T>>>, ss: seq<Sys<T>>): nat {
    if |ss| < 2 then 0
    else
      var n := |ss| - 1;
      Idle(cfg, lists, ss[..n]) + (if Move(cfg, lists, ss[n - 1], ss[n]) then 0 else 1)
  }

  /** Termination, whatever is asked for: a run has at most Measure(start) steps,
      and two more for each spurious wakeup. */
  lemma {:induction false} RunTerminates<T>(cfg: Config<T>, lists: seq<seq<Item<T>>>, ss: seq<Sys<T>>)
    requires ValidConfig(cfg) && Addressed(cfg, lists) && Ran(cfg, lists, ss)
    ensures SafeInv(cfg, lists, ss[|ss| - 1]) && SafeInv(cfg, lists, ss[0])
    ensures |ss| - 1 + Measure(cfg, lists, ss[|ss| - 1]) <= Measure(cfg, lists, ss[0]) + 2 * Idle(cfg, lists, ss)
    ensures Measure(cfg, lists, ss[|ss| - 1]) >= 0
  {
    hide Measure, Move, Next, InvBase, ProducersWait, Shared, Start, Addressed, WellFormed;
    SafeStart(cfg, lists);
    var n := |ss| - 1;
    if n == 0 {
      MeasureFloor(cfg, lists, ss[0]);
    } else {
      RunTerminates(cfg, lists, ss[..n]);
      assert Next(cfg, lists, ss[n - 1], ss[n]);
      if Move(cfg, lists, ss[n - 1], ss[n]) {
        MoveDecreases(cfg, lists, ss[n - 1], ss[n]);
      } else {
        OtherwiseOneMore(cfg, lists, ss[n - 1], ss[n]);
      }
    }
  }

  /** Every run can be continued to one that cannot go on. */
  lemma Finish<T>(cfg: Config<T>, lists: seq<seq<Item<T>>>, ss: seq<Sys<T>>) returns (rr: seq<Sys<T>>)
    requires Distinct(cfg.ids) && Ran(cfg, lists, ss) && SafeInv(cfg, lists, ss[|ss| - 1])
    ensures ss <= rr && Ran(cfg, lists, rr) && Stuck(cfg, lists, rr[|rr| - 1])
    decreases Measure(cfg, lists, ss[|ss| - 1])
  {
    hide Measure, InvBase, ProducersWait, Shared, Start, Apply, Enabled, WellFormed;
    var s := ss[|ss| - 1];
    if Stuck(cfg, lists, s) {
      rr := ss;
    } else {
      var a :| Enabled(cfg, lists, s, a) && !Spurious(a);
      var s' := Apply(cfg, lists, s, a);
      assert Move(cfg, lists, s, s');
      MoveDecreases(cfg, lists, s, s');
      MeasureFloor(cfg, lists, s);
      rr := Finish(cfg, lists, ss + [s']);
    }
  }

  // ------------------------------------------------------------------
  // When every consumer gets what it asks for
  // ------------------------------------------------------------------

  /** Some producer pushes an item of a batch after this one. */
  ghost predicate Later<T>(cfg: Config<T>, batch: nat)
    requires cfg.size >= 1
  {
    exists i, m :: 0 <= i < |cfg.src| && 0 <= m < |cfg.src[i]| && cfg.src[i][m].id / cfg.size > batch
  }

  /** The lists can be served: they name items that are pushed, none twice; no
      list goes back a batch; and every item of a batch that has to end, because
      more batches follow, is on some list. */
  ghost predicate Servable<T>(cfg: Config<T>, lists: seq<seq<Item<T>>>) {
    && cfg.size >= 1
    && Askable(cfg, lists)
    && (forall c, x, y :: 0 <= c < |lists| && 0 <= x < y < |lists[c]| ==>
        lists[c][x].id / cfg.size <= lists[c][y].id / cfg.size)
    && (forall i, m :: 0 <= i < |cfg.src| && 0 <= m < |cfg.src[i]| && Later(cfg, cfg.src[i][m].id / cfg.size) ==>
        Received(lists, cfg.src[i][m]))
  }

  lemma SomeSlot<T>(q: Queue<T>, src: seq<seq<Item<T>>>, k: seq<nat>, taken: set<Item<T>>) returns (v: Item<T>)
    requires Inv(q, src, k, taken) && q.items > 0
    ensures FromSource(src, v) && v !in taken && v.id / q.batchSize == q.batch
  {
    hide InvBase;
    InvFacts(q, src, k, taken);
    NoItems(q);
    var i, j :| 0 <= i < |q.slots| && 0 <= j < |q.slots[i]| && q.slots[i][j].Some?;
    v := q.slots[i][j].value;
    SetSlot(q, src, k, taken, i, j);
    SlotBatch(q, src, k, taken, i, j);
  }

  /** The consumer whose list holds an untaken item is at it or before it. */
  lemma HolderOf<T>(lists: seq<seq<Item<T>>>, pos: seq<nat>, got: seq<seq<Item<T>>>, taken: set<Item<T>>, size: nat,
      v: Item<T>)
    returns (c: nat)
    requires Followed(lists, pos, got, taken) && Received(lists, v) && v !in taken && size >= 1
    requires forall c, x, y :: 0 <= c < |lists| && 0 <= x < y < |lists[c]| ==>
        lists[c][x].id / size <= lists[c][y].id / size
    ensures c < |lists| == |pos| && pos[c] < |lists[c]| && lists[c][pos[c]].id / size <= v.id / size
  {
    c :| 0 <= c < |lists| && v in lists[c];
    var x :| 0 <= x < |lists[c]| && lists[c][x] == v;
  }

  /** While a request of the current batch is outstanding, some thread can move:
      what the consumer waits for is in its slot or about to be pushed. */
  lemma MoveForRequest<T>(cfg: Config<T>, lists: seq<seq<Item<T>>>, s: Sys<T>, c: nat) returns (a: Action)
    requires PassInv(cfg, lists, s) && Askable(cfg, lists)
    requires c < |lists| && s.pos[c] < |lists[c]| && lists[c][s.pos[c]].id / cfg.size <= s.q.batch
    ensures Enabled(cfg, lists, s, a) && !Spurious(a)
  {
    hide InvBase, Apart, Shared;
    var r := lists[c][s.pos[c]];
    WhereItIs(s.q, cfg.src, s.k, s.taken, r);
    var i := s.q.number[r.part];
    if CanRun(s.cons[c]) {
      a := Get(c);
    } else {
      assert s.cons[c].Asleep?;
      assert NotReady(s.q, r);
      assert CanRun(s.prod[i]);
      a := if s.k[i] < |cfg.src[i]| then Push(i) else Delete(i);
    }
  }

  /** While a producer is active, some thread can move: a producer, or the
      consumer whose list holds an item the batch waits for. */
  lemma MoveWhileActive<T>(cfg: Config<T>, lists: seq<seq<Item<T>>>, s: Sys<T>) returns (a: Action)
    requires PassInv(cfg, lists, s) && Servable(cfg, lists) && s.q.activeProducers > 0
    ensures Enabled(cfg, lists, s, a) && !Spurious(a)
  {
    hide GettersWait, InvBase, Followed, Apart, Received, Shared, Later;
    var i;
    if s.q.items == 0 {
      i := SomeProducerFree(s.q, cfg.src, s.k, s.taken);
      BatchOf(s.k[i], s.q.batchSize, s.q.batch);
    } else {
      var v := SomeSlot(s.q, cfg.src, s.k, s.taken);
      if Received(lists, v) {
        var c := HolderOf(lists, s.pos, s.got, s.taken, cfg.size, v);
        a := MoveForRequest(cfg, lists, s, c);
        return;
      }
      i := SomeActive(s.q, cfg.src, s.k, s.taken);
      NotBehind(cfg, s.k, s.q.batch, v, lists);
    }
    assert CanRun(s.prod[i]);
    a := if s.k[i] < |cfg.src[i]| then Push(i) else Delete(i);
  }

  /** With an unrequested item in its slots the current batch is the last. */
  lemma NotBehind<T>(cfg: Config<T>, k: seq<nat>, batch: nat, v: Item<T>, lists: seq<seq<Item<T>>>)
    requires ValidConfig(cfg) && Servable(cfg, lists) && FromSource(cfg.src, v) && v.id / cfg.size == batch
        && !Received(lists, v)
    requires |k| == |cfg.src|
    ensures forall i :: 0 <= i < |k| && k[i] < |cfg.src[i]| ==> k[i] / cfg.size <= batch
  {
    hide Askable, Received;
    assert !Later(cfg, batch);
    assert forall i :: 0 <= i < |k| && k[i] < |cfg.src[i]| ==> cfg.src[i][k[i]].id == k[i];
  }

  /** When all producers are done, every outstanding request is in its slot. */
  lemma MoveWhileWanted<T>(cfg: Config<T>, lists: seq<seq<Item<T>>>, s: Sys<T>, c: nat)
    requires PassInv(cfg, lists, s) && Askable(cfg, lists) && s.q.activeProducers == 0
    requires c < |lists| && s.pos[c] < |lists[c]|
    ensures Enabled(cfg, lists, s, Get(c))
  {
    hide InvBase, Apart, Shared;
    var r := lists[c][s.pos[c]];
    NoneActive(s.q, cfg.src, s.k, s.taken);
    WhereItIs(s.q, cfg.src, s.k, s.taken, r);
  }

  /** No state is stuck before all lists are exhausted and all producers done;
      then every consumer has got exactly its list. */
  lemma DeadlockFree<T>(cfg: Config<T>, lists: seq<seq<Item<T>>>, s: Sys<T>)
    requires PassInv(cfg, lists, s) && Servable(cfg, lists)
    ensures Stuck(cfg, lists, s) ==> AllDone(lists, s)
  {
    hide InvBase, Apart, GettersWait, Enabled, Shared, FromSource, Received, Later;
    NonNegative(s.q, cfg.src, s.k, s.taken);
    if s.q.activeProducers > 0 {
      var a := MoveWhileActive(cfg, lists, s);
    } else if Stuck(cfg, lists, s) {
      NoneActive(s.q, cfg.src, s.k, s.taken);
      forall c | 0 <= c < |lists| ensures s.pos[c] == |lists[c]| {
        if s.pos[c] < |lists[c]| {
          MoveWhileWanted(cfg, lists, s, c);
        }
      }
    }
  }

  /** Conversely, lists that have been served to the end could be served. */
  lemma ServedServable<T>(cfg: Config<T>, lists: seq<seq<Item<T>>>, s: Sys<T>)
    requires SafeInv(cfg, lists, s) && AllDone(lists, s)
    ensures Servable(cfg, lists)
  {
    hide InvBase, NothingSet, Apart, Received, Enabled, FromSource;
    assert s.got == lists;
    TakenSourced(s.q, cfg.src, s.k, s.taken);
    forall c, x | 0 <= c < |lists| && 0 <= x < |lists[c]| ensures FromSource(cfg.src, lists[c][x]) {
      assert s.got[c][x] in s.taken;
    }
    AllPushed(s.q, cfg.src, s.k, s.taken);
    forall i, m | 0 <= i < |cfg.src| && 0 <= m < |cfg.src[i]| && Later(cfg, cfg.src[i][m].id / cfg.size)
      ensures Received(lists, cfg.src[i][m])
    {
      var batch := cfg.src[i][m].id / cfg.size;
      var i2, m2 :| 0 <= i2 < |cfg.src| && 0 <= m2 < |cfg.src[i2]| && cfg.src[i2][m2].id / cfg.size > batch;
      EndedBatch(s.q, cfg.src, s.k, s.taken, i, m, i2, m2);
    }
  }

  lemma TakenSourced<T>(q: Queue<T>, src: seq<seq<Item<T>>>, k: seq<nat>, taken: set<Item<T>>)
    requires Inv(q, src, k, taken)
    ensures forall y :: y in taken ==> FromSource(src, y)
  {
  }

  /** Once all is pushed, the items of a batch that is not the last have left. */
  lemma EndedBatch<T>(q: Queue<T>, src: seq<seq<Item<T>>>, k: seq<nat>, taken: set<Item<T>>, i: nat, m: nat, i2: nat,
      m2: nat)
    requires Inv(q, src, k, taken) && q.batchSize >= 1
    requires |src| == |k| && forall x :: 0 <= x < |k| ==> k[x] == |src[x]|
    requires i < |src| && m < |src[i]| && i2 < |src| && m2 < |src[i2]| && m2 / q.batchSize > m / q.batchSize
    ensures src[i][m] in taken
  {
    hide Inv;
    InvFacts(q, src, k, taken);
    BatchOf(m2, q.batchSize, q.batch);
    BatchOf(m, q.batchSize, q.batch);
    BeforeBatch(q, src, k, taken, i, m);
  }

  lemma AllPushed<T>(q: Queue<T>, src: seq<seq<Item<T>>>, k: seq<nat>, taken: set<Item<T>>)
    requires Inv(q, src, k, taken)
    ensures |src| == |k| == |q.active| && forall i :: 0 <= i < |k| && !q.active[i] ==> k[i] == |src[i]|
  {
  }

  /** What was pushed in an earlier batch has left the queue. */
  lemma BeforeBatch<T>(q: Queue<T>, src: seq<seq<Item<T>>>, k: seq<nat>, taken: set<Item<T>>, i: nat, m: nat)
    requires Inv(q, src, k, taken) && i < |src| == |k| && m < k[i] <= |src[i]| && m < Base(q)
    ensures src[i][m] in taken
  {
    hide SlotsHold, ReadBalance, Genuine, Sum, Counts, Sourced, BatchFinished;
    assert !Stored(q.slots[i], m, Base(q));
  }

  /** Exactly when it ends well: lists are Servable if and only if every run that
      cannot go on has served them all, and if and only if any run ever does. */
  lemma ServableExactly<T>(cfg: Config<T>, lists: seq<seq<Item<T>>>)
    requires ValidConfig(cfg) && Addressed(cfg, lists)
    ensures Servable(cfg, lists) <==>
            forall ss :: Ran(cfg, lists, ss) && Stuck(cfg, lists, ss[|ss| - 1]) ==> AllDone(lists, ss[|ss| - 1])
    ensures Servable(cfg, lists) <==> exists ss :: Ran(cfg, lists, ss) && AllDone(lists, ss[|ss| - 1])
  {
    hide SafeInv, Start, Run, AllDone, Stuck, Askable, Later, Received;
    if Servable(cfg, lists) {
      forall ss | Ran(cfg, lists, ss) && Stuck(cfg, lists, ss[|ss| - 1]) ensures AllDone(lists, ss[|ss| - 1]) {
        RunInv(cfg, lists, ss, |ss| - 1);
        DeadlockFree(cfg, lists, ss[|ss| - 1]);
      }
    }
    forall ss | Ran(cfg, lists, ss) && AllDone(lists, ss[|ss| - 1]) ensures Servable(cfg, lists) {
      SafeRun(cfg, lists, ss, |ss| - 1);
      ServedServable(cfg, lists, ss[|ss| - 1]);
    }
    var one := OneRun(cfg, lists);
  }

  lemma OneRun<T>(cfg: Config<T>, lists: seq<seq<Item<T>>>) returns (ss: seq<Sys<T>>)
    requires ValidConfig(cfg) && Addressed(cfg, lists)
    ensures Ran(cfg, lists, ss) && Stuck(cfg, lists, ss[|ss| - 1])
  {
    hide SafeInv, Start, Next;
    SafeStart(cfg, lists);
    ss := Finish(cfg, lists, [Start(cfg, lists)]);
  }

  // ------------------------------------------------------------------
  // The second pass replays the first
  // ------------------------------------------------------------------

  lemma ReplayServable<T>(cfg: Config<T>, lists: seq<seq<Item<T>>>)
    requires Replay(cfg, lists)
    ensures Servable(cfg, lists)
  {
  }

  /** Let each consumer ask, on a fresh queue with the same producers, for what
      it received in a complete first pass.  Then in every state of every run no
      Get has thrown and every Get has returned exactly the item it named; and a
      run that cannot go on has served all lists and all producers. */
  lemma SecondPassReplays<T>(cfg: Config<T>, consumers: nat, first: seq<FirstPass.Sys<T>>, second: seq<Sys<T>>)
    requires ValidConfig(cfg) && consumers > 0
    requires |first| > 0 && first[0] == FirstPass.Start(cfg, consumers) && FirstPass.Run(cfg, first)
    requires FirstPassRuns.Stuck(cfg, first[|first| - 1])
    requires |second| > 0 && second[0] == Start(cfg, first[|first| - 1].recvd)
    requires Run(cfg, first[|first| - 1].recvd, second)
    ensures var lists := first[|first| - 1].recvd; var s := second[|second| - 1];
            && |lists| == |s.pos| == |s.got| == |s.cons|
            && (forall c :: 0 <= c < |lists| ==>
                s.cons[c] != Gone && s.pos[c] <= |lists[c]| && s.got[c] == lists[c][..s.pos[c]])
            && (Stuck(cfg, lists, s) ==> AllDone(lists, s))
  {
    hide InvBase, Start, Run, FirstPass.Start, FirstPass.Run, FirstPassRuns.Stuck, Stuck, Replay, AllDone,
        ValidConfig, Askable, Shared;
    var lists := first[|first| - 1].recvd;
    FirstPassRuns.Completes(cfg, consumers, first);
    ReplayServable(cfg, lists);
    RunInv(cfg, lists, second, |second| - 1);
    DeadlockFree(cfg, lists, second[|second| - 1]);
  }

  // ------------------------------------------------------------------
  // Requests that are on no such list
  // ------------------------------------------------------------------

  /** What Get answers to any request, in any state of any run, whatever has been
      asked for before: a new call throws at once exactly when all producers are
      deleted and all slots free; otherwise, and from its wait loop on, it throws
      exactly when the producer is deleted and the slot free, and what it returns
      is what was asked for exactly when the request is for the current batch. */
  lemma GetAnswers<T>(cfg: Config<T>, lists: seq<seq<Item<T>>>, ss: seq<Sys<T>>, n: nat, part: int, id: nat)
    requires ValidConfig(cfg) && Addressed(cfg, lists) && Ran(cfg, lists, ss) && n < |ss| && part in cfg.ids
    ensures WellFormed(cfg, lists, ss[n]) && part in ss[n].q.number
    ensures Answers(ss[n].q, cfg.src, part, id)
  {
    hide SafeInv, Start, Run, Addressed, Answers;
    SafeRun(cfg, lists, ss, n);
    AnswersByInv(cfg, lists, ss[n], part, id);
  }

  ghost predicate Answers<T>(q: Queue<T>, src: seq<seq<Item<T>>>, part: int, id: nat)
    requires Shaped(q) && part in q.number && (q.items == 0 ==> NothingSet(q))
  {
    var i := q.number[part]; var j := id % q.batchSize; var out := ResumeGet(q, part, id).outcome;
    && i < |src|
    && GetSection(q, part, id) ==
        (if (forall x :: 0 <= x < |q.active| ==> !q.active[x]) && NothingSet(q)
         then Section(q, Thrown("Queue is empty"), QUIET) else ResumeGet(q, part, id))
    && (out.Thrown? <==> !q.active[i] && q.slots[i][j].None?)
    && (out.Thrown? ==> out.message == "Asking for non-existsent chunk")
    && (out.Delivered? ==> Base(q) + j < |src[i]| && out.item == src[i][Base(q) + j])
    && (out.Delivered? ==> (out.item.id == id <==> id / q.batchSize == q.batch))
  }

  lemma AnswersByInv<T>(cfg: Config<T>, lists: seq<seq<Item<T>>>, s: Sys<T>, part: int, id: nat)
    requires SafeInv(cfg, lists, s) && part in cfg.ids
    ensures WellFormed(cfg, lists, s) && part in s.q.number && Answers(s.q, cfg.src, part, id)
  {
    hide ReadBalance, Sum, Counts, Shared, ProducersWait, TakenExactly, Sourced;
    NoItems(s.q);
    ActiveCount(s.q.active);
    BatchOf(id, s.q.batchSize, s.q.batch);
    BatchOf(Base(s.q) + id % s.q.batchSize, s.q.batchSize, s.q.batch);
  }

  /** A deleted producer's slot answers for another batch: id 2 gets item 0. */
  lemma SlotMate(q: Queue<string>)
    requires q == NewQueue([7, 8], 2)
    ensures 7 in q.number
    ensures var item := Item(7, 0, "zero");
            var q' := DeleteSection(PushSection(q, item).q, 7).q;
            7 in q'.number && !q'.active[q'.number[7]] && ResumeGet(q', 7, 2).outcome == Delivered(item)
  {
    assert [7, 8][0] == 7;
  }

  /** One item from partition 8, batches of one; the consumer asks partition 7,
      which pushes nothing. */
  const LONELY := Config([7, 8], 1, [[], [Item(8, 0, "only")]])
  const WISH := [[Item(7, 0, "never")]]

  ghost predicate State(s: Sys<string>, active: seq<bool>, slot: Option<Item<string>>, prod: seq<Thread>,
      cons: Thread, k: seq<nat>) {
    && |active| == 2
    && s.q == Queue(1, NumberOf(LONELY.ids), active, if active[0] then 2 else if active[1] then 1 else 0,
                    [[None], [slot]], 0, [0, 0], if slot.Some? then 1 else 0, if slot.Some? then [slot.value] else [])
    && s.prod == prod && s.cons == [cons] && s.k == k && s.pos == [0] && s.got == [[]] && s.taken == {}
  }

  lemma LonelyQueue()
    ensures ValidConfig(LONELY) && Distinct(LONELY.ids) && LONELY.ids == [7, 8] && |LONELY.src| == 2
    ensures var number := NumberOf(LONELY.ids);
            && (forall p :: p in number ==> number[p] < 2)
            && 7 in number && 8 in number && number[7] == 0 && number[8] == 1
  {
    assert LONELY.ids[0] == 7 && LONELY.ids[1] == 8;
  }

  lemma StateShape(s: Sys<string>, active: seq<bool>, slot: Option<Item<string>>, prod: seq<Thread>, cons: Thread,
      k: seq<nat>)
    requires |active| == |prod| == |k| == 2 && k[0] == 0 && k[1] <= 1
    requires State(s, active, slot, prod, cons, k)
    ensures WellFormed(LONELY, WISH, s)
    ensures 7 in s.q.number && 8 in s.q.number && s.q.number[7] == 0 && s.q.number[8] == 1
  {
    hide NumberOf, ValidConfig, Distinct;
    LonelyQueue();
  }

  /** Partition 7 is producer number 0. */
  const WAITING := Asleep(DataCV(0))

  const ONLY := Some(Item(8, 0, "only"))

  lemma AtStart() returns (s: Sys<string>)
    ensures s == Start(LONELY, WISH) && State(s, [true, true], None, [Running, Running], Running, [0, 0])
  {
    s := Start(LONELY, WISH);
    assert s.q.active == [true, true] && s.q.read == [0, 0];
    assert s.q.slots[0] == [None] && s.q.slots[1] == [None];
    assert s.q.slots == [[None], [None]];
    assert s.prod == [Running, Running] && s.cons == [Running] && s.k == [0, 0] && s.pos == [0] && s.got == [[]];
  }

  lemma AfterGet(s: Sys<string>) returns (s': Sys<string>)
    requires State(s, [true, true], None, [Running, Running], Running, [0, 0])
    ensures Next(LONELY, WISH, s, s') && State(s', [true, true], None, [Running, Running], WAITING, [0, 0])
  {
    StateShape(s, [true, true], None, [Running, Running], Running, [0, 0]);
    s' := Apply(LONELY, WISH, s, Get(0));
  }

  lemma AfterDelete(s: Sys<string>) returns (s': Sys<string>)
    requires State(s, [true, true], None, [Running, Running], WAITING, [0, 0])
    ensures Next(LONELY, WISH, s, s') && State(s', [false, true], None, [Gone, Running], WAITING, [0, 0])
  {
    StateShape(s, [true, true], None, [Running, Running], WAITING, [0, 0]);
    assert s.q.active[0 := false] == [false, true] && s.q.read[1] == 0;
    s' := Apply(LONELY, WISH, s, Delete(0));
  }

  lemma AfterPush(s: Sys<string>) returns (s': Sys<string>)
    requires State(s, [false, true], None, [Gone, Running], WAITING, [0, 0])
    ensures Next(LONELY, WISH, s, s') && State(s', [false, true], ONLY, [Gone, Running], WAITING, [0, 1])
  {
    StateShape(s, [false, true], None, [Gone, Running], WAITING, [0, 0]);
    s' := Apply(LONELY, WISH, s, Push(1));
    assert s'.q.slots[1] == [ONLY];
    assert s'.q.slots == [[None], [ONLY]] && s'.q.fifo == [ONLY.value];
  }

  lemma AfterLastDelete(s: Sys<string>) returns (s': Sys<string>)
    requires State(s, [false, true], ONLY, [Gone, Running], WAITING, [0, 1])
    ensures Next(LONELY, WISH, s, s') && State(s', [false, false], ONLY, [Gone, Gone], WAITING, [0, 1])
  {
    StateShape(s, [false, true], ONLY, [Gone, Running], WAITING, [0, 1]);
    s' := Apply(LONELY, WISH, s, Delete(1));
  }

  /** DeleteProducer does not wake a consumer that waits for that producer
      unless the batch ends: a Get for an item that never comes can sleep on
      when all producers have gone and nothing else can happen. */
  lemma GetCanSleepForever() returns (ss: seq<Sys<string>>)
    ensures ValidConfig(LONELY) && |ss| > 0 && ss[0] == Start(LONELY, WISH) && Run(LONELY, WISH, ss)
    ensures var s := ss[|ss| - 1]; Stuck(LONELY, WISH, s) && s.prod == [Gone, Gone] && s.cons == [Asleep(DataCV(0))]
  {
    hide Next, Start;
    var s0 := AtStart();
    var s1 := AfterGet(s0);
    var s2 := AfterDelete(s1);
    var s3 := AfterPush(s2);
    var s4 := AfterLastDelete(s3);
    StateShape(s4, [false, false], ONLY, [Gone, Gone], WAITING, [0, 1]);
    ss := [s0, s1, s2, s3, s4];
  }
}
