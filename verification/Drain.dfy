/** FreeBatchData: the destructor of a multi-pass queue empties each batch queue
    while its producers run on until each of them has deleted itself. */
module Drain {
  import opened Prelude
  import opened BatchCore
  import opened Threads
  import opened BatchThreads
  import FirstPass
  import SecondPass

  // ------------------------------------------------------------------
  // One critical section
  // ------------------------------------------------------------------

  /** The index of the first set slot of a row, or the row's length. */
  function FirstIn<T>(row: seq<Option<Item<T>>>): (j: nat)
    ensures j <= |row|
    ensures forall x :: 0 <= x < j ==> row[x].None?
    ensures j < |row| ==> row[j].Some?
  {
    if row == [] || row[0].Some? then 0 else 1 + FirstIn(row[1..])
  }

  /** The first row with a set slot, or the number of rows. */
  function FirstRow<T>(slots: seq<seq<Option<Item<T>>>>): (i: nat)
    ensures i <= |slots|
    ensures forall x, j :: 0 <= x < i && 0 <= j < |slots[x]| ==> slots[x][j].None?
    ensures i < |slots| ==> FirstIn(slots[i]) < |slots[i]|
  {
    if slots == [] || FirstIn(slots[0]) < |slots[0]| then 0 else 1 + FirstRow(slots[1..])
  }

  lemma {:induction false} FirstInIs<T>(row: seq<Option<Item<T>>>, j: nat)
    requires j < |row| && row[j].Some? && forall x :: 0 <= x < j ==> row[x].None?
    ensures FirstIn(row) == j
  {
    if j > 0 {
      FirstInIs(row[1..], j - 1);
    }
  }

  lemma {:induction false} FirstRowIs<T>(slots: seq<seq<Option<Item<T>>>>, i: nat)
    requires i < |slots| && FirstIn(slots[i]) < |slots[i]|
    requires forall x :: 0 <= x < i ==> FirstIn(slots[x]) == |slots[x]|
    ensures FirstRow(slots) == i
  {
    if i > 0 {
      FirstRowIs(slots[1..], i - 1);
    }
  }

  datatype Freed<T> = Freed(q: Queue<T>, items: seq<Item<T>>, busyAll: bool)

  ghost predicate Coherent<T>(q: Queue<T>) {
    Shaped(q) && q.items == Sum(Counts(q.slots))
  }

  lemma FirstExists<T>(q: Queue<T>)
    requires Coherent(q) && q.items > 0
    ensures FirstRow(q.slots) < |q.slots|
    ensures var i := FirstRow(q.slots); FirstIn(q.slots[i]) < q.batchSize && Coherent(Taken(q, i, FirstIn(q.slots[i])))
  {
    NoItems(q);
    var i := FirstRow(q.slots);
    TotalOne(q.slots, i, FirstIn(q.slots[i]), None);
  }

  lemma EndBatchCoherent<T>(q: Queue<T>)
    requires Coherent(q)
    ensures Coherent(EndBatch(q).0)
  {
  }

  /** All items are read out, always the first set slot next; the batch ends
      each time it is over. */
  ghost function FreeAll<T>(q: Queue<T>): Freed<T>
    requires Coherent(q)
    decreases q.items
  {
    if q.items <= 0 then
      Freed(q, [], false)
    else
      FirstExists(q);
      var i := FirstRow(q.slots);
      var j := FirstIn(q.slots[i]);
      var (q1, signals) := EndBatch(Taken(q, i, j));
      EndBatchCoherent(Taken(q, i, j));
      var rest := FreeAll(q1);
      Freed(rest.q, [q.slots[i][j].value] + rest.items, signals.busyAll || rest.busyAll)
  }

  /** FreeBatchData waits for the producers that are left, if there are any. */
  function FreeOutcome<T>(q: Queue<T>): Outcome<T> {
    if q.activeProducers != 0 then Wait(EmptyCV) else Returned
  }

  lemma FreeNothing<T>(q: Queue<T>)
    requires Coherent(q)
    ensures q.items >= 0 && (q.items == 0 ==> FreeAll(q) == Freed(q, [], false))
  {
  }

  lemma {:induction false} FreeAllKeeps<T>(q: Queue<T>, src: seq<seq<Item<T>>>, k: seq<nat>, taken: set<Item<T>>)
    requires Inv(q, src, k, taken)
    ensures Coherent(q)
    ensures var f := FreeAll(q);
            && Inv(f.q, src, k, taken + Elements(f.items))
            && f.q.items == 0 && f.q.activeProducers == q.activeProducers && f.q.active == q.active
            && f.q.batchSize == q.batchSize && f.q.number == q.number
            && f.q.batch >= q.batch && (!f.busyAll ==> f.q.batch == q.batch)
            && |f.items| == q.items
            && Fresh(f.items, taken)
    decreases q.items
  {
    hide Genuine, Positions, SlotsHold, ReadBalance, TakenExactly, Sourced, FirstRow, FirstIn, Fresh, Counts, Sum,
        SetCount, BatchFinished;
    assert taken + Elements([]) == taken;
    if q.items <= 0 {
      NothingFresh(taken);
    } else {
      FirstExists(q);
      var i := FirstRow(q.slots);
      var j := FirstIn(q.slots[i]);
      var v := q.slots[i][j].value;
      TakeKeeps(q, src, k, taken, i, j);
      EndBatchCoherent(Taken(q, i, j));
      var q1 := EndBatch(Taken(q, i, j)).0;
      FreeAllKeeps(q1, src, k, taken + {v});
      var rest := FreeAll(q1);
      assert taken + Elements([v] + rest.items) == taken + {v} + Elements(rest.items);
      FreshCons(v, rest.items, taken);
    }
  }

  lemma NothingFresh<T>(taken: set<Item<T>>)
    ensures Fresh([], taken)
  {
  }

  ghost function Elements<T>(s: seq<Item<T>>): set<Item<T>> {
    set x | x in s
  }

  /** The items of s are distinct, and none is in taken. */
  ghost predicate Fresh<T>(s: seq<Item<T>>, taken: set<Item<T>>) {
    && (forall a :: 0 <= a < |s| ==> s[a] !in taken)
    && (forall a, b :: 0 <= a < b < |s| ==> s[a] != s[b])
  }

  lemma FreshCons<T>(v: Item<T>, s: seq<Item<T>>, taken: set<Item<T>>)
    requires Fresh(s, taken + {v}) && v !in taken
    ensures Fresh([v] + s, taken)
  {
  }

  lemma FreshAppend<T>(s: seq<Item<T>>, t: seq<Item<T>>, taken: set<Item<T>>)
    requires Fresh(s, taken) && Fresh(t, taken + Elements(s))
    ensures Fresh(s + t, taken) && Elements(s + t) == Elements(s) + Elements(t)
  {
    forall a, b | 0 <= a < b < |s + t| ensures (s + t)[a] != (s + t)[b] {
      if a < |s| <= b {
        assert t[b - |s|] !in taken + Elements(s);
        assert s[a] in Elements(s);
      }
    }
    forall b | 0 <= b < |t| ensures t[b] !in taken {
      assert t[b] !in taken + Elements(s);
    }
  }

  // ------------------------------------------------------------------
  // Draining beside the producers
  // ------------------------------------------------------------------

  /** The draining thread is Gone when FreeBatchData has returned. */
  datatype Sys<T> = Sys(
    q: Queue<T>,
    prod: seq<Thread>,
    k: seq<nat>,
    drainer: Thread,
    freed: seq<Item<T>>)

  datatype Action = Push(i: nat) | Delete(i: nat) | Free | SpuriousProducer(i: nat) | SpuriousDrainer

  ghost predicate WellFormed<T>(cfg: Config<T>, s: Sys<T>) {
    && ValidConfig(cfg)
    && Coherent(s.q)
    && Numbered(s.q.number, cfg.ids)
    && s.q.batchSize == cfg.size
    && |s.prod| == |s.k| == |cfg.src| == |s.q.active|
    && (forall i :: 0 <= i < |s.k| ==> s.k[i] <= |cfg.src[i]|)
  }

  ghost predicate Enabled<T>(cfg: Config<T>, s: Sys<T>, a: Action)
    requires WellFormed(cfg, s)
  {
    match a
    case Push(i) => i < |s.prod| && CanRun(s.prod[i]) && s.k[i] < |cfg.src[i]|
    case Delete(i) => i < |s.prod| && CanRun(s.prod[i]) && s.k[i] == |cfg.src[i]|
    case Free => CanRun(s.drainer)
    case SpuriousProducer(i) => i < |s.prod| && s.prod[i].Asleep?
    case SpuriousDrainer => s.drainer.Asleep?
  }

  predicate Spurious(a: Action) {
    a.SpuriousProducer? || a.SpuriousDrainer?
  }

  function Settle<T>(s: Sys<T>, sec: Section<T>): Sys<T> {
    s.(q := sec.q,
       prod := if sec.signals.busyAll then WakeAll(s.prod, BusyCV) else s.prod,
       drainer := if (sec.signals.emptyAll || sec.signals.emptyOne) && s.drainer == Asleep(EmptyCV) then Woken
                  else s.drainer)
  }

  ghost function Apply<T>(cfg: Config<T>, s: Sys<T>, a: Action): Sys<T>
    requires WellFormed(cfg, s) && Enabled(cfg, s, a)
  {
    match a
    case Push(i) =>
      var sec := PushSection(s.q, cfg.src[i][s.k[i]]);
      if sec.outcome.Wait? then
        s.(prod := s.prod[i := Asleep(sec.outcome.cv)])
      else
        Settle(s.(prod := s.prod[i := Running], k := s.k[i := s.k[i] + 1]), sec)
    case Delete(i) =>
      Settle(s.(prod := s.prod[i := Gone]), DeleteSection(s.q, cfg.ids[i]))
    case Free =>
      var f := FreeAll(s.q);
      s.(q := f.q, freed := s.freed + f.items,
         prod := if f.busyAll then WakeAll(s.prod, BusyCV) else s.prod,
         drainer := match FreeOutcome(f.q) { case Wait(cv) => Asleep(cv) case _ => Gone })
    case SpuriousProducer(i) => s.(prod := s.prod[i := Woken])
    case SpuriousDrainer => s.(drainer := Woken)
  }

  ghost predicate Next<T>(cfg: Config<T>, s: Sys<T>, s': Sys<T>) {
    WellFormed(cfg, s) && exists a :: Enabled(cfg, s, a) && s' == Apply(cfg, s, a)
  }

  ghost predicate Move<T>(cfg: Config<T>, s: Sys<T>, s': Sys<T>) {
    WellFormed(cfg, s) && exists a :: Enabled(cfg, s, a) && !Spurious(a) && s' == Apply(cfg, s, a)
  }

  ghost predicate Stuck<T>(cfg: Config<T>, s: Sys<T>) {
    WellFormed(cfg, s) && forall a :: Enabled(cfg, s, a) ==> Spurious(a)
  }

  ghost predicate Run<T>(cfg: Config<T>, ss: seq<Sys<T>>) {
    forall n :: 0 <= n < |ss| - 1 ==> Next(cfg, ss[n], ss[n + 1])
  }

  /** before is what had left the queue when draining began. */
  ghost predicate DrainInv<T>(cfg: Config<T>, before: set<Item<T>>, s: Sys<T>) {
    && WellFormed(cfg, s)
    && Inv(s.q, cfg.src, s.k, before + Elements(s.freed))
    && Fresh(s.freed, before)
    && ProducersWait(s.prod, s.q.active, s.k, cfg.src, s.q.batchSize, s.q.batch)
    && (s.drainer.Asleep? ==> s.drainer.cv == EmptyCV && s.q.items == 0 && s.q.activeProducers > 0)
    && (s.drainer == Gone ==> s.q.items == 0 && s.q.activeProducers == 0)
  }

  /** Draining can begin in any state of a first pass... */
  lemma FromFirstPass<T>(cfg: Config<T>, s: FirstPass.Sys<T>)
    requires FirstPass.PassInv(cfg, s)
    ensures DrainInv(cfg, FirstPass.Out(s), Sys(s.q, s.prod, s.k, Running, []))
  {
    assert FirstPass.Out(s) + Elements([]) == FirstPass.Out(s);
  }

  /** ... and in any state of a later pass. */
  lemma FromSecondPass<T>(cfg: Config<T>, lists: seq<seq<Item<T>>>, s: SecondPass.Sys<T>)
    requires SecondPass.SafeInv(cfg, lists, s)
    ensures DrainInv(cfg, s.taken, Sys(s.q, s.prod, s.k, Running, []))
  {
    assert s.taken + Elements([]) == s.taken;
  }

  lemma ProducersReady<T>(cfg: Config<T>, before: set<Item<T>>, s: Sys<T>, i: nat)
    requires DrainInv(cfg, before, s) && i < |s.prod| && CanRun(s.prod[i])
    ensures s.q.active[i] && s.q.activeProducers > 0
    ensures cfg.ids[i] in s.q.number && s.q.number[cfg.ids[i]] == i
  {
    ActiveCount(s.q.active);
  }

  lemma PushStep<T>(cfg: Config<T>, before: set<Item<T>>, s: Sys<T>, i: nat)
    requires DrainInv(cfg, before, s) && Enabled(cfg, s, Push(i))
    ensures DrainInv(cfg, before, Apply(cfg, s, Push(i)))
  {
    hide ProducersWait, SetCount, Genuine, SlotsHold, ReadBalance, TakenExactly, Sourced, Positions, Fresh, Elements;
    var taken := before + Elements(s.freed);
    var sec := PushSection(s.q, cfg.src[i][s.k[i]]);
    ProducersReady(cfg, before, s, i);
    ProducersPush(s.prod, s.q.active, s.k, cfg.src, s.q.batchSize, s.q.batch, i);
    if sec.outcome.Returned? {
      PushKeeps(s.q, cfg.src, s.k, taken, i);
    }
  }

  lemma DeleteStep<T>(cfg: Config<T>, before: set<Item<T>>, s: Sys<T>, i: nat)
    requires DrainInv(cfg, before, s) && Enabled(cfg, s, Delete(i))
    ensures DrainInv(cfg, before, Apply(cfg, s, Delete(i)))
  {
    hide ProducersWait, SetCount, Genuine, SlotsHold, ReadBalance, TakenExactly, Sourced, Positions, Fresh, Elements;
    var taken := before + Elements(s.freed);
    ProducersReady(cfg, before, s, i);
    ProducersDelete(s.prod, s.q.active, s.k, cfg.src, s.q.batchSize, s.q.batch, i);
    DeleteKeeps(s.q, cfg.src, s.k, taken, i, cfg.ids[i]);
    var q1 := s.q.(active := s.q.active[i := false], activeProducers := s.q.activeProducers - 1);
    ProducersReset(q1, s.prod[i := Gone], s.k, cfg.src);
  }

  lemma ProducersBatch<T>(prod: seq<Thread>, active: seq<bool>, k: seq<nat>, src: seq<seq<Item<T>>>, size: nat,
      batch: nat, batch': nat)
    requires ProducersWait(prod, active, k, src, size, batch)
    ensures ProducersWait(WakeAll(prod, BusyCV), active, k, src, size, batch')
  {
  }

  lemma FreeStep<T>(cfg: Config<T>, before: set<Item<T>>, s: Sys<T>)
    requires DrainInv(cfg, before, s) && Enabled(cfg, s, Free)
    ensures DrainInv(cfg, before, Apply(cfg, s, Free))
  {
    hide ProducersWait, Genuine, SlotsHold, ReadBalance, TakenExactly, Sourced, Positions, Fresh, Elements, FreeAll;
    var taken := before + Elements(s.freed);
    FreeAllKeeps(s.q, cfg.src, s.k, taken);
    var f := FreeAll(s.q);
    FreshAppend(s.freed, f.items, before);
    assert before + Elements(s.freed + f.items) == taken + Elements(f.items);
    ProducersBatch(s.prod, s.q.active, s.k, cfg.src, s.q.batchSize, s.q.batch, f.q.batch);
  }

  lemma NextKeeps<T>(cfg: Config<T>, before: set<Item<T>>, s: Sys<T>, s': Sys<T>)
    requires DrainInv(cfg, before, s) && Next(cfg, s, s')
    ensures DrainInv(cfg, before, s')
  {
    hide InvBase, Fresh, FreeAll, BatchFinished, PushSection, DeleteSection, Settle, Elements;
    var a :| Enabled(cfg, s, a) && s' == Apply(cfg, s, a);
    match a
    case Push(i) => PushStep(cfg, before, s, i);
    case Delete(i) => DeleteStep(cfg, before, s, i);
    case Free => FreeStep(cfg, before, s);
    case _ =>
  }

  /** While draining is not over, the draining thread or a producer can move. */
  lemma DeadlockFree<T>(cfg: Config<T>, before: set<Item<T>>, s: Sys<T>)
    requires DrainInv(cfg, before, s)
    ensures Stuck(cfg, s) ==> s.drainer == Gone && forall i :: 0 <= i < |s.prod| ==> s.prod[i] == Gone
  {
    hide InvBase, Fresh, Elements;
    var taken := before + Elements(s.freed);
    if CanRun(s.drainer) {
      assert Enabled(cfg, s, Free);
    } else if s.drainer.Asleep? {
      var i := SomeProducerFree(s.q, cfg.src, s.k, taken);
      BatchOf(s.k[i], s.q.batchSize, s.q.batch);
      assert CanRun(s.prod[i]);
      assert Enabled(cfg, s, if s.k[i] < |cfg.src[i]| then Push(i) else Delete(i));
    } else {
      NoneActive(s.q, cfg.src, s.k, taken);
    }
  }

  ghost function Work<T>(cfg: Config<T>, s: Sys<T>): int
    requires WellFormed(cfg, s)
  {
    2 * Sum(Unpushed(cfg.src, s.k)) + s.q.items + s.q.activeProducers + (if s.drainer == Gone then 0 else 1)
  }

  ghost function Measure<T>(cfg: Config<T>, s: Sys<T>): int
    requires WellFormed(cfg, s)
  {
    Work(cfg, s) * (|s.prod| + 2) + Awake(s.prod) + Awake([s.drainer])
  }

  ghost predicate Progress<T>(cfg: Config<T>, s: Sys<T>, s': Sys<T>)
    requires WellFormed(cfg, s) && WellFormed(cfg, s')
  {
    && |s'.prod| == |s.prod|
    && (|| Work(cfg, s') < Work(cfg, s)
        || (Work(cfg, s') == Work(cfg, s)
            && Awake(s'.prod) + Awake([s'.drainer]) < Awake(s.prod) + Awake([s.drainer])))
  }

  lemma ActionProgress<T>(cfg: Config<T>, before: set<Item<T>>, s: Sys<T>, a: Action)
    requires DrainInv(cfg, before, s) && Enabled(cfg, s, a) && !Spurious(a)
    requires DrainInv(cfg, before, Apply(cfg, s, a))
    ensures Progress(cfg, s, Apply(cfg, s, a))
  {
    hide InvBase, ProducersWait, Sum, ValidConfig, Fresh, Elements, FreeAll, Counts;
    match a
    case Push(i) =>
      AwakeOne(s.prod, i, Asleep(BusyCV));
      UnpushedOne(cfg.src, s.k, i);
    case Delete(i) =>
    case Free =>
      FreeProgress(cfg, before, s);
  }

  lemma FreeProgress<T>(cfg: Config<T>, before: set<Item<T>>, s: Sys<T>)
    requires DrainInv(cfg, before, s) && Enabled(cfg, s, Free)
    requires DrainInv(cfg, before, Apply(cfg, s, Free))
    ensures Progress(cfg, s, Apply(cfg, s, Free))
  {
    hide InvBase, ProducersWait, Sum, ValidConfig, Fresh, Elements, Counts, BatchFinished, FirstRow, FirstIn;
    FreeAllKeeps(s.q, cfg.src, s.k, before + Elements(s.freed));
    NonNegative(s.q, cfg.src, s.k, before + Elements(s.freed));
    AwakeOne([s.drainer], 0, Asleep(EmptyCV));
    assert [s.drainer][0 := Asleep(EmptyCV)] == [Asleep(EmptyCV)];
  }

  lemma WorkFloor<T>(cfg: Config<T>, before: set<Item<T>>, s: Sys<T>)
    requires DrainInv(cfg, before, s)
    ensures Work(cfg, s) >= 0
  {
    hide InvBase, ProducersWait, Sum, Fresh, Elements, Counts, ValidConfig;
    NonNegative(s.q, cfg.src, s.k, before + Elements(s.freed));
  }

  lemma MoveDecreases<T>(cfg: Config<T>, before: set<Item<T>>, s: Sys<T>, s': Sys<T>)
    requires DrainInv(cfg, before, s) && Move(cfg, s, s')
    ensures DrainInv(cfg, before, s') && 0 <= Measure(cfg, s') < Measure(cfg, s)
  {
    hide Apply, InvBase, ProducersWait, Sum, Enabled, Work, Awake, ValidConfig, Fresh, Counts;
    var a :| Enabled(cfg, s, a) && !Spurious(a) && s' == Apply(cfg, s, a);
    NextKeeps(cfg, before, s, s');
    ActionProgress(cfg, before, s, a);
    AwakeBound(s.prod);
    AwakeBound([s.drainer]);
    AwakeBound(s'.prod);
    AwakeBound([s'.drainer]);
    WorkFloor(cfg, before, s');
    MeasureDrop(Work(cfg, s), Work(cfg, s'), |s.prod| + 1,
                Awake(s.prod) + Awake([s.drainer]), Awake(s'.prod) + Awake([s'.drainer]));
  }

  lemma {:induction false} RunInv<T>(cfg: Config<T>, before: set<Item<T>>, ss: seq<Sys<T>>, n: nat)
    requires n < |ss| && DrainInv(cfg, before, ss[0]) && Run(cfg, ss)
    ensures DrainInv(cfg, before, ss[n])
  {
    hide DrainInv, Next;
    if n > 0 {
      RunInv(cfg, before, ss, n - 1);
      NextKeeps(cfg, before, ss[n - 1], ss[n]);
    }
  }

  /** A spurious wakeup does no work; it only wakes a thread. */
  lemma OtherwiseOneMore<T>(cfg: Config<T>, before: set<Item<T>>, s: Sys<T>, s': Sys<T>)
    requires DrainInv(cfg, before, s) && Next(cfg, s, s') && !Move(cfg, s, s')
    ensures DrainInv(cfg, before, s') && Measure(cfg, s') == Measure(cfg, s) + 1
  {
    hide DrainInv, Apply, Measure;
    NextKeeps(cfg, before, s, s');
    var a :| Enabled(cfg, s, a) && s' == Apply(cfg, s, a);
    assert Spurious(a);
    SpuriousMeasure(cfg, s, a);
  }

  lemma SpuriousMeasure<T>(cfg: Config<T>, s: Sys<T>, a: Action)
    requires WellFormed(cfg, s) && Enabled(cfg, s, a) && Spurious(a)
    ensures WellFormed(cfg, Apply(cfg, s, a)) && Measure(cfg, Apply(cfg, s, a)) == Measure(cfg, s) + 1
  {
    hide Sum, ValidConfig, Coherent, FreeAll;
    match a {
      case SpuriousProducer(i) => AwakeOne(s.prod, i, Woken);
      case SpuriousDrainer =>
        AwakeOne([s.drainer], 0, Woken);
        assert [s.drainer][0 := Woken] == [Woken];
    }
  }

  /** The steps of a run that are nothing but spurious wakeups. */
  ghost function Idle<T>(cfg: Config<T>, ss: seq<Sys<T>>): nat {
    if |ss| < 2 then 0
    else
      var n := |ss| - 1;
      Idle(cfg, ss[..n]) + (if Move(cfg, ss[n - 1], ss[n]) then 0 else 1)
  }

  /** Draining ends after at most Measure(start) steps, and two more for each
      spurious wakeup. */
  lemma {:induction false} RunTerminates<T>(cfg: Config<T>, before: set<Item<T>>, ss: seq<Sys<T>>)
    requires |ss| > 0 && DrainInv(cfg, before, ss[0]) && Run(cfg, ss)
    ensures DrainInv(cfg, before, ss[|ss| - 1]) && Measure(cfg, ss[|ss| - 1]) >= 0
    ensures |ss| - 1 + Measure(cfg, ss[|ss| - 1]) <= Measure(cfg, ss[0]) + 2 * Idle(cfg, ss)
  {
    hide Measure, Move, Next, InvBase, ProducersWait, Fresh, WellFormed;
    var n := |ss| - 1;
    if n == 0 {
      MeasureFloor(cfg, before, ss[0]);
    } else {
      RunTerminates(cfg, before, ss[..n]);
      assert Next(cfg, ss[n - 1], ss[n]);
      if Move(cfg, ss[n - 1], ss[n]) {
        MoveDecreases(cfg, before, ss[n - 1], ss[n]);
      } else {
        OtherwiseOneMore(cfg, before, ss[n - 1], ss[n]);
      }
    }
  }

  lemma MeasureFloor<T>(cfg: Config<T>, before: set<Item<T>>, s: Sys<T>)
    requires DrainInv(cfg, before, s)
    ensures Measure(cfg, s) >= 0
  {
    hide InvBase, ProducersWait, ValidConfig, Work, Awake, Fresh, Counts;
    AwakeBound(s.prod);
    AwakeBound([s.drainer]);
    WorkFloor(cfg, before, s);
    assert Work(cfg, s) * (|s.prod| + 2) >= 0;
  }

  /** Everything the producers pushed before or during the drain has left the
      queue once: delivered before, or freed. */
  ghost predicate Drained<T>(cfg: Config<T>, before: set<Item<T>>, s: Sys<T>) {
    && s.drainer == Gone && s.q.items == 0 && s.q.activeProducers == 0
    && Fresh(s.freed, before)
    && forall i, m :: 0 <= i < |cfg.src| && 0 <= m < |cfg.src[i]| ==>
        (cfg.src[i][m] in before <==> cfg.src[i][m] !in s.freed)
  }

  /** When draining cannot go on it is over: no producer and no item is left,
      and every item of every producer was either delivered before draining
      began or freed, and then freed exactly once. */
  lemma DrainCompletes<T>(cfg: Config<T>, before: set<Item<T>>, ss: seq<Sys<T>>)
    requires |ss| > 0 && DrainInv(cfg, before, ss[0]) && Run(cfg, ss) && Stuck(cfg, ss[|ss| - 1])
    ensures Drained(cfg, before, ss[|ss| - 1])
  {
    hide InvBase, ProducersWait, Next, Stuck, Fresh, ValidConfig;
    var s := ss[|ss| - 1];
    RunInv(cfg, before, ss, |ss| - 1);
    DeadlockFree(cfg, before, s);
    EverythingFreed(cfg, before, s);
  }

  lemma EverythingFreed<T>(cfg: Config<T>, before: set<Item<T>>, s: Sys<T>)
    requires DrainInv(cfg, before, s) && s.drainer == Gone
    ensures forall i, m :: 0 <= i < |cfg.src| && 0 <= m < |cfg.src[i]| ==>
              (cfg.src[i][m] in before <==> cfg.src[i][m] !in s.freed)
  {
    hide SlotsHold, ReadBalance, ProducersWait, SetCount, ValidConfig;
    var taken := before + Elements(s.freed);
    NoneActive(s.q, cfg.src, s.k, taken);
    NoItems(s.q);
    forall i, m | 0 <= i < |cfg.src| && 0 <= m < |cfg.src[i]|
      ensures cfg.src[i][m] in before <==> cfg.src[i][m] !in s.freed
    {
      assert cfg.src[i][m] in taken;
    }
  }

  // ------------------------------------------------------------------
  // From any state of a pass
  // ------------------------------------------------------------------

  /** Whatever a first pass has done so far, a drain begun there never gets stuck
      before it is over, and then nothing is left and nothing was freed twice or
      freed after being delivered. */
  lemma DrainAfterFirstPass<T>(cfg: Config<T>, consumers: nat, first: seq<FirstPass.Sys<T>>, ss: seq<Sys<T>>)
    requires ValidConfig(cfg) && |first| > 0 && first[0] == FirstPass.Start(cfg, consumers) && FirstPass.Run(cfg, first)
    requires var s := first[|first| - 1]; |ss| > 0 && ss[0] == Sys(s.q, s.prod, s.k, Running, [])
    requires Run(cfg, ss) && Stuck(cfg, ss[|ss| - 1])
    ensures Drained(cfg, FirstPass.Out(first[|first| - 1]), ss[|ss| - 1])
  {
    hide FirstPass.PassInv, FirstPass.Start, FirstPass.Run, DrainInv, Run, Stuck, Drained;
    FirstPass.RunInv(cfg, consumers, first, |first| - 1);
    FromFirstPass(cfg, first[|first| - 1]);
    DrainCompletes(cfg, FirstPass.Out(first[|first| - 1]), ss);
  }

  /** The same from any state of a later pass, complete or abandoned, whatever
      has been asked for. */
  lemma DrainAfterSecondPass<T>(cfg: Config<T>, lists: seq<seq<Item<T>>>, second: seq<SecondPass.Sys<T>>,
      ss: seq<Sys<T>>)
    requires ValidConfig(cfg) && SecondPass.Addressed(cfg, lists)
    requires |second| > 0 && second[0] == SecondPass.Start(cfg, lists) && SecondPass.Run(cfg, lists, second)
    requires var s := second[|second| - 1]; |ss| > 0 && ss[0] == Sys(s.q, s.prod, s.k, Running, [])
    requires Run(cfg, ss) && Stuck(cfg, ss[|ss| - 1])
    ensures Drained(cfg, second[|second| - 1].taken, ss[|ss| - 1])
  {
    hide SecondPass.SafeInv, SecondPass.Start, SecondPass.Run, SecondPass.Addressed, DrainInv, Run, Stuck, Drained;
    SecondPass.SafeRun(cfg, lists, second, |second| - 1);
    FromSecondPass(cfg, lists, second[|second| - 1]);
    DrainCompletes(cfg, second[|second| - 1].taken, ss);
  }
}
